/** The key-sequence recogniser of src/util.c (`try_unlock`, `spawn_lock_thread`). */
module Unlock {
  type KeySym = int

  datatype XEvent = KeyPress(key: KeySym) | Other

  const MAX_KEYS: nat := 8

  /** The position in the bind after one key press. A key that does not fit sends the position
      back to 0 and is not looked at again. */
  function Press(keys: seq<KeySym>, idx: nat, key: KeySym): (r: nat)
    requires idx < |keys|
    ensures r <= |keys|
  {
    if keys[idx] == key then idx + 1 else 0
  }

  /** The position after several key presses; it stays at the end once the bind is complete. */
  function Type(keys: seq<KeySym>, idx: nat, pressed: seq<KeySym>): (r: nat)
    requires idx <= |keys|
    ensures r <= |keys|
  {
    if pressed == [] then idx
    else
      var before := Type(keys, idx, pressed[..|pressed| - 1]);
      if before == |keys| then before else Press(keys, before, pressed[|pressed| - 1])
  }

  function Keys(events: seq<XEvent>): seq<KeySym> {
    if events == [] then []
    else
      var last := events[|events| - 1];
      Keys(events[..|events| - 1]) + if last.KeyPress? then [last.key] else []
  }

  predicate FirstKeyUnique(keys: seq<KeySym>) { keys != [] && keys[0] !in keys[1..] }

  function Times(keys: seq<KeySym>, n: nat): seq<KeySym> {
    if n == 0 then [] else Times(keys, n - 1) + keys
  }

  // ---------------------------------------------------------------- the C code

  class KeyBind {
    const keys: seq<KeySym>
    var idx: nat

    constructor (keys: seq<KeySym>)
      requires 1 <= |keys| <= MAX_KEYS
      ensures this.keys == keys && idx == 0
    {
      this.keys := keys;
      idx := 0;
    }
  }

  class DisplayLock {
    var locked: bool
    constructor () ensures locked { locked := true; }
  }

  method TryUnlock(lock: DisplayLock, bind: KeyBind, ev: XEvent) returns (r: int)
    requires lock.locked && bind.idx < |bind.keys|
    modifies lock, bind
    ensures bind.idx == if ev.KeyPress? then Press(bind.keys, old(bind.idx), ev.key) else old(bind.idx)
    ensures lock.locked <==> bind.idx < |bind.keys|
    ensures r == if lock.locked then 0 else 1
  {
    match ev {
      case KeyPress(key) =>
        if bind.keys[bind.idx] == key {
          bind.idx := bind.idx + 1;
        } else {
          bind.idx := 0;
        }
        if bind.idx == |bind.keys| {
          lock.locked := false;
        }
      case Other =>
    }
    r := if !lock.locked then 1 else 0;
  }

  lemma EventStep(keys: seq<KeySym>, events: seq<XEvent>, n: nat)
    requires n < |events| && Type(keys, 0, Keys(events[..n])) < |keys|
    ensures
      var before, after := Type(keys, 0, Keys(events[..n])), Type(keys, 0, Keys(events[..n + 1]));
      after == if events[n].KeyPress? then Press(keys, before, events[n].key) else before
  {
    assert events[..n + 1][..n] == events[..n];
    if events[n].KeyPress? {
      var pressed := Keys(events[..n + 1]);
      assert pressed == Keys(events[..n]) + [events[n].key];
      assert pressed[..|pressed| - 1] == Keys(events[..n]);
    } else {
      assert Keys(events[..n + 1]) == Keys(events[..n]) + [] == Keys(events[..n]);
    }
  }

  /** The lock thread, fed with `events`; it looks at the first `used` of them. */
  method RunLock(keys: seq<KeySym>, events: seq<XEvent>) returns (unlocked: bool, used: nat)
    requires 1 <= |keys| <= MAX_KEYS
    ensures used <= |events| && (!unlocked ==> used == |events|)
    ensures unlocked <==> Type(keys, 0, Keys(events[..used])) == |keys|
    ensures forall n: nat | n < used :: Type(keys, 0, Keys(events[..n])) < |keys|
  {
    var lock := new DisplayLock();
    var bind := new KeyBind(keys);
    used := 0;
    while lock.locked && used < |events|
      invariant used <= |events| && bind.keys == keys && fresh(lock) && fresh(bind)
      invariant bind.idx == Type(keys, 0, Keys(events[..used])) <= |keys|
      invariant lock.locked <==> bind.idx < |keys|
      invariant forall n: nat | n < used :: Type(keys, 0, Keys(events[..n])) < |keys|
      decreases |events| - used
    {
      EventStep(keys, events, used);
      var r := TryUnlock(lock, bind, events[used]);
      used := used + 1;
    }
    unlocked := !lock.locked;
  }

  // ---------------------------------------------------------------- soundness

  /** The last `idx` key presses are always the first `idx` keys of the bind. */
  lemma {:induction false} TypedSuffix(keys: seq<KeySym>, pressed: seq<KeySym>)
    requires forall n: nat | n < |pressed| :: Type(keys, 0, pressed[..n]) < |keys|
    ensures
      var idx := Type(keys, 0, pressed);
      idx <= |pressed| && pressed[|pressed| - idx..] == keys[..idx]
  {
    if pressed != [] {
      var n := |pressed| - 1;
      forall m: nat | m < n ensures Type(keys, 0, pressed[..n][..m]) < |keys| {
        assert pressed[..n][..m] == pressed[..m];
      }
      TypedSuffix(keys, pressed[..n]);
      var before := Type(keys, 0, pressed[..n]);
      if keys[before] == pressed[n] {
        assert pressed[n - before..] == pressed[..n][n - before..] + [pressed[n]];
      }
    }
  }

  /** The lock opens only when the last presses are the whole bind. */
  lemma {:induction false} OpensOnlyForBind(keys: seq<KeySym>, pressed: seq<KeySym>)
    requires forall n: nat | n < |pressed| :: Type(keys, 0, pressed[..n]) < |keys|
    requires Type(keys, 0, pressed) == |keys|
    ensures |keys| <= |pressed| && pressed[|pressed| - |keys|..] == keys
  {
    TypedSuffix(keys, pressed);
    assert keys[..|keys|] == keys;
  }

  // ---------------------------------------------------------------- recovery

  lemma {:induction false} TypeConcat(keys: seq<KeySym>, idx: nat, a: seq<KeySym>, b: seq<KeySym>)
    requires idx <= |keys|
    ensures Type(keys, idx, a + b) == Type(keys, Type(keys, idx, a), b)
  {
    if b == [] {
      assert a + b == a;
    } else {
      assert (a + b)[..|a + b| - 1] == a + b[..|b| - 1];
      TypeConcat(keys, idx, a, b[..|b| - 1]);
    }
  }

  lemma {:induction false} PrefixFromStart(keys: seq<KeySym>, n: nat)
    requires n <= |keys|
    ensures Type(keys, 0, keys[..n]) == n
  {
    if n > 0 {
      PrefixFromStart(keys, n - 1);
      assert keys[..n][..n - 1] == keys[..n - 1];
    }
  }

  /** If the first key does not recur, pressing the bind from its start at a middle position only
      resets. */
  lemma {:induction false} PrefixFromMiddle(keys: seq<KeySym>, idx: nat, n: nat)
    requires FirstKeyUnique(keys) && 0 < idx < |keys| && 0 < n <= |keys|
    ensures Type(keys, idx, keys[..n]) == 0
  {
    assert keys[..n][..n - 1] == keys[..n - 1];
    if n == 1 {
      assert keys[..1][..0] == [];
      assert keys[idx] == keys[1..][idx - 1];
      assert keys[..1][0] == keys[0] != keys[idx];
    } else {
      PrefixFromMiddle(keys, idx, n - 1);
      assert keys[n - 1] == keys[1..][n - 2];
    }
  }

  /** Pressing the first `n` keys at position `idx`: straight on, or open, or thrown back. */
  lemma {:induction false} PressFrom(keys: seq<KeySym>, idx: nat, n: nat)
    requires idx < |keys| && n <= |keys|
    ensures
      var t, left := Type(keys, idx, keys[..n]), |keys| - idx;
      if n <= left && keys[..n] == keys[idx..idx + n] then t == idx + n
      else if keys[..left] == keys[idx..] then t == |keys|
      else t < n
  {
    if n > 0 {
      PressFrom(keys, idx, n - 1);
      assert keys[..n][..n - 1] == keys[..n - 1];
      if idx + n <= |keys| { FitsOnlyIf(keys, idx, n); } else { FitsOnlyIf(keys, idx, |keys| - idx); }
    }
  }

  lemma FitsOnlyIf(keys: seq<KeySym>, idx: nat, n: nat)
    requires 0 < n && idx + n <= |keys|
    ensures keys[..n] == keys[idx..idx + n] <==>
            keys[..n - 1] == keys[idx..idx + (n - 1)] && keys[n - 1] == keys[idx + n - 1]
    ensures keys[..|keys| - idx] == keys[idx..] ==> keys[..n] == keys[idx..idx + n]
    ensures idx + n == |keys| ==> keys[idx..idx + n] == keys[idx..]
  {
    assert keys[..n] == keys[..n - 1] + [keys[n - 1]];
    assert keys[idx..idx + n] == keys[idx..idx + n - 1] + [keys[idx + n - 1]];
    assert keys[..|keys| - idx][..n] == keys[..n] && keys[idx..][..n] == keys[idx..idx + n];
  }

  /** What one and two full presses do, for every bind and position: a full press opens exactly if
      the keys still missing are those that the bind begins with, and a second one exactly if that
      holds of the position where the first has left the recogniser. */
  lemma FullPressOpens(keys: seq<KeySym>, idx: nat)
    requires idx < |keys|
    ensures Type(keys, idx, keys) == |keys| <==> keys[idx..] <= keys
    ensures Type(keys, idx, keys + keys) == |keys| <==> keys[idx..] <= keys || keys[Type(keys, idx, keys)..] <= keys
  {
    assert keys[..|keys|] == keys && |keys| - idx <= |keys|;
    PressFrom(keys, idx, |keys|);
    TypeConcat(keys, idx, keys, keys);
    var p := Type(keys, idx, keys);
    if p < |keys| { PressFrom(keys, p, |keys|); } else { OpenStaysOpen(keys, keys); }
  }

  /** If the first key does not recur, one full press unlocks exactly from the start position, and
      two unlock from every position: the issue that the bind requires two presses. */
  lemma TwoPressesUnlock(keys: seq<KeySym>, idx: nat)
    requires FirstKeyUnique(keys) && idx < |keys|
    ensures Type(keys, idx, keys) == |keys| <==> idx == 0
    ensures Type(keys, idx, keys) == |keys| || Type(keys, idx, keys) == 0
    ensures Type(keys, idx, keys + keys) == |keys|
  {
    assert keys[..|keys|] == keys;
    PrefixFromStart(keys, |keys|);
    TypeConcat(keys, idx, keys, keys);
    if idx > 0 { PrefixFromMiddle(keys, idx, |keys|); } else { OpenStaysOpen(keys, keys); }
  }

  lemma {:induction false} OpenStaysOpen(keys: seq<KeySym>, pressed: seq<KeySym>)
    ensures Type(keys, |keys|, pressed) == |keys|
  {
    if pressed != [] { OpenStaysOpen(keys, pressed[..|pressed| - 1]); }
  }

  lemma {:induction false} AllAlike(keys: seq<KeySym>, n: nat)
    requires 0 < |keys| && keys[1..] <= keys && n < |keys|
    ensures keys[n] == keys[0]
  {
    if n > 0 {
      AllAlike(keys, n - 1);
      assert keys[1..][n - 1] == keys[n - 1];
    }
  }

  /** The recogniser is no substring search: after a stray first key the whole bind opens the lock
      only if it is one key repeated. If the first key does not recur, the position ends at 0. */
  lemma StrayFirstKeyLocksOut(keys: seq<KeySym>)
    requires |keys| >= 2
    ensures Type(keys, 0, [keys[0]] + keys) == |keys| <==> forall n :: 0 <= n < |keys| ==> keys[n] == keys[0]
    ensures FirstKeyUnique(keys) ==> Type(keys, 0, [keys[0]] + keys) == 0
  {
    TypeConcat(keys, 0, [keys[0]], keys);
    assert [keys[0]] == keys[..1];
    PrefixFromStart(keys, 1);
    FullPressOpens(keys, 1);
    if keys[1..] <= keys {
      forall n | 0 <= n < |keys| ensures keys[n] == keys[0] { AllAlike(keys, n); }
    }
    if FirstKeyUnique(keys) {
      PrefixFromMiddle(keys, 1, |keys|);
      assert keys[..|keys|] == keys;
    }
  }

  /** Repeated keys can lock out for ever: from position 1 of the bind a, b, a, no number of full
      presses unlocks, and each leads back to position 1. */
  lemma {:induction false} RepeatedKeyNeverUnlocks(a: KeySym, b: KeySym, n: nat, m: nat)
    requires a != b && m <= 3
    ensures Type([a, b, a], 1, Times([a, b, a], n) + [a, b, a][..m]) == if m == 0 || m == 3 then 1 else 0
  {
    var keys := [a, b, a];
    if m == 0 {
      if n > 0 {
        assert Times(keys, n) + keys[..0] == Times(keys, n - 1) + keys[..3];
        RepeatedKeyNeverUnlocks(a, b, n - 1, 3);
      } else {
        assert Times(keys, 0) + keys[..0] == [];
      }
    } else {
      var all := Times(keys, n) + keys[..m];
      assert all[..|all| - 1] == Times(keys, n) + keys[..m - 1];
      RepeatedKeyNeverUnlocks(a, b, n, m - 1);
    }
  }
}
