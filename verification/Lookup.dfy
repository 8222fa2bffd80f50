/** The variable lookup of src/tokenizer/tokenizer.c (`get_variable`). */
module Lookup {
  import opened Options
  import opened Tokenizer

  /** The name defined most recently by the tokens `ts`. */
  function CurrentName(ts: seq<Token>): Option<string> {
    if ts == [] then None
    else
      var t := ts[|ts| - 1];
      if t.kind == Variable then Some(t.val) else CurrentName(ts[..|ts| - 1])
  }

  predicate BelongsTo(ts: seq<Token>, i: nat, name: string)
    requires i < |ts|
  {
    ts[i].kind == Value && CurrentName(ts[..i]) == Some(name)
  }

  /** The positions, in order, of the values that belong to `name`. */
  function Positions(ts: seq<Token>, name: string): seq<nat> {
    if ts == [] then []
    else
      var n := |ts| - 1;
      Positions(ts[..n], name) + if BelongsTo(ts, n, name) then [n] else []
  }

  /** The values that belong to `name`, in file order. */
  function ValuesOf(ts: seq<Token>, name: string): seq<Token> {
    if ts == [] then []
    else
      var n := |ts| - 1;
      ValuesOf(ts[..n], name) + if BelongsTo(ts, n, name) then [ts[n]] else []
  }

  /** `v` is the nearest variable before the value at `i`. */
  ghost predicate Owns(ts: seq<Token>, v: nat, i: nat) {
    && v < i < |ts| && ts[v].kind == Variable && ts[i].kind == Value
    && forall j :: v < j < i ==> ts[j].kind != Variable
  }

  lemma {:induction false} CurrentNameIsNearest(ts: seq<Token>, i: nat, name: string)
    requires i <= |ts|
    ensures CurrentName(ts[..i]) == Some(name) <==>
            exists v :: 0 <= v < i && ts[v].kind == Variable && ts[v].val == name &&
                        forall j :: v < j < i ==> ts[j].kind != Variable
  {
    if i > 0 {
      CurrentNameIsNearest(ts, i - 1, name);
      assert ts[..i][..i - 1] == ts[..i - 1] && ts[..i][i - 1] == ts[i - 1];
    }
  }

  lemma {:induction false} PositionsOfPrefix(ts: seq<Token>, name: string)
    ensures forall k :: 0 <= k < |Positions(ts, name)| ==> Positions(ts, name)[k] < |ts|
    ensures forall a, b :: 0 <= a < b < |Positions(ts, name)| ==> Positions(ts, name)[a] < Positions(ts, name)[b]
    ensures forall i: nat | i < |ts| :: i in Positions(ts, name) <==> BelongsTo(ts, i, name)
    ensures |ValuesOf(ts, name)| == |Positions(ts, name)|
    ensures forall k :: 0 <= k < |Positions(ts, name)| ==> ValuesOf(ts, name)[k] == ts[Positions(ts, name)[k]]
  {
    if ts != [] {
      var n := |ts| - 1;
      PositionsOfPrefix(ts[..n], name);
      forall i: nat | i < n ensures BelongsTo(ts, i, name) == BelongsTo(ts[..n], i, name) {
        assert ts[..n][..i] == ts[..i];
      }
    }
  }

  /** The lookup finds precisely the values whose nearest preceding variable is called `name`,
      each once and in file order. */
  lemma LookupIsExact(ts: seq<Token>, name: string)
    ensures
      var ps := Positions(ts, name);
      && |ValuesOf(ts, name)| == |ps|
      && (forall k :: 0 <= k < |ps| ==> ps[k] < |ts| && ValuesOf(ts, name)[k] == ts[ps[k]])
      && (forall a, b :: 0 <= a < b < |ps| ==> ps[a] < ps[b])
      && (forall i: nat :: i in ps <==> exists v: nat :: Owns(ts, v, i) && ts[v].val == name)
  {
    PositionsOfPrefix(ts, name);
    var ps := Positions(ts, name);
    forall i: nat ensures i in ps <==> exists v: nat :: Owns(ts, v, i) && ts[v].val == name {
      if i < |ts| {
        CurrentNameIsNearest(ts, i, name);
        if i in ps {
          var v :| 0 <= v < i && ts[v].kind == Variable && ts[v].val == name &&
                   forall j :: v < j < i ==> ts[j].kind != Variable;
          assert Owns(ts, v, i);
        }
      }
    }
  }

  /** Every value after the first variable is found under one name and under no other. */
  lemma LookupPartitions(ts: seq<Token>, i: nat) returns (name: string)
    requires i < |ts| && ts[i].kind == Value
    requires exists v :: 0 <= v < i && ts[v].kind == Variable
    ensures forall other :: i in Positions(ts, other) <==> other == name
  {
    var v :| 0 <= v < i && ts[v].kind == Variable;
    name := NearestExists(ts[..i], v);
    forall other ensures i in Positions(ts, other) <==> other == name {
      PositionsOfPrefix(ts, other);
    }
  }

  lemma {:induction false} NearestExists(ts: seq<Token>, v: nat) returns (name: string)
    requires v < |ts| && ts[v].kind == Variable
    ensures CurrentName(ts) == Some(name)
  {
    var n := |ts| - 1;
    if ts[n].kind == Variable { name := ts[n].val; } else { name := NearestExists(ts[..n], v); }
  }

  /** A value with no variable before it is found under no name. */
  lemma LookupSkipsOrphans(ts: seq<Token>, i: nat, name: string)
    requires i < |ts| && forall v :: 0 <= v < i ==> ts[v].kind != Variable
    ensures i !in Positions(ts, name)
  {
    LookupIsExact(ts, name);
    assert forall v: nat :: !Owns(ts, v, i);
  }

  /** The C loop over the token array. `None` is its NULL. */
  method GetVariable(tokens: array<Token>, numTokens: nat, name: string) returns (r: Option<seq<Token>>)
    requires numTokens <= tokens.Length
    ensures var found := ValuesOf(tokens[..numTokens], name);
            r == if found == [] then None else Some(found)
  {
    var foundVar := false;
    var values: seq<Token> := [];
    var i := 0;
    while i < numTokens
      invariant 0 <= i <= numTokens
      invariant foundVar == (CurrentName(tokens[..i]) == Some(name))
      invariant values == ValuesOf(tokens[..i], name)
    {
      assert tokens[..i + 1][..i] == tokens[..i];
      if tokens[i].kind == Variable {
        foundVar := name == tokens[i].val;
      } else if foundVar {
        if tokens[i].kind == Value {
          values := values + [tokens[i]];
        }
      }
      i := i + 1;
    }
    r := if values == [] then None else Some(values);
  }
}
