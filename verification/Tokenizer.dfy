/** The configuration scanner of src/tokenizer/tokenizer.c.
    `LoadTokens` keeps the index arithmetic of the C loop (`idx`, `tok_start`, `last`);
    its meaning is a one-character-at-a-time automaton that carries the pending text itself. */
module Tokenizer {
  import opened Options

  const MAX_LINE_WIDTH: nat := 1024
  const MAX_TOKENS: nat := 10000
  const MAX_TOK_LEN: nat := 256

  datatype Kind = Nothing | Variable | OpenBracket | CloseBracket | Value

  datatype Token = Token(index: int, len: int, kind: Kind, val: string)

  /** What a zero-filled token slot holds. */
  const ZERO_TOKEN: Token := Token(0, 0, Nothing, "")

  // ---------------------------------------------------------------- lines

  /** How many characters one `fgets` call takes from a non-empty text. */
  function ChunkLen(text: string, max: nat): (n: nat)
    ensures n <= |text| && n <= max
    ensures text != "" && max > 0 ==> n > 0
  {
    if text == "" || max == 0 then 0
    else if text[0] == '\n' then 1
    else 1 + ChunkLen(text[1..], max - 1)
  }

  /** A read ends with the first newline, unless the text or the buffer ends before it. */
  lemma {:induction false} ChunkIsLine(text: string, max: nat)
    ensures
      var n := ChunkLen(text, max);
      && (forall j :: 0 <= j < n - 1 ==> text[j] != '\n')
      && (n < |text| && n < max ==> text[n - 1] == '\n')
  {
    if text != "" && max > 0 && text[0] != '\n' {
      ChunkIsLine(text[1..], max - 1);
      var n := ChunkLen(text, max);
      assert forall j :: 0 < j < n ==> text[j] == text[1..][j - 1];
    }
  }

  function LineLen(text: string): (n: nat)
    requires text != ""
    ensures 0 < n <= |text| && n < MAX_LINE_WIDTH
  {
    ChunkLen(text, MAX_LINE_WIDTH - 1)
  }

  /** The successive buffers that `fgets` fills: a line each, over-long lines in pieces. */
  function Chunks(text: string): seq<string>
  {
    if text == "" then []
    else
      var n := LineLen(text);
      [text[..n]] + Chunks(text[n..])
  }

  /** The part of a buffer that C sees as a string. */
  function CString(s: string): (r: string)
    ensures |r| <= |s| && r == s[..|r|]
    ensures forall j :: 0 <= j < |r| ==> r[j] != '\0'
    ensures |r| < |s| ==> s[|r|] == '\0'
  {
    if s == "" || s[0] == '\0' then ""
    else
      var r := CString(s[1..]);
      assert s[..1 + |r|] == [s[0]] + s[1..][..|r|];
      [s[0]] + r
  }

  // ---------------------------------------------------------------- the automaton

  /** The scanner part-way through a line: `pos` characters read, `pending` the text of the
      unfinished token, `eat` whether a space met now is skipped, `out` the tokens so far. */
  datatype Lexer = Lexer(pos: nat, pending: string, eat: bool, out: seq<Token>)

  const LINE_START: Lexer := Lexer(0, "", true, [])

  /** Skipping a space moves both ends of the unfinished token by one. */
  function Shift(pending: string): string {
    if pending == "" then "" else pending[1..] + " "
  }

  function Word(st: Lexer, kind: Kind): Token {
    Token(st.pos - |st.pending|, |st.pending|, kind, st.pending)
  }

  function Feed1(st: Lexer, c: char): Lexer {
    if c == ' ' && st.eat then st.(pos := st.pos + 1, pending := Shift(st.pending))
    else if c == '=' then Lexer(st.pos + 1, "", true, st.out + [Word(st, Variable)])
    else if c == '{' then Lexer(st.pos + 1, "", true, st.out + [Token(st.pos, 1, OpenBracket, "{")])
    else if c == '}' then Lexer(st.pos + 1, "", false, st.out + [Token(st.pos, 1, CloseBracket, "}")])
    else if IsSeparator(c) && st.pending != "" then
      Lexer(st.pos + 1, "", c == ',', st.out + [Word(st, Value)])
    else
      Lexer(st.pos + 1, st.pending + [c], c == ',' || |st.pending| == st.pos, st.out)
  }

  predicate IsSeparator(c: char) { c == '\n' || c == ';' || c == ',' }

  /** The automaton after the first `i` characters of `s`. */
  function FeedTo(st: Lexer, s: string, i: nat): Lexer
    requires i <= |s|
  {
    if i == 0 then st else Feed1(FeedTo(st, s, i - 1), s[i - 1])
  }

  function Feed(st: Lexer, s: string): Lexer { FeedTo(st, s, |s|) }

  /** The automaton after `i` characters of a line. */
  function At(line: string, i: nat): Lexer
    requires i <= |line|
  {
    FeedTo(LINE_START, line, i)
  }

  function LineTokens(line: string): seq<Token> { Feed(LINE_START, line).out }

  function LinesTokens(lines: seq<string>): seq<Token> {
    if lines == [] then [] else LineTokens(CString(lines[0])) + LinesTokens(lines[1..])
  }

  /** The whole token array: a TOK_NONE entry, then the tokens of every line. */
  function TextTokens(text: string): seq<Token> {
    [ZERO_TOKEN] + LinesTokens(Chunks(text))
  }

  lemma {:induction false} FeedToConcat(st: Lexer, a: string, b: string, j: nat)
    requires j <= |b|
    ensures FeedTo(st, a + b, |a| + j) == FeedTo(Feed(st, a), b, j)
  {
    if j == 0 { FeedToPrefix(st, a, b, |a|); } else { FeedToConcat(st, a, b, j - 1); }
  }

  lemma {:induction false} FeedToPrefix(st: Lexer, a: string, b: string, i: nat)
    requires i <= |a|
    ensures FeedTo(st, a + b, i) == FeedTo(st, a, i)
  {
    if i > 0 { FeedToPrefix(st, a, b, i - 1); }
  }

  /** Feeding is a homomorphism. */
  lemma FeedConcat(st: Lexer, a: string, b: string)
    ensures Feed(st, a + b) == Feed(Feed(st, a), b)
  {
    FeedToConcat(st, a, b, |b|);
  }

  /** Emitted tokens are never taken back. */
  lemma {:induction false} OutGrows(line: string, i: nat, j: nat)
    requires i <= j <= |line|
    ensures At(line, i).out <= At(line, j).out
    decreases j
  {
    if i < j { OutGrows(line, i, j - 1); }
  }

  // ---------------------------------------------------------------- what the fixed buffers demand

  /** The string does not end in a skipped space, so the skip loop stops before the terminator. */
  predicate StaysInBuffer(line: string) {
    line != "" && line[|line| - 1] == ' ' ==> !At(line, |line| - 1).eat
  }

  predicate AllSpaces(line: string, idx: nat) {
    forall j :: idx <= j < |line| ==> line[j] == ' '
  }

  lemma {:induction false} SkippingOverruns(line: string, idx: nat)
    requires idx < |line| && At(line, idx).eat && AllSpaces(line, idx)
    ensures !StaysInBuffer(line)
    decreases |line| - idx
  {
    if idx + 1 < |line| {
      assert At(line, idx + 1) == Feed1(At(line, idx), line[idx]);
      SkippingOverruns(line, idx + 1);
    }
  }

  /** `StaysInBuffer` fails just when a run of skipped spaces reaches the terminator. */
  lemma OverrunExactly(line: string)
    ensures StaysInBuffer(line) <==>
            forall idx: nat | idx < |line| && At(line, idx).eat :: !AllSpaces(line, idx)
  {
    forall idx: nat | idx < |line| && At(line, idx).eat && AllSpaces(line, idx) ensures !StaysInBuffer(line) {
      SkippingOverruns(line, idx);
    }
    if !StaysInBuffer(line) { assert AllSpaces(line, |line| - 1); }
  }

  /** The tokens fit the token array and their texts fit its entries. */
  predicate Fits(text: string) {
    |TextTokens(text)| <= MAX_TOKENS && forall t :: t in TextTokens(text) ==> t.len < MAX_TOK_LEN
  }

  predicate AllStayInBuffer(lines: seq<string>) {
    forall line :: line in lines ==> StaysInBuffer(CString(line))
  }

  predicate Loadable(text: string) { Fits(text) && AllStayInBuffer(Chunks(text)) }

  // ---------------------------------------------------------------- the C loop

  /** The buffer reads as the C string `s`. */
  ghost predicate Reads(line: array<char>, s: string)
    reads line
  {
    && |s| < line.Length && line[|s|] == '\0'
    && forall j :: 0 <= j < |s| ==> line[j] == s[j] != '\0'
  }

  method Fgets(line: array<char>, text: string) returns (n: nat)
    requires line.Length == MAX_LINE_WIDTH && text != ""
    modifies line
    ensures n == LineLen(text) && Reads(line, CString(text[..n]))
  {
    n := 0;
    var newline := false;
    while n < MAX_LINE_WIDTH - 1 && n < |text| && !newline
      invariant 0 <= n <= MAX_LINE_WIDTH - 1 && n <= |text|
      invariant forall j :: 0 <= j < n ==> line[j] == text[j]
      invariant ChunkLen(text, MAX_LINE_WIDTH - 1) ==
                n + if newline then 0 else ChunkLen(text[n..], MAX_LINE_WIDTH - 1 - n)
      decreases MAX_LINE_WIDTH - n
    {
      line[n] := text[n];
      newline := text[n] == '\n';
      assert text[n..][1..] == text[n + 1..];
      n := n + 1;
    }
    line[n] := '\0';
  }

  /** Whether the loop may skip spaces before looking at the current character. */
  predicate Skips(last: char, tokStart: int) {
    last == '{' || last == '=' || last == ',' || tokStart == 0
  }

  /** The unfinished token of the automaton is the slice between the two C indices. */
  ghost predicate Scanning(st: Lexer, s: string, idx: nat, tokStart: nat) {
    tokStart <= idx <= |s| && st.pos == idx && st.pending == s[tokStart..idx]
  }

  lemma {:induction false} SkipRun(s: string, start: nat, idx: nat, tokStart: nat)
    requires start <= idx <= |s| && At(s, start).eat && forall j :: start <= j < idx ==> s[j] == ' '
    requires Scanning(At(s, start), s, start, tokStart)
    ensures Scanning(At(s, idx), s, idx, tokStart + (idx - start)) && At(s, idx).eat
    ensures At(s, idx).out == At(s, start).out
  {
    if start < idx {
      SkipRun(s, start, idx - 1, tokStart);
      var last := tokStart + (idx - 1 - start);
      assert At(s, idx) == Feed1(At(s, idx - 1), ' ');
      ShiftSlice(s, last, idx - 1);
    }
  }

  lemma ShiftSlice(s: string, from: nat, to: nat)
    requires from <= to < |s| && s[to] == ' '
    ensures Shift(s[from..to]) == s[from + 1..to + 1]
  {}

  /** Skipping spaces where that is allowed, entered at a character that is not the terminator. It
      stops at the terminator if there is nothing but spaces before it. */
  method SkipSpaces(line: array<char>, ghost s: string, start: nat, tokStart0: nat, last: char)
    returns (idx: nat, tokStart: nat)
    requires Reads(line, s) && start < |s|
    requires Scanning(At(s, start), s, start, tokStart0) && At(s, start).eat == Skips(last, tokStart0)
    ensures start <= idx <= |s| && tokStart - tokStart0 == idx - start
    ensures idx > start ==> At(s, start).eat
    ensures Scanning(At(s, idx), s, idx, tokStart) && At(s, idx).eat == At(s, start).eat
    ensures At(s, idx).out == At(s, start).out
    ensures if idx == |s| then !StaysInBuffer(s) else s[idx] == ' ' ==> !At(s, idx).eat
  {
    idx, tokStart := start, tokStart0;
    if Skips(last, tokStart) {
      var cur := line[idx];
      while cur == ' '
        invariant start <= idx <= |s| && cur == line[idx] && tokStart - tokStart0 == idx - start
        invariant forall j :: start <= j < idx ==> s[j] == ' '
        decreases |s| - idx
      {
        idx := idx + 1;
        cur := line[idx];
        tokStart := tokStart + 1;
      }
      SkipRun(s, start, idx, tokStart0);
      if idx == |s| { SkippingOverruns(s, start); }
    }
  }

  /** A token that the automaton emits at `c` still fits behind `before` others. */
  ghost predicate NextFits(st: Lexer, c: char, before: nat) {
    var out' := Feed1(st, c).out;
    before + |out'| <= MAX_TOKENS && (|out'| > |st.out| ==> out'[|st.out|].len < MAX_TOK_LEN)
  }

  lemma EmittedFits(s: string, idx: nat, before: nat)
    requires idx < |s| && forall t :: t in LineTokens(s) ==> t.len < MAX_TOK_LEN
    requires before + |LineTokens(s)| <= MAX_TOKENS
    ensures At(s, idx + 1) == Feed1(At(s, idx), s[idx]) && NextFits(At(s, idx), s[idx], before)
  {
    OutGrows(s, idx + 1, |s|);
    var out, out' := At(s, idx).out, At(s, idx + 1).out;
    if |out'| > |out| { assert out'[|out|] == LineTokens(s)[|out|]; }
  }

  /** Fill the next slot of the token array. */
  method Put(tokens: array<Token>, count: nat, t: Token)
    requires count < tokens.Length && t.len < MAX_TOK_LEN
    modifies tokens
    ensures tokens[..count + 1] == old(tokens[..count]) + [t]
  {
    tokens[count] := t;
  }

  /** What the character under `idx` does to the token array and to `tok_start`. */
  method Classify(line: array<char>, ghost s: string, ghost st: Lexer, idx: nat, start: nat,
                  tokens: array<Token>, count: nat, ghost before: seq<Token>)
    returns (tokStart: nat, tokIdx: nat)
    requires Reads(line, s) && start <= idx < |s| && line != tokens as object
    requires tokens.Length == MAX_TOKENS && Scanning(st, s, idx, start) && NextFits(st, s[idx], |before|)
    requires s[idx] == ' ' ==> !st.eat
    requires count <= MAX_TOKENS && tokens[..count] == before + st.out
    modifies tokens
    ensures tokIdx <= MAX_TOKENS && tokens[..tokIdx] == before + Feed1(st, s[idx]).out
    ensures Scanning(Feed1(st, s[idx]), s, idx + 1, tokStart)
    ensures Feed1(st, s[idx]).eat == Skips(s[idx], tokStart)
  {
    assert line[start..idx] == s[start..idx] == st.pending && line[idx..idx + 1] == [s[idx]];
    tokStart, tokIdx := start, count;
    var cur := line[idx];
    if cur == '=' {
      Put(tokens, tokIdx, Token(tokStart, idx - tokStart, Variable, line[tokStart..idx]));
      tokStart := idx + 1;
      tokIdx := tokIdx + 1;
    } else if cur == '{' {
      Put(tokens, tokIdx, Token(idx, 1, OpenBracket, line[idx..idx + 1]));
      tokStart := idx + 1;
      tokIdx := tokIdx + 1;
    } else if cur == '}' {
      Put(tokens, tokIdx, Token(idx, 1, CloseBracket, line[idx..idx + 1]));
      tokStart := idx + 1;
      tokIdx := tokIdx + 1;
    } else if cur == '\n' || cur == ';' || cur == ',' {
      if idx - tokStart > 0 {
        Put(tokens, tokIdx, Token(tokStart, idx - tokStart, Value, line[tokStart..idx]));
        tokStart := idx + 1;
        tokIdx := tokIdx + 1;
      }
    }
  }

  /** The scanner before position `idx` of a line: `done` are the tokens so far, after the tokens
      `before` of earlier lines. */
  ghost predicate Between(s: string, idx: nat, tokStart: nat, last: char, before: seq<Token>, done: seq<Token>)
    requires idx <= |s|
  {
    && Scanning(At(s, idx), s, idx, tokStart) && At(s, idx).eat == Skips(last, tokStart)
    && (idx > 0 && s[idx - 1] == ' ' ==> !At(s, idx - 1).eat)
    && done == before + At(s, idx).out
  }

  /** One turn of the loop over a line. `inBuffer` is false if the skip loop reached the terminator:
      the C loop then steps over it. */
  method Turn(line: array<char>, ghost s: string, idx0: nat, tokStart0: nat, last0: char,
              tokens: array<Token>, count: nat, ghost before: seq<Token>)
    returns (idx: nat, tokStart: nat, last: char, tokIdx: nat, inBuffer: bool)
    requires Reads(line, s) && line != tokens as object && tokens.Length == MAX_TOKENS
    requires |before| + |LineTokens(s)| <= MAX_TOKENS && forall t :: t in LineTokens(s) ==> t.len < MAX_TOK_LEN
    requires idx0 < |s| && count <= MAX_TOKENS && Between(s, idx0, tokStart0, last0, before, tokens[..count])
    modifies tokens
    ensures tokIdx <= MAX_TOKENS
    ensures inBuffer ==> idx0 < idx <= |s| && Between(s, idx, tokStart, last, before, tokens[..tokIdx])
    ensures !inBuffer ==> !StaysInBuffer(s) && tokens[..tokIdx] == before + LineTokens(s)
  {
    idx, tokStart := SkipSpaces(line, s, idx0, tokStart0, last0);
    var cur := line[idx];
    if cur == '\0' { return idx, tokStart, last0, count, false; }
    EmittedFits(s, idx, |before|);
    tokStart, tokIdx := Classify(line, s, At(s, idx), idx, tokStart, tokens, count, before);
    idx, last, inBuffer := idx + 1, cur, true;
  }

  /** One line of the scanner. Whatever `last` was left by the line before, it has no effect. */
  method ScanLine(line: array<char>, ghost s: string, tokens: array<Token>, count: nat, last0: char)
    returns (tokIdx: nat, last: char, inBuffer: bool)
    requires Reads(line, s) && line != tokens as object && tokens.Length == MAX_TOKENS
    requires count + |LineTokens(s)| <= MAX_TOKENS
    requires forall t :: t in LineTokens(s) ==> t.len < MAX_TOK_LEN
    modifies tokens
    ensures tokIdx <= MAX_TOKENS && tokens[..tokIdx] == old(tokens[..count]) + LineTokens(s)
    ensures inBuffer <==> StaysInBuffer(s)
  {
    ghost var before := tokens[..count];
    tokIdx, last, inBuffer := count, last0, true;
    var idx: nat := 0;
    var tokStart: nat := 0;
    while line[idx] != '\0'
      invariant idx <= |s| && tokIdx <= MAX_TOKENS
      invariant Between(s, idx, tokStart, last, before, tokens[..tokIdx])
      decreases |s| - idx
    {
      idx, tokStart, last, tokIdx, inBuffer := Turn(line, s, idx, tokStart, last, tokens, tokIdx, before);
      if !inBuffer { return; }
    }
    inBuffer := true;
  }

  /** One pass of the scanner over the file; `last` lives across lines. `inBuffer` is false if the
      scanner left a line; the pass is followed up to there. */
  method LoadTokens(file: Option<string>) returns (tokens: array<Token>, numTokens: nat, inBuffer: bool)
    requires file.Some? ==> Fits(file.value)
    ensures tokens.Length == MAX_TOKENS && numTokens <= MAX_TOKENS
    ensures file.None? ==> numTokens == 0 && inBuffer
    ensures file.Some? ==> (inBuffer <==> AllStayInBuffer(Chunks(file.value)))
    ensures file.Some? ==> tokens[..numTokens] <= TextTokens(file.value)
    ensures file.Some? && inBuffer ==> tokens[..numTokens] == TextTokens(file.value)
  {
    tokens := new Token[MAX_TOKENS](_ => ZERO_TOKEN);
    numTokens, inBuffer := 0, true;
    if file.None? { return; }
    var text := file.value;
    var line := new char[MAX_LINE_WIDTH](_ => '\0');
    var tokIdx: nat := 0;
    tokens[tokIdx] := tokens[tokIdx].(kind := Nothing);
    tokIdx := tokIdx + 1;
    var last := '\0';
    while text != ""
      invariant tokIdx <= tokens.Length == MAX_TOKENS && line.Length == MAX_LINE_WIDTH && fresh(tokens) && fresh(line)
      invariant Progress(file.value, tokens[..tokIdx], text)
      decreases |text|
    {
      Room(file.value, tokens[..tokIdx], text);
      var n := Fgets(line, text);
      tokIdx, last, inBuffer := ScanLine(line, CString(text[..n]), tokens, tokIdx, last);
      text := text[n..];
      if !inBuffer { return tokens, tokIdx, false; }
    }
    numTokens := tokIdx;
  }

  /** `done` is what has been scanned, `text` what is left of the file `whole`. */
  ghost predicate Progress(whole: string, done: seq<Token>, text: string) {
    && done + LinesTokens(Chunks(text)) == TextTokens(whole)
    && (AllStayInBuffer(Chunks(whole)) <==> AllStayInBuffer(Chunks(text)))
  }

  /** The next line of a text that fits does so too. */
  lemma Room(whole: string, done: seq<Token>, text: string)
    requires Fits(whole) && text != "" && Progress(whole, done, text)
    ensures
      var n := LineLen(text);
      var s := CString(text[..n]);
      && |done| + |LineTokens(s)| <= MAX_TOKENS
      && (forall t :: t in LineTokens(s) ==> t.len < MAX_TOK_LEN)
      && done + LineTokens(s) <= TextTokens(whole)
      && (!StaysInBuffer(s) ==> !AllStayInBuffer(Chunks(whole)))
      && (StaysInBuffer(s) ==> Progress(whole, done + LineTokens(s), text[n..]))
  {
    var n := LineLen(text);
    var tokens, rest := LineTokens(CString(text[..n])), Chunks(text[n..]);
    LinesCons(text[..n], rest);
    assert Chunks(text) == [text[..n]] + rest;
    MiddleFits(done, tokens, LinesTokens(rest), TextTokens(whole));
  }

  lemma MiddleFits(a: seq<Token>, b: seq<Token>, c: seq<Token>, abc: seq<Token>)
    requires abc == a + (b + c) && |abc| <= MAX_TOKENS && forall t :: t in abc ==> t.len < MAX_TOK_LEN
    ensures |a| + |b| <= MAX_TOKENS && (forall t :: t in b ==> t.len < MAX_TOK_LEN)
    ensures a + b <= abc && abc == (a + b) + c
  {
    assert abc == (a + b) + c;
  }

  lemma LinesCons(chunk: string, rest: seq<string>)
    ensures LinesTokens([chunk] + rest) == LineTokens(CString(chunk)) + LinesTokens(rest)
    ensures AllStayInBuffer([chunk] + rest) <==> StaysInBuffer(CString(chunk)) && AllStayInBuffer(rest)
  {
    var lines := [chunk] + rest;
    assert lines[0] == chunk && lines[1..] == rest;
    if AllStayInBuffer(lines) {
      forall line | line in rest ensures StaysInBuffer(CString(line)) { assert line in lines; }
    }
  }
}
