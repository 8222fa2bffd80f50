/** Where the tokens of src/tokenizer/tokenizer.c lie in their line, and how the tokens of a
    file are put together from the tokens of its parts. */
module TokenGeometry {
  import opened Sequences
  import opened Tokenizer

  /** A token's text is exactly its slice of the line. */
  ghost predicate InPlace(line: string, t: Token) {
    && 0 <= t.index && 0 <= t.len && t.index + t.len <= |line|
    && t.val == line[t.index..t.index + t.len]
  }

  /** Every token was closed by the delimiter that belongs to its kind. */
  ghost predicate Delimited(line: string, t: Token)
    requires InPlace(line, t)
  {
    match t.kind
    case Nothing => false
    case Variable => t.index + t.len < |line| && line[t.index + t.len] == '='
    case Value => t.len > 0 && t.index + t.len < |line| && IsSeparator(line[t.index + t.len])
    case OpenBracket => t.val == "{"
    case CloseBracket => t.val == "}"
  }

  /** No delimiter inside a word, except a separator in front of it. */
  ghost predicate Clean(val: string) {
    && (forall j :: 0 <= j < |val| ==> val[j] != '=' && val[j] != '{' && val[j] != '}')
    && (forall j :: 0 < j < |val| ==> !IsSeparator(val[j]))
  }

  ghost predicate WellPlaced(line: string, t: Token) {
    && InPlace(line, t) && Delimited(line, t)
    && (t.kind == Variable || t.kind == Value ==> Clean(t.val))
  }

  /** Tokens of a line follow each other without overlap. */
  ghost predicate Ordered(ts: seq<Token>) {
    forall a, b :: 0 <= a < b < |ts| ==>
      ts[a].index < ts[b].index && ts[a].index + ts[a].len <= ts[b].index
  }

  ghost predicate Placed(line: string, i: nat, st: Lexer) {
    var start := i - |st.pending|;
    && i <= |line| && st.pos == i && 0 <= start
    && st.pending == line[start..i] && Clean(st.pending)
    && (forall t :: t in st.out ==> WellPlaced(line, t) && t.index < start && t.index + t.len <= start)
    && Ordered(st.out)
  }

  lemma {:induction false} PlacedAt(line: string, i: nat)
    requires i <= |line|
    ensures Placed(line, i, At(line, i))
  {
    if i > 0 {
      PlacedAt(line, i - 1);
      PlacedStep(line, i - 1, At(line, i - 1));
    }
  }

  lemma PlacedStep(line: string, i: nat, st: Lexer)
    requires i < |line| && Placed(line, i, st)
    ensures Placed(line, i + 1, Feed1(st, line[i]))
  {
    var c := line[i];
    if c == ' ' && st.eat {
      SkipPlaced(line, i, st);
    } else if c == '=' {
      EmitPlaced(line, i, st, Word(st, Variable), Feed1(st, c));
    } else if c == '{' || c == '}' {
      EmitPlaced(line, i, st, Token(i, 1, if c == '{' then OpenBracket else CloseBracket, [c]), Feed1(st, c));
    } else if IsSeparator(c) && st.pending != "" {
      EmitPlaced(line, i, st, Word(st, Value), Feed1(st, c));
    } else {
      assert st.pending + [c] == line[i - |st.pending|..i + 1];
    }
  }

  lemma SkipPlaced(line: string, i: nat, st: Lexer)
    requires i < |line| && Placed(line, i, st) && line[i] == ' '
    ensures Placed(line, i + 1, st.(pos := i + 1, pending := Shift(st.pending)))
  {
    if st.pending != "" {
      var start := i - |st.pending|;
      assert st.pending[1..] == line[start + 1..i];
      assert Shift(st.pending) == line[start + 1..i + 1];
    }
  }

  lemma EmitPlaced(line: string, i: nat, st: Lexer, t: Token, next: Lexer)
    requires i < |line| && Placed(line, i, st)
    requires WellPlaced(line, t) && i - |st.pending| <= t.index <= i && t.index + t.len <= i + 1
    requires next.pos == i + 1 && next.pending == "" && next.out == st.out + [t]
    ensures Placed(line, i + 1, next)
  {
    assert line[i + 1..i + 1] == "";
  }

  /** The indices of the scanner stay in order, and every token of the line is well placed. */
  lemma Geometry(line: string)
    ensures forall t :: t in LineTokens(line) ==> WellPlaced(line, t)
    ensures Ordered(LineTokens(line))
  {
    PlacedAt(line, |line|);
  }

  /** A line is over at its newline, so no name and no value contains one. */
  lemma NoNewlineInWords(line: string, t: Token)
    requires forall j :: 0 <= j < |line| - 1 ==> line[j] != '\n'
    requires t in LineTokens(line)
    ensures '\n' !in t.val
  {
    Geometry(line);
    assert WellPlaced(line, t);
    forall j | 0 <= j < |t.val| ensures t.val[j] != '\n' {
      assert t.val[j] == line[t.index + j];
    }
  }

  /** Whether `t` is what the delimiter at `j` produces. */
  ghost predicate MadeBy(line: string, t: Token, j: nat)
    requires j < |line|
  {
    if line[j] == '=' then t.kind == Variable && t.index + t.len == j
    else if line[j] == '{' then t == Token(j, 1, OpenBracket, "{")
    else t == Token(j, 1, CloseBracket, "}")
  }

  /** No definition and no brace is overlooked: each `=`, `{` and `}` has its token. */
  lemma DelimitersKept(line: string, j: nat) returns (t: Token)
    requires j < |line| && (line[j] == '=' || line[j] == '{' || line[j] == '}')
    ensures t in LineTokens(line) && MadeBy(line, t, j)
  {
    PlacedAt(line, j);
    var out := At(line, j + 1).out;
    t := out[|out| - 1];
    OutGrows(line, j + 1, |line|);
    assert t == LineTokens(line)[|out| - 1];
  }

  // ---------------------------------------------------------------- whole files

  lemma {:induction false} ChunkOfConcat(a: string, b: string, max: nat)
    requires a != "" && a[|a| - 1] == '\n'
    ensures ChunkLen(a + b, max) == ChunkLen(a, max)
  {
    if max > 0 && a[0] != '\n' {
      assert (a + b)[1..] == a[1..] + b;
      ChunkOfConcat(a[1..], b, max - 1);
    }
  }

  lemma {:induction false} ChunksConcat(a: string, b: string)
    requires a != "" ==> a[|a| - 1] == '\n'
    ensures Chunks(a + b) == Chunks(a) + Chunks(b)
    decreases |a|
  {
    if a == "" {
      assert a + b == b;
    } else {
      var n, rest := FirstChunk(a, b);
      ChunksConcat(rest, b);
      ChunksStep(a + b, a[..n], rest + b);
      ChunksStep(a, a[..n], rest);
      Regroup([a[..n]], Chunks(rest), Chunks(b));
    }
  }

  lemma ChunksStep(text: string, first: string, rest: string)
    requires text != "" && first == text[..LineLen(text)] && rest == text[LineLen(text)..]
    ensures Chunks(text) == [first] + Chunks(rest)
  {}

  lemma FirstChunk(a: string, b: string) returns (n: nat, rest: string)
    requires a != "" && a[|a| - 1] == '\n'
    ensures n == LineLen(a) == LineLen(a + b) && rest == a[n..]
    ensures (a + b)[..n] == a[..n] && (a + b)[n..] == rest + b
    ensures rest != "" ==> rest[|rest| - 1] == '\n'
  {
    n, rest := LineLen(a), a[LineLen(a)..];
    ChunkOfConcat(a, b, MAX_LINE_WIDTH - 1);
  }

  lemma {:induction false} LinesTokensConcat(a: seq<string>, b: seq<string>)
    ensures LinesTokens(a + b) == LinesTokens(a) + LinesTokens(b)
  {
    if a == [] {
      assert a + b == b;
    } else {
      assert (a + b)[1..] == a[1..] + b;
      LinesTokensConcat(a[1..], b);
    }
  }

  /** After a newline the scanner starts afresh, although `last` is carried along: the tokens
      of `a + b` are those of `a` and then those of `b` without its leading TOK_NONE. */
  lemma TokensOfConcat(a: string, b: string)
    requires a != "" ==> a[|a| - 1] == '\n'
    ensures TextTokens(a + b) == TextTokens(a) + TextTokens(b)[1..]
  {
    ChunksConcat(a, b);
    LinesTokensConcat(Chunks(a), Chunks(b));
    assert TextTokens(b)[1..] == LinesTokens(Chunks(b));
  }
}
