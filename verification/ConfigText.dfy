/** The configuration format of README.md and what scanning it means. A file is described by
    its layout: which names and values stand where, with which padding, braces and separators. */
module ConfigText {
  import opened Options
  import opened Sequences
  import opened Tokenizer
  import opened TokenGeometry
  import opened Lookup

  // ---------------------------------------------------------------- layouts

  /** What can stand on a line, each after `pad` spaces. */
  datatype Piece =
    | Name(pad: nat, name: string)              // name=
    | Open(pad: nat)                            // {
    | Close(pad: nat)                           // }
    | Item(pad: nat, text: string, sep: char)   // text, or text;

  /** How a line ends: after its pieces, or with an item that the newline itself ends. */
  datatype Tail = Bare(pad: nat) | Last(pad: nat, text: string)

  datatype Line = Line(pieces: seq<Piece>, tail: Tail)

  function Spaces(n: nat): (s: string)
    ensures |s| == n && forall j :: 0 <= j < n ==> s[j] == ' '
  {
    seq(n, _ => ' ')
  }

  function PieceText(p: Piece): string {
    match p
    case Name(_, name) => name
    case Item(_, text, _) => text
    case _ => ""
  }

  function PieceEnd(p: Piece): char {
    match p
    case Name(_, _) => '='
    case Open(_) => '{'
    case Close(_) => '}'
    case Item(_, _, sep) => sep
  }

  function Render(p: Piece): string { Spaces(p.pad) + PieceText(p) + [PieceEnd(p)] }

  function TailText(t: Tail): string { if t.Last? then t.text else "" }

  function RenderTail(t: Tail): string { Spaces(t.pad) + TailText(t) + ['\n'] }

  function RenderPieces(ps: seq<Piece>): string {
    if ps == [] then "" else RenderPieces(ps[..|ps| - 1]) + Render(ps[|ps| - 1])
  }

  function RenderLine(l: Line): string { RenderPieces(l.pieces) + RenderTail(l.tail) }

  function RenderAll(ls: seq<Line>): string {
    if ls == [] then "" else RenderLine(ls[0]) + RenderAll(ls[1..])
  }

  predicate PlainChar(c: char) {
    c != '=' && c != '{' && c != '}' && !IsSeparator(c) && c != '\0'
  }

  /** Text that survives scanning. In the first column the scanner also shifts over later spaces. */
  predicate IsWord(w: string, firstColumn: bool) {
    && (forall j :: 0 <= j < |w| ==> PlainChar(w[j]))
    && (w != "" ==> w[0] != ' ')
    && (firstColumn ==> ' ' !in w)
  }

  /** Padding is allowed at the line start and after `=`, `{` and `,`. */
  predicate PieceOk(p: Piece, firstColumn: bool, eat: bool) {
    && (p.pad > 0 ==> eat)
    && match p
       case Name(pad, name) => IsWord(name, firstColumn && pad == 0)
       case Item(pad, text, sep) =>
         text != "" && IsWord(text, firstColumn && pad == 0) && (sep == ',' || sep == ';')
       case _ => true
  }

  predicate TailOk(t: Tail, firstColumn: bool, eat: bool) {
    && (t.pad > 0 ==> eat)
    && (t.Last? ==> t.text != "" && IsWord(t.text, firstColumn && t.pad == 0))
  }

  predicate EatsAfter(ps: seq<Piece>) {
    if ps == [] then true
    else match ps[|ps| - 1]
      case Name(_, _) => true
      case Open(_) => true
      case Close(_) => false
      case Item(_, _, sep) => sep == ','
  }

  predicate PiecesOk(ps: seq<Piece>) {
    ps == [] ||
    (PiecesOk(ps[..|ps| - 1]) && PieceOk(ps[|ps| - 1], |ps| == 1, EatsAfter(ps[..|ps| - 1])))
  }

  predicate LineOk(l: Line) {
    && PiecesOk(l.pieces) && TailOk(l.tail, l.pieces == [], EatsAfter(l.pieces))
    && |RenderLine(l)| < MAX_LINE_WIDTH
  }

  predicate LayoutOk(ls: seq<Line>) { forall l :: l in ls ==> LineOk(l) }

  // ---------------------------------------------------------------- what a layout says

  /** The content of a file with its layout erased. */
  datatype Entry = Def(name: string) | Val(text: string)

  function PieceEntries(p: Piece): seq<Entry> {
    match p
    case Name(_, name) => [Def(name)]
    case Item(_, text, _) => [Val(text)]
    case _ => []
  }

  function PiecesEntries(ps: seq<Piece>): seq<Entry> {
    if ps == [] then [] else PiecesEntries(ps[..|ps| - 1]) + PieceEntries(ps[|ps| - 1])
  }

  function LineEntries(l: Line): seq<Entry> {
    PiecesEntries(l.pieces) + if l.tail.Last? then [Val(l.tail.text)] else []
  }

  function Entries(ls: seq<Line>): seq<Entry> {
    if ls == [] then [] else LineEntries(ls[0]) + Entries(ls[1..])
  }

  function TokenEntry(t: Token): seq<Entry> {
    if t.kind == Variable then [Def(t.val)] else if t.kind == Value then [Val(t.val)] else []
  }

  function EntriesOf(ts: seq<Token>): seq<Entry> {
    if ts == [] then [] else EntriesOf(ts[..|ts| - 1]) + TokenEntry(ts[|ts| - 1])
  }

  function CurrentDef(es: seq<Entry>): Option<string> {
    if es == [] then None
    else if es[|es| - 1].Def? then Some(es[|es| - 1].name)
    else CurrentDef(es[..|es| - 1])
  }

  /** The values listed under `name`, in order. */
  function EntryValues(es: seq<Entry>, name: string): seq<string> {
    if es == [] then []
    else
      var n := |es| - 1;
      EntryValues(es[..n], name) +
      if es[n].Val? && CurrentDef(es[..n]) == Some(name) then [es[n].text] else []
  }

  function Texts(ts: seq<Token>): seq<string> { seq(|ts|, i requires 0 <= i < |ts| => ts[i].val) }

  lemma EntryStep(es: seq<Entry>, e: Entry, name: string)
    ensures CurrentDef(es + [e]) == if e.Def? then Some(e.name) else CurrentDef(es)
    ensures EntryValues(es + [e], name) ==
            EntryValues(es, name) + if e.Val? && CurrentDef(es) == Some(name) then [e.text] else []
  {
    assert (es + [e])[..|es|] == es;
  }

  lemma TextsSnoc(ts: seq<Token>, t: Token)
    ensures Texts(ts + [t]) == Texts(ts) + [t.val]
  {}

  lemma {:induction false} LookupReadsEntries(ts: seq<Token>, name: string)
    ensures CurrentName(ts) == CurrentDef(EntriesOf(ts))
    ensures Texts(ValuesOf(ts, name)) == EntryValues(EntriesOf(ts), name)
  {
    if ts != [] {
      var n := |ts| - 1;
      var t, es := ts[n], EntriesOf(ts[..n]);
      LookupReadsEntries(ts[..n], name);
      if t.kind == Variable {
        EntryStep(es, Def(t.val), name);
      } else if t.kind == Value {
        EntryStep(es, Val(t.val), name);
        TextsSnoc(ValuesOf(ts[..n], name), t);
      } else {
        assert EntriesOf(ts) == es + [] == es;
      }
    }
  }

  lemma {:induction false} EntriesOfConcat(a: seq<Token>, b: seq<Token>)
    ensures EntriesOf(a + b) == EntriesOf(a) + EntriesOf(b)
  {
    if b == [] {
      assert a + b == a;
    } else {
      var n := |b| - 1;
      assert (a + b)[..|a + b| - 1] == a + b[..n];
      EntriesOfConcat(a, b[..n]);
    }
  }

  // ---------------------------------------------------------------- scanning a layout

  lemma {:induction false} FeedSpaces(st: Lexer, n: nat, i: nat)
    requires st.pending == "" && (n > 0 ==> st.eat) && i <= n
    ensures FeedTo(st, Spaces(n), i) == st.(pos := st.pos + i)
  {
    if i > 0 { FeedSpaces(st, n, i - 1); }
  }

  lemma {:induction false} FeedWord(st: Lexer, w: string, i: nat)
    requires st.pending == "" && IsWord(w, st.pos == 0) && i <= |w|
    ensures FeedTo(st, w, i) == Lexer(st.pos + i, w[..i], if i == 0 then st.eat else st.pos == 0, st.out)
  {
    if i > 0 {
      FeedWord(st, w, i - 1);
      assert w[..i] == w[..i - 1] + [w[i - 1]];
      assert w[i - 1] in w && PlainChar(w[i - 1]) && (w[i - 1] == ' ' ==> i > 1 && st.pos > 0);
    }
  }

  lemma FeedPaddedWord(st: Lexer, pad: nat, w: string)
    requires st.pending == "" && (pad > 0 ==> st.eat) && IsWord(w, st.pos == 0 && pad == 0)
    ensures Feed(st, Spaces(pad) + w) ==
            Lexer(st.pos + pad + |w|, w, if w == "" then st.eat else st.pos + pad == 0, st.out)
  {
    FeedConcat(st, Spaces(pad), w);
    FeedSpaces(st, pad, pad);
    FeedWord(st.(pos := st.pos + pad), w, |w|);
    assert w[..|w|] == w;
  }

  lemma FeedOne(st: Lexer, c: char)
    ensures Feed(st, [c]) == Feed1(st, c)
  {
    assert FeedTo(st, [c], 1) == Feed1(FeedTo(st, [c], 0), c);
  }

  /** Padding, a word, and the character that follows it. */
  lemma FeedPadded(st: Lexer, pad: nat, w: string, c: char)
    requires st.pending == "" && (pad > 0 ==> st.eat) && IsWord(w, st.pos == 0 && pad == 0)
    ensures Feed(st, Spaces(pad) + w + [c]) ==
            Feed1(Lexer(st.pos + pad + |w|, w, if w == "" then st.eat else st.pos + pad == 0, st.out), c)
  {
    FeedPaddedWord(st, pad, w);
    FeedConcat(st, Spaces(pad) + w, [c]);
    FeedOne(Feed(st, Spaces(pad) + w), c);
  }

  lemma FeedPiece(st: Lexer, p: Piece)
    requires st.pending == "" && PieceOk(p, st.pos == 0, st.eat)
    ensures
      var r := Feed(st, Render(p));
      && r.pending == "" && r.pos > 0 && r.eat == EatsAfter([p])
      && EntriesOf(r.out) == EntriesOf(st.out) + PieceEntries(p) && |r.out| == |st.out| + 1
  {
    var w := PieceText(p);
    FeedPadded(st, p.pad, w, PieceEnd(p));
    PieceToken(Lexer(st.pos + p.pad + |w|, w, if w == "" then st.eat else st.pos + p.pad == 0, st.out), p);
  }

  function PieceTokenOf(st: Lexer, p: Piece): Token {
    match p
    case Name(_, _) => Word(st, Variable)
    case Open(_) => Token(st.pos, 1, OpenBracket, "{")
    case Close(_) => Token(st.pos, 1, CloseBracket, "}")
    case Item(_, _, _) => Word(st, Value)
  }

  /** What the closing character of a piece emits. */
  lemma PieceToken(st: Lexer, p: Piece)
    requires st.pending == PieceText(p) && (p.Item? ==> p.text != "" && (p.sep == ',' || p.sep == ';'))
    ensures
      var r := Feed1(st, PieceEnd(p));
      && r.pending == "" && r.pos > 0 && r.eat == EatsAfter([p])
      && EntriesOf(r.out) == EntriesOf(st.out) + PieceEntries(p) && |r.out| == |st.out| + 1
  {
    var t := PieceTokenOf(st, p);
    EntriesSnoc(st.out, t);
    assert TokenEntry(t) == PieceEntries(p);
    assert EatsAfter([p]) == (p.Name? || p.Open? || (p.Item? && p.sep == ','));
  }

  lemma EntriesSnoc(ts: seq<Token>, t: Token)
    ensures EntriesOf(ts + [t]) == EntriesOf(ts) + TokenEntry(t)
  {
    assert (ts + [t])[..|ts|] == ts;
  }

  lemma {:induction false} FeedPieces(ps: seq<Piece>)
    requires PiecesOk(ps)
    ensures
      var r := Feed(LINE_START, RenderPieces(ps));
      && r.pending == "" && (r.pos == 0 <==> ps == []) && r.eat == EatsAfter(ps)
      && EntriesOf(r.out) == PiecesEntries(ps) && |r.out| == |ps|
  {
    if ps != [] {
      var n := |ps| - 1;
      FeedPieces(ps[..n]);
      FeedConcat(LINE_START, RenderPieces(ps[..n]), Render(ps[n]));
      FeedPiece(Feed(LINE_START, RenderPieces(ps[..n])), ps[n]);
    }
  }

  lemma FeedTail(st: Lexer, t: Tail)
    requires st.pending == "" && TailOk(t, st.pos == 0, st.eat)
    ensures EntriesOf(Feed(st, RenderTail(t)).out) ==
            EntriesOf(st.out) + if t.Last? then [Val(t.text)] else []
    ensures |Feed(st, RenderTail(t)).out| == |st.out| + if t.Last? then 1 else 0
  {
    var w := TailText(t);
    FeedPadded(st, t.pad, w, '\n');
    if t.Last? {
      EntriesSnoc(st.out, Word(Lexer(st.pos + t.pad + |w|, w, st.pos + t.pad == 0, st.out), Value));
    }
  }

  lemma LineScan(l: Line)
    requires LineOk(l)
    ensures EntriesOf(LineTokens(RenderLine(l))) == LineEntries(l)
    ensures |LineTokens(RenderLine(l))| == |l.pieces| + if l.tail.Last? then 1 else 0
  {
    FeedPieces(l.pieces);
    FeedConcat(LINE_START, RenderPieces(l.pieces), RenderTail(l.tail));
    FeedTail(Feed(LINE_START, RenderPieces(l.pieces)), l.tail);
  }

  /** A rendered line ends at its only newline and holds no NUL. */
  predicate OneLine(s: string) {
    && s != "" && s[|s| - 1] == '\n'
    && (forall j :: 0 <= j < |s| - 1 ==> s[j] != '\n')
    && (forall j :: 0 <= j < |s| ==> s[j] != '\0')
  }

  predicate NoBreak(s: string) { forall j :: 0 <= j < |s| ==> s[j] != '\n' && s[j] != '\0' }

  lemma {:induction false} PiecesNoBreak(ps: seq<Piece>)
    requires PiecesOk(ps)
    ensures NoBreak(RenderPieces(ps))
  {
    if ps != [] {
      var n := |ps| - 1;
      PiecesNoBreak(ps[..n]);
      assert NoBreak(Render(ps[n]));
    }
  }

  lemma RenderedLineIsOneLine(l: Line)
    requires LineOk(l)
    ensures OneLine(RenderLine(l))
  {
    PiecesNoBreak(l.pieces);
    var body := RenderPieces(l.pieces) + (Spaces(l.tail.pad) + TailText(l.tail));
    assert NoBreak(body);
    assert RenderLine(l) == body + ['\n'];
  }

  lemma {:induction false} ChunkOfOneLine(s: string, max: nat)
    requires s != "" && s[|s| - 1] == '\n' && |s| <= max
    requires forall j :: 0 <= j < |s| - 1 ==> s[j] != '\n'
    ensures ChunkLen(s, max) == |s|
  {
    if |s| > 1 { ChunkOfOneLine(s[1..], max - 1); }
  }

  lemma {:induction false} OneLineIsItsChunk(s: string)
    requires OneLine(s) && |s| < MAX_LINE_WIDTH
    ensures Chunks(s) == [s] && CString(s) == s && StaysInBuffer(s)
  {
    ChunkOfOneLine(s, MAX_LINE_WIDTH - 1);
    assert s[..|s|] == s && s[|s|..] == "";
    assert Chunks("") == [];
    assert CString(s) == s[..|CString(s)|];
  }

  function TokenCount(ls: seq<Line>): nat {
    if ls == [] then 0
    else |ls[0].pieces| + (if ls[0].tail.Last? then 1 else 0) + TokenCount(ls[1..])
  }

  lemma {:induction false} LinesScan(ls: seq<Line>)
    requires LayoutOk(ls)
    ensures EntriesOf(LinesTokens(Chunks(RenderAll(ls)))) == Entries(ls)
    ensures |LinesTokens(Chunks(RenderAll(ls)))| == TokenCount(ls)
  {
    if ls == [] {
      assert LinesTokens(Chunks("")) == [];
    } else {
      assert ls[0] in ls;
      LinesScan(ls[1..]);
      FirstLine(ls[0], RenderAll(ls[1..]));
    }
  }

  lemma {:induction false} LinesStayInBuffer(ls: seq<Line>)
    requires LayoutOk(ls)
    ensures forall c :: c in Chunks(RenderAll(ls)) ==> StaysInBuffer(CString(c))
  {
    if ls != [] {
      assert ls[0] in ls;
      LinesStayInBuffer(ls[1..]);
      FirstLine(ls[0], RenderAll(ls[1..]));
    }
  }

  lemma FirstLine(l: Line, rest: string)
    requires LineOk(l)
    ensures
      var ts, more := LinesTokens(Chunks(RenderLine(l) + rest)), LinesTokens(Chunks(rest));
      && EntriesOf(ts) == LineEntries(l) + EntriesOf(more)
      && |ts| == |l.pieces| + (if l.tail.Last? then 1 else 0) + |more|
    ensures forall c :: c in Chunks(RenderLine(l) + rest) ==> c in Chunks(rest) || StaysInBuffer(CString(c))
  {
    var s := RenderLine(l);
    RenderedLineIsOneLine(l);
    OneLineIsItsChunk(s);
    LineScan(l);
    ChunksConcat(s, rest);
    LinesTokensConcat([s], Chunks(rest));
    assert [s][1..] == [];
    EntriesOfConcat(LineTokens(s), LinesTokens(Chunks(rest)));
  }

  /** Scanning a well-formed layout yields exactly its names and values, so a lookup returns
      exactly the values listed under the name. */
  lemma {:induction false} LayoutScan(ls: seq<Line>, name: string)
    requires LayoutOk(ls)
    ensures EntriesOf(TextTokens(RenderAll(ls))) == Entries(ls)
    ensures Texts(ValuesOf(TextTokens(RenderAll(ls)), name)) == EntryValues(Entries(ls), name)
  {
    LinesScan(ls);
    EntriesOfConcat([ZERO_TOKEN], LinesTokens(Chunks(RenderAll(ls))));
    assert EntriesOf([ZERO_TOKEN]) == EntriesOf([]) + [];
    LookupReadsEntries(TextTokens(RenderAll(ls)), name);
  }

  /** Padding, braces, and the choice of `,`, `;` or newline change no lookup. */
  lemma {:induction false} LayoutIndependence(a: seq<Line>, b: seq<Line>, name: string)
    requires LayoutOk(a) && LayoutOk(b) && Entries(a) == Entries(b)
    ensures Texts(ValuesOf(TextTokens(RenderAll(a)), name)) == Texts(ValuesOf(TextTokens(RenderAll(b)), name))
  {
    LayoutScan(a, name);
    LayoutScan(b, name);
  }

  // ---------------------------------------------------------------- the README format

  datatype Definition = Single(name: string, value: string) | List(name: string, values: seq<string>)

  function Values(d: Definition): seq<string> {
    match d
    case Single(_, value) => [value]
    case List(_, values) => values
  }

  /** The values under all definitions of `name`, in file order. */
  function ConfigValues(config: seq<Definition>, name: string): seq<string> {
    if config == [] then []
    else (if config[0].name == name then Values(config[0]) else []) + ConfigValues(config[1..], name)
  }

  function PrintItems(values: seq<string>): string {
    if values == [] then "" else "    " + values[0] + ",\n" + PrintItems(values[1..])
  }

  function PrintDefinition(d: Definition): string {
    match d
    case Single(name, value) => name + "=" + value + "\n"
    case List(name, values) => name + "={\n" + PrintItems(values) + "}\n"
  }

  function Print(config: seq<Definition>): string {
    if config == [] then "" else PrintDefinition(config[0]) + Print(config[1..])
  }

  /** The documented format, written out for one value and for a list of two. */
  lemma DocumentedFormat(name: string, value: string, list: string, val1: string, val2: string)
    ensures Print([Single(name, value), List(list, [val1, val2])]) ==
            (name + "=" + value + "\n") + (list + "={\n" + ("    " + val1 + ",\n" + ("    " + val2 + ",\n")) + "}\n")
  {
    var config := [Single(name, value), List(list, [val1, val2])];
    assert config[1..] == [List(list, [val1, val2])] && config[1..][1..] == [];
    assert [val1, val2][1..] == [val2] && [val2][1..] == [];
    var second := "    " + val2 + ",\n";
    assert PrintItems([val2]) == second + "" == second;
    var block := PrintDefinition(config[1]);
    assert Print(config[1..]) == block + "" == block;
  }

  predicate DefinitionOk(d: Definition) {
    && IsWord(d.name, true) && |d.name| < MAX_TOK_LEN
    && forall v :: v in Values(d) ==> v != "" && IsWord(v, false) && |v| < MAX_TOK_LEN
  }

  predicate ConfigOk(config: seq<Definition>) { forall d :: d in config ==> DefinitionOk(d) }

  function ItemLines(values: seq<string>): seq<Line> {
    if values == [] then [] else [ItemLine(values[0])] + ItemLines(values[1..])
  }

  function DefinitionLines(d: Definition): seq<Line> {
    match d
    case Single(name, value) => [Line([Name(0, name)], Last(0, value))]
    case List(name, values) =>
      [Line([Name(0, name), Open(0)], Bare(0))] + ItemLines(values) + [Line([Close(0)], Bare(0))]
  }

  function ConfigLines(config: seq<Definition>): seq<Line> {
    if config == [] then [] else DefinitionLines(config[0]) + ConfigLines(config[1..])
  }

  lemma ConsLine(l: Line, rest: seq<Line>)
    ensures RenderAll([l] + rest) == RenderLine(l) + RenderAll(rest)
    ensures Entries([l] + rest) == LineEntries(l) + Entries(rest)
    ensures TokenCount([l] + rest) == |l.pieces| + (if l.tail.Last? then 1 else 0) + TokenCount(rest)
  {
    assert ([l] + rest)[1..] == rest;
  }

  lemma {:induction false} RenderConcat(a: seq<Line>, b: seq<Line>)
    ensures RenderAll(a + b) == RenderAll(a) + RenderAll(b)
  {
    if a == [] {
      assert a + b == b;
    } else {
      assert (a + b)[1..] == a[1..] + b;
      RenderConcat(a[1..], b);
    }
  }

  lemma {:induction false} EntriesConcat(a: seq<Line>, b: seq<Line>)
    ensures Entries(a + b) == Entries(a) + Entries(b)
  {
    if a == [] {
      assert a + b == b;
    } else {
      assert (a + b)[1..] == a[1..] + b;
      EntriesConcat(a[1..], b);
    }
  }

  lemma {:induction false} TokenCountConcat(a: seq<Line>, b: seq<Line>)
    ensures TokenCount(a + b) == TokenCount(a) + TokenCount(b)
  {
    if a == [] {
      assert a + b == b;
    } else {
      assert (a + b)[1..] == a[1..] + b;
      TokenCountConcat(a[1..], b);
    }
  }

  lemma LayoutConcat(a: seq<Line>, b: seq<Line>)
    ensures RenderAll(a + b) == RenderAll(a) + RenderAll(b)
    ensures Entries(a + b) == Entries(a) + Entries(b)
    ensures TokenCount(a + b) == TokenCount(a) + TokenCount(b)
  {
    RenderConcat(a, b);
    EntriesConcat(a, b);
    TokenCountConcat(a, b);
  }

  lemma PiecesOfOne(p: Piece)
    ensures RenderPieces([p]) == Render(p) && PiecesEntries([p]) == PieceEntries(p)
    ensures PiecesOk([p]) == PieceOk(p, true, true)
  {
    assert [p][..0] == [];
  }

  function ItemLine(v: string): Line { Line([Item(4, v, ',')], Bare(0)) }

  lemma ItemLinePrint(v: string)
    requires v != "" && IsWord(v, false) && |v| < MAX_TOK_LEN
    ensures RenderLine(ItemLine(v)) == "    " + v + ",\n"
    ensures LineOk(ItemLine(v)) && LineEntries(ItemLine(v)) == [Val(v)]
  {
    PiecesOfOne(Item(4, v, ','));
    assert Spaces(4) == "    " && Spaces(0) == "";
  }

  lemma {:induction false} ItemLinesPrint(values: seq<string>)
    requires forall v :: v in values ==> v != "" && IsWord(v, false) && |v| < MAX_TOK_LEN
    ensures RenderAll(ItemLines(values)) == PrintItems(values) && LayoutOk(ItemLines(values))
  {
    if values != [] {
      var line, rest := ItemLine(values[0]), ItemLines(values[1..]);
      assert values[0] in values;
      ItemLinePrint(values[0]);
      ItemLinesPrint(values[1..]);
      ConsLine(line, rest);
    }
  }

  lemma {:induction false} ItemLinesEntries(values: seq<string>)
    ensures Entries(ItemLines(values)) == Listed(values) && TokenCount(ItemLines(values)) == |values|
  {
    if values != [] {
      var line, rest := ItemLine(values[0]), ItemLines(values[1..]);
      ItemLinesEntries(values[1..]);
      PiecesOfOne(Item(4, values[0], ','));
      ConsLine(line, rest);
      assert [Val(values[0])] + Listed(values[1..]) == Listed(values);
    }
  }

  function Block(name: string, values: seq<string>): seq<Entry> { [Def(name)] + Listed(values) }

  function Listed(values: seq<string>): seq<Entry> { seq(|values|, i requires 0 <= i < |values| => Val(values[i])) }

  lemma OneLineLayout(l: Line)
    ensures RenderAll([l]) == RenderLine(l) && Entries([l]) == LineEntries(l)
    ensures TokenCount([l]) == |l.pieces| + if l.tail.Last? then 1 else 0
  {
    assert [l][1..] == [];
  }

  lemma SinglePrint(name: string, value: string)
    requires DefinitionOk(Single(name, value))
    ensures
      var l := Line([Name(0, name)], Last(0, value));
      && RenderLine(l) == name + "=" + value + "\n" && LineOk(l)
      && LineEntries(l) == [Def(name), Val(value)]
  {
    var l := Line([Name(0, name)], Last(0, value));
    assert Spaces(0) == "" && value in Values(Single(name, value));
    PiecesOfOne(Name(0, name));
    assert RenderPieces(l.pieces) == name + "=" && RenderTail(l.tail) == value + "\n";
    Regroup(name + "=", value, "\n");
  }

  lemma HeadPrint(name: string)
    requires IsWord(name, true) && |name| < MAX_TOK_LEN
    ensures
      var l := Line([Name(0, name), Open(0)], Bare(0));
      && RenderLine(l) == name + "={\n" && LineOk(l) && LineEntries(l) == [Def(name)]
  {
    assert Spaces(0) == "";
    PiecesOfOne(Name(0, name));
    assert [Name(0, name), Open(0)][..1] == [Name(0, name)];
  }

  lemma FootPrint()
    ensures
      var l := Line([Close(0)], Bare(0));
      RenderLine(l) == "}\n" && LineOk(l) && LineEntries(l) == []
  {
    assert Spaces(0) == "";
    PiecesOfOne(Close(0));
  }

  /** The lines `ls` print as `text` and list the values under the name. */
  ghost predicate Prints(ls: seq<Line>, text: string, name: string, values: seq<string>, tokens: nat) {
    && RenderAll(ls) == text && LayoutOk(ls)
    && Entries(ls) == Block(name, values) && TokenCount(ls) == tokens
  }

  lemma DefinitionPrint(d: Definition)
    requires DefinitionOk(d)
    ensures Prints(DefinitionLines(d), PrintDefinition(d), d.name, Values(d),
                   |Values(d)| + if d.Single? then 1 else 3)
  {
    if d.Single? {
      SinglePrint(d.name, d.value);
      OneLineLayout(Line([Name(0, d.name)], Last(0, d.value)));
      assert Block(d.name, [d.value]) == [Def(d.name), Val(d.value)];
    } else {
      ListPrint(d.name, d.values);
    }
  }

  lemma Enclosed(first: Line, lines: seq<Line>, last: Line)
    requires LineOk(first) && LayoutOk(lines) && LineOk(last) && first.tail.Bare? && last.tail.Bare?
    ensures
      var all := [first] + lines + [last];
      && LayoutOk(all) && RenderAll(all) == RenderLine(first) + RenderAll(lines) + RenderLine(last)
      && Entries(all) == LineEntries(first) + Entries(lines) + LineEntries(last)
      && TokenCount(all) == |first.pieces| + TokenCount(lines) + |last.pieces|
  {
    OneLineLayout(first);
    OneLineLayout(last);
    LayoutConcat([first], lines);
    LayoutConcat([first] + lines, [last]);
  }

  lemma ListPrint(name: string, values: seq<string>)
    requires DefinitionOk(List(name, values))
    ensures Prints(DefinitionLines(List(name, values)), PrintDefinition(List(name, values)), name, values, |values| + 3)
  {
    var first := Line([Name(0, name), Open(0)], Bare(0));
    var last := Line([Close(0)], Bare(0));
    assert forall v :: v in values ==> v in Values(List(name, values));
    HeadPrint(name);
    FootPrint();
    ItemLinesPrint(values);
    ItemLinesEntries(values);
    Enclosed(first, ItemLines(values), last);
    assert Block(name, values) + [] == Block(name, values);
  }

  lemma {:induction false} BlockValues(es: seq<Entry>, n: string, values: seq<string>, name: string)
    ensures CurrentDef(es + Block(n, values)) == Some(n)
    ensures EntryValues(es + Block(n, values), name) == EntryValues(es, name) + if n == name then values else []
  {
    var all := es + Block(n, values);
    if values == [] {
      assert all[..|all| - 1] == es;
    } else {
      var k := |values| - 1;
      assert all[..|all| - 1] == es + Block(n, values[..k]);
      BlockValues(es, n, values[..k], name);
      assert values == values[..k] + [values[k]];
    }
  }

  /** What the printed configuration says: each name followed by its values. */
  function Content(config: seq<Definition>): seq<Entry> {
    if config == [] then [] else Block(config[0].name, Values(config[0])) + Content(config[1..])
  }

  lemma {:induction false} ContentValues(
    config: seq<Definition>, done: seq<Entry>, values: seq<string>, all: seq<Entry>, name: string)
    requires all == done + Content(config) && values == EntryValues(done, name)
    ensures EntryValues(all, name) == values + ConfigValues(config, name)
  {
    if config == [] {
      assert all == done;
    } else {
      var d := config[0];
      var found := if d.name == name then Values(d) else [];
      BlockValues(done, d.name, Values(d), name);
      Regroup(done, Block(d.name, Values(d)), Content(config[1..]));
      ContentValues(config[1..], done + Block(d.name, Values(d)), values + found, all, name);
      Regroup(values, found, ConfigValues(config[1..], name));
    }
  }

  /** What is printed in the README format is read back: a lookup returns the values of all
      definitions of the name, in order. It is empty (C's NULL) exactly when there are none. */
  lemma {:induction false} ConfigRoundTrip(config: seq<Definition>, name: string)
    requires ConfigOk(config)
    ensures Texts(ValuesOf(TextTokens(Print(config)), name)) == ConfigValues(config, name)
  {
    PrintedConfigFits(config);
    LayoutScan(ConfigLines(config), name);
    ContentValues(config, [], [], Content(config), name);
  }

  /** Two ways to lose a value, wherever it stands: no separator between it and the next brace,
      and no newline between it and the end of the file. */
  lemma UnterminatedValueIsLost(st: Lexer, value: string, brace: char)
    requires st.pending == "" && IsWord(value, st.pos == 0) && (brace == '{' || brace == '}')
    ensures EntriesOf(Feed(st, value + [brace]).out) == EntriesOf(st.out)
    ensures EntriesOf(Feed(st, value).out) == EntriesOf(st.out)
  {
    FeedWord(st, value, |value|);
    FeedConcat(st, value, [brace]);
    FeedOne(Feed(st, value), brace);
    BraceIsNoEntry(Feed(st, value), brace);
  }

  lemma BraceIsNoEntry(st: Lexer, brace: char)
    requires brace == '{' || brace == '}'
    ensures EntriesOf(Feed1(st, brace).out) == EntriesOf(st.out)
  {
    EntriesSnoc(st.out, Token(st.pos, 1, if brace == '{' then OpenBracket else CloseBracket, [brace]));
  }

  // ---------------------------------------------------------------- a printed file can be loaded

  lemma {:induction false} WordIsListed(ts: seq<Token>, t: Token)
    requires t in ts
    ensures forall e :: e in TokenEntry(t) ==> e in EntriesOf(ts)
  {
    var n := |ts| - 1;
    if t != ts[n] {
      assert t in ts[..n];
      WordIsListed(ts[..n], t);
    }
  }

  predicate EntryFits(e: Entry) {
    match e
    case Def(name) => |name| < MAX_TOK_LEN
    case Val(text) => |text| < MAX_TOK_LEN
  }

  /** A well-formed layout loads when its words fit the token buffers and its tokens the array. */
  lemma LayoutLoads(ls: seq<Line>)
    requires LayoutOk(ls) && TokenCount(ls) < MAX_TOKENS
    requires forall e :: e in Entries(ls) ==> EntryFits(e)
    ensures Loadable(RenderAll(ls))
  {
    var text := RenderAll(ls);
    LinesScan(ls);
    LinesStayInBuffer(ls);
    forall t | t in TextTokens(text) ensures t.len < MAX_TOK_LEN {
      if t != ZERO_TOKEN {
        assert t in LinesTokens(Chunks(text));
        WordIsListed(LinesTokens(Chunks(text)), t);
        TokenLenIsItsText(Chunks(text), t);
        if t.kind == Variable { assert Def(t.val) in TokenEntry(t); }
        if t.kind == Value { assert Val(t.val) in TokenEntry(t); }
      }
    }
  }

  lemma {:induction false} TokenLenIsItsText(lines: seq<string>, t: Token)
    requires t in LinesTokens(lines)
    ensures t.len == |t.val| && t.kind != Nothing
    ensures t.kind == OpenBracket || t.kind == CloseBracket ==> t.len == 1
  {
    Geometry(CString(lines[0]));
    if t !in LineTokens(CString(lines[0])) { TokenLenIsItsText(lines[1..], t); }
  }

  lemma {:induction false} PrintedConfigFits(config: seq<Definition>)
    requires ConfigOk(config)
    ensures LayoutOk(ConfigLines(config)) && RenderAll(ConfigLines(config)) == Print(config)
    ensures Entries(ConfigLines(config)) == Content(config)
    ensures forall e :: e in Content(config) ==> EntryFits(e)
    ensures TokenCount(ConfigLines(config)) == PrintedTokens(config)
  {
    if config != [] {
      var d := config[0];
      assert d in config;
      DefinitionPrint(d);
      PrintedConfigFits(config[1..]);
      LayoutConcat(DefinitionLines(d), ConfigLines(config[1..]));
      BlockFits(d);
    }
  }

  lemma BlockFits(d: Definition)
    requires DefinitionOk(d)
    ensures forall e :: e in Block(d.name, Values(d)) ==> EntryFits(e)
  {
    forall i | 0 <= i < |Values(d)| ensures EntryFits(Listed(Values(d))[i]) { assert Values(d)[i] in Values(d); }
  }

  function PrintedTokens(config: seq<Definition>): nat {
    if config == [] then 0
    else |Values(config[0])| + (if config[0].Single? then 1 else 3) + PrintedTokens(config[1..])
  }

  /** The printed file satisfies everything the scanner's fixed buffers demand. */
  lemma {:induction false} PrintedConfigLoads(config: seq<Definition>)
    requires ConfigOk(config) && PrintedTokens(config) < MAX_TOKENS
    ensures Loadable(Print(config))
  {
    PrintedConfigFits(config);
    LayoutLoads(ConfigLines(config));
  }
}
