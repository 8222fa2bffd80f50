/** What each single character does to the scan of src/tokenizer/tokenizer.c, in terms of the
    characters of the line alone. */
module Characters {
  import opened Sequences
  import opened Tokenizer
  import opened TokenGeometry
  import opened ConfigText

  // ---------------------------------------------------------------- words

  /** Ordinary characters are collected. */
  lemma {:induction false} FeedOn(st: Lexer, w: string, i: nat)
    requires i <= |w| && forall j :: 0 <= j < |w| ==> w[j] !in " ={},;\n"
    ensures
      var r := FeedTo(st, w, i);
      r.pos == st.pos + i && r.pending == st.pending + w[..i] && r.out == st.out
  {
    if i > 0 {
      FeedOn(st, w, i - 1);
      assert st.pending + w[..i - 1] + [w[i - 1]] == st.pending + w[..i];
    }
  }

  lemma FeedAll(st: Lexer, w: string)
    requires forall j :: 0 <= j < |w| ==> w[j] !in " ={},;\n"
    ensures
      var r := Feed(st, w);
      r.pos == st.pos + |w| && r.pending == st.pending + w && r.out == st.out
  {
    FeedOn(st, w, |w|);
    assert w[..|w|] == w;
  }

  lemma Lead(st: Lexer, c: char)
    requires st.pending == "" && (c == '\n' || c == ';' || c == ',')
    ensures
      var r := Feed(st, [c]);
      r.pos == st.pos + 1 && r.pending == [c] && r.out == st.out
  {
    FeedOne(st, c);
    assert "" + [c] == [c];
  }

  lemma Close(st: Lexer, d: char)
    requires st.pending != "" && (d == '\n' || d == ';' || d == ',')
    ensures
      var r := Feed(st, [d]);
      && r.pos == st.pos + 1 && r.pending == ""
      && r.out == st.out + [Token(st.pos - |st.pending|, |st.pending|, Value, st.pending)]
  {
    FeedOne(st, d);
  }

  /** At the start of a token, a word and the character after it make one token, or none: a
      separator a value, `=` a variable, a brace its own token, and every other character nothing. */
  lemma WordsAreTokens(st: Lexer, w: string, d: char)
    requires st.pending == "" && w != "" && forall j :: 0 <= j < |w| ==> w[j] !in " ={},;\n"
    ensures
      var out := Feed(st, w + [d]).out;
      && (d == '\n' || d == ';' || d == ',' ==> out == st.out + [Token(st.pos, |w|, Value, w)])
      && (d == '=' ==> out == st.out + [Token(st.pos, |w|, Variable, w)])
      && (d == '{' ==> out == st.out + [Token(st.pos + |w|, 1, OpenBracket, "{")])
      && (d == '}' ==> out == st.out + [Token(st.pos + |w|, 1, CloseBracket, "}")])
      && (d !in "\n;,={}" ==> out == st.out)
  {
    FeedAll(st, w);
    assert "" + w == w;
    FeedConcat(st, w, [d]);
    FeedOne(Feed(st, w), d);
  }

  /** A separator with nothing before it is no token but the first character of the next value. */
  lemma SeparatorInFront(st: Lexer, c: char, w: string, d: char)
    requires st.pending == "" && (c == '\n' || c == ';' || c == ',') && (d == '\n' || d == ';' || d == ',')
    requires forall j :: 0 <= j < |w| ==> w[j] !in " ={},;\n"
    ensures Feed(st, [c] + w + [d]).out == st.out + [Token(st.pos, 1 + |w|, Value, [c] + w)]
  {
    Lead(st, c);
    FeedConcat(st, [c], w);
    FeedAll(Feed(st, [c]), w);
    FeedConcat(st, [c] + w, [d]);
    Close(Feed(st, [c] + w), d);
  }

  lemma Closed(st: Lexer, v: string, c: char) returns (st': Lexer)
    requires st.pending == "" && v != "" && (c == '\n' || c == ';' || c == ',')
    requires forall j :: 0 <= j < |v| ==> v[j] !in " ={},;\n"
    ensures st' == Feed(st, v + [c]) && st'.pending == "" && st'.pos == st.pos + |v| + 1
    ensures st'.out == st.out + [Token(st.pos, |v|, Value, v)]
  {
    FeedConcat(st, v, [c]);
    FeedAll(st, v);
    assert "" + v == v;
    Close(Feed(st, v), c);
    st' := Feed(st, v + [c]);
  }

  /** A line that is one word and a separator. */
  lemma OneWordLine(w: string, d: char)
    requires w != "" && forall j :: 0 <= j < |w| ==> w[j] !in " ={},;\n"
    requires d == '\n' || d == ';' || d == ','
    ensures LineTokens(w + [d]) == [Token(0, |w|, Value, w)]
  {
    WordsAreTokens(LINE_START, w, d);
  }

  /** A doubled separator in a list: the second one leads the value after it. */
  lemma DoubledSeparator(v: string, c: char, w: string, d: char)
    requires v != "" && forall j :: 0 <= j < |v| ==> v[j] !in " ={},;\n"
    requires forall j :: 0 <= j < |w| ==> w[j] !in " ={},;\n"
    requires (c == ';' || c == ',') && (d == '\n' || d == ';' || d == ',')
    ensures LineTokens((v + [c]) + ([c] + w + [d])) ==
            [Token(0, |v|, Value, v), Token(|v| + 1, 1 + |w|, Value, [c] + w)]
  {
    FeedConcat(LINE_START, v + [c], [c] + w + [d]);
    var st := Closed(LINE_START, v, c);
    SeparatorInFront(st, c, w, d);
  }

  /** A file that is one word: nothing but the TOK_NONE entry and that value. */
  lemma OneWordFile(w: string)
    requires 0 < |w| < 1023 && forall j :: 0 <= j < |w| ==> w[j] !in " ={},;\n" && w[j] != '\0'
    ensures TextTokens(w + "\n") == [Token(0, 0, Nothing, ""), Token(0, |w|, Value, w)]
  {
    var line := w + "\n";
    assert OneLine(line);
    OneLineIsItsChunk(line);
    OneWordLine(w, '\n');
    assert [line][1..] == [] && LinesTokens([]) == [];
    assert LinesTokens([line]) == LineTokens(line) + [];
  }

  /** What may stand in a word of a layout. */
  lemma WordsExactly(w: string)
    ensures IsWord(w, false) <==>
            (forall j :: 0 <= j < |w| ==> w[j] !in "={},;\n" && w[j] != '\0') && (w != "" ==> w[0] != ' ')
    ensures IsWord(w, true) <==> forall j :: 0 <= j < |w| ==> w[j] !in " ={},;\n" && w[j] != '\0'
  {}

  // ---------------------------------------------------------------- where values end

  lemma PosAt(line: string, n: nat)
    requires n <= |line|
    ensures At(line, n).pos == n && |At(line, n).pending| <= n
  {
    PlacedAt(line, n);
  }

  lemma ValueStep(st: Lexer, c: char, t: Token)
    requires t in Feed1(st, c).out && t !in st.out && t.kind == Value
    ensures (c == '\n' || c == ';' || c == ',') && st.pending != "" && t.index + t.len == st.pos
  {
  }

  /** Step by step: a value token ends where a separator met a pending text. */
  lemma {:induction false} ValueSteps(line: string, n: nat, t: Token)
    requires n <= |line| && t in At(line, n).out && t.kind == Value
    ensures
      var j := t.index + t.len;
      0 <= j < n && (line[j] == '\n' || line[j] == ';' || line[j] == ',') && At(line, j).pending != ""
  {
    if n == 0 { return; }
    var st := At(line, n - 1);
    PosAt(line, n - 1);
    assert At(line, n) == Feed1(st, line[n - 1]);
    if t in st.out { ValueSteps(line, n - 1, t); } else { ValueStep(st, line[n - 1], t); }
  }

  /** Some value of the line ends just before `j`. */
  ghost predicate EndsValue(line: string, j: nat) {
    exists t :: t in LineTokens(line) && t.kind == Value && t.index + t.len == j
  }

  lemma EndsWherePending(line: string, j: nat)
    requires j < |line|
    ensures EndsValue(line, j) <==>
            (line[j] == '\n' || line[j] == ';' || line[j] == ',') && At(line, j).pending != ""
  {
    if EndsValue(line, j) {
      var t :| t in LineTokens(line) && t.kind == Value && t.index + t.len == j;
      ValueSteps(line, |line|, t);
    }
    if (line[j] == '\n' || line[j] == ';' || line[j] == ',') && At(line, j).pending != "" {
      var out := At(line, j + 1).out;
      PlacedAt(line, j);
      OutGrows(line, j + 1, |line|);
      var t := out[|out| - 1];
      assert t == LineTokens(line)[|out| - 1];
      assert t.kind == Value && t.index + t.len == j;
    }
  }

  /** Every value ends at a newline, `;` or `,`, and has none of `=`, `{`, `}` in it and none of the
      separators but in front; every variable ends at `=`. */
  lemma ValuesEnd(line: string, t: Token)
    requires t in LineTokens(line)
    ensures 0 <= t.index && 0 <= t.len
    ensures t.kind == Value ==>
      0 < t.len && t.index + t.len < |line| && line[t.index + t.len] in "\n;,"
    ensures t.kind == Variable ==> t.index + t.len < |line| && line[t.index + t.len] == '='
    ensures t.kind == Value || t.kind == Variable ==>
      forall j :: 0 <= j < |t.val| ==> t.val[j] !in "={}" && (j > 0 ==> t.val[j] !in "\n;,")
  {
    Geometry(line);
    assert WellPlaced(line, t);
  }

  // ---------------------------------------------------------------- where spaces are skipped

  /** No token has been closed and no space skipped among the first `m` characters. */
  predicate FirstColumn(line: string, m: nat)
    requires m <= |line|
  {
    forall j :: 0 <= j < m ==> line[j] !in " ={}" && (j > 0 ==> line[j] !in "\n;,")
  }

  /** Only spaces lie between position `m` and position `i`. */
  predicate SpacesBetween(line: string, m: nat, i: nat)
    requires m <= i <= |line|
  {
    forall j :: m <= j < i ==> line[j] == ' '
  }

  lemma {:induction false} FirstColumnAt(line: string, i: nat)
    requires i <= |line|
    ensures |At(line, i).pending| == i <==> FirstColumn(line, i)
  {
    if i > 0 {
      FirstColumnAt(line, i - 1);
      PosAt(line, i - 1);
      FirstColumnStep(At(line, i - 1), line[i - 1]);
      assert FirstColumn(line, i) <==>
        (FirstColumn(line, i - 1) && line[i - 1] !in " ={}" && (i > 1 ==> line[i - 1] !in "\n;,"));
    }
  }

  lemma FirstColumnStep(st: Lexer, c: char)
    requires |st.pending| <= st.pos
    ensures |Feed1(st, c).pending| == st.pos + 1 <==>
            |st.pending| == st.pos && !(c == ' ' && st.eat) && c !in "={}" && (st.pending != "" ==> c !in "\n;,")
    ensures Feed1(st, c).eat <==>
            if c == ' ' && st.eat then true
            else if c == '=' || c == '{' || c == ',' then true
            else if c == '}' || (c in "\n;" && st.pending != "") then false
            else |st.pending| == st.pos
  {}

  predicate SkipsFrom(line: string, m: nat, i: nat)
    requires m <= i <= |line|
  {
    SpacesBetween(line, m, i) && ((m > 0 && line[m - 1] in "={,") || FirstColumn(line, m))
  }

  ghost predicate MaySkip(line: string, i: nat)
    requires i <= |line|
  {
    exists m: nat :: m <= i && SkipsFrom(line, m, i)
  }

  /** A space is skipped exactly if only spaces lie between it and a `=`, `{` or `,`, or between it
      and a place up to which the line has no space and no closed token. */
  lemma {:induction false} SpacesSkippedExactly(line: string, i: nat)
    requires i <= |line|
    ensures At(line, i).eat <==> MaySkip(line, i)
  {
    if i == 0 {
      assert SkipsFrom(line, 0, 0);
    } else {
      SpacesSkippedExactly(line, i - 1);
      var st, c := At(line, i - 1), line[i - 1];
      PosAt(line, i - 1);
      FirstColumnAt(line, i - 1);
      FirstColumnAt(line, i);
      FirstColumnStep(st, c);
      assert FirstColumn(line, i - 1) ==> SkipsFrom(line, i - 1, i - 1);
      SkipNext(line, i);
    }
  }

  lemma SkipNext(line: string, i: nat)
    requires 0 < i <= |line|
    ensures MaySkip(line, i) <==>
            (line[i - 1] == ' ' && MaySkip(line, i - 1)) || line[i - 1] in "={," || FirstColumn(line, i)
  {
    if line[i - 1] == ' ' && MaySkip(line, i - 1) {
      var m: nat :| m <= i - 1 && SkipsFrom(line, m, i - 1);
      assert SkipsFrom(line, m, i);
    }
    if line[i - 1] in "={," || FirstColumn(line, i) { assert SkipsFrom(line, i, i); }
    if MaySkip(line, i) {
      var m: nat :| m <= i && SkipsFrom(line, m, i);
      if m < i { assert SkipsFrom(line, m, i - 1); }
    }
  }

  // ---------------------------------------------------------------- which separators close a value

  ghost predicate NothingSince(line: string, m: nat, j: nat)
    requires m <= j <= |line|
  {
    && SpacesBetween(line, m, j) && (m == 0 || line[m - 1] in "={}" || EndsValue(line, m - 1))
    && (m == 0 || m == j || line[m - 1] in "={,")
  }

  /** Only skipped spaces lie between `j` and the line start or the last closed token. */
  ghost predicate NothingPending(line: string, j: nat)
    requires j <= |line|
  {
    exists m: nat :: m <= j && NothingSince(line, m, j)
  }

  lemma PendingNext(line: string, i: nat)
    requires 0 < i <= |line|
    ensures NothingPending(line, i) <==>
      line[i - 1] in "={}" || EndsValue(line, i - 1) ||
      (line[i - 1] == ' ' && NothingPending(line, i - 1) && MaySkip(line, i - 1))
  {
    if line[i - 1] in "={}" || EndsValue(line, i - 1) { assert NothingSince(line, i, i); }
    if NothingPending(line, i) {
      var m: nat :| m <= i && NothingSince(line, m, i);
      if m < i { assert NothingSince(line, m, i - 1) && SkipsFrom(line, m, i - 1); }
    }
    if line[i - 1] == ' ' && NothingPending(line, i - 1) && MaySkip(line, i - 1) {
      var m: nat :| m <= i - 1 && NothingSince(line, m, i - 1);
      if m > 0 && line[m - 1] !in "={," { NotAfterClosing(line, m, i - 1); }
      assert NothingSince(line, m, i);
    }
  }

  /** After `}`, or a `;` or newline that closed a value, spaces are not skipped. */
  lemma NotAfterClosing(line: string, m: nat, i: nat)
    requires 0 < m == i <= |line| && (line[m - 1] == '}' || EndsValue(line, m - 1)) && line[m - 1] !in "={,"
    ensures !MaySkip(line, i)
  {
    EndsWherePending(line, m - 1);
    forall n: nat | n <= i ensures !SkipsFrom(line, n, i) {
      if n < i { assert !SpacesBetween(line, n, i) by { assert line[i - 1] != ' '; } }
    }
  }

  lemma {:induction false} PendingExactly(line: string, i: nat)
    requires i <= |line|
    ensures At(line, i).pending == "" <==> NothingPending(line, i)
  {
    if i == 0 {
      assert NothingSince(line, 0, 0);
    } else {
      PendingExactly(line, i - 1);
      PendingNext(line, i);
      EndsWherePending(line, i - 1);
      SpacesSkippedExactly(line, i - 1);
      PendingStep(At(line, i - 1), line[i - 1]);
    }
  }

  lemma PendingStep(st: Lexer, c: char)
    ensures Feed1(st, c).pending == "" <==>
            c in "={}" || (c in "\n;," && st.pending != "") || (c == ' ' && st.pending == "" && st.eat)
  {}

  /** A newline, `;` or `,` closes a value, except where only skipped spaces lie between it and the
      line start or the token closed before it: there it leads the next value. */
  lemma SeparatorCloses(line: string, j: nat)
    requires j < |line|
    ensures EndsValue(line, j) <==> line[j] in "\n;," && !NothingPending(line, j)
  {
    EndsWherePending(line, j);
    PendingExactly(line, j);
  }

  /** The whole scan of a line by its characters. `n` is the length of the unfinished token at `i`: it
      starts with nothing, a closing character ends it, a skipped space moves it on, and any other
      character makes it longer. Each closing character puts one token at the end. */
  lemma ScanExactly(line: string, i: nat)
    requires i < |line|
    ensures At(line, 0).pending == "" && At(line, 0).out == []
    ensures
      var c, n := line[i], |At(line, i).pending|;
      && n <= i && At(line, i).pending == line[i - n..i]
      && |At(line, i + 1).pending| ==
           (if c in "={}" || EndsValue(line, i) then 0 else if c == ' ' && MaySkip(line, i) then n else n + 1)
      && At(line, i + 1).out == At(line, i).out +
           if c == '=' then [Token(i - n, n, Variable, line[i - n..i])]
           else if c == '{' then [Token(i, 1, OpenBracket, "{")]
           else if c == '}' then [Token(i, 1, CloseBracket, "}")]
           else if EndsValue(line, i) then [Token(i - n, n, Value, line[i - n..i])]
           else []
  {
    PlacedAt(line, i);
    EndsWherePending(line, i);
    SpacesSkippedExactly(line, i);
    FeedExactly(At(line, i), line[i]);
  }

  lemma FeedExactly(st: Lexer, c: char)
    ensures
      var closes := c in "\n;," && st.pending != "";
      var n := |st.pending|;
      && |Feed1(st, c).pending| == (if c in "={}" || closes then 0 else if c == ' ' && st.eat then n else n + 1)
      && Feed1(st, c).out == st.out +
           if c == '=' then [Token(st.pos - n, n, Variable, st.pending)]
           else if c == '{' then [Token(st.pos, 1, OpenBracket, "{")]
           else if c == '}' then [Token(st.pos, 1, CloseBracket, "}")]
           else if closes then [Token(st.pos - n, n, Value, st.pending)]
           else []
  {}

  // ---------------------------------------------------------------- files

  /** A file is scanned line by line. A line is what is left up to its first newline, or the next
      1023 characters, as far as its first NUL; the array begins with one TOK_NONE. */
  lemma FileLineByLine(text: string)
    ensures TextTokens("") == [Token(0, 0, Nothing, "")]
    ensures text != "" ==>
      var n := LineLen(text);
      && 0 < n <= |text| && n <= 1023
      && (forall j :: 0 <= j < n - 1 ==> text[j] != '\n')
      && (n < |text| && n < 1023 ==> text[n - 1] == '\n')
      && TextTokens(text) == [Token(0, 0, Nothing, "")] + LineTokens(CString(text[..n])) + TextTokens(text[n..])[1..]
  {
    if text != "" {
      var n := LineLen(text);
      ChunkIsLine(text, 1023);
      ChunksStep(text, text[..n], text[n..]);
      LinesCons(text[..n], Chunks(text[n..]));
      assert TextTokens(text[n..])[1..] == LinesTokens(Chunks(text[n..]));
      Regroup([ZERO_TOKEN], LineTokens(CString(text[..n])), LinesTokens(Chunks(text[n..])));
    }
  }

  /** The scanner leaves a line exactly if the line ends in a space that is skipped. */
  lemma OverrunByCharacters(line: string)
    ensures StaysInBuffer(line) <==> (line != "" && line[|line| - 1] == ' ' ==> !MaySkip(line, |line| - 1))
  {
    if line != "" { SpacesSkippedExactly(line, |line| - 1); }
  }

  /** The arrays of the C code hold 10000 tokens, their texts fewer than 256 characters. */
  lemma FitsExactly(text: string)
    ensures Fits(text) <==> |TextTokens(text)| <= 10000 && forall t :: t in TextTokens(text) ==> t.len < 256
  {}
}
