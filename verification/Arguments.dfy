/** What the argument reader makes of any text, and the parser of any line. */
module Arguments {
  import opened Options
  import opened Text
  import opened Quoting
  import opened Parser
  import opened Printing

  // ---------------------------------------------------------------- the grammar of arguments

  /** A character of an argument, as it is or behind a backslash; some characters together, in quotes or not; and an
      argument of such chunks, with the blanks and tabs behind it. */
  datatype Mark = Mark(c: char, escaped: bool)
  datatype Chunk = Chunk(marks: seq<Mark>, quoted: bool)
  datatype Piece = Piece(chunks: seq<Chunk>, gap: string)

  function MarksText(ms: seq<Mark>): string {
    if ms == [] then "" else (if ms[0].escaped then ['\\', ms[0].c] else [ms[0].c]) + MarksText(ms[1..])
  }

  function MarksValue(ms: seq<Mark>): string {
    if ms == [] then "" else [ms[0].c] + MarksValue(ms[1..])
  }

  function ChunkText(k: Chunk): string {
    if k.quoted then "\"" + MarksText(k.marks) + "\"" else MarksText(k.marks)
  }

  function ChunksText(ks: seq<Chunk>): string {
    if ks == [] then "" else ChunkText(ks[0]) + ChunksText(ks[1..])
  }

  function ChunksValue(ks: seq<Chunk>): string {
    if ks == [] then "" else MarksValue(ks[0].marks) + ChunksValue(ks[1..])
  }

  function PiecesText(ps: seq<Piece>): string {
    if ps == [] then "" else ChunksText(ps[0].chunks) + ps[0].gap + PiecesText(ps[1..])
  }

  function PiecesValues(ps: seq<Piece>): seq<string> {
    if ps == [] then [] else [ChunksValue(ps[0].chunks)] + PiecesValues(ps[1..])
  }

  /** In quotes only a quote and a backslash need a backslash before them, outside also a blank and a tab. */
  predicate MarkOk(m: Mark, quoted: bool) {
    m.escaped || (m.c != '"' && m.c != '\\' && (quoted || (m.c != ' ' && m.c != '\t')))
  }

  predicate ChunkOk(k: Chunk) {
    forall m :: m in k.marks ==> MarkOk(m, k.quoted)
  }

  predicate Blank(gap: string) {
    forall c :: c in gap ==> c == ' ' || c == '\t'
  }

  predicate AnyQuoted(ks: seq<Chunk>) {
    exists k :: k in ks && k.quoted
  }

  /** An argument is not empty, unless it is quoted, and there are blanks or tabs between two. */
  predicate PieceOk(p: Piece, last: bool) {
    && (forall k :: k in p.chunks ==> ChunkOk(k)) && (AnyQuoted(p.chunks) || ChunksValue(p.chunks) != "")
    && Blank(p.gap) && (!last ==> p.gap != "")
  }

  predicate PiecesOk(ps: seq<Piece>) {
    forall i :: 0 <= i < |ps| ==> PieceOk(ps[i], i + 1 == |ps|)
  }

  /** The reader with more of an argument read. */
  function After(st: Scan, v: string, quoted: bool): Scan {
    st.(current := st.current + v, hadQuotes := st.hadQuotes || quoted)
  }

  lemma AfterTwice(st: Scan, v: string, p: bool, w: string, q: bool)
    ensures After(After(st, v, p), w, q) == After(st, v + w, p || q) && After(st, "", false) == st
  {
    assert st.current + v + w == st.current + (v + w) && st.current + "" == st.current;
  }

  lemma MarkThen(st: Scan, m: Mark, tail: string)
    requires !st.escape && MarkOk(m, st.inQuotes)
    ensures ScanAll(st, (if m.escaped then ['\\', m.c] else [m.c]) + tail) == ScanAll(After(st, [m.c], false), tail)
  {
    var head := if m.escaped then ['\\', m.c] else [m.c];
    ScanAppend(st, head, tail);
    assert [m.c][1..] == "" && ['\\', m.c][1..] == [m.c];
    assert ScanAll(st, [m.c]) == Next(st, m.c);
    assert ScanAll(st, ['\\', m.c]) == ScanAll(Next(st, '\\'), [m.c]) == Next(Next(st, '\\'), m.c);
  }

  lemma {:induction false} MarksScan(st: Scan, ms: seq<Mark>)
    requires !st.escape && forall m :: m in ms ==> MarkOk(m, st.inQuotes)
    ensures ScanAll(st, MarksText(ms)) == After(st, MarksValue(ms), false)
    decreases |ms|
  {
    if ms == [] {
      AfterTwice(st, "", false, "", false);
    } else {
      var m, rest := ms[0], ms[1..];
      assert m in ms && forall x :: x in rest ==> x in ms;
      MarkThen(st, m, MarksText(rest));
      MarksScan(After(st, [m.c], false), rest);
      AfterTwice(st, [m.c], false, MarksValue(rest), false);
    }
  }

  lemma ChunkScan(st: Scan, k: Chunk)
    requires !st.escape && !st.inQuotes && ChunkOk(k)
    ensures ScanAll(st, ChunkText(k)) == After(st, MarksValue(k.marks), k.quoted)
  {
    if k.quoted {
      var body, open := MarksText(k.marks), st.(inQuotes := true, hadQuotes := true);
      assert "\"" + body + "\"" == "\"" + (body + "\"") && "\""[1..] == "";
      ScanAppend(st, "\"", body + "\"");
      assert ScanAll(st, "\"") == Next(st, '"') == open;
      ScanAppend(open, body, "\"");
      MarksScan(open, k.marks);
    } else {
      MarksScan(st, k.marks);
    }
  }

  lemma QuotedTail(ks: seq<Chunk>)
    requires ks != []
    ensures AnyQuoted(ks) <==> ks[0].quoted || AnyQuoted(ks[1..])
    ensures (forall k :: k in ks ==> ChunkOk(k)) ==> ChunkOk(ks[0]) && forall k :: k in ks[1..] ==> ChunkOk(k)
  {
    assert ks[0] in ks && forall x :: x in ks <==> x == ks[0] || x in ks[1..];
  }

  lemma {:induction false} ChunksScan(st: Scan, ks: seq<Chunk>)
    requires !st.escape && !st.inQuotes && forall k :: k in ks ==> ChunkOk(k)
    ensures ScanAll(st, ChunksText(ks)) == After(st, ChunksValue(ks), AnyQuoted(ks))
    decreases |ks|
  {
    if ks == [] {
      AfterTwice(st, "", false, "", false);
    } else {
      var k, rest := ks[0], ks[1..];
      QuotedTail(ks);
      ChunkScan(st, k);
      ScanAppend(st, ChunkText(k), ChunksText(rest));
      ChunksScan(After(st, MarksValue(k.marks), k.quoted), rest);
      AfterTwice(st, MarksValue(k.marks), k.quoted, ChunksValue(rest), AnyQuoted(rest));
    }
  }

  /** Between arguments. */
  function Between(args: seq<string>): Scan {
    Scan(args, "", false, false, false)
  }

  lemma {:induction false} BlanksScan(args: seq<string>, gap: string)
    requires Blank(gap)
    ensures ScanAll(Between(args), gap) == Between(args)
    decreases |gap|
  {
    if gap != "" {
      assert gap[0] in gap && forall c :: c in gap[1..] ==> c in gap;
      BlanksScan(args, gap[1..]);
    }
  }

  /** Blanks end an argument. */
  lemma GapScan(st: Scan, gap: string)
    requires !st.escape && !st.inQuotes && (st.current != "" || st.hadQuotes) && Blank(gap) && gap != ""
    ensures ScanAll(st, gap) == Between(st.args + [st.current])
  {
    assert gap[0] in gap && forall c :: c in gap[1..] ==> c in gap;
    BlanksScan(st.args + [st.current], gap[1..]);
  }

  lemma PieceScan(args: seq<string>, p: Piece, last: bool)
    requires PieceOk(p, last)
    ensures var end := ScanAll(Between(args), ChunksText(p.chunks) + p.gap);
            && (p.gap != "" ==> end == Between(args + [ChunksValue(p.chunks)]))
            && Close(end) == Some(args + [ChunksValue(p.chunks)])
  {
    var text := ChunksText(p.chunks);
    ChunksScan(Between(args), p.chunks);
    assert "" + ChunksValue(p.chunks) == ChunksValue(p.chunks);
    ScanAppend(Between(args), text, p.gap);
    if p.gap != "" { GapScan(ScanAll(Between(args), text), p.gap); } else { assert text + "" == text; }
  }

  /** An argument and what is behind it. */
  lemma PieceThen(args: seq<string>, p: Piece, tail: string)
    requires PieceOk(p, false)
    ensures ScanAll(Between(args), ChunksText(p.chunks) + p.gap + tail) == ScanAll(Between(args + [ChunksValue(p.chunks)]), tail)
  {
    PieceScan(args, p, false);
    ScanAppend(Between(args), ChunksText(p.chunks) + p.gap, tail);
  }

  lemma PiecesTail(ps: seq<Piece>)
    requires ps != [] && PiecesOk(ps)
    ensures PieceOk(ps[0], |ps| == 1) && PiecesOk(ps[1..])
  {
    assert forall i :: 0 <= i < |ps[1..]| ==> ps[1..][i] == ps[i + 1];
  }

  lemma Regrouped(args: seq<string>, v: string, rest: seq<string>)
    ensures args + [v] + rest == args + ([v] + rest) && args + [] == args
  {
  }

  lemma {:induction false} PiecesRead(args: seq<string>, ps: seq<Piece>)
    requires PiecesOk(ps)
    ensures Close(ScanAll(Between(args), PiecesText(ps))) == Some(args + PiecesValues(ps))
    decreases |ps|
  {
    if ps == [] {
      Regrouped(args, "", []);
    } else {
      PiecesTail(ps);
      if |ps| == 1 { LastRead(args, ps); } else {
        PieceThen(args, ps[0], PiecesText(ps[1..]));
        PiecesRead(args + [ChunksValue(ps[0].chunks)], ps[1..]);
        Regrouped(args, ChunksValue(ps[0].chunks), PiecesValues(ps[1..]));
      }
    }
  }

  lemma LastRead(args: seq<string>, ps: seq<Piece>)
    requires |ps| == 1 && PieceOk(ps[0], true)
    ensures Close(ScanAll(Between(args), PiecesText(ps))) == Some(args + PiecesValues(ps))
  {
    var text := ChunksText(ps[0].chunks) + ps[0].gap;
    PieceScan(args, ps[0], true);
    assert ps[1..] == [] && PiecesText(ps[1..]) == "" && PiecesValues(ps[1..]) == [];
    assert PiecesText(ps) == text && PiecesValues(ps) == [ChunksValue(ps[0].chunks)];
  }

  /** Arguments are read one by one: blanks and tabs outside quotes part them, quotes keep them together and go, and a
      backslash goes and keeps the character behind it, whatever that is. */
  lemma ReadsList(lead: string, ps: seq<Piece>)
    requires Blank(lead) && PiecesOk(ps)
    ensures ParseArgs(lead + PiecesText(ps)) == Some(PiecesValues(ps))
  {
    ScanAppend(START, lead, PiecesText(ps));
    BlanksScan([], lead);
    PiecesRead([], ps);
    assert [] + PiecesValues(ps) == PiecesValues(ps);
  }

  // ---------------------------------------------------------------- printed values

  /** A value in quotes as the printer writes it, or bare. */
  datatype Written = Written(value: string, quoted: bool, gap: string)

  function MarksOf(v: string): seq<Mark> {
    if v == "" then [] else [Mark(v[0], v[0] == '"')] + MarksOf(v[1..])
  }

  lemma {:induction false} MarksOfValue(v: string)
    ensures MarksText(MarksOf(v)) == Escaped(v) && MarksValue(MarksOf(v)) == v
    ensures forall m :: m in MarksOf(v) ==> m.c in v && m.escaped == (m.c == '"')
    decreases |v|
  {
    if v != "" {
      MarksOfValue(v[1..]);
      assert "\\\"" == ['\\', '"'] && v == [v[0]] + v[1..];
    }
  }

  lemma {:induction false} BareText(v: string)
    requires '"' !in v
    ensures Escaped(v) == v
    decreases |v|
  {
    if v != "" {
      assert v[0] in v && forall c :: c in v[1..] ==> c in v;
      BareText(v[1..]);
    }
  }

  function WrittenText(ws: seq<Written>): string {
    if ws == [] then "" else (if ws[0].quoted then "\"" + Escaped(ws[0].value) + "\"" else ws[0].value) + ws[0].gap + WrittenText(ws[1..])
  }

  function WrittenValues(ws: seq<Written>): seq<string> {
    if ws == [] then [] else [ws[0].value] + WrittenValues(ws[1..])
  }

  predicate WrittenOk(ws: seq<Written>) {
    forall i :: 0 <= i < |ws| ==>
      && '\\' !in ws[i].value && (!ws[i].quoted ==> ws[i].value != "" && forall c :: c in ws[i].value ==> !Special(c))
      && Blank(ws[i].gap) && (i + 1 < |ws| ==> ws[i].gap != "")
  }

  function PieceOf(w: Written): Piece {
    Piece([Chunk(MarksOf(w.value), w.quoted)], w.gap)
  }

  function PiecesOf(ws: seq<Written>): (ps: seq<Piece>)
    ensures |ps| == |ws| && forall i :: 0 <= i < |ws| ==> ps[i] == PieceOf(ws[i])
  {
    seq(|ws|, i requires 0 <= i < |ws| => PieceOf(ws[i]))
  }

  lemma PieceOfText(w: Written)
    requires !w.quoted ==> '"' !in w.value
    ensures ChunksText(PieceOf(w).chunks) == if w.quoted then "\"" + Escaped(w.value) + "\"" else w.value
    ensures ChunksValue(PieceOf(w).chunks) == w.value
  {
    var k := Chunk(MarksOf(w.value), w.quoted);
    MarksOfValue(w.value);
    if !w.quoted { BareText(w.value); }
    assert [k][1..] == [] && ChunkText(k) + "" == ChunkText(k) && w.value + "" == w.value;
  }

  lemma {:induction false} PiecesOfText(ws: seq<Written>)
    requires WrittenOk(ws)
    ensures PiecesText(PiecesOf(ws)) == WrittenText(ws) && PiecesValues(PiecesOf(ws)) == WrittenValues(ws) && PiecesOk(PiecesOf(ws))
    decreases |ws|
  {
    if ws != [] {
      var rest := ws[1..];
      assert WrittenOk(rest) by { assert forall i :: 0 <= i < |rest| ==> rest[i] == ws[i + 1]; }
      PiecesOfText(rest);
      assert PiecesOf(ws)[1..] == PiecesOf(rest);
      PieceOfText(ws[0]);
    }
    forall i | 0 <= i < |ws| ensures PieceOk(PiecesOf(ws)[i], i + 1 == |ws|) { WrittenPieceOk(ws[i]); }
  }

  lemma WrittenPieceOk(w: Written)
    requires '\\' !in w.value && (!w.quoted ==> w.value != "" && forall c :: c in w.value ==> !Special(c))
    ensures (forall k :: k in PieceOf(w).chunks ==> ChunkOk(k)) && (AnyQuoted(PieceOf(w).chunks) || ChunksValue(PieceOf(w).chunks) != "")
  {
    var k := Chunk(MarksOf(w.value), w.quoted);
    MarksOfValue(w.value);
    PieceOfText(w);
    assert k in [k];
  }

  /** A list of values without backslashes, each in quotes or, if it is not empty and has nothing special in it, bare,
      with any blanks and tabs between, is read as that list. */
  lemma ListReadsBack(lead: string, ws: seq<Written>)
    requires Blank(lead) && WrittenOk(ws)
    ensures ParseArgs(lead + WrittenText(ws)) == Some(WrittenValues(ws))
  {
    PiecesOfText(ws);
    ReadsList(lead, PiecesOf(ws));
  }

  // ---------------------------------------------------------------- texts that are not read

  /** The quotes with no backslash before them. */
  function Quotes(s: string, escape: bool): nat {
    if s == "" then 0
    else if escape then Quotes(s[1..], false)
    else if s[0] == '\\' then Quotes(s[1..], true)
    else (if s[0] == '"' then 1 else 0) + Quotes(s[1..], false)
  }

  lemma {:induction false} QuotesTell(st: Scan, s: string)
    ensures ScanAll(st, s).inQuotes <==> st.inQuotes != (Quotes(s, st.escape) % 2 == 1)
    decreases |s|
  {
    if s != "" { QuotesTell(Next(st, s[0]), s[1..]); }
  }

  /** Reading fails if and only if the quotes that count are odd in number. */
  lemma FailsExactly(s: string)
    ensures ParseArgs(s).None? <==> Quotes(s, false) % 2 == 1
  {
    QuotesTell(START, s);
  }

  /** A backslash at the very end goes without a word. */
  lemma LastBackslash(s: string)
    requires !ScanAll(START, s).escape
    ensures ParseArgs(s + "\\") == ParseArgs(s)
  {
    ScanAppend(START, s, "\\");
    assert "\\"[1..] == "";
  }

  // ---------------------------------------------------------------- whole lines

  /** A word that can stand at the head of a line. */
  predicate HeadWord(w: string) {
    w != "" && ' ' !in w && Trimmed(w) && w[0] != '#'
  }

  /** A line of a word, a blank and trimmed text. */
  lemma WordLine(w: string, x: string)
    requires HeadWord(w) && x != "" && Trimmed(x)
    ensures var line := w + " " + x;
            && TrimSpace(line) == line && line != "" && !IsComment(line)
            && Index(line, ' ') == |w| < |line| && line[..|w|] == w && line[|w| + 1..] == x
  {
    var line := w + " " + x;
    BlankAfter(w, x);
    assert line[0] == w[0] && line[|line| - 1] == x[|x| - 1];
    TrimSpaceTrims(line);
  }

  lemma WordSplits(w: string, x: string)
    requires HeadWord(w) && x != "" && Trimmed(x)
    ensures SplitCommand(w + " " + x) ==
            match ParseArgs(x)
            case None => None
            case Some(list) => Some((ToUpper(w), list))
  {
    WordLine(w, x);
    TrimSpaceTrims(w);
    TrimSpaceTrims(x);
  }

  lemma CommandHeads(cmd: string)
    requires cmd in COMMANDS
    ensures HeadWord(cmd) && ToUpper(cmd) == cmd
  {
    CommandsAreWords(cmd);
    assert ToUpper(cmd) == cmd;
  }

  lemma BadList(line: string, cmd: string, list: seq<string>)
    requires SplitCommand(line) == Some((cmd, list)) && TrimSpace(line) == line && line != "" && !IsComment(line)
    requires |list| != 1 || list[0] == ""
    ensures Classify(line) == Bad
  {
  }

  /** A known command with a list of arguments behind a blank is that command if there is one argument and it is not
      empty, and an error otherwise. */
  lemma LineOfArguments(cmd: string, ps: seq<Piece>, x: string)
    requires cmd in COMMANDS && PiecesOk(ps) && x == PiecesText(ps) && x != "" && Trimmed(x)
    ensures Classify(cmd + " " + x) == if |ps| == 1 && ChunksValue(ps[0].chunks) != "" then Cmd(cmd, ChunksValue(ps[0].chunks)) else Bad
  {
    TextReads(ps, x);
    ValuesCount(ps);
    LineOfList(cmd, x, PiecesValues(ps));
  }

  lemma TextReads(ps: seq<Piece>, x: string)
    requires PiecesOk(ps) && x == PiecesText(ps)
    ensures ParseArgs(x) == Some(PiecesValues(ps))
  {
    ReadsList("", ps);
    assert "" + x == x;
  }

  lemma LineOfList(cmd: string, x: string, values: seq<string>)
    requires cmd in COMMANDS && x != "" && Trimmed(x) && ParseArgs(x) == Some(values)
    ensures Classify(cmd + " " + x) == if |values| == 1 && values[0] != "" then Cmd(cmd, values[0]) else Bad
  {
    if |values| == 1 && values[0] != "" {
      assert values == [values[0]];
      PrintedTrimmed(cmd, x, values[0]);
    } else {
      CommandHeads(cmd);
      WordLine(cmd, x);
      WordSplits(cmd, x);
      BadList(cmd + " " + x, cmd, values);
    }
  }

  lemma {:induction false} ValuesCount(ps: seq<Piece>)
    ensures |PiecesValues(ps)| == |ps| && (|ps| == 1 ==> PiecesValues(ps) == [ChunksValue(ps[0].chunks)])
    decreases |ps|
  {
    if ps != [] {
      ValuesCount(ps[1..]);
      if |ps| == 1 { assert PiecesValues(ps[1..]) == []; }
    }
  }

  /** Two values or more on a line, each in quotes or bare, are an error. */
  lemma ManyValuesAreBad(cmd: string, ws: seq<Written>, x: string)
    requires cmd in COMMANDS && WrittenOk(ws) && 2 <= |ws| && x == WrittenText(ws) && x != "" && Trimmed(x)
    ensures Classify(cmd + " " + x) == Bad
  {
    PiecesOfText(ws);
    LineOfArguments(cmd, PiecesOf(ws), x);
  }

  /** `w` is `cmd` with some of its letters small. */
  predicate SameLetters(w: string, cmd: string) {
    |w| == |cmd| && forall i :: 0 <= i < |w| ==> w[i] == cmd[i] || ('a' <= w[i] <= 'z' && w[i] as int - 32 == cmd[i] as int)
  }

  lemma LettersUp(w: string, cmd: string, x: string)
    requires cmd in COMMANDS && SameLetters(w, cmd)
    ensures ToUpper(w + " " + x) == ToUpper(cmd + " " + x) && ToUpper(w) == cmd && HeadWord(w)
  {
    CommandsAreWords(cmd);
    forall i | 0 <= i < |w| ensures UpperChar(w[i]) == UpperChar(cmd[i]) == cmd[i] && w[i] != ' ' && w[i] != '#' && !IsSpace(w[i]) {}
    var a, b := w + " " + x, cmd + " " + x;
    forall i | 0 <= i < |a| ensures UpperChar(a[i]) == UpperChar(b[i]) {
      if i < |w| { assert a[i] == w[i] && b[i] == cmd[i]; } else { assert a[i] == b[i]; }
    }
  }

  lemma SameClass(a: string, b: string)
    requires TrimSpace(a) == a && TrimSpace(b) == b && a != "" && b != "" && !IsComment(a) && !IsComment(b)
    requires ToUpper(a) == ToUpper(b) && SplitCommand(a) == SplitCommand(b)
    ensures Classify(a) == Classify(b)
  {
  }

  /** The letters of a command may be small or capital. */
  lemma AnyCase(w: string, cmd: string, x: string)
    requires cmd in COMMANDS && SameLetters(w, cmd) && x != "" && Trimmed(x)
    ensures Classify(w + " " + x) == Classify(cmd + " " + x)
  {
    LettersUp(w, cmd, x);
    CommandHeads(cmd);
    WordLine(w, x);
    WordSplits(w, x);
    WordLine(cmd, x);
    WordSplits(cmd, x);
    SameClass(w + " " + x, cmd + " " + x);
  }

  // ---------------------------------------------------------------- white space around a line

  predicate White(s: string) {
    forall c :: c in s ==> c == ' ' || c == '\t' || c == '\r'
  }

  /** Of the ASCII characters these six are space. */
  lemma AsciiSpaces(c: char)
    requires c < '\U{80}'
    ensures IsSpace(c) <==> c == ' ' || c == '\t' || c == '\n' || c == '\U{0B}' || c == '\U{0C}' || c == '\r'
  {
  }

  lemma {:induction false} LeftGone(a: string, s: string)
    requires White(a)
    ensures TrimLeft(a + s) == TrimLeft(s)
    decreases |a|
  {
    if a == "" {
      assert a + s == s;
    } else {
      assert a[0] in a && (a + s)[1..] == a[1..] + s && forall c :: c in a[1..] ==> c in a;
      LeftGone(a[1..], s);
    }
  }

  lemma {:induction false} RightGone(s: string, b: string)
    requires White(b)
    ensures TrimRight(s + b) == TrimRight(s)
    decreases |b|
  {
    if b == "" {
      assert s + b == s;
    } else {
      var k := |b| - 1;
      assert b[k] in b && (s + b)[..|s + b| - 1] == s + b[..k] && forall c :: c in b[..k] ==> c in b;
      RightGone(s, b[..k]);
    }
  }

  lemma {:induction false} LeftThen(s: string, b: string)
    requires White(b)
    ensures TrimLeft(s + b) == if TrimLeft(s) != "" then TrimLeft(s) + b else ""
    decreases |s|
  {
    if s == "" {
      assert s + b == b && b + "" == b;
      LeftGone(b, "");
    } else if IsSpace(s[0]) {
      assert (s + b)[1..] == s[1..] + b;
      LeftThen(s[1..], b);
    }
  }

  /** Blanks, tabs and carriage returns around a line make no difference. */
  lemma RimIgnored(a: string, line: string, b: string)
    requires White(a) && White(b)
    ensures Classify(a + (line + b)) == Classify(line)
  {
    LeftGone(a, line + b);
    LeftThen(line, b);
    RightGone(TrimLeft(line), b);
  }
}
