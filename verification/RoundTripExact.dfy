/** When a printed Modelfile comes back, and only then.

    The one direction is the round trip. For the other, a value that came back was read from some printed line: a
    field from its own line alone (`FieldReadFrom`), a path from a line of its own set (`PathReadFrom`). A line that is
    read as something shorter than what it was printed for cannot make up for the longest value that was lost, and
    nothing that is read holds a newline (`ReadsFlat`). */
module RoundTripExactly {
  import opened Options
  import opened Text
  import opened Quoting
  import opened Parser
  import opened Printing
  import opened Ordering
  import opened Modelfiles
  import opened RoundTrip

  // ---------------------------------------------------------------- what a line that changes becomes

  /** The first blank of a printed line ends its command. */
  lemma FirstBlank(cmd: string, x: string, t: string, k: nat)
    requires cmd in COMMANDS && t <= cmd + " " + x && k < |t| && t[k] == ' ' && ' ' !in t[..k]
    ensures t[..k] == cmd
  {
    var line := cmd + " " + x;
    CommandPrefix(cmd, x);
    assert line[k] == ' ' && line[..k] == t[..k];
    IndexUnique(line, ' ', k);
    assert line[..|cmd|] == cmd;
  }

  /** A printed line can only be read as its own command. */
  lemma OwnCommand(cmd: string, x: string, c: string, a: string)
    requires cmd in COMMANDS && Classify(cmd + " " + x) == Cmd(c, a)
    ensures c == cmd
  {
    var line := cmd + " " + x;
    var t := TrimSpace(line);
    assert t <= line && ToUpper(TrimSpace(cmd)) == cmd by {
      CommandPrefix(cmd, x);
      TrimRightKeeps(line);
    }
    assert CommandText(t, c, a) by { ClassifyExactly(line, c, a); }
    var k :| 0 <= k < |t| && t[k] == ' ' && ' ' !in t[..k]
      && ToUpper(TrimSpace(t[..k])) == c && ParseArgs(TrimSpace(t[k + 1..])) == Some([a]);
    FirstBlank(cmd, x, t, k);
  }

  /** A field line that does not keep its value reads as a shorter one. */
  lemma FieldShrinks(cmd: string, v: string, a: string)
    requires cmd in COMMANDS && !FieldOk(v) && Classify(cmd + " " + v) == Cmd(cmd, a)
    ensures |a| < |v|
  {
    if v == "" {
      assert cmd + " " + v == cmd + " ";
      EmptyRest(cmd, a);
    } else if Trimmed(v) {
      PrintedTrimmed(cmd, v, a);
      SpecialLoses(v);
      OneArgument(ScanAll(START, v), a);
    } else {
      PrintedUntrimmed(cmd, v, a);
    }
  }

  /** A command with nothing behind it is no command. */
  lemma EmptyRest(cmd: string, a: string)
    requires cmd in COMMANDS
    ensures Classify(cmd + " ") != Cmd(cmd, a)
  {
    var line := cmd + " ";
    var t := TrimSpace(line);
    assert line == cmd + " " + "";
    CommandPrefix(cmd, "");
    TrimRightKeeps(line);
    TrimSpaceTrims(line);
    assert t != line && ' ' !in t by { assert IsSpace(line[|line| - 1]); }
    ClassifyExactly(line, cmd, a);
  }

  lemma PathShrinks(cmd: string, v: string, a: string)
    requires cmd in COMMANDS && !PathOk(v) && Classify(cmd + " " + QuoteIfNeeded(v)) == Cmd(cmd, a)
    ensures |a| < |v|
  {
    if NeedsQuotes(v) {
      var q := QuoteIfNeeded(v);
      assert Trimmed(q);
      PrintedTrimmed(cmd, q, a);
      QuotedLoses(v);
      OneArgument(ScanAll(START, q), a);
    } else {
      NotQuotedOk(v);
      FieldShrinks(cmd, v, a);
    }
  }

  lemma NotQuotedOk(v: string)
    requires !NeedsQuotes(v)
    ensures PathOk(v) <==> FieldOk(v)
  {
    if PathOk(v) {
      forall c | c in v ensures !Special(c) {}
    }
  }

  // ---------------------------------------------------------------- which lines there are

  /** An empty line or a comment, and one line of the scanner. */
  ghost predicate Mute(line: string) {
    (line == "" || line[0] == '#') && Fits(line)
  }

  lemma MuteSkips(line: string)
    requires Mute(line)
    ensures Classify(line) == Skip
  {
    assert TrimSpace("") == "";
    if line != "" { TrimRightKeeps(line); }
  }

  /** The words of the program itself are short lines. */
  ghost predicate WordingFits(now: string, w: Wording)
    requires Worded(w)
  {
    && Fits("# Generated at " + now)
    && (forall c :: c in SINGLE ==> Fits("# " + w.comments[c]))
    && (forall c :: c in FILE_ORDER ==> Fits("# " + w.comments[c]) && Fits("# Supported file types: " + Join(w.patterns[c], ", ")))
  }

  ghost predicate IsFieldLine(rows: seq<string>, fields: map<string, string>, line: string)
    requires Tabled(rows, fields)
  {
    exists row :: row in rows && fields[row] != "" && line == row + " " + fields[row]
  }

  ghost predicate IsPathLine(rows: seq<string>, listed: map<string, seq<string>>, line: string)
    requires Tabled(rows, listed)
  {
    exists row, v :: row in rows && v in listed[row] && line == row + " " + QuoteIfNeeded(v)
  }

  /** A line of the fields is mute or the line of a field that is set. */
  lemma {:induction false} FieldLineOf(rows: seq<string>, fields: map<string, string>, comments: map<string, string>, line: string)
    requires Tabled(rows, fields) && Tabled(rows, comments) && forall c :: c in rows ==> Fits("# " + comments[c])
    requires line in FieldsPart(rows, fields, comments)
    ensures Mute(line) || IsFieldLine(rows, fields, line)
    decreases |rows|
  {
    var head, rest := rows[0], rows[1..];
    assert rows == [head] + rest;
    if line !in FieldLines(comments[head], head, fields[head]) { FieldLineOf(rest, fields, comments, line); }
  }

  lemma {:induction false} PathLineOf(cmd: string, values: seq<string>, line: string)
    requires line in PathLines(cmd, values)
    ensures exists v :: v in values && line == cmd + " " + QuoteIfNeeded(v)
    decreases |values|
  {
    assert values == [values[0]] + values[1..];
    if line != cmd + " " + QuoteIfNeeded(values[0]) { PathLineOf(cmd, values[1..], line); }
  }

  lemma FileLineOf(cmd: string, values: seq<string>, comment: string, patterns: seq<string>, line: string)
    requires Fits("# " + comment) && Fits("# Supported file types: " + Join(patterns, ", "))
    requires line in FileLines(comment, cmd, values, patterns)
    ensures Mute(line) || exists v :: v in values && line == cmd + " " + QuoteIfNeeded(v)
  {
    var header := FileHeader(comment, patterns);
    assert Mute(header[0]) && Mute(header[1]) && Mute(header[2]);
    if line !in header { PathLineOf(cmd, values, line); }
  }

  lemma {:induction false} FilesLineOf(rows: seq<string>, listed: map<string, seq<string>>, w: Wording, line: string)
    requires Tabled(rows, listed) && Tabled(rows, w.comments) && Tabled(rows, w.patterns)
    requires forall c :: c in rows ==> Fits("# " + w.comments[c]) && Fits("# Supported file types: " + Join(w.patterns[c], ", "))
    requires line in FilesPart(rows, listed, w)
    ensures Mute(line) || IsPathLine(rows, listed, line)
    decreases |rows|
  {
    var head, rest := rows[0], rows[1..];
    assert rows == [head] + rest;
    if line in FileLines(w.comments[head], head, listed[head], w.patterns[head]) {
      FileLineOf(head, listed[head], w.comments[head], w.patterns[head], line);
    } else {
      FilesLineOf(rest, listed, w, line);
    }
  }

  /** A Modelfile, printed with its sets as listed. */
  ghost predicate Printed(now: string, v: Values, listed: map<string, seq<string>>, w: Wording) {
    Shaped(v) && Listed(FILE_ORDER, listed, v.files) && Tabled(SINGLE, v.fields) && Worded(w) && WordingFits(now, w)
  }

  /** Every line of `Content`, and where it comes from. */
  lemma ContentLineOf(now: string, v: Values, listed: map<string, seq<string>>, w: Wording, line: string)
    requires Printed(now, v, listed, w) && line in ContentLines(now, v.fields, listed, w)
    ensures Mute(line) || IsFieldLine(SINGLE, v.fields, line) || IsPathLine(FILE_ORDER, listed, line)
  {
    var first := ["# Generated at " + now];
    assert Mute(first[0]);
    if line in FieldsPart(SINGLE, v.fields, w.comments) {
      FieldLineOf(SINGLE, v.fields, w.comments, line);
    } else if line in FilesPart(FILE_ORDER, listed, w) {
      FilesLineOf(FILE_ORDER, listed, w, line);
    }
  }

  /** Only its own line is read as a field. */
  lemma FieldReadFrom(now: string, v: Values, listed: map<string, seq<string>>, w: Wording, cmd: string, line: string, a: string)
    requires Printed(now, v, listed, w) && cmd in SINGLE && line in ContentLines(now, v.fields, listed, w) && Classify(line) == Cmd(cmd, a)
    ensures line == cmd + " " + v.fields[cmd]
  {
    ContentLineOf(now, v, listed, w, line);
    FileRows();
    CommandsSplit(cmd);
    if Mute(line) { MuteSkips(line); }
    if row :| row in SINGLE && v.fields[row] != "" && line == row + " " + v.fields[row] { OwnCommand(row, v.fields[row], cmd, a); }
    if row, x :| row in FILE_ORDER && x in listed[row] && line == row + " " + QuoteIfNeeded(x) { OwnCommand(row, QuoteIfNeeded(x), cmd, a); }
  }

  /** Only path lines of a file command are read as that command. */
  lemma PathReadFrom(now: string, v: Values, listed: map<string, seq<string>>, w: Wording, cmd: string, line: string, a: string)
    requires Printed(now, v, listed, w) && cmd in FILE_ORDER && line in ContentLines(now, v.fields, listed, w) && Classify(line) == Cmd(cmd, a)
    ensures exists x :: x in listed[cmd] && line == cmd + " " + QuoteIfNeeded(x)
  {
    ContentLineOf(now, v, listed, w, line);
    FileRows();
    CommandsSplit(cmd);
    if Mute(line) { MuteSkips(line); }
    if row :| row in SINGLE && v.fields[row] != "" && line == row + " " + v.fields[row] { OwnCommand(row, v.fields[row], cmd, a); }
    if row, x :| row in FILE_ORDER && x in listed[row] && line == row + " " + QuoteIfNeeded(x) { OwnCommand(row, QuoteIfNeeded(x), cmd, a); }
  }

  // ---------------------------------------------------------------- nothing read holds a newline

  predicate Flat(s: string) {
    '\n' !in s
  }

  lemma DroppedFlat(s: string)
    requires Flat(s)
    ensures Flat(DropCR(s))
  {
    assert forall c :: c in DropCR(s) ==> c in s;
  }

  lemma {:induction false} ScannedFlat(s: string, l: string)
    requires l in ScanLines(s)
    ensures Flat(l)
    decreases |s|
  {
    var k := Index(s, '\n');
    if l == DropCR(s[..k]) {
      DroppedFlat(s[..k]);
    } else {
      ScannedFlat(s[k + 1..], l);
    }
  }

  ghost predicate FlatScan(st: Scan) {
    Flat(st.current) && forall a :: a in st.args ==> Flat(a)
  }

  lemma {:induction false} ScanStaysFlat(st: Scan, s: string)
    requires FlatScan(st) && Flat(s)
    ensures FlatScan(ScanAll(st, s))
    decreases |s|
  {
    if s != "" {
      assert s[0] in s && forall c :: c in s[1..] ==> c in s;
      assert FlatScan(Next(st, s[0])) by {
        forall a | a in Next(st, s[0]).args ensures Flat(a) { assert a in st.args || a == st.current; }
      }
      ScanStaysFlat(Next(st, s[0]), s[1..]);
    }
  }

  lemma ReadArgFlat(line: string, c: string, a: string)
    requires Flat(line) && Classify(line) == Cmd(c, a)
    ensures Flat(a)
  {
    var t := TrimSpace(line);
    TrimSpaceTrims(line);
    ClassifyExactly(line, c, a);
    CommandRest(t, c, a);
    var rest := t[Index(t, ' ') + 1..];
    TrimSpaceTrims(rest);
    assert Flat(TrimSpace(rest)) by { assert forall x :: x in rest ==> x in t; }
    ScanStaysFlat(START, TrimSpace(rest));
    assert a in [a];
  }

  // ---------------------------------------------------------------- what was said

  /** The commands of some lines say what the lines do. */
  lemma SaidByLine(lines: seq<string>, cmds: seq<Command>, c: string, a: string)
    requires Collect(Kinds(lines), 0) == Ok(cmds)
    ensures Said(cmds, c, a) <==> exists l :: l in lines && Classify(l) == Cmd(c, a)
  {
    var kinds := Kinds(lines);
    CollectLists(kinds, 0);
    if Said(cmds, c, a) {
      var k :| 0 <= k < |cmds| && cmds[k].cmd == c && cmds[k].arg == a;
      assert Classify(lines[cmds[k].line]) == Cmd(c, a);
    }
    if l :| l in lines && Classify(l) == Cmd(c, a) {
      var i :| 0 <= i < |lines| && lines[i] == l;
      assert kinds[i].Cmd? && Command(kinds[i].cmd, kinds[i].arg, 0 + i) in cmds;
      var k :| 0 <= k < |cmds| && cmds[k] == Command(c, a, i);
    }
  }

  lemma CommandsWellFormed(lines: seq<string>, cmds: seq<Command>)
    requires Collect(Kinds(lines), 0) == Ok(cmds)
    ensures forall k :: 0 <= k < |cmds| ==> cmds[k].cmd in COMMANDS && cmds[k].arg != ""
  {
    CollectLists(Kinds(lines), 0);
    forall k | 0 <= k < |cmds| ensures cmds[k].cmd in COMMANDS && cmds[k].arg != "" {
      ClassifiedCommand(lines[cmds[k].line]);
    }
  }

  /** Some lines whose commands say exactly these values. */
  ghost predicate CameFrom(lines: seq<string>, v: Values) {
    Collect(Kinds(lines), 0).Ok? && Says(Collect(Kinds(lines), 0).value, v)
  }

  lemma {:induction false} ReadMeansSaid(text: string, v: Values)
    requires ReadFile(text) == Ok(v)
    ensures CameFrom(ScanLines(text), v)
  {
    var cmds := ParseText(text).value;
    CommandsWellFormed(ScanLines(text), cmds);
    ReadsExactly(cmds);
  }

  /** Each value has a line it was read from. */
  lemma FieldLine(lines: seq<string>, v: Values, c: string) returns (l: string)
    requires CameFrom(lines, v) && c in v.fields && v.fields[c] != ""
    ensures l in lines && Classify(l) == Cmd(c, v.fields[c])
  {
    var cmds := Collect(Kinds(lines), 0).value;
    SaidByLine(lines, cmds, c, v.fields[c]);
    l :| l in lines && Classify(l) == Cmd(c, v.fields[c]);
  }

  lemma PathLine(lines: seq<string>, v: Values, c: string, a: string) returns (l: string)
    requires CameFrom(lines, v) && c in v.files && a in v.files[c]
    ensures l in lines && Classify(l) == Cmd(c, a)
  {
    var cmds := Collect(Kinds(lines), 0).value;
    SaidByLine(lines, cmds, c, a);
    l :| l in lines && Classify(l) == Cmd(c, a);
  }

  /** No value with a newline comes out of any text. */
  ghost predicate FlatValues(v: Values) {
    (forall c :: c in v.fields ==> Flat(v.fields[c])) && (forall c, a :: c in v.files && a in v.files[c] ==> Flat(a))
  }

  lemma ReadsFlat(text: string, v: Values)
    requires ReadFile(text) == Ok(v)
    ensures FlatValues(v)
  {
    var lines := ScanLines(text);
    ReadMeansSaid(text, v);
    forall c | c in v.fields ensures Flat(v.fields[c]) {
      if v.fields[c] != "" {
        var l := FieldLine(lines, v, c);
        ScannedFlat(text, l);
        ReadArgFlat(l, c, v.fields[c]);
      }
    }
    forall c, a | c in v.files && a in v.files[c] ensures Flat(a) {
      var l := PathLine(lines, v, c, a);
      ScannedFlat(text, l);
      ReadArgFlat(l, c, a);
    }
  }

  // ---------------------------------------------------------------- the lines that are delivered

  lemma {:induction false} EscapedFlat(v: string)
    requires Flat(v)
    ensures Flat(Escaped(v))
    decreases |v|
  {
    if v != "" {
      assert v[0] in v && forall c :: c in v[1..] ==> c in v;
      EscapedFlat(v[1..]);
    }
  }

  lemma CommandFlat(cmd: string, x: string)
    requires cmd in COMMANDS && Flat(x)
    ensures Flat(cmd + " " + x)
  {
    CommandsAreWords(cmd);
  }

  lemma FieldLineFlat(fields: map<string, string>, line: string)
    requires Tabled(SINGLE, fields) && IsFieldLine(SINGLE, fields, line) && forall c :: c in fields ==> Flat(fields[c])
    ensures Flat(line)
  {
    var row :| row in SINGLE && fields[row] != "" && line == row + " " + fields[row];
    CommandFlat(row, fields[row]);
  }

  lemma PathLineFlat(listed: map<string, seq<string>>, line: string)
    requires Tabled(FILE_ORDER, listed) && IsPathLine(FILE_ORDER, listed, line) && FlatListings(FILE_ORDER, listed)
    ensures Flat(line)
  {
    var row, x :| row in FILE_ORDER && x in listed[row] && line == row + " " + QuoteIfNeeded(x);
    EscapedFlat(x);
    CommandFlat(row, QuoteIfNeeded(x));
  }

  ghost predicate FlatListings(rows: seq<string>, listed: map<string, seq<string>>) {
    forall c, x :: c in rows && c in listed && x in listed[c] ==> Flat(x)
  }

  lemma ListedFlat(rows: seq<string>, listed: map<string, seq<string>>, files: map<string, set<string>>)
    requires Listed(rows, listed, files) && forall c, a :: c in files && a in files[c] ==> Flat(a)
    ensures FlatListings(rows, listed)
  {
    forall c, x | c in rows && c in listed && x in listed[c] ensures Flat(x) {
      ListingElements(listed[c], files[c]);
      assert x in Elements(listed[c]);
    }
  }

  lemma ContentFlat(now: string, v: Values, listed: map<string, seq<string>>, w: Wording, line: string)
    requires Printed(now, v, listed, w) && FlatValues(v) && line in ContentLines(now, v.fields, listed, w)
    ensures Flat(line)
  {
    ContentLineOf(now, v, listed, w, line);
    if IsFieldLine(SINGLE, v.fields, line) { FieldLineFlat(v.fields, line); }
    if IsPathLine(FILE_ORDER, listed, line) {
      ListedFlat(FILE_ORDER, listed, v.files);
      PathLineFlat(listed, line);
    }
  }

  /** The lines before the first that is too long. */
  function Delivered(lines: seq<string>): seq<string> {
    if lines == [] || !Fits(lines[0]) then [] else [lines[0]] + Delivered(lines[1..])
  }

  lemma {:induction false} DeliveredFits(lines: seq<string>, l: string)
    requires l in Delivered(lines)
    ensures l in lines && Fits(l)
    decreases |lines|
  {
    if l != lines[0] { DeliveredFits(lines[1..], l); }
  }

  lemma StopsAtLong(l: string, rest: string)
    requires Flat(l) && !Fits(l)
    ensures ScanLines(l + "\n" + rest) == []
  {
    var s, k := l + "\n" + rest, |l|;
    assert s[..k] == l && s[k] == '\n';
    assert Utf8Length("") == 0;
    IndexUnique(s, '\n', k);
  }

  lemma {:induction false} ScannedDelivered(lines: seq<string>)
    requires forall l :: l in lines ==> Flat(l)
    ensures Kinds(ScanLines(Unlines(lines))) == Kinds(Delivered(lines))
    decreases |lines|
  {
    if lines == [] { return; }
    var l, rest := lines[0], lines[1..];
    assert l in lines && forall x :: x in rest ==> x in lines;
    if Fits(l) {
      ScanLine(l, Unlines(rest));
      ScannedDelivered(rest);
      DropIsTrimmed(l);
      KindsAppend([DropCR(l)], ScanLines(Unlines(rest)));
      KindsAppend([l], Delivered(rest));
      assert Kinds([DropCR(l)]) == Kinds([l]);
    } else {
      StopsAtLong(l, Unlines(rest));
    }
  }

  // ---------------------------------------------------------------- what must hold

  ghost predicate FieldSurvives(cmd: string, v: string) {
    FieldOk(v) && Fits(cmd + " " + v)
  }

  ghost predicate PathSurvives(cmd: string, v: string) {
    PathOk(v) && Fits(cmd + " " + QuoteIfNeeded(v))
  }

  lemma LongestLost(cmd: string, values: seq<string>, k: nat) returns (w: string)
    requires k < |values| && !PathSurvives(cmd, values[k])
    ensures w in values && !PathSurvives(cmd, w) && forall u :: u in values && !PathSurvives(cmd, u) ==> |u| <= |w|
  {
    w := values[k];
    for i := 0 to |values|
      invariant w in values && !PathSurvives(cmd, w) && forall j :: 0 <= j < i && !PathSurvives(cmd, values[j]) ==> |values[j]| <= |w|
    {
      if !PathSurvives(cmd, values[i]) && |w| < |values[i]| { w := values[i]; }
    }
  }

  /** The lines `lines` of the print gave its values back. */
  ghost predicate GaveBack(now: string, v: Values, listed: map<string, seq<string>>, w: Wording, lines: seq<string>) {
    && Printed(now, v, listed, w) && CameFrom(lines, v)
    && forall l :: l in lines ==> Fits(l) && l in ContentLines(now, v.fields, listed, w)
  }

  lemma FieldMustSurvive(now: string, v: Values, listed: map<string, seq<string>>, w: Wording, lines: seq<string>, cmd: string)
    requires GaveBack(now, v, listed, w, lines) && cmd in SINGLE && v.fields[cmd] != ""
    ensures FieldSurvives(cmd, v.fields[cmd])
  {
    var l := FieldLine(lines, v, cmd);
    FieldReadFrom(now, v, listed, w, cmd, l, v.fields[cmd]);
    FieldLineExactly(cmd, v.fields[cmd]);
  }

  /** The longest path that its line does not keep would have to be read from a longer one. */
  lemma PathsMustSurvive(now: string, v: Values, listed: map<string, seq<string>>, w: Wording, lines: seq<string>, cmd: string, u: string)
    requires GaveBack(now, v, listed, w, lines) && cmd in FILE_ORDER && u in listed[cmd]
    ensures PathSurvives(cmd, u)
  {
    if !PathSurvives(cmd, u) {
      var values := listed[cmd];
      var k :| 0 <= k < |values| && values[k] == u;
      var lost := LongestLost(cmd, values, k);
      ListingElements(values, v.files[cmd]);
      assert lost in Elements(values);
      FileRows();
      var l := PathLine(lines, v, cmd, lost);
      PathReadFrom(now, v, listed, w, cmd, l, lost);
      var x :| x in values && l == cmd + " " + QuoteIfNeeded(x);
      if PathOk(x) {
        PathLineExactly(cmd, x);
      } else {
        PathShrinks(cmd, x, lost);
      }
    }
  }

  ghost predicate ValuesSurvive(v: Values, listed: map<string, seq<string>>)
    requires Tabled(SINGLE, v.fields) && Tabled(FILE_ORDER, listed)
  {
    && (forall c :: c in SINGLE && v.fields[c] != "" ==> FieldSurvives(c, v.fields[c]))
    && (forall c, p :: c in FILE_ORDER && p in listed[c] ==> PathSurvives(c, p))
  }

  lemma {:induction false} BackMeansSurvived(now: string, v: Values, listed: map<string, seq<string>>, w: Wording)
    requires Printed(now, v, listed, w) && ReadFile(Unlines(ContentLines(now, v.fields, listed, w))) == Ok(v)
    ensures ValuesSurvive(v, listed)
  {
    var all := ContentLines(now, v.fields, listed, w);
    var lines := Delivered(all);
    ReadsFlat(Unlines(all), v);
    ReadMeansSaid(Unlines(all), v);
    forall l | l in all ensures Flat(l) { ContentFlat(now, v, listed, w, l); }
    ScannedDelivered(all);
    forall l | l in lines ensures Fits(l) && l in all { DeliveredFits(all, l); }
    assert GaveBack(now, v, listed, w, lines);
    forall c | c in SINGLE && v.fields[c] != "" ensures FieldSurvives(c, v.fields[c]) { FieldMustSurvive(now, v, listed, w, lines, c); }
    forall c, p | c in FILE_ORDER && p in listed[c] ensures PathSurvives(c, p) { PathsMustSurvive(now, v, listed, w, lines, c, p); }
  }

  lemma SurvivedIsPrintable(now: string, v: Values, listed: map<string, seq<string>>, w: Wording)
    requires Printed(now, v, listed, w) && ValuesSurvive(v, listed)
    ensures Printable(now, v, listed, w)
  {
    FileRows();
    forall row | row in SINGLE ensures row in COMMANDS && FieldPrintable(row, v.fields[row], w.comments[row]) {}
    forall row | row in FILE_ORDER ensures row in COMMANDS && FilePrintable(row, listed[row], w.comments[row], w.patterns[row]) {
      forall p | p in listed[row] ensures PathOk(p) && Fits(row + " " + QuoteIfNeeded(p)) { assert PathSurvives(row, p); }
    }
  }

  lemma {:induction false} ListedComesBackExactly(now: string, v: Values, listed: map<string, seq<string>>, w: Wording)
    requires Printed(now, v, listed, w)
    ensures "DATASET" in v.files
    ensures ReadFile(Unlines(ContentLines(now, v.fields, listed, w))) == Ok(v) <==> ValuesSurvive(v, listed) && v.files["DATASET"] == {}
  {
    FileRows();
    if ReadFile(Unlines(ContentLines(now, v.fields, listed, w))) == Ok(v) { BackMeansSurvived(now, v, listed, w); }
    if ValuesSurvive(v, listed) {
      SurvivedIsPrintable(now, v, listed, w);
      ListedReadsBack(now, v, listed, w);
    }
  }

  // ---------------------------------------------------------------- the theorem

  /** No datasets. Every field that is set has no space at either end and no blank, tab, quote or backslash inside. Every
      path is not empty and holds no backslash, and where it is printed bare it holds no quote and has no space at
      either end. None of them holds a newline or makes a line too long for the scanner. */
  ghost predicate Survives(v: Values) {
    && "DATASET" in v.files && v.files["DATASET"] == {}
    && (forall c :: c in v.fields && v.fields[c] != "" ==> FieldSurvives(c, v.fields[c]))
    && (forall c, p :: c in v.files && p in v.files[c] ==> PathSurvives(c, p))
  }

  lemma ListedPaths(rows: seq<string>, listed: map<string, seq<string>>, files: map<string, set<string>>, c: string, p: string)
    requires Listed(rows, listed, files) && c in rows
    ensures p in files[c] <==> p in listed[c]
  {
    ListingElements(listed[c], files[c]);
    assert p in Elements(listed[c]) <==> p in files[c];
  }

  lemma SurvivesListed(v: Values, listed: map<string, seq<string>>)
    requires Shaped(v) && Tabled(SINGLE, v.fields) && Listed(FILE_ORDER, listed, v.files)
    ensures "DATASET" in v.files
    ensures Survives(v) <==> ValuesSurvive(v, listed) && v.files["DATASET"] == {}
  {
    SingleRows();
    FileRows();
    forall c, p | c in FILE_ORDER ensures p in v.files[c] <==> p in listed[c] { ListedPaths(FILE_ORDER, listed, v.files, c, p); }
  }

  /** Whatever the values are, parsing what `Content` prints gives the Modelfile back if and only if it survives. */
  lemma {:induction false} ContentComesBackExactly(now: string, v: Values, w: Wording)
    requires Shaped(v) && Worded(w) && WordingFits(now, w)
    ensures ReadFile(ContentText(now, v, w)) == Ok(v) <==> Survives(v)
  {
    ShapedTabled(v);
    ListedOfLists(FILE_ORDER, v.files);
    SurvivesListed(v, ListedOf(v.files));
    ListedComesBackExactly(now, v, ListedOf(v.files), w);
  }
}
