/** `Content` and reading its result back.

    The printed text is a list of lines, each ended by a newline. The scanner delivers lines that fit one by one, and
    each of them is blank, a comment, or one command (`Reads`); what the commands say is put together again from the
    table of the seven fields (`FieldsApply`) and from the sorted listings of the four sets (`FilesApply`). None of this
    depends on the wording of the comments, nor on the order in which a set is walked. */
module RoundTrip {
  import opened Options
  import opened Text
  import opened Quoting
  import opened Parser
  import opened Printing
  import opened Ordering
  import opened Modelfiles

  // ---------------------------------------------------------------- commands without their lines

  function Pairs(kinds: seq<LineKind>): seq<(string, string)> {
    if kinds == [] then [] else PairOf(kinds[0]) + Pairs(kinds[1..])
  }

  function PairOf(kind: LineKind): seq<(string, string)> {
    if kind.Cmd? then [(kind.cmd, kind.arg)] else []
  }

  function Erase(cmds: seq<Command>): (ps: seq<(string, string)>)
    ensures |ps| == |cmds|
  {
    seq(|cmds|, i requires 0 <= i < |cmds| => (cmds[i].cmd, cmds[i].arg))
  }

  function ApplyPairs(v: Values, ps: seq<(string, string)>): Option<Values>
    decreases |ps|
  {
    if ps == [] then Some(v)
    else
      match Apply(v, ps[0].0, ps[0].1)
      case None => None
      case Some(v1) => ApplyPairs(v1, ps[1..])
  }

  lemma {:induction false} ApplyPairsAppend(v: Values, ps: seq<(string, string)>, qs: seq<(string, string)>)
    ensures ApplyPairs(v, ps + qs) ==
            match ApplyPairs(v, ps)
            case None => None
            case Some(v1) => ApplyPairs(v1, qs)
    decreases |ps|
  {
    if ps == [] {
      assert ps + qs == qs;
    } else {
      assert (ps + qs)[1..] == ps[1..] + qs;
      if Apply(v, ps[0].0, ps[0].1).Some? { ApplyPairsAppend(Apply(v, ps[0].0, ps[0].1).value, ps[1..], qs); }
    }
  }

  lemma {:induction false} ApplyErased(v: Values, cmds: seq<Command>)
    ensures ApplyPairs(v, Erase(cmds)) == if ApplyAll(v, cmds).Ok? then Some(ApplyAll(v, cmds).value) else None
    decreases |cmds|
  {
    if cmds != [] {
      var before, c := cmds[..|cmds| - 1], cmds[|cmds| - 1];
      ApplyErased(v, before);
      assert Erase(cmds) == Erase(before) + [(c.cmd, c.arg)];
      ApplyPairsAppend(v, Erase(before), [(c.cmd, c.arg)]);
    }
  }

  lemma {:induction false} CollectPairs(kinds: seq<LineKind>, n: nat)
    requires Collect(kinds, n).Ok?
    ensures Erase(Collect(kinds, n).value) == Pairs(kinds)
    decreases |kinds|
  {
    if kinds != [] {
      CollectPairs(kinds[1..], n + 1);
      var tail := Collect(kinds[1..], n + 1).value;
      if kinds[0].Cmd? {
        assert Erase([Command(kinds[0].cmd, kinds[0].arg, n)] + tail) == [(kinds[0].cmd, kinds[0].arg)] + Erase(tail);
      } else {
        assert [] + Pairs(kinds[1..]) == Pairs(kinds[1..]);
      }
    }
  }

  lemma {:induction false} PairsAppend(a: seq<LineKind>, b: seq<LineKind>)
    ensures Pairs(a + b) == Pairs(a) + Pairs(b)
    decreases |a|
  {
    if a == [] {
      assert a + b == b;
    } else {
      assert (a + b)[1..] == a[1..] + b;
      PairsAppend(a[1..], b);
      assert PairOf(a[0]) + (Pairs(a[1..]) + Pairs(b)) == PairOf(a[0]) + Pairs(a[1..]) + Pairs(b);
    }
  }

  lemma KindsAppend(a: seq<string>, b: seq<string>)
    ensures Kinds(a + b) == Kinds(a) + Kinds(b)
  {
    var x, y := Kinds(a + b), Kinds(a) + Kinds(b);
    forall i | 0 <= i < |x| ensures x[i] == y[i] { assert x[i] == Classify((a + b)[i]); }
  }

  /** Lines that the scanner delivers whole and the parser accepts, and the commands among them. */
  ghost predicate Reads(lines: seq<string>, ps: seq<(string, string)>) {
    (forall l :: l in lines ==> Deliverable(l)) && Pairs(Kinds(lines)) == ps
  }

  ghost predicate Deliverable(line: string) {
    Fits(line) && Classify(line) != Bad
  }

  lemma {:induction false} ReadsAppend(a: seq<string>, ps: seq<(string, string)>, b: seq<string>, qs: seq<(string, string)>)
    requires Reads(a, ps) && Reads(b, qs)
    ensures Reads(a + b, ps + qs)
  {
    KindsAppend(a, b);
    PairsAppend(Kinds(a), Kinds(b));
    forall l | l in a + b ensures Deliverable(l) { assert l in a || l in b; }
  }

  lemma ReadsCommand(line: string, cmd: string, arg: string)
    requires Fits(line) && Classify(line) == Cmd(cmd, arg)
    ensures Reads([line], [(cmd, arg)])
  {
    assert Kinds([line]) == [Cmd(cmd, arg)];
  }

  /** A printed entry: an empty line, a comment and a third line. */
  lemma {:induction false} ReadsEntry(comment: string, third: string, ps: seq<(string, string)>)
    requires Fits("# " + comment) && Reads([third], ps)
    ensures Reads(["", "# " + comment, third], ps)
  {
    var none: seq<(string, string)> := [];
    var above := [""] + ["# " + comment];
    ReadsComment("");
    ReadsComment("# " + comment);
    ReadsAppend([""], none, ["# " + comment], none);
    assert none + none == none && none + ps == ps;
    ReadsAppend(above, none, [third], ps);
    assert above + [third] == ["", "# " + comment, third];
  }

  lemma ReadsComment(line: string)
    requires Fits(line) && (line == "" || line[0] == '#')
    ensures Reads([line], [])
  {
    if line != "" { TrimRightKeeps(line); }
    assert TrimSpace("") == "";
    assert Kinds([line]) == [Skip];
  }

  lemma {:induction false} TrimLeftSnoc(p: string, c: char)
    requires IsSpace(c)
    ensures TrimLeft(p + [c]) == if TrimLeft(p) == "" then "" else TrimLeft(p) + [c]
    decreases |p|
  {
    if p == "" {
      assert p + [c] == [c] && TrimLeft([c]) == TrimLeft([c][1..]);
    } else {
      assert (p + [c])[1..] == p[1..] + [c];
      if IsSpace(p[0]) { TrimLeftSnoc(p[1..], c); }
    }
  }

  /** The scanner drops one carriage return, which the parser would have trimmed anyway. */
  lemma DropIsTrimmed(line: string)
    ensures Classify(DropCR(line)) == Classify(line)
  {
    if DropCR(line) != line {
      var p := DropCR(line);
      assert line == p + ['\r'];
      TrimLeftSnoc(p, '\r');
      var t := TrimLeft(p);
      if t != "" { assert (t + ['\r'])[..|t|] == t; }
    }
  }

  lemma {:induction false} DroppedAt(lines: seq<string>, i: nat)
    requires i < |lines|
    ensures |Dropped(lines)| == |lines| && Dropped(lines)[i] == DropCR(lines[i])
    decreases |lines|
  {
    if i > 0 {
      DroppedAt(lines[1..], i - 1);
    } else if |lines| > 1 {
      DroppedAt(lines[1..], 0);
    }
  }

  lemma DroppedKinds(lines: seq<string>)
    ensures Kinds(Dropped(lines)) == Kinds(lines)
  {
    var x, y := Kinds(Dropped(lines)), Kinds(lines);
    forall i | 0 <= i < |lines| ensures |x| == |y| && x[i] == y[i] {
      DroppedAt(lines, i);
      DropIsTrimmed(lines[i]);
    }
  }

  lemma ScannedKinds(lines: seq<string>)
    requires forall l :: l in lines ==> Fits(l)
    ensures Kinds(ScanLines(Unlines(lines))) == Kinds(lines)
  {
    ScanUnlines(lines, "");
    assert Unlines(lines) + "" == Unlines(lines) && Dropped(lines) + [] == Dropped(lines);
    DroppedKinds(lines);
  }

  /** Text made of such lines is parsed into their commands. */
  lemma ReadCommands(lines: seq<string>, ps: seq<(string, string)>)
    requires Reads(lines, ps)
    ensures ParseText(Unlines(lines)).Ok? && Erase(ParseText(Unlines(lines)).value) == ps
  {
    forall l | l in lines ensures Fits(l) { assert Deliverable(l); }
    ScannedKinds(lines);
    var kinds := Kinds(lines);
    forall i | 0 <= i < |lines| ensures kinds[i] != Bad { assert Deliverable(lines[i]); }
    CollectFails(kinds, 0);
    CollectPairs(kinds, 0);
  }

  /** And reading it is applying them. */
  lemma ReadLines(lines: seq<string>, ps: seq<(string, string)>, v: Values)
    requires Reads(lines, ps) && ApplyPairs(BLANK, ps) == Some(v)
    ensures ReadFile(Unlines(lines)) == Ok(v)
  {
    ReadCommands(lines, ps);
    ApplyErased(BLANK, ParseText(Unlines(lines)).value);
  }

  // ---------------------------------------------------------------- printing

  /** The order of the printed sections: the single-value commands as listed, then four of the five file sets. */
  const FILE_ORDER: seq<string> := ["CONFIG", "CODE", "MODEL", "DOC"]

  /** The comment above each section and, for files, the file types its second comment names. */
  datatype Wording = Wording(comments: map<string, string>, patterns: map<string, seq<string>>)

  function FieldLines(comment: string, cmd: string, value: string): seq<string> {
    if value == "" then [] else ["", "# " + comment, cmd + " " + value]
  }

  function PathLines(cmd: string, values: seq<string>): seq<string> {
    if values == [] then [] else [cmd + " " + QuoteIfNeeded(values[0])] + PathLines(cmd, values[1..])
  }

  function FileLines(comment: string, cmd: string, values: seq<string>, patterns: seq<string>): seq<string> {
    if values == [] then []
    else FileHeader(comment, patterns) + PathLines(cmd, values)
  }

  function FileHeader(comment: string, patterns: seq<string>): seq<string> {
    ["", "# " + comment, "# Supported file types: " + Join(patterns, ", ")]
  }

  predicate Tabled<T>(rows: seq<string>, m: map<string, T>) {
    forall row :: row in rows ==> row in m
  }

  predicate Worded(w: Wording) {
    Tabled(SINGLE, w.comments) && Tabled(FILE_ORDER, w.comments) && Tabled(FILE_ORDER, w.patterns)
  }

  /** The lines for some commands: their fields, and their sets as listed. */
  function FieldsPart(rows: seq<string>, fields: map<string, string>, comments: map<string, string>): seq<string>
    requires Tabled(rows, fields) && Tabled(rows, comments)
  {
    if rows == [] then [] else FieldLines(comments[rows[0]], rows[0], fields[rows[0]]) + FieldsPart(rows[1..], fields, comments)
  }

  function FilesPart(rows: seq<string>, listed: map<string, seq<string>>, w: Wording): seq<string>
    requires Tabled(rows, listed) && Tabled(rows, w.comments) && Tabled(rows, w.patterns)
  {
    if rows == [] then []
    else FileLines(w.comments[rows[0]], rows[0], listed[rows[0]], w.patterns[rows[0]]) + FilesPart(rows[1..], listed, w)
  }

  function ContentLines(now: string, fields: map<string, string>, listed: map<string, seq<string>>, w: Wording): seq<string>
    requires Worded(w) && Tabled(SINGLE, fields) && Tabled(FILE_ORDER, listed)
  {
    ["# Generated at " + now] + FieldsPart(SINGLE, fields, w.comments) + FilesPart(FILE_ORDER, listed, w)
  }

  // ---------------------------------------------------------------- the printed lines are read

  ghost predicate FieldPrintable(cmd: string, value: string, comment: string) {
    value != "" ==> Fits("# " + comment) && FieldOk(value) && Fits(cmd + " " + value)
  }

  ghost predicate PathsPrintable(cmd: string, values: seq<string>) {
    forall v :: v in values ==> PathOk(v) && Fits(cmd + " " + QuoteIfNeeded(v))
  }

  ghost predicate FilePrintable(cmd: string, values: seq<string>, comment: string, patterns: seq<string>) {
    values != [] ==> Fits("# " + comment) && Fits("# Supported file types: " + Join(patterns, ", ")) && PathsPrintable(cmd, values)
  }

  ghost predicate FieldsPrintable(rows: seq<string>, fields: map<string, string>, comments: map<string, string>)
    requires Tabled(rows, fields) && Tabled(rows, comments)
  {
    forall row :: row in rows ==> row in COMMANDS && FieldPrintable(row, fields[row], comments[row])
  }

  ghost predicate FilesPrintable(rows: seq<string>, listed: map<string, seq<string>>, w: Wording)
    requires Tabled(rows, listed) && Tabled(rows, w.comments) && Tabled(rows, w.patterns)
  {
    forall row :: row in rows ==> row in COMMANDS && FilePrintable(row, listed[row], w.comments[row], w.patterns[row])
  }

  function FieldPair(cmd: string, value: string): seq<(string, string)> {
    if value == "" then [] else [(cmd, value)]
  }

  function FieldPairs(rows: seq<string>, fields: map<string, string>): seq<(string, string)>
    requires Tabled(rows, fields)
  {
    if rows == [] then [] else FieldPair(rows[0], fields[rows[0]]) + FieldPairs(rows[1..], fields)
  }

  function PathPairs(cmd: string, values: seq<string>): seq<(string, string)> {
    if values == [] then [] else [(cmd, values[0])] + PathPairs(cmd, values[1..])
  }

  function FilePairs(rows: seq<string>, listed: map<string, seq<string>>): seq<(string, string)>
    requires Tabled(rows, listed)
  {
    if rows == [] then [] else PathPairs(rows[0], listed[rows[0]]) + FilePairs(rows[1..], listed)
  }

  lemma {:induction false} FieldRead(comment: string, cmd: string, value: string)
    requires cmd in COMMANDS && FieldPrintable(cmd, value, comment)
    ensures Reads(FieldLines(comment, cmd, value), FieldPair(cmd, value))
  {
    if value != "" {
      FieldLineExactly(cmd, value);
      ReadsCommand(cmd + " " + value, cmd, value);
      ReadsEntry(comment, cmd + " " + value, [(cmd, value)]);
    }
  }

  lemma {:induction false} FieldsRead(rows: seq<string>, fields: map<string, string>, comments: map<string, string>)
    requires Tabled(rows, fields) && Tabled(rows, comments) && FieldsPrintable(rows, fields, comments)
    ensures Reads(FieldsPart(rows, fields, comments), FieldPairs(rows, fields))
    decreases |rows|
  {
    if rows != [] {
      var row := rows[0];
      assert row in rows && forall r :: r in rows[1..] ==> r in rows;
      FieldsRead(rows[1..], fields, comments);
      FieldRead(comments[row], row, fields[row]);
      ReadsAppend(FieldLines(comments[row], row, fields[row]), FieldPair(row, fields[row]),
                  FieldsPart(rows[1..], fields, comments), FieldPairs(rows[1..], fields));
    }
  }

  lemma {:induction false} PathsRead(cmd: string, values: seq<string>)
    requires cmd in COMMANDS && PathsPrintable(cmd, values)
    ensures Reads(PathLines(cmd, values), PathPairs(cmd, values))
    decreases |values|
  {
    if values == [] { return; }
    assert values[0] in values && forall v :: v in values[1..] ==> v in values;
    PathsRead(cmd, values[1..]);
    PathLineExactly(cmd, values[0]);
    ReadsCommand(cmd + " " + QuoteIfNeeded(values[0]), cmd, values[0]);
    ReadsAppend([cmd + " " + QuoteIfNeeded(values[0])], [(cmd, values[0])], PathLines(cmd, values[1..]), PathPairs(cmd, values[1..]));
  }

  lemma {:induction false} FileRead(comment: string, cmd: string, values: seq<string>, patterns: seq<string>)
    requires cmd in COMMANDS && FilePrintable(cmd, values, comment, patterns)
    ensures Reads(FileLines(comment, cmd, values, patterns), PathPairs(cmd, values))
  {
    if values == [] { return; }
    var none: seq<(string, string)> := [];
    var third := "# Supported file types: " + Join(patterns, ", ");
    ReadsComment(third);
    ReadsEntry(comment, third, none);
    PathsRead(cmd, values);
    ReadsAppend(FileHeader(comment, patterns), none, PathLines(cmd, values), PathPairs(cmd, values));
    assert none + PathPairs(cmd, values) == PathPairs(cmd, values);
  }

  lemma {:induction false} FilesRead(rows: seq<string>, listed: map<string, seq<string>>, w: Wording)
    requires Tabled(rows, listed) && Tabled(rows, w.comments) && Tabled(rows, w.patterns) && FilesPrintable(rows, listed, w)
    ensures Reads(FilesPart(rows, listed, w), FilePairs(rows, listed))
    decreases |rows|
  {
    if rows != [] {
      var row := rows[0];
      assert row in rows && forall r :: r in rows[1..] ==> r in rows;
      FilesRead(rows[1..], listed, w);
      FileRead(w.comments[row], row, listed[row], w.patterns[row]);
      ReadsAppend(FileLines(w.comments[row], row, listed[row], w.patterns[row]), PathPairs(row, listed[row]),
                  FilesPart(rows[1..], listed, w), FilePairs(rows[1..], listed));
    }
  }

  lemma {:induction false} HeaderRead(header: string, a: seq<string>, ps: seq<(string, string)>, b: seq<string>, qs: seq<(string, string)>)
    requires Fits(header) && header != "" && header[0] == '#' && Reads(a, ps) && Reads(b, qs)
    ensures Reads([header] + a + b, ps + qs)
  {
    var none: seq<(string, string)> := [];
    ReadsComment(header);
    ReadsAppend([header], none, a, ps);
    assert none + ps == ps;
    ReadsAppend([header] + a, ps, b, qs);
  }

  // ---------------------------------------------------------------- the commands rebuild the values

  /** The fields after some rows have been applied. */
  function Filled(rows: seq<string>, fields: map<string, string>, into: map<string, string>): map<string, string>
    requires Tabled(rows, fields)
  {
    if rows == [] then into else Filled(rows[1..], fields, into[rows[0] := fields[rows[0]]])
  }

  ghost predicate Distinct(rows: seq<string>) {
    forall i, j :: 0 <= i < j < |rows| ==> rows[i] != rows[j]
  }

  lemma FieldApply(v: Values, cmd: string, value: string)
    requires cmd in v.fields && v.fields[cmd] == "" && cmd !in v.files
    ensures ApplyPairs(v, FieldPair(cmd, value)) == Some(v.(fields := v.fields[cmd := value]))
  {
    if value == "" { assert v.fields[cmd := value] == v.fields; }
  }

  /** Applying the printed fields of some rows sets those fields. */
  lemma {:induction false} FieldsApply(rows: seq<string>, fields: map<string, string>, v: Values)
    requires Tabled(rows, fields) && v.files.Keys !! v.fields.Keys && Distinct(rows)
    requires forall row :: row in rows ==> row in v.fields && v.fields[row] == ""
    ensures ApplyPairs(v, FieldPairs(rows, fields)) == Some(v.(fields := Filled(rows, fields, v.fields)))
    decreases |rows|
  {
    if rows != [] {
      var cmd := rows[0];
      var v1 := v.(fields := v.fields[cmd := fields[cmd]]);
      assert cmd in rows && forall r :: r in rows[1..] ==> r in rows;
      FieldApply(v, cmd, fields[cmd]);
      ApplyPairsAppend(v, FieldPair(cmd, fields[cmd]), FieldPairs(rows[1..], fields));
      assert forall i :: 0 <= i < |rows[1..]| ==> rows[1..][i] == rows[i + 1];
      FieldsApply(rows[1..], fields, v1);
    }
  }

  function Elements(xs: seq<string>): set<string> {
    set x | x in xs
  }

  lemma {:induction false} PathsApply(cmd: string, values: seq<string>, v: Values)
    requires cmd in v.files
    ensures ApplyPairs(v, PathPairs(cmd, values)) == Some(v.(files := v.files[cmd := v.files[cmd] + Elements(values)]))
    decreases |values|
  {
    var s := v.files[cmd];
    if values == [] {
      assert s + Elements(values) == s && v.files[cmd := s] == v.files;
    } else {
      var v1 := v.(files := v.files[cmd := s + {values[0]}]);
      assert PathPairs(cmd, values)[1..] == PathPairs(cmd, values[1..]);
      PathsApply(cmd, values[1..], v1);
      assert values == [values[0]] + values[1..];
      assert (s + {values[0]}) + Elements(values[1..]) == s + Elements(values);
      assert v1.files[cmd := s + Elements(values)] == v.files[cmd := s + Elements(values)];
    }
  }

  /** The sets after some rows have been applied. */
  function Gathered(rows: seq<string>, listed: map<string, seq<string>>, into: map<string, set<string>>): map<string, set<string>>
    requires Tabled(rows, listed) && Tabled(rows, into)
  {
    if rows == [] then into
    else
      assert rows[0] in rows && forall r :: r in rows[1..] ==> r in rows;
      Gathered(rows[1..], listed, into[rows[0] := into[rows[0]] + Elements(listed[rows[0]])])
  }

  /** Applying the printed files of some rows adds them to the sets of those rows. */
  lemma {:induction false} FilesApply(rows: seq<string>, listed: map<string, seq<string>>, v: Values)
    requires Tabled(rows, listed) && Tabled(rows, v.files)
    ensures ApplyPairs(v, FilePairs(rows, listed)) == Some(v.(files := Gathered(rows, listed, v.files)))
    decreases |rows|
  {
    if rows != [] {
      var cmd := rows[0];
      assert cmd in rows && forall r :: r in rows[1..] ==> r in rows;
      PathsApply(cmd, listed[cmd], v);
      ApplyPairsAppend(v, PathPairs(cmd, listed[cmd]), FilePairs(rows[1..], listed));
      FilesApply(rows[1..], listed, v.(files := v.files[cmd := v.files[cmd] + Elements(listed[cmd])]));
    }
  }

  lemma {:induction false} FilledAt(rows: seq<string>, fields: map<string, string>, into: map<string, string>, cmd: string)
    requires Tabled(rows, fields) && Tabled(rows, into) && cmd in into
    ensures Filled(rows, fields, into).Keys == into.Keys
    ensures Filled(rows, fields, into)[cmd] == if cmd in rows then fields[cmd] else into[cmd]
    decreases |rows|
  {
    if rows != [] {
      assert rows[0] in rows && rows == [rows[0]] + rows[1..];
      FilledAt(rows[1..], fields, into[rows[0] := fields[rows[0]]], cmd);
    }
  }

  lemma {:induction false} GatheredAt(rows: seq<string>, listed: map<string, seq<string>>, into: map<string, set<string>>, cmd: string)
    requires Tabled(rows, listed) && Tabled(rows, into) && cmd in into && Distinct(rows)
    ensures Gathered(rows, listed, into).Keys == into.Keys
    ensures Gathered(rows, listed, into)[cmd] == if cmd in rows then into[cmd] + Elements(listed[cmd]) else into[cmd]
    decreases |rows|
  {
    if rows != [] {
      assert rows[0] in rows && rows == [rows[0]] + rows[1..];
      assert forall i :: 0 <= i < |rows[1..]| ==> rows[1..][i] == rows[i + 1];
      GatheredAt(rows[1..], listed, into[rows[0] := into[rows[0]] + Elements(listed[rows[0]])], cmd);
    }
  }

  /** `listed` lists the sets of some commands, each in its one sorted order. */
  ghost predicate Listed(rows: seq<string>, listed: map<string, seq<string>>, files: map<string, set<string>>) {
    Tabled(rows, files) && Tabled(rows, listed) && forall row :: row in rows ==> ListingOf(listed[row], files[row])
  }

  lemma ListingElements(xs: seq<string>, s: set<string>)
    requires ListingOf(xs, s)
    ensures Elements(xs) == s
  {
    forall x ensures x in xs <==> x in s { assert x in multiset(xs) <==> x in multiset(s); }
  }

  lemma FieldsFilled(rows: seq<string>, fields: map<string, string>, into: map<string, string>)
    requires fields.Keys == into.Keys && forall c :: c in fields <==> c in rows
    ensures Filled(rows, fields, into) == fields
  {
    forall c | c in fields ensures Filled(rows, fields, into).Keys == fields.Keys && Filled(rows, fields, into)[c] == fields[c] {
      FilledAt(rows, fields, into, c);
    }
    if rows != [] { FilledAt(rows, fields, into, rows[0]); }
  }

  /** What the rows leave out stays empty. */
  lemma FilesGathered(rows: seq<string>, listed: map<string, seq<string>>, into: map<string, set<string>>, files: map<string, set<string>>, out: string)
    requires files.Keys == into.Keys && Listed(rows, listed, files) && Distinct(rows)
    requires forall c :: c in files ==> into[c] == {} && (c in rows <==> c != out)
    requires out in files
    ensures Gathered(rows, listed, into) == files[out := {}]
  {
    forall c | c in files
      ensures Gathered(rows, listed, into).Keys == files.Keys && Gathered(rows, listed, into)[c] == files[out := {}][c]
    {
      GatheredAt(rows, listed, into, c);
      if c in rows { ListingElements(listed[c], files[c]); }
    }
    GatheredAt(rows, listed, into, out);
  }

  lemma SingleRows()
    ensures Distinct(SINGLE) && forall c :: c in BLANK.fields <==> c in SINGLE
  {
  }

  lemma FileRows()
    ensures Distinct(FILE_ORDER) && "DATASET" in BLANK.files
    ensures forall c :: c in BLANK.files ==> (c in FILE_ORDER <==> c != "DATASET")
    ensures forall c :: c in FILE_ORDER ==> c in BLANK.files
  {
    var order := FILE_ORDER;
    assert MULTI == ["CONFIG", "MODEL", "CODE", "DATASET", "DOC"];
    assert order[0] == "CONFIG" && order[1] == "CODE" && order[2] == "MODEL" && order[3] == "DOC";
    assert MULTI[3] == "DATASET";
  }

  lemma PairsApply(v: Values, listed: map<string, seq<string>>)
    requires Shaped(v) && Listed(FILE_ORDER, listed, v.files) && Tabled(SINGLE, v.fields)
    ensures ApplyPairs(BLANK, FieldPairs(SINGLE, v.fields) + FilePairs(FILE_ORDER, listed))
         == Some(v.(files := v.files["DATASET" := {}]))
  {
    KeysApart();
    SingleRows();
    FileRows();
    FieldsApply(SINGLE, v.fields, BLANK);
    FieldsFilled(SINGLE, v.fields, BLANK.fields);
    FilesGathered(FILE_ORDER, listed, BLANK.files, v.files, "DATASET");
    FilesApply(FILE_ORDER, listed, BLANK.(fields := v.fields));
    ApplyPairsAppend(BLANK, FieldPairs(SINGLE, v.fields), FilePairs(FILE_ORDER, listed));
  }

  // ---------------------------------------------------------------- the round trip

  /** What must hold of a Modelfile for its print to survive: each set field and each path meets the condition
      of its line, and every line is a single line that fits the scanner. */
  ghost predicate Printable(now: string, v: Values, listed: map<string, seq<string>>, w: Wording) {
    && Shaped(v) && Listed(FILE_ORDER, listed, v.files) && Tabled(SINGLE, v.fields) && Worded(w)
    && Fits("# Generated at " + now)
    && FieldsPrintable(SINGLE, v.fields, w.comments) && FilesPrintable(FILE_ORDER, listed, w)
  }

  lemma {:induction false} ContentRead(now: string, v: Values, listed: map<string, seq<string>>, w: Wording)
    requires Printable(now, v, listed, w)
    ensures Reads(ContentLines(now, v.fields, listed, w), FieldPairs(SINGLE, v.fields) + FilePairs(FILE_ORDER, listed))
  {
    FieldsRead(SINGLE, v.fields, w.comments);
    FilesRead(FILE_ORDER, listed, w);
    HeaderRead("# Generated at " + now, FieldsPart(SINGLE, v.fields, w.comments), FieldPairs(SINGLE, v.fields),
               FilesPart(FILE_ORDER, listed, w), FilePairs(FILE_ORDER, listed));
  }

  lemma {:induction false} ReadsRestore(lines: seq<string>, ps: seq<(string, string)>, v: Values, out: string)
    requires out in v.files && Reads(lines, ps) && ApplyPairs(BLANK, ps) == Some(v.(files := v.files[out := {}]))
    ensures ReadFile(Unlines(lines)) == Ok(v.(files := v.files[out := {}]))
    ensures ReadFile(Unlines(lines)) == Ok(v) <==> v.files[out] == {}
  {
    ReadLines(lines, ps, v.(files := v.files[out := {}]));
    if v.files[out] == {} {
      assert v.files[out := {}] == v.files;
    } else {
      assert v.files[out := {}][out] == {};
    }
  }

  /** Reading the print of some listings gives back the seven fields and the four printed sets. */
  lemma {:induction false} ListedReadsBack(now: string, v: Values, listed: map<string, seq<string>>, w: Wording)
    requires Printable(now, v, listed, w)
    ensures "DATASET" in v.files
    ensures ReadFile(Unlines(ContentLines(now, v.fields, listed, w))) == Ok(v.(files := v.files["DATASET" := {}]))
    ensures ReadFile(Unlines(ContentLines(now, v.fields, listed, w))) == Ok(v) <==> v.files["DATASET"] == {}
  {
    assert "DATASET" in v.files by { FileRows(); }
    ContentRead(now, v, listed, w);
    PairsApply(v, listed);
    ReadsRestore(ContentLines(now, v.fields, listed, w), FieldPairs(SINGLE, v.fields) + FilePairs(FILE_ORDER, listed), v, "DATASET");
  }

  /** Every set in its one sorted order. */
  ghost function ListedOf(files: map<string, set<string>>): map<string, seq<string>> {
    map c | c in files :: SortedListing(files[c])
  }

  lemma ListedOfLists(rows: seq<string>, files: map<string, set<string>>)
    requires Tabled(rows, files)
    ensures Listed(rows, ListedOf(files), files)
  {
  }

  lemma ShapedTabled(v: Values)
    requires Shaped(v)
    ensures Tabled(SINGLE, v.fields) && Tabled(FILE_ORDER, v.files)
  {
    SingleRows();
    FileRows();
  }

  /** What `Content` prints. */
  ghost function ContentText(now: string, v: Values, w: Wording): string
    requires Worded(w) && Shaped(v)
  {
    ShapedTabled(v);
    Unlines(ContentLines(now, v.fields, ListedOf(v.files), w))
  }

  /** Parsing what `Content` prints gives back the seven fields and the four printed sets. Datasets are not
      printed: the Modelfile itself comes back if and only if it has none. */
  lemma {:induction false} ContentReadsBack(now: string, v: Values, w: Wording)
    requires Printable(now, v, ListedOf(v.files), w)
    ensures "DATASET" in v.files
    ensures ReadFile(ContentText(now, v, w)) == Ok(v.(files := v.files["DATASET" := {}]))
    ensures ReadFile(ContentText(now, v, w)) == Ok(v) <==> v.files["DATASET"] == {}
  {
    ListedReadsBack(now, v, ListedOf(v.files), w);
  }

  // ---------------------------------------------------------------- the order of the print

  /** Where a command is printed; datasets are not. */
  function Rank(cmd: string): nat {
    if cmd == "NAME" then 0 else if cmd == "ARCH" then 1 else if cmd == "FAMILY" then 2 else if cmd == "FORMAT" then 3
    else if cmd == "PARAMSIZE" then 4 else if cmd == "PRECISION" then 5 else if cmd == "QUANTIZATION" then 6
    else if cmd == "CONFIG" then 7 else if cmd == "CODE" then 8 else if cmd == "MODEL" then 9 else if cmd == "DOC" then 10 else 11
  }

  ghost predicate PairBefore(a: (string, string), b: (string, string)) {
    Rank(a.0) < Rank(b.0) || (a.0 == b.0 && Earlier(a.1, b.1))
  }

  ghost predicate InOrder(ps: seq<(string, string)>) {
    forall i, j :: 0 <= i < j < |ps| ==> PairBefore(ps[i], ps[j])
  }

  ghost predicate RowsInOrder(rows: seq<string>) {
    forall i, j :: 0 <= i < j < |rows| ==> Rank(rows[i]) < Rank(rows[j])
  }

  lemma InOrderAppend(a: seq<(string, string)>, b: seq<(string, string)>)
    requires InOrder(a) && InOrder(b) && forall x, y :: x in a && y in b ==> PairBefore(x, y)
    ensures InOrder(a + b)
  {
  }

  lemma {:induction false} FieldPairsInOrder(rows: seq<string>, fields: map<string, string>)
    requires Tabled(rows, fields) && RowsInOrder(rows)
    ensures InOrder(FieldPairs(rows, fields)) && forall p :: p in FieldPairs(rows, fields) ==> p.0 in rows
    decreases |rows|
  {
    if rows != [] {
      var first, rest := FieldPair(rows[0], fields[rows[0]]), FieldPairs(rows[1..], fields);
      FieldPairsInOrder(rows[1..], fields);
      forall x, y | x in first && y in rest ensures PairBefore(x, y) {
        var k :| 0 <= k < |rows[1..]| && rows[1..][k] == y.0;
        assert rows[k + 1] == y.0;
      }
      InOrderAppend(first, rest);
    }
  }

  lemma {:induction false} PathPairsInOrder(cmd: string, values: seq<string>)
    requires forall i, j :: 0 <= i < j < |values| ==> Earlier(values[i], values[j])
    ensures InOrder(PathPairs(cmd, values)) && forall p :: p in PathPairs(cmd, values) ==> p.0 == cmd && p.1 in values
    decreases |values|
  {
    if values != [] {
      var first, rest := [(cmd, values[0])], PathPairs(cmd, values[1..]);
      PathPairsInOrder(cmd, values[1..]);
      forall x, y | x in first && y in rest ensures PairBefore(x, y) {
        var k :| 0 <= k < |values[1..]| && values[1..][k] == y.1;
        assert values[k + 1] == y.1;
      }
      InOrderAppend(first, rest);
    }
  }

  lemma {:induction false} FilePairsInOrder(rows: seq<string>, listed: map<string, seq<string>>, files: map<string, set<string>>)
    requires Listed(rows, listed, files) && RowsInOrder(rows)
    ensures InOrder(FilePairs(rows, listed)) && forall p :: p in FilePairs(rows, listed) ==> p.0 in rows
    decreases |rows|
  {
    if rows != [] {
      var first, rest := PathPairs(rows[0], listed[rows[0]]), FilePairs(rows[1..], listed);
      FilePairsInOrder(rows[1..], listed, files);
      forall i, j | 0 <= i < j < |listed[rows[0]]| ensures Earlier(listed[rows[0]][i], listed[rows[0]][j]) {
        ListingInOrder(listed[rows[0]], files[rows[0]], i, j);
      }
      PathPairsInOrder(rows[0], listed[rows[0]]);
      forall x, y | x in first && y in rest ensures PairBefore(x, y) {
        var k :| 0 <= k < |rows[1..]| && rows[1..][k] == y.0;
        assert rows[k + 1] == y.0;
      }
      InOrderAppend(first, rest);
    }
  }

  lemma RowsRanked()
    ensures RowsInOrder(SINGLE) && RowsInOrder(FILE_ORDER)
    ensures forall x, y :: x in SINGLE && y in FILE_ORDER ==> Rank(x) < Rank(y)
  {
  }

  lemma PairsInOrder(v: Values, listed: map<string, seq<string>>)
    requires Listed(FILE_ORDER, listed, v.files) && Tabled(SINGLE, v.fields)
    ensures InOrder(FieldPairs(SINGLE, v.fields) + FilePairs(FILE_ORDER, listed))
  {
    RowsRanked();
    FieldPairsInOrder(SINGLE, v.fields);
    FilePairsInOrder(FILE_ORDER, listed, v.files);
    InOrderAppend(FieldPairs(SINGLE, v.fields), FilePairs(FILE_ORDER, listed));
  }

  /** The print is one list of commands in one order: the set fields from NAME to QUANTIZATION, then the configs, the code,
      the models and the documents, and within each of the four the paths with a prefix first and otherwise by the smaller
      character where they first differ. */
  lemma PrintedInOrder(now: string, v: Values, w: Wording, i: nat, j: nat)
    requires Printable(now, v, ListedOf(v.files), w)
    ensures ParseText(ContentText(now, v, w)).Ok?
    ensures var cmds := ParseText(ContentText(now, v, w)).value;
            i < j < |cmds| ==>
              || Rank(cmds[i].cmd) < Rank(cmds[j].cmd)
              || (cmds[i].cmd == cmds[j].cmd && Earlier(cmds[i].arg, cmds[j].arg))
  {
    var listed := ListedOf(v.files);
    ContentRead(now, v, listed, w);
    ReadCommands(ContentLines(now, v.fields, listed, w), FieldPairs(SINGLE, v.fields) + FilePairs(FILE_ORDER, listed));
    PairsInOrder(v, listed);
    var cmds := ParseText(ContentText(now, v, w)).value;
    if i < j < |cmds| { assert PairBefore(Erase(cmds)[i], Erase(cmds)[j]); }
  }
}
