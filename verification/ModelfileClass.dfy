/** The `modelfile` object: read into field by field, printed field by field. */
module ModelfileObjects {
  import opened Options
  import opened Text
  import opened Quoting
  import opened Parser
  import opened Ordering
  import opened Modelfiles
  import opened RoundTrip

  class Modelfile {
    var config: set<string>
    var model: set<string>
    var code: set<string>
    var dataset: set<string>
    var doc: set<string>
    var name: string
    var arch: string
    var family: string
    var format: string
    var paramsize: string
    var precision: string
    var quantization: string

    ghost function Files(): map<string, set<string>>
      reads this
    {
      map["CONFIG" := config, "MODEL" := model, "CODE" := code, "DATASET" := dataset, "DOC" := doc]
    }

    ghost function Fields(): map<string, string>
      reads this
    {
      map["NAME" := name, "ARCH" := arch, "FAMILY" := family, "FORMAT" := format, "PARAMSIZE" := paramsize,
          "PRECISION" := precision, "QUANTIZATION" := quantization]
    }

    ghost function View(): Values
      reads this
    {
      Values(Files(), Fields())
    }

    constructor ()
      ensures View() == BLANK
    {
      config, model, code, dataset, doc := {}, {}, {}, {}, {};
      name, arch, family, format, paramsize, precision, quantization := "", "", "", "", "", "", "";
      new;
      assert Files() == BLANK.files && Fields() == BLANK.fields;
    }

    /** One child of the tree. */
    method Record(cmd: string, arg: string) returns (ok: bool)
      modifies this
      ensures ok <==> Apply(old(View()), cmd, arg).Some?
      ensures ok ==> View() == Apply(old(View()), cmd, arg).value
    {
      ghost var before := Files();
      if cmd == "CONFIG" {
        config := config + {arg};
      } else if cmd == "MODEL" {
        model := model + {arg};
      } else if cmd == "CODE" {
        code := code + {arg};
      } else if cmd == "DATASET" {
        dataset := dataset + {arg};
      } else if cmd == "DOC" {
        doc := doc + {arg};
      } else {
        ok := RecordField(cmd, arg);
        return;
      }
      assert cmd in before && Files() == before[cmd := before[cmd] + {arg}];
      return true;
    }

    method RecordField(cmd: string, arg: string) returns (ok: bool)
      requires cmd !in Files()
      modifies this`name, this`arch, this`family, this`format, this`paramsize, this`precision, this`quantization
      ensures ok <==> Apply(old(View()), cmd, arg).Some?
      ensures ok ==> View() == Apply(old(View()), cmd, arg).value
    {
      ghost var before := Fields();
      if cmd == "NAME" {
        ok := name == "";
        if ok { name := arg; }
      } else if cmd == "ARCH" {
        ok := arch == "";
        if ok { arch := arg; }
      } else if cmd == "FAMILY" {
        ok := family == "";
        if ok { family := arg; }
      } else if cmd == "FORMAT" {
        ok := format == "";
        if ok { format := arg; }
      } else {
        ok := RecordLast(cmd, arg);
        return;
      }
      assert cmd in before && (ok <==> before[cmd] == "");
      if ok { assert Fields() == before[cmd := arg]; }
    }

    method RecordLast(cmd: string, arg: string) returns (ok: bool)
      requires cmd !in Files() && cmd !in {"NAME", "ARCH", "FAMILY", "FORMAT"}
      modifies this`paramsize, this`precision, this`quantization
      ensures ok <==> Apply(old(View()), cmd, arg).Some?
      ensures ok ==> View() == Apply(old(View()), cmd, arg).value
    {
      ghost var before := Fields();
      if cmd == "PARAMSIZE" {
        ok := paramsize == "";
        if ok { paramsize := arg; }
      } else if cmd == "PRECISION" {
        ok := precision == "";
        if ok { precision := arg; }
      } else if cmd == "QUANTIZATION" {
        ok := quantization == "";
        if ok { quantization := arg; }
      } else {
        return false;
      }
      assert cmd in before && (ok <==> before[cmd] == "");
      if ok { assert Fields() == before[cmd := arg]; }
    }

    /** `parseFile` into a new Modelfile. */
    method ParseFile(text: string) returns (e: Option<Problem>)
      requires View() == BLANK
      modifies this
      ensures e == match ReadFile(text)
                   case Ok(_) => None
                   case Err(problem) => Some(problem)
      ensures e.None? ==> View() == ReadFile(text).value
    {
      var ast := Parse(text);
      if ast.Err? {
        return Some(Syntax(ast.error));
      }
      var root := ast.value;
      ghost var cmds := ParseText(text).value;
      for i := 0 to |root.children|
        invariant Represents(root, cmds) && ApplyAll(BLANK, cmds[..i]) == Ok(View())
      {
        var child := root.children[i];
        ApplyNext(cmds, i, View());
        var ok := Record(child.value, child.next.value);
        if !ok {
          ErrorStays(BLANK, cmds, i + 1);
          return Some(Duplicate(child.startLine));
        }
      }
      assert cmds[..|cmds|] == cmds;
      return None;
    }

    /** The values of a set in no particular order. */
    static method Listing(s: set<string>) returns (values: seq<string>)
      ensures multiset(values) == multiset(s)
    {
      values := [];
      var rest := s;
      while rest != {}
        invariant rest <= s && multiset(values) == multiset(s - rest)
        decreases |rest|
      {
        var x :| x in rest;
        assert s - (rest - {x}) == (s - rest) + {x};
        values := values + [x];
        rest := rest - {x};
      }
      assert s - rest == s;
    }

    static method WriteField(comment: string, cmd: string, value: string) returns (s: string)
      ensures s == Unlines(FieldLines(comment, cmd, value))
    {
      if value == "" {
        return "";
      }
      s := "\n# " + comment + "\n" + cmd + " " + value + "\n";
      FieldText(comment, cmd, value);
    }

    /** Sorts, then prints one line a value. */
    static method WriteMultiField(comment: string, cmd: string, values: seq<string>, patterns: seq<string>) returns (content: string)
      ensures content == Unlines(FileLines(comment, cmd, StableSort(Less, values), patterns))
    {
      if |values| == 0 {
        return "";
      }
      content := "\n# " + comment + "\n";
      content := content + "# Supported file types: " + Join(patterns, ", ") + "\n";
      HeaderText(comment, patterns);
      LessOrders();
      var ordered := SortSlice(Less, values);
      SortedOnce(ordered, values);
      var paths := WritePaths(cmd, ordered);
      content := content + paths;
      assert |ordered| == |multiset(ordered)| == |multiset(values)|;
      FileText(comment, cmd, ordered, patterns);
    }

    static method WritePaths(cmd: string, values: seq<string>) returns (content: string)
      ensures content == Unlines(PathLines(cmd, values))
    {
      content := "";
      for i := 0 to |values|
        invariant content == Unlines(PathLines(cmd, values[..i]))
      {
        var line := cmd + " " + QuoteIfNeeded(values[i]) + "\n";
        content := content + line;
        PathLinesSnoc(cmd, values, i);
      }
      assert values[..|values|] == values;
    }

    /** The fields, then the sets. */
    method Content(now: string, w: Wording) returns (content: string)
      requires Worded(w)
      ensures Shaped(View()) && content == ContentText(now, View(), w)
    {
      content := "# Generated at " + now + "\n";
      var fields := FieldsContent(w);
      var files := FilesContent(w);
      content := content + fields + files;
      ViewShaped();
      PartsMakeText(now, View(), w);
    }

    lemma ViewShaped()
      ensures Shaped(View())
    {
      assert Files().Keys == BLANK.files.Keys;
      assert Fields().Keys == BLANK.fields.Keys;
    }

    lemma FieldsTabled()
      ensures Tabled(SINGLE, Fields())
    {
    }

    method FieldsContent(w: Wording) returns (content: string)
      requires Worded(w)
      ensures Tabled(SINGLE, Fields()) && content == Unlines(FieldsPart(SINGLE, Fields(), w.comments))
    {
      ghost var rows, fields := SINGLE, Fields();
      FieldsTabled();
      FieldsTextEnds(rows, fields, w.comments);
      content := FirstFields(w, rows, fields);
      content := LastFields(content, w, rows, fields);
    }

    method FirstFields(w: Wording, ghost rows: seq<string>, ghost fields: map<string, string>) returns (content: string)
      requires rows == SINGLE && fields == Fields() && Tabled(rows, fields) && Worded(w)
      ensures content == FieldsText(rows, fields, w.comments, 3)
    {
      FieldsTextEnds(rows, fields, w.comments);
      content := "";
      content := AddField(content, "NAME", name, w, rows, fields, 0);
      content := AddField(content, "ARCH", arch, w, rows, fields, 1);
      content := AddField(content, "FAMILY", family, w, rows, fields, 2);
    }

    method LastFields(before: string, w: Wording, ghost rows: seq<string>, ghost fields: map<string, string>) returns (content: string)
      requires rows == SINGLE && fields == Fields() && Tabled(rows, fields) && Worded(w) && before == FieldsText(rows, fields, w.comments, 3)
      ensures content == FieldsText(rows, fields, w.comments, 7)
    {
      content := AddField(before, "FORMAT", format, w, rows, fields, 3);
      content := AddField(content, "PARAMSIZE", paramsize, w, rows, fields, 4);
      content := AddField(content, "PRECISION", precision, w, rows, fields, 5);
      content := AddField(content, "QUANTIZATION", quantization, w, rows, fields, 6);
    }

    static method AddField(content: string, cmd: string, value: string, w: Wording, ghost rows: seq<string>, ghost fields: map<string, string>, ghost k: nat)
      returns (longer: string)
      requires Tabled(rows, fields) && Tabled(rows, w.comments) && k < |rows| && cmd in w.comments
      requires rows[k] == cmd && fields[rows[k]] == value && content == FieldsText(rows, fields, w.comments, k)
      ensures longer == FieldsText(rows, fields, w.comments, k + 1)
    {
      var s := WriteField(w.comments[cmd], cmd, value);
      longer := content + s;
      FieldStep(rows, fields, w.comments, k);
    }

    method FilesContent(w: Wording) returns (content: string)
      requires Worded(w)
      ensures Tabled(FILE_ORDER, Files()) && content == Unlines(FilesPart(FILE_ORDER, ListedOf(Files()), w))
    {
      ghost var listed := ListedOf(Files());
      FilesTabled();
      FilesListed();
      WordedRows(w);
      var s0 := SetContent("CONFIG", config, w, listed);
      var s1 := SetContent("CODE", code, w, listed);
      var s2 := SetContent("MODEL", model, w, listed);
      var s3 := SetContent("DOC", doc, w, listed);
      content := s0 + s1 + s2 + s3;
      FilesTogether(listed, w);
    }

    lemma FilesTabled()
      ensures Tabled(FILE_ORDER, Files())
    {
      FileRows();
      assert Files().Keys == BLANK.files.Keys;
    }

    lemma FilesListed()
      ensures var listed := ListedOf(Files());
              && "CONFIG" in listed && "CODE" in listed && "MODEL" in listed && "DOC" in listed
              && listed["CONFIG"] == SortedListing(config) && listed["CODE"] == SortedListing(code)
              && listed["MODEL"] == SortedListing(model) && listed["DOC"] == SortedListing(doc)
    {
      var files := Files();
      assert files["CONFIG"] == config && files["CODE"] == code && files["MODEL"] == model && files["DOC"] == doc;
    }

    static method SetContent(cmd: string, files: set<string>, w: Wording, ghost listed: map<string, seq<string>>) returns (content: string)
      requires cmd in w.comments && cmd in w.patterns && cmd in listed && listed[cmd] == SortedListing(files)
      ensures content == RowText(cmd, listed, w)
    {
      var values := Listing(files);
      LessOrders();
      StableSortSorts(Less, values);
      ListingUnique(StableSort(Less, values), SortedListing(files), files);
      content := WriteMultiField(w.comments[cmd], cmd, values, w.patterns[cmd]);
    }
  }

  lemma ApplyNext(cmds: seq<Command>, i: nat, v: Values)
    requires i < |cmds| && ApplyAll(BLANK, cmds[..i]) == Ok(v)
    ensures ApplyAll(BLANK, cmds[..i + 1]) ==
            match Apply(v, cmds[i].cmd, cmds[i].arg)
            case None => Err(Duplicate(cmds[i].line))
            case Some(v1) => Ok(v1)
  {
    assert cmds[..i + 1][..i] == cmds[..i];
  }

  lemma {:induction false} ErrorStays(v: Values, cmds: seq<Command>, k: nat)
    requires k <= |cmds| && ApplyAll(v, cmds[..k]).Err?
    ensures ApplyAll(v, cmds) == ApplyAll(v, cmds[..k])
    decreases |cmds|
  {
    if k == |cmds| {
      assert cmds[..k] == cmds;
    } else {
      assert cmds[..|cmds| - 1][..k] == cmds[..k];
      ErrorStays(v, cmds[..|cmds| - 1], k);
    }
  }

  lemma Unlines1(a: string)
    ensures Unlines([a]) == a + "\n"
  {
    assert [a][1..] == [] && a + "\n" + "" == a + "\n";
  }

  lemma Unlines3(a: string, b: string, c: string)
    ensures Unlines([a, b, c]) == a + "\n" + b + "\n" + c + "\n"
  {
    Unlines1(c);
    assert [b, c][1..] == [c] && [a, b, c][1..] == [b, c];
    assert a + "\n" + (b + "\n" + (c + "\n")) == a + "\n" + b + "\n" + c + "\n";
  }

  lemma {:induction false} UnlinesAppend(a: seq<string>, b: seq<string>)
    ensures Unlines(a + b) == Unlines(a) + Unlines(b)
    decreases |a|
  {
    if a == [] {
      assert a + b == b;
    } else {
      assert (a + b)[1..] == a[1..] + b;
      UnlinesAppend(a[1..], b);
      assert a[0] + "\n" + (Unlines(a[1..]) + Unlines(b)) == a[0] + "\n" + Unlines(a[1..]) + Unlines(b);
    }
  }

  lemma {:induction false} PathLinesAppend(cmd: string, a: seq<string>, b: seq<string>)
    ensures PathLines(cmd, a + b) == PathLines(cmd, a) + PathLines(cmd, b)
    decreases |a|
  {
    if a == [] {
      assert a + b == b;
    } else {
      assert (a + b)[1..] == a[1..] + b;
      PathLinesAppend(cmd, a[1..], b);
    }
  }

  lemma PathLinesSnoc(cmd: string, values: seq<string>, i: nat)
    requires i < |values|
    ensures Unlines(PathLines(cmd, values[..i + 1])) == Unlines(PathLines(cmd, values[..i])) + (cmd + " " + QuoteIfNeeded(values[i]) + "\n")
  {
    var line := cmd + " " + QuoteIfNeeded(values[i]);
    assert values[..i + 1] == values[..i] + [values[i]];
    PathLinesAppend(cmd, values[..i], [values[i]]);
    assert PathLines(cmd, [values[i]]) == [line] by { assert [values[i]][1..] == []; }
    UnlinesAppend(PathLines(cmd, values[..i]), [line]);
    Unlines1(line);
  }

  lemma FieldText(comment: string, cmd: string, value: string)
    requires value != ""
    ensures Unlines(FieldLines(comment, cmd, value)) == "\n# " + comment + "\n" + cmd + " " + value + "\n"
  {
    Unlines3("", "# " + comment, cmd + " " + value);
  }

  lemma HeaderText(comment: string, patterns: seq<string>)
    ensures Unlines(FileHeader(comment, patterns)) == "\n# " + comment + "\n" + "# Supported file types: " + Join(patterns, ", ") + "\n"
  {
    Unlines3("", "# " + comment, "# Supported file types: " + Join(patterns, ", "));
  }

  lemma FileText(comment: string, cmd: string, values: seq<string>, patterns: seq<string>)
    requires values != []
    ensures Unlines(FileLines(comment, cmd, values, patterns)) == Unlines(FileHeader(comment, patterns)) + Unlines(PathLines(cmd, values))
  {
    UnlinesAppend(FileHeader(comment, patterns), PathLines(cmd, values));
  }

  lemma PartsMakeText(now: string, v: Values, w: Wording)
    requires Shaped(v) && Worded(w)
    ensures Tabled(SINGLE, v.fields) && Tabled(FILE_ORDER, ListedOf(v.files))
    ensures ContentText(now, v, w)
         == "# Generated at " + now + "\n" + Unlines(FieldsPart(SINGLE, v.fields, w.comments)) + Unlines(FilesPart(FILE_ORDER, ListedOf(v.files), w))
  {
    ShapedTabled(v);
    var header := "# Generated at " + now;
    Unlines1(header);
    var fieldLines, fileLines := FieldsPart(SINGLE, v.fields, w.comments), FilesPart(FILE_ORDER, ListedOf(v.files), w);
    UnlinesAppend([header], fieldLines);
    UnlinesAppend([header] + fieldLines, fileLines);
  }

  lemma WordedRows(w: Wording)
    requires Worded(w)
    ensures "CONFIG" in w.comments && "CODE" in w.comments && "MODEL" in w.comments && "DOC" in w.comments
    ensures "CONFIG" in w.patterns && "CODE" in w.patterns && "MODEL" in w.patterns && "DOC" in w.patterns
  {
    var rows := FILE_ORDER;
    assert rows[0] == "CONFIG" && rows[1] == "CODE" && rows[2] == "MODEL" && rows[3] == "DOC";
  }

  lemma FilesTogether(listed: map<string, seq<string>>, w: Wording)
    requires Worded(w) && Tabled(FILE_ORDER, listed)
    ensures "CONFIG" in FILE_ORDER && "CODE" in FILE_ORDER && "MODEL" in FILE_ORDER && "DOC" in FILE_ORDER
    ensures Unlines(FilesPart(FILE_ORDER, listed, w))
         == RowText("CONFIG", listed, w) + RowText("CODE", listed, w) + RowText("MODEL", listed, w) + RowText("DOC", listed, w)
  {
    var rows := FILE_ORDER;
    assert rows[0] == "CONFIG" && rows[1] == "CODE" && rows[2] == "MODEL" && rows[3] == "DOC";
    FourFiles(rows, listed, w);
  }

  lemma {:induction false} FieldsPartSnoc(rows: seq<string>, row: string, fields: map<string, string>, comments: map<string, string>)
    requires Tabled(rows + [row], fields) && Tabled(rows + [row], comments)
    ensures Tabled(rows, fields) && Tabled(rows, comments) && row in fields && row in comments
    ensures FieldsPart(rows + [row], fields, comments) == FieldsPart(rows, fields, comments) + FieldLines(comments[row], row, fields[row])
    decreases |rows|
  {
    assert row in rows + [row] && forall r :: r in rows ==> r in rows + [row];
    if rows == [] {
      assert rows + [row] == [row] && [row][1..] == [];
    } else {
      assert (rows + [row])[1..] == rows[1..] + [row];
      FieldsPartSnoc(rows[1..], row, fields, comments);
    }
  }

  /** What a table prints before row `k`. */
  ghost function FieldsText(rows: seq<string>, fields: map<string, string>, comments: map<string, string>, k: nat): string
    requires k <= |rows| && Tabled(rows, fields) && Tabled(rows, comments)
  {
    Unlines(FieldsPart(rows[..k], fields, comments))
  }

  lemma FieldsTextEnds(rows: seq<string>, fields: map<string, string>, comments: map<string, string>)
    requires Tabled(rows, fields) && Tabled(rows, comments)
    ensures FieldsText(rows, fields, comments, 0) == ""
    ensures FieldsText(rows, fields, comments, |rows|) == Unlines(FieldsPart(rows, fields, comments))
  {
    assert rows[..0] == [] && rows[..|rows|] == rows;
  }

  lemma FieldStep(rows: seq<string>, fields: map<string, string>, comments: map<string, string>, k: nat)
    requires k < |rows| && Tabled(rows, fields) && Tabled(rows, comments)
    ensures FieldsText(rows, fields, comments, k + 1)
         == FieldsText(rows, fields, comments, k) + Unlines(FieldLines(comments[rows[k]], rows[k], fields[rows[k]]))
  {
    assert rows[..k + 1] == rows[..k] + [rows[k]];
    FieldsPartSnoc(rows[..k], rows[k], fields, comments);
    UnlinesAppend(FieldsPart(rows[..k], fields, comments), FieldLines(comments[rows[k]], rows[k], fields[rows[k]]));
  }

  /** What a row prints. */
  ghost function RowText(cmd: string, listed: map<string, seq<string>>, w: Wording): string
    requires cmd in listed && cmd in w.comments && cmd in w.patterns
  {
    Unlines(FileLines(w.comments[cmd], cmd, listed[cmd], w.patterns[cmd]))
  }

  lemma FilesPartNext(rows: seq<string>, listed: map<string, seq<string>>, w: Wording)
    requires rows != [] && Tabled(rows, listed) && Tabled(rows, w.comments) && Tabled(rows, w.patterns)
    ensures Unlines(FilesPart(rows, listed, w)) == RowText(rows[0], listed, w) + Unlines(FilesPart(rows[1..], listed, w))
  {
    UnlinesAppend(FileLines(w.comments[rows[0]], rows[0], listed[rows[0]], w.patterns[rows[0]]), FilesPart(rows[1..], listed, w));
  }

  lemma FourFiles(rows: seq<string>, listed: map<string, seq<string>>, w: Wording)
    requires |rows| == 4 && Tabled(rows, listed) && Tabled(rows, w.comments) && Tabled(rows, w.patterns)
    ensures Unlines(FilesPart(rows, listed, w))
         == RowText(rows[0], listed, w) + RowText(rows[1], listed, w) + RowText(rows[2], listed, w) + RowText(rows[3], listed, w)
  {
    var r1, r2, r3 := rows[1..], rows[2..], rows[3..];
    assert r1[1..] == r2 && r2[1..] == r3 && r3[1..] == [];
    FilesPartNext(rows, listed, w);
    FilesPartNext(r1, listed, w);
    FilesPartNext(r2, listed, w);
    FilesPartNext(r3, listed, w);
    Regrouped(RowText(rows[0], listed, w), RowText(rows[1], listed, w), RowText(rows[2], listed, w), RowText(rows[3], listed, w));
  }

  lemma Regrouped(a: string, b: string, c: string, d: string)
    ensures a + (b + (c + (d + ""))) == a + b + c + d
  {
    assert d + "" == d && b + (c + d) == b + c + d;
  }
}
