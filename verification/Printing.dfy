/** One printed line of a Modelfile: which values it gives back. */
module Printing {
  import opened Options
  import opened Text
  import opened Quoting
  import opened Parser

  // ---------------------------------------------------------------- one printed line

  lemma CommandTrimmed(cmd: string)
    requires cmd in COMMANDS
    ensures cmd != "" && !IsSpace(cmd[0]) && ' ' !in cmd && ToUpper(TrimSpace(cmd)) == cmd
  {
    CommandsAreWords(cmd);
    TrimSpaceTrims(cmd);
    assert ToUpper(cmd) == cmd;
  }

  lemma CommandPrefix(cmd: string, x: string)
    requires cmd in COMMANDS
    ensures var line := cmd + " " + x;
            !IsSpace(line[0]) && Index(line, ' ') == |cmd| && ToUpper(TrimSpace(cmd)) == cmd
  {
    CommandTrimmed(cmd);
    BlankAfter(cmd, x);
  }

  lemma BlankAfter(a: string, x: string)
    requires a != "" && ' ' !in a
    ensures (a + " " + x)[0] == a[0] && Index(a + " " + x, ' ') == |a|
  {
    assert (a + " " + x)[..|a|] == a;
    IndexUnique(a + " " + x, ' ', |a|);
  }

  lemma TrimmedLine(cmd: string, x: string)
    requires cmd in COMMANDS && x != "" && Trimmed(x)
    ensures var line := cmd + " " + x;
            TrimSpace(line) == line && TrimSpace(x) == x && line[..|cmd|] == cmd && line[|cmd| + 1..] == x
  {
    CommandPrefix(cmd, x);
    TrimSpaceTrims(cmd + " " + x);
    TrimSpaceTrims(x);
  }

  /** A command and trimmed text after a blank: the text is what the argument reader gets. */
  lemma PrintedTrimmed(cmd: string, x: string, v: string)
    requires cmd in COMMANDS && x != "" && Trimmed(x)
    ensures Classify(cmd + " " + x) == Cmd(cmd, v) <==> v != "" && ParseArgs(x) == Some([v])
  {
    var line := cmd + " " + x;
    TrimmedLine(cmd, x);
    CommandPrefix(cmd, x);
    ClassifyExactly(line, cmd, v);
    if CommandText(line, cmd, v) { CommandRest(line, cmd, v); }
    if v != "" && ParseArgs(x) == Some([v]) {
      var k := |cmd|;
      assert line[k] == ' ' && ' ' !in line[..k] && ToUpper(TrimSpace(line[..k])) == cmd && ParseArgs(TrimSpace(line[k + 1..])) == Some([v]);
    }
  }

  lemma ReadsNoMore(s: string, v: string)
    requires ParseArgs(s) == Some([v])
    ensures |v| <= |s|
  {
    ScanWrites(START, s);
    CloseTotal(ScanAll(START, s));
    assert [v][..0] == [];
  }

  /** The first blank of a command's line, and what is after it. */
  lemma BlankAt(line: string, cmd: string, v: string) returns (k: nat)
    requires CommandText(line, cmd, v)
    ensures k < |line| && line[k] == ' ' && ' ' !in line[..k] && ParseArgs(TrimSpace(line[k + 1..])) == Some([v])
  {
    k :| 0 <= k < |line| && line[k] == ' ' && ' ' !in line[..k]
      && ToUpper(TrimSpace(line[..k])) == cmd && ParseArgs(TrimSpace(line[k + 1..])) == Some([v]);
  }

  lemma CommandRest(line: string, cmd: string, v: string)
    requires CommandText(line, cmd, v)
    ensures Index(line, ' ') < |line| && ParseArgs(TrimSpace(line[Index(line, ' ') + 1..])) == Some([v])
  {
    var k := BlankAt(line, cmd, v);
    RestAt(line, k, v);
  }

  lemma RestAt(line: string, k: nat, v: string)
    requires k < |line| && line[k] == ' ' && ' ' !in line[..k] && ParseArgs(TrimSpace(line[k + 1..])) == Some([v])
    ensures Index(line, ' ') < |line| && ParseArgs(TrimSpace(line[Index(line, ' ') + 1..])) == Some([v])
  {
    IndexUnique(line, ' ', k);
  }

  lemma SameBlank(t: string, line: string, n: nat)
    requires t <= line && Index(line, ' ') == n && Index(t, ' ') < |t|
    ensures Index(t, ' ') == n
  {
    var k := Index(t, ' ');
    assert t[..k] == line[..k];
    IndexUnique(line, ' ', k);
  }

  lemma AfterCommand(t: string, cmd: string, x: string)
    requires t <= cmd + " " + x && |cmd| < |t|
    ensures |t[|cmd| + 1..]| <= |x| && (t == cmd + " " + x ==> t[|cmd| + 1..] == x) && (t != cmd + " " + x ==> |t[|cmd| + 1..]| < |x|)
  {
  }

  lemma RestShorter(cmd: string, x: string)
    requires cmd in COMMANDS && !Trimmed(x)
    ensures var t := TrimSpace(cmd + " " + x); Index(t, ' ') < |t| ==> |TrimSpace(t[Index(t, ' ') + 1..])| < |x|
  {
    var t := TrimSpace(cmd + " " + x);
    CommandPrefix(cmd, x);
    TrimRightKeeps(cmd + " " + x);
    if Index(t, ' ') < |t| { PieceShorter(t, cmd, x); }
  }

  lemma PieceShorter(t: string, cmd: string, x: string)
    requires t <= cmd + " " + x && Index(cmd + " " + x, ' ') == |cmd| && Index(t, ' ') < |t| && !Trimmed(x)
    ensures |TrimSpace(t[Index(t, ' ') + 1..])| < |x|
  {
    SameBlank(t, cmd + " " + x, |cmd|);
    AfterCommand(t, cmd, x);
    TrimSpaceTrims(t[|cmd| + 1..]);
  }

  /** Text that is not trimmed loses its rim. */
  lemma PrintedUntrimmed(cmd: string, x: string, v: string)
    requires cmd in COMMANDS && !Trimmed(x) && Classify(cmd + " " + x) == Cmd(cmd, v)
    ensures |v| < |x|
  {
    var t := TrimSpace(cmd + " " + x);
    ClassifyExactly(cmd + " " + x, cmd, v);
    CommandRest(t, cmd, v);
    ReadsNoMore(TrimSpace(t[Index(t, ' ') + 1..]), v);
    RestShorter(cmd, x);
  }

  /** The values a field line and a file line preserve. */
  predicate FieldOk(v: string) {
    v != "" && Trimmed(v) && forall c :: c in v ==> !Special(c)
  }

  predicate PathOk(v: string) {
    Quotable(v) && (NeedsQuotes(v) || Trimmed(v))
  }

  /** A field is printed as it is: its line reads back if and only if the value is not empty, has no space at
      either end and no blank, tab, quote or backslash inside. */
  lemma FieldLineExactly(cmd: string, v: string)
    requires cmd in COMMANDS
    ensures Classify(cmd + " " + v) == Cmd(cmd, v) <==> FieldOk(v)
  {
    if v == "" {
      if Classify(cmd + " " + v) == Cmd(cmd, v) { ClassifiedCommand(cmd + " " + v); }
    } else if Trimmed(v) {
      PrintedTrimmed(cmd, v, v);
      PlainReadsBack(v);
    } else if Classify(cmd + " " + v) == Cmd(cmd, v) {
      PrintedUntrimmed(cmd, v, v);
    }
  }

  /** A path is printed through `quoteIfNeeded`: its line reads back if and only if quoting preserves it and,
      when it is printed bare, it has no space at either end. */
  lemma PathLineExactly(cmd: string, v: string)
    requires cmd in COMMANDS
    ensures Classify(cmd + " " + QuoteIfNeeded(v)) == Cmd(cmd, v) <==> PathOk(v)
  {
    if NeedsQuotes(v) {
      PrintedTrimmed(cmd, QuoteIfNeeded(v), v);
      QuoteRoundTrip(v);
    } else {
      FieldLineExactly(cmd, v);
      PlainReadsBack(v);
      QuoteRoundTrip(v);
    }
  }
}
