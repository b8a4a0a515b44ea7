/** `pkg/modelfile/modelfile.go`: reading a Modelfile, printing one, and what survives both. */
module Modelfiles {
  import opened Options
  import opened Text
  import opened Quoting
  import opened Parser
  import opened Printing
  import opened Ordering

  // ---------------------------------------------------------------- the values of a Modelfile

  /** The five sets and the seven fields, each under its command. An empty field is an unset one. */
  datatype Values = Values(files: map<string, set<string>>, fields: map<string, string>)

  const BLANK := Values(map c | c in MULTI :: {}, map c | c in SINGLE :: "")

  predicate Shaped(v: Values) {
    v.files.Keys == BLANK.files.Keys && v.fields.Keys == BLANK.fields.Keys
  }

  /** `None` is the error "duplicate command". */
  function Apply(v: Values, cmd: string, arg: string): Option<Values> {
    if cmd in v.files then Some(v.(files := v.files[cmd := v.files[cmd] + {arg}]))
    else if cmd in v.fields && v.fields[cmd] == "" then Some(v.(fields := v.fields[cmd := arg]))
    else None
  }

  datatype Problem = Syntax(line: nat) | Duplicate(line: nat)

  function ApplyAll(v: Values, cmds: seq<Command>): Result<Values, Problem>
    decreases |cmds|
  {
    if cmds == [] then Ok(v)
    else
      match ApplyAll(v, cmds[..|cmds| - 1])
      case Err(e) => Err(e)
      case Ok(v1) =>
        var c := cmds[|cmds| - 1];
        match Apply(v1, c.cmd, c.arg)
        case None => Err(Duplicate(c.line))
        case Some(v2) => Ok(v2)
  }

  function ReadFile(text: string): Result<Values, Problem> {
    match ParseText(text)
    case Err(line) => Err(Syntax(line))
    case Ok(cmds) => ApplyAll(BLANK, cmds)
  }

  // ---------------------------------------------------------------- what reading yields

  ghost predicate Single(cmd: string) { cmd in SINGLE }

  ghost predicate NoRepeats(cmds: seq<Command>) {
    forall i, j :: 0 <= i < j < |cmds| && Single(cmds[i].cmd) ==> cmds[i].cmd != cmds[j].cmd
  }

  ghost predicate Said(cmds: seq<Command>, cmd: string, arg: string) {
    exists k :: 0 <= k < |cmds| && cmds[k].cmd == cmd && cmds[k].arg == arg
  }

  /** The values are exactly what the commands say. */
  ghost predicate Says(cmds: seq<Command>, v: Values) {
    && Shaped(v)
    && (forall c, a :: c in v.files ==> (a in v.files[c] <==> Said(cmds, c, a)))
    && (forall c, a :: c in v.fields && v.fields[c] == "" ==> !Said(cmds, c, a))
    && (forall c :: c in v.fields && v.fields[c] != "" ==> Said(cmds, c, v.fields[c]))
  }

  lemma SaidNext(cmds: seq<Command>, c: Command, cmd: string, arg: string)
    ensures Said(cmds + [c], cmd, arg) <==> Said(cmds, cmd, arg) || (cmd == c.cmd && arg == c.arg)
  {
    var all := cmds + [c];
    assert all[|cmds|] == c && forall k :: 0 <= k < |cmds| ==> all[k] == cmds[k];
    if Said(cmds, cmd, arg) {
      var k :| 0 <= k < |cmds| && cmds[k].cmd == cmd && cmds[k].arg == arg;
      assert all[k].cmd == cmd && all[k].arg == arg;
    }
  }

  lemma SaysStep(cmds: seq<Command>, c: Command, v: Values, v': Values)
    requires Says(cmds, v) && c.arg != "" && Apply(v, c.cmd, c.arg) == Some(v')
    ensures Says(cmds + [c], v')
  {
    forall cmd, arg ensures Said(cmds + [c], cmd, arg) <==> Said(cmds, cmd, arg) || (cmd == c.cmd && arg == c.arg) {
      SaidNext(cmds, c, cmd, arg);
    }
    assert v'.files.Keys == v.files.Keys && v'.fields.Keys == v.fields.Keys;
    assert v.files.Keys !! v.fields.Keys by { KeysApart(); }
  }

  lemma KeysApart()
    ensures BLANK.files.Keys !! BLANK.fields.Keys
  {
    assert forall s, m :: s in SINGLE && m in MULTI ==> s != m;
  }

  /** Reading commands with non-empty arguments succeeds if and only if none of the seven single-value
      commands occurs twice, and then yields exactly what was said. That an empty field means "not seen yet"
      rests on the parser letting no empty argument through. */
  lemma {:induction false} ReadsExactly(cmds: seq<Command>)
    requires forall k :: 0 <= k < |cmds| ==> cmds[k].cmd in COMMANDS && cmds[k].arg != ""
    ensures ApplyAll(BLANK, cmds).Ok? <==> NoRepeats(cmds)
    ensures ApplyAll(BLANK, cmds).Ok? ==> Says(cmds, ApplyAll(BLANK, cmds).value)
    decreases |cmds|
  {
    if cmds == [] { return; }
    var before, c := cmds[..|cmds| - 1], cmds[|cmds| - 1];
    ReadsExactly(before);
    assert cmds == before + [c];
    assert forall k :: 0 <= k < |before| ==> before[k] == cmds[k];
    match ApplyAll(BLANK, before)
    case Err(_) => RepeatsStay(before, cmds);
    case Ok(v) =>
      CommandsSplit(c.cmd);
      if Apply(v, c.cmd, c.arg).Some? {
        SaysStep(before, c, v, Apply(v, c.cmd, c.arg).value);
        NoneBefore(before, c, v);
      } else {
        assert Said(before, c.cmd, v.fields[c.cmd]);
        var k :| 0 <= k < |before| && before[k].cmd == c.cmd && before[k].arg == v.fields[c.cmd];
        assert Single(cmds[k].cmd) && cmds[k].cmd == cmds[|cmds| - 1].cmd;
      }
  }

  lemma RepeatsStay(before: seq<Command>, cmds: seq<Command>)
    requires before <= cmds && !NoRepeats(before)
    ensures !NoRepeats(cmds)
  {
    var i, j :| 0 <= i < j < |before| && Single(before[i].cmd) && before[i].cmd == before[j].cmd;
    assert cmds[i] == before[i] && cmds[j] == before[j];
  }

  lemma NoneBefore(before: seq<Command>, c: Command, v: Values)
    requires Says(before, v) && NoRepeats(before) && Apply(v, c.cmd, c.arg).Some? && c.cmd in COMMANDS
    ensures NoRepeats(before + [c])
  {
    CommandsSplit(c.cmd);
    var all := before + [c];
    forall i, j | 0 <= i < j < |all| && Single(all[i].cmd) ensures all[i].cmd != all[j].cmd {
      assert all[i] == before[i] && Said(before, before[i].cmd, before[i].arg);
      if j < |before| { assert all[j] == before[j]; }
    }
  }

  lemma CommandsSplit(cmd: string)
    requires cmd in COMMANDS
    ensures cmd in SINGLE <==> cmd !in MULTI
  {
    assert forall s, m :: s in SINGLE && m in MULTI ==> s != m;
  }

  /** A Modelfile is read without an error if and only if every line the scanner delivers is blank, a comment
      or a known command with one non-empty argument, and no single-value command occurs twice; its values
      are then exactly the arguments said. */
  lemma ReadFileExactly(text: string)
    ensures ParseText(text).Ok? <==> AllAcceptable(ScanLines(text))
    ensures ReadFile(text).Ok? <==> ParseText(text).Ok? && NoRepeats(ParseText(text).value)
    ensures ReadFile(text).Ok? ==> Says(ParseText(text).value, ReadFile(text).value)
  {
    ParsesExactly(text);
    if ParseText(text).Ok? {
      ParseLists(text);
      ReadsExactly(ParseText(text).value);
    }
  }
}
