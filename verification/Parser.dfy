/** `pkg/modelfile/parser`: a Modelfile as a list of one-argument commands. */
module Parser {
  import opened Options
  import opened Text
  import opened Quoting

  /** Commands with one value, and commands that collect files. */
  const SINGLE: seq<string> := ["NAME", "ARCH", "FAMILY", "FORMAT", "PARAMSIZE", "PRECISION", "QUANTIZATION"]
  const MULTI: seq<string> := ["CONFIG", "MODEL", "CODE", "DATASET", "DOC"]
  const COMMANDS := MULTI + SINGLE

  /** `bufio.MaxScanTokenSize`: a line of this many bytes or more ends the scan, and nobody asks why. */
  const MAX_TOKEN: nat := 65536

  datatype Command = Command(cmd: string, arg: string, line: nat)

  datatype LineKind = Skip | Cmd(cmd: string, arg: string) | Bad

  function DropCR(s: string): string {
    if s != "" && s[|s| - 1] == '\r' then s[..|s| - 1] else s
  }

  /** What `bufio.Scanner` with `ScanLines` delivers. */
  function ScanLines(s: string): seq<string>
    decreases |s|
  {
    if s == "" then []
    else
      var k := Index(s, '\n');
      if MAX_TOKEN <= Utf8Length(s[..k]) then []
      else [DropCR(s[..k])] + if k < |s| then ScanLines(s[k + 1..]) else []
  }

  predicate IsComment(line: string) {
    "#" <= line
  }

  predicate IsCommand(line: string) {
    exists c :: c in COMMANDS && c <= ToUpper(line)
  }

  function SplitCommand(line: string): Option<(string, seq<string>)> {
    var k := Index(line, ' ');
    if k == |line| then None
    else
      var args := TrimSpace(line[k + 1..]);
      if args == "" then None
      else
        match ParseArgs(args)
        case None => None
        case Some(list) => Some((ToUpper(TrimSpace(line[..k])), list))
  }

  /** Exactly one argument, and not an empty one. */
  function ParseStringArgs(args: seq<string>): Option<string> {
    if |args| != 1 || args[0] == "" then None else Some(args[0])
  }

  function CommandOf(line: string): Option<(string, string)> {
    match SplitCommand(line)
    case None => None
    case Some((cmd, args)) =>
      if cmd !in COMMANDS then None
      else
        match ParseStringArgs(args)
        case None => None
        case Some(arg) => Some((cmd, arg))
  }

  function Classify(raw: string): LineKind {
    var line := TrimSpace(raw);
    if line == "" || IsComment(line) then Skip
    else if !IsCommand(line) then Bad
    else
      match CommandOf(line)
      case None => Bad
      case Some((cmd, arg)) => Cmd(cmd, arg)
  }

  function Kinds(lines: seq<string>): (kinds: seq<LineKind>)
    ensures |kinds| == |lines| && forall i :: 0 <= i < |lines| ==> kinds[i] == Classify(lines[i])
  {
    seq(|lines|, i requires 0 <= i < |lines| => Classify(lines[i]))
  }

  /** The commands among `kinds`, the first of which has number `n`, or the number of the first bad one. */
  function Collect(kinds: seq<LineKind>, n: nat): Result<seq<Command>, nat>
    decreases |kinds|
  {
    if kinds == [] then Ok([])
    else
      match kinds[0]
      case Bad => Err(n)
      case Skip => Collect(kinds[1..], n + 1)
      case Cmd(cmd, arg) =>
        match Collect(kinds[1..], n + 1)
        case Err(k) => Err(k)
        case Ok(cmds) => Ok([Command(cmd, arg, n)] + cmds)
  }

  function ParseText(text: string): Result<seq<Command>, nat> {
    Collect(Kinds(ScanLines(text)), 0)
  }

  // ---------------------------------------------------------------- the syntax tree

  class Node {
    const value: string
    const startLine: nat
    const endLine: nat
    var next: Node?
    var children: seq<Node>

    constructor (value: string, start: nat, end: nat)
      ensures this.value == value && startLine == start && endLine == end && next == null && children == []
    {
      this.value, startLine, endLine, next, children := value, start, end, null, [];
    }

    method AddChild(child: Node)
      modifies this`children
      ensures children == old(children) + [child]
    {
      children := children + [child];
    }

    method AddNext(node: Node)
      modifies this`next
      ensures next == node
    {
      next := node;
    }
  }

  /** A child for a command: its line twice, and its argument behind it. */
  ghost predicate Stands(child: Node, c: Command)
    reads child`next
  {
    child.value == c.cmd && child.startLine == child.endLine == c.line && child.next != null && child.next.value == c.arg
  }

  /** The tree under `root`: one child for each command, in order, with its line and its argument. */
  ghost predicate Represents(root: Node, cmds: seq<Command>)
    reads root, root.children
  {
    |root.children| == |cmds| && forall i :: 0 <= i < |cmds| ==> Stands(root.children[i], cmds[i])
  }

  method SplitLine(line: string) returns (r: Option<(string, seq<string>)>)
    ensures r == SplitCommand(line)
  {
    var firstSpace := Index(line, ' ');
    if firstSpace == |line| {
      return None;
    }
    var argsStr := TrimSpace(line[firstSpace + 1..]);
    if argsStr == "" {
      return None;
    }
    var args := ReadArgs(argsStr);
    match args
    case None => return None;
    case Some(list) => return Some((ToUpper(TrimSpace(line[..firstSpace])), list));
  }

  /** `None` is any of the errors of a command line. */
  method ParseCommandLine(line: string, n: nat) returns (r: Option<Node>)
    ensures r.Some? <==> CommandOf(line).Some?
    ensures r.Some? ==>
              && fresh(r.value) && r.value.startLine == r.value.endLine == n && r.value.children == []
              && r.value.next != null && fresh(r.value.next) && CommandOf(line) == Some((r.value.value, r.value.next.value))
  {
    var split := SplitLine(line);
    if split.None? || split.value.0 !in COMMANDS || ParseStringArgs(split.value.1).None? {
      return None;
    }
    var argsNode := new Node(ParseStringArgs(split.value.1).value, n, n);
    var cmdNode := new Node(split.value.0, n, n);
    cmdNode.AddNext(argsNode);
    return Some(cmdNode);
  }

  /** One turn of the loop: nothing for a blank line or a comment, a node for a command, or an error. */
  method ParseLine(raw: string, n: nat) returns (ok: bool, node: Node?)
    ensures ok <==> Classify(raw) != Bad
    ensures node != null <==> Classify(raw).Cmd?
    ensures node != null ==> fresh(node) && Stands(node, Command(Classify(raw).cmd, Classify(raw).arg, n))
  {
    var trimmed := TrimSpace(raw);
    if trimmed == "" || IsComment(trimmed) {
      return true, null;
    }
    if !IsCommand(trimmed) {
      return false, null;
    }
    var parsed := ParseCommandLine(trimmed, n);
    if parsed.None? {
      return false, null;
    }
    return true, parsed.value;
  }

  method Parse(text: string) returns (r: Result<Node, nat>)
    ensures r.Ok? <==> ParseText(text).Ok?
    ensures r.Ok? ==> fresh(r.value) && Represents(r.value, ParseText(text).value)
    ensures r.Err? ==> ParseText(text) == Err(r.error)
  {
    var root := new Node("", 0, 0);
    var lines := ScanLines(text);
    ghost var kinds, result := Kinds(lines), ParseText(text);
    ghost var done: seq<Command> := [];
    var currentLine := 0;
    RestStart(kinds);
    while currentLine < |lines|
      invariant currentLine <= |lines| && fresh(root) && Represents(root, done)
      invariant Rest(kinds, currentLine, done) == result
    {
      RestNext(kinds, currentLine, done);
      ghost var kind := kinds[currentLine];
      assert kind == Classify(lines[currentLine]);
      var ok, node := ParseLine(lines[currentLine], currentLine);
      if !ok {
        return Err(currentLine);
      }
      if node != null {
        root.AddChild(node);
        done := done + [Command(kind.cmd, kind.arg, currentLine)];
      }
      currentLine := currentLine + 1;
    }
    RestEnd(kinds, done);
    return Ok(root);
  }

  /** What is parsed, seen from line `k` with the commands before it in `done`. */
  ghost function Rest(kinds: seq<LineKind>, k: nat, done: seq<Command>): Result<seq<Command>, nat>
    requires k <= |kinds|
  {
    Prepend(done, Collect(kinds[k..], k))
  }

  lemma RestStart(kinds: seq<LineKind>)
    ensures Rest(kinds, 0, []) == Collect(kinds, 0)
  {
    assert kinds[0..] == kinds;
    assert Collect(kinds, 0).Ok? ==> [] + Collect(kinds, 0).value == Collect(kinds, 0).value;
  }

  lemma RestEnd(kinds: seq<LineKind>, done: seq<Command>)
    ensures Rest(kinds, |kinds|, done) == Ok(done)
  {
    assert Collect([], |kinds|) == Ok([]) && done + [] == done;
  }

  lemma RestNext(kinds: seq<LineKind>, k: nat, done: seq<Command>)
    requires k < |kinds|
    ensures Rest(kinds, k, done) ==
            match kinds[k]
            case Bad => Err(k)
            case Skip => Rest(kinds, k + 1, done)
            case Cmd(cmd, arg) => Rest(kinds, k + 1, done + [Command(cmd, arg, k)])
  {
    CollectNext(kinds, k, done);
  }

  /** One line further, with the commands of the lines before it in `done`. */
  lemma CollectNext(kinds: seq<LineKind>, k: nat, done: seq<Command>)
    requires k < |kinds|
    ensures Prepend(done, Collect(kinds[k..], k)) ==
            match kinds[k]
            case Bad => Err(k)
            case Skip => Prepend(done, Collect(kinds[k + 1..], k + 1))
            case Cmd(cmd, arg) => Prepend(done + [Command(cmd, arg, k)], Collect(kinds[k + 1..], k + 1))
  {
    assert kinds[k..][1..] == kinds[k + 1..];
    if kinds[k].Cmd? && Collect(kinds[k + 1..], k + 1).Ok? {
      var here, tail := Command(kinds[k].cmd, kinds[k].arg, k), Collect(kinds[k + 1..], k + 1).value;
      assert done + ([here] + tail) == done + [here] + tail;
    }
  }

  function Prepend(done: seq<Command>, r: Result<seq<Command>, nat>): Result<seq<Command>, nat> {
    match r
    case Err(k) => Err(k)
    case Ok(cmds) => Ok(done + cmds)
  }

  // ---------------------------------------------------------------- what is accepted

  /** A known command, a blank, and one non-empty argument. */
  ghost predicate CommandText(line: string, cmd: string, arg: string) {
    cmd in COMMANDS && arg != "" && exists k ::
      && 0 <= k < |line| && line[k] == ' ' && ' ' !in line[..k]
      && ToUpper(TrimSpace(line[..k])) == cmd && ParseArgs(TrimSpace(line[k + 1..])) == Some([arg])
  }

  ghost predicate Skipped(line: string) {
    line == "" || line[0] == '#'
  }

  ghost predicate Acceptable(raw: string) {
    Skipped(TrimSpace(raw)) || exists cmd, arg :: CommandText(TrimSpace(raw), cmd, arg)
  }

  lemma TrimRightKeeps(s: string)
    requires s != "" && !IsSpace(s[0])
    ensures TrimSpace(s) != "" && TrimSpace(s) <= s
  {
    TrimRightHead(s);
    FirstStays(s);
  }

  lemma {:induction false} FirstStays(s: string)
    requires s != "" && !IsSpace(s[0])
    ensures TrimRight(s) != ""
    decreases |s|
  {
    if IsSpace(s[|s| - 1]) { FirstStays(s[..|s| - 1]); }
  }

  lemma CommandsAreWords(cmd: string)
    requires cmd in COMMANDS
    ensures cmd != "" && forall i :: 0 <= i < |cmd| ==> 'A' <= cmd[i] <= 'Z'
  {
    if cmd in SINGLE {
      var k :| 0 <= k < 7 && SINGLE[k] == cmd;
    } else {
      var k :| 0 <= k < 5 && MULTI[k] == cmd;
    }
  }

  /** The head of a command line starts the line, so the prefix test never rejects a command, and a comment
      is never one. */
  lemma CommandStarts(line: string, cmd: string, k: nat)
    requires Trimmed(line) && cmd in COMMANDS && k < |line| && line[k] == ' ' && ToUpper(TrimSpace(line[..k])) == cmd
    ensures IsCommand(line) && !Skipped(line)
  {
    CommandsAreWords(cmd);
    assert line[0] != ' ' && line[..k][0] == line[0];
    TrimRightKeeps(line[..k]);
    assert TrimSpace(line[..k]) <= line[..k] <= line;
    assert cmd <= ToUpper(line) && cmd[0] == UpperChar(line[0]);
  }

  lemma SplitAtBlank(line: string, k: nat, arg: string)
    requires k < |line| && line[k] == ' ' && ' ' !in line[..k] && ParseArgs(TrimSpace(line[k + 1..])) == Some([arg])
    ensures SplitCommand(line) == Some((ToUpper(TrimSpace(line[..k])), [arg]))
  {
    IndexUnique(line, ' ', k);
    assert ParseArgs("") == Some([]);
  }

  lemma CommandAtBlank(line: string, k: nat, cmd: string, arg: string)
    requires SplitCommand(line) == Some((cmd, [arg])) && cmd in COMMANDS && arg != ""
    ensures CommandOf(line) == Some((cmd, arg))
  {
  }

  lemma {:induction false} CommandClassified(raw: string, cmd: string, arg: string)
    requires CommandText(TrimSpace(raw), cmd, arg)
    ensures Classify(raw) == Cmd(cmd, arg)
  {
    var line := TrimSpace(raw);
    assert Trimmed(line) by { TrimSpaceTrims(raw); }
    assert IsCommand(line) && !Skipped(line) && CommandOf(line) == Some((cmd, arg)) by {
      var k :| 0 <= k < |line| && line[k] == ' ' && ' ' !in line[..k]
        && ToUpper(TrimSpace(line[..k])) == cmd && ParseArgs(TrimSpace(line[k + 1..])) == Some([arg]);
      SplitAtBlank(line, k, arg);
      CommandStarts(line, cmd, k);
      CommandAtBlank(line, k, cmd, arg);
    }
  }

  lemma ClassifiedCommand(raw: string)
    requires Classify(raw).Cmd?
    ensures CommandText(TrimSpace(raw), Classify(raw).cmd, Classify(raw).arg)
  {
    var line := TrimSpace(raw);
    var k, args := Index(line, ' '), SplitCommand(line).value.1;
    assert args == [args[0]];
    assert line[k] == ' ' && ' ' !in line[..k];
  }

  lemma ClassifyExactly(raw: string, cmd: string, arg: string)
    ensures Classify(raw) == Cmd(cmd, arg) <==> CommandText(TrimSpace(raw), cmd, arg)
  {
    if CommandText(TrimSpace(raw), cmd, arg) { CommandClassified(raw, cmd, arg); }
    if Classify(raw) == Cmd(cmd, arg) { ClassifiedCommand(raw); }
  }

  lemma SkipExactly(raw: string)
    ensures Classify(raw) == Skip <==> Skipped(TrimSpace(raw))
  {
  }

  lemma AcceptableExactly(raw: string)
    ensures Acceptable(raw) <==> Classify(raw) != Bad
  {
    SkipExactly(raw);
    if Acceptable(raw) && !Skipped(TrimSpace(raw)) {
      var cmd, arg :| CommandText(TrimSpace(raw), cmd, arg);
      CommandClassified(raw, cmd, arg);
    }
    if Classify(raw).Cmd? { ClassifiedCommand(raw); }
  }

  /** `cmds` are the commands among `kinds` numbered from `n`: all of them, in order. */
  ghost predicate Lists(kinds: seq<LineKind>, n: nat, cmds: seq<Command>) {
    Genuine(kinds, n, cmds) && Increasing(cmds) && Full(kinds, n, cmds)
  }

  ghost predicate Genuine(kinds: seq<LineKind>, n: nat, cmds: seq<Command>) {
    forall i :: 0 <= i < |cmds| ==> n <= cmds[i].line < n + |kinds| && kinds[cmds[i].line - n] == Cmd(cmds[i].cmd, cmds[i].arg)
  }

  ghost predicate Increasing(cmds: seq<Command>) {
    forall i, j :: 0 <= i < j < |cmds| ==> cmds[i].line < cmds[j].line
  }

  ghost predicate Full(kinds: seq<LineKind>, n: nat, cmds: seq<Command>) {
    forall k :: 0 <= k < |kinds| && kinds[k].Cmd? ==> Command(kinds[k].cmd, kinds[k].arg, n + k) in cmds
  }

  lemma {:induction false} CollectFails(kinds: seq<LineKind>, n: nat)
    ensures if Collect(kinds, n).Ok? then forall i :: 0 <= i < |kinds| ==> kinds[i] != Bad
            else FirstBad(kinds, Collect(kinds, n).error - n)
    decreases |kinds|
  {
    if kinds != [] {
      CollectFails(kinds[1..], n + 1);
      assert forall i :: 0 < i < |kinds| ==> kinds[i] == kinds[1..][i - 1];
    }
  }

  lemma {:induction false} CollectLists(kinds: seq<LineKind>, n: nat)
    requires Collect(kinds, n).Ok?
    ensures Lists(kinds, n, Collect(kinds, n).value)
    decreases |kinds|
  {
    if kinds != [] {
      CollectLists(kinds[1..], n + 1);
      var first := if kinds[0].Cmd? then [Command(kinds[0].cmd, kinds[0].arg, n)] else [];
      var tail := Collect(kinds[1..], n + 1).value;
      GenuineNext(kinds, n, first, tail);
      IncreasingNext(kinds[1..], n, first, tail);
      FullNext(kinds, n, first, tail);
      assert Collect(kinds, n).value == first + tail;
    }
  }

  lemma GenuineNext(kinds: seq<LineKind>, n: nat, first: seq<Command>, tail: seq<Command>)
    requires kinds != [] && Lists(kinds[1..], n + 1, tail)
    requires first == if kinds[0].Cmd? then [Command(kinds[0].cmd, kinds[0].arg, n)] else []
    ensures Genuine(kinds, n, first + tail)
  {
    var cmds := first + tail;
    forall i | 0 <= i < |cmds| ensures n <= cmds[i].line < n + |kinds| && kinds[cmds[i].line - n] == Cmd(cmds[i].cmd, cmds[i].arg) {
      if |first| <= i { assert cmds[i] == tail[i - |first|]; }
    }
  }

  lemma IncreasingNext(kinds: seq<LineKind>, n: nat, first: seq<Command>, tail: seq<Command>)
    requires Genuine(kinds, n + 1, tail) && Increasing(tail)
    requires |first| <= 1 && forall c :: c in first ==> c.line == n
    ensures Increasing(first + tail)
  {
    var cmds := first + tail;
    forall i, j | 0 <= i < j < |cmds| ensures cmds[i].line < cmds[j].line {
      assert cmds[j] == tail[j - |first|];
      if |first| <= i { assert cmds[i] == tail[i - |first|]; }
    }
  }

  lemma FullNext(kinds: seq<LineKind>, n: nat, first: seq<Command>, tail: seq<Command>)
    requires kinds != [] && Full(kinds[1..], n + 1, tail)
    requires first == if kinds[0].Cmd? then [Command(kinds[0].cmd, kinds[0].arg, n)] else []
    ensures Full(kinds, n, first + tail)
  {
    forall k | 0 <= k < |kinds| && kinds[k].Cmd? ensures Command(kinds[k].cmd, kinds[k].arg, n + k) in first + tail {
      if k > 0 { assert kinds[k] == kinds[1..][k - 1] && Command(kinds[k].cmd, kinds[k].arg, n + 1 + (k - 1)) in tail; }
    }
  }

  ghost predicate FirstBad(kinds: seq<LineKind>, k: int) {
    0 <= k < |kinds| && kinds[k] == Bad && forall i :: 0 <= i < k ==> kinds[i] != Bad
  }

  /** Parsing succeeds if and only if every line is blank, a comment, or a known command with one non-empty
      argument, and then yields exactly the commands, in order, with their line numbers; otherwise the error
      names the first other line. */
  lemma ParsesExactly(text: string)
    ensures ParseText(text).Ok? <==> AllAcceptable(ScanLines(text))
    ensures ParseText(text).Err? ==> FirstUnacceptable(ScanLines(text), ParseText(text).error)
  {
    LinesParseExactly(ScanLines(text));
  }

  lemma LinesParseExactly(lines: seq<string>)
    ensures Collect(Kinds(lines), 0).Ok? <==> AllAcceptable(lines)
    ensures Collect(Kinds(lines), 0).Err? ==> FirstUnacceptable(lines, Collect(Kinds(lines), 0).error)
  {
    var kinds := Kinds(lines);
    var r := Collect(kinds, 0);
    CollectFails(kinds, 0);
    forall k | 0 <= k < |lines| ensures Acceptable(lines[k]) <==> kinds[k] != Bad {
      AcceptableExactly(lines[k]);
    }
    if r.Err? { NotAll(lines, r.error); }
  }

  ghost predicate AllAcceptable(lines: seq<string>) {
    forall k :: 0 <= k < |lines| ==> Acceptable(lines[k])
  }

  ghost predicate FirstUnacceptable(lines: seq<string>, n: nat) {
    n < |lines| && !Acceptable(lines[n]) && AllAcceptable(lines[..n])
  }

  lemma NotAll(lines: seq<string>, k: nat)
    requires k < |lines| && !Acceptable(lines[k])
    ensures !AllAcceptable(lines)
  {
  }

  lemma ParseLists(text: string)
    requires ParseText(text).Ok?
    ensures var lines, cmds := ScanLines(text), ParseText(text).value;
            && (forall i :: 0 <= i < |cmds| ==> cmds[i].line < |lines| && CommandText(TrimSpace(lines[cmds[i].line]), cmds[i].cmd, cmds[i].arg))
            && (forall i, j :: 0 <= i < j < |cmds| ==> cmds[i].line < cmds[j].line)
            && (forall k, cmd, arg :: 0 <= k < |lines| && CommandText(TrimSpace(lines[k]), cmd, arg) ==> Command(cmd, arg, k) in cmds)
  {
    var lines, cmds := ScanLines(text), ParseText(text).value;
    CollectLists(Kinds(lines), 0);
    forall i | 0 <= i < |cmds| ensures CommandText(TrimSpace(lines[cmds[i].line]), cmds[i].cmd, cmds[i].arg) {
      ClassifyExactly(lines[cmds[i].line], cmds[i].cmd, cmds[i].arg);
    }
    forall k, cmd, arg | 0 <= k < |lines| && CommandText(TrimSpace(lines[k]), cmd, arg) ensures Command(cmd, arg, k) in cmds {
      ClassifyExactly(lines[k], cmd, arg);
    }
  }

  // ---------------------------------------------------------------- lines and the scanner

  function Unlines(lines: seq<string>): string {
    if lines == [] then "" else lines[0] + "\n" + Unlines(lines[1..])
  }

  predicate Fits(line: string) {
    '\n' !in line && Utf8Length(line) < 65536
  }

  function Dropped(lines: seq<string>): seq<string> {
    if lines == [] then [] else [DropCR(lines[0])] + Dropped(lines[1..])
  }

  lemma ScanAt(s: string, k: nat)
    requires k < |s| && s[k] == '\n' && '\n' !in s[..k] && Utf8Length(s[..k]) < 65536
    ensures ScanLines(s) == [DropCR(s[..k])] + ScanLines(s[k + 1..])
  {
    IndexUnique(s, '\n', k);
  }

  lemma ScanLine(l: string, rest: string)
    requires Fits(l)
    ensures ScanLines(l + "\n" + rest) == [DropCR(l)] + ScanLines(rest)
  {
    var s, k := l + "\n" + rest, |l|;
    assert s[..k] == l && s[k] == '\n' && s[k + 1..] == rest;
    ScanAt(s, k);
  }

  lemma UnlinesHead(lines: seq<string>, rest: string)
    requires lines != []
    ensures Unlines(lines) + rest == lines[0] + "\n" + (Unlines(lines[1..]) + rest)
  {
  }

  lemma {:induction false} ScanUnlines(lines: seq<string>, rest: string)
    requires forall l :: l in lines ==> Fits(l)
    ensures ScanLines(Unlines(lines) + rest) == Dropped(lines) + ScanLines(rest)
    decreases |lines|
  {
    if lines == [] {
      assert Unlines(lines) + rest == rest;
      Regroup([], Dropped(lines), ScanLines(rest));
    } else {
      assert Fits(lines[0]);
      UnlinesHead(lines, rest);
      ScanLine(lines[0], Unlines(lines[1..]) + rest);
      ScanUnlines(lines[1..], rest);
      Regroup([DropCR(lines[0])], Dropped(lines[1..]), ScanLines(rest));
    }
  }

  lemma Regroup(a: seq<string>, b: seq<string>, c: seq<string>)
    ensures a + (b + c) == (a + b) + c && (a == [] ==> a + b == b) && (a == b == [] ==> b + c == c)
  {
  }

  /** The scanner's error is never looked at: a line too long for it, and everything after it, is dropped
      without a word, and what was read before is the result. The line may be the last, with or without a newline. */
  lemma LongLineTruncates(before: seq<string>, long: string, after: string)
    requires (forall l :: l in before ==> Fits(l)) && '\n' !in long && 65536 <= Utf8Length(long)
    requires after == "" || after[0] == '\n'
    ensures ScanLines(Unlines(before) + (long + after)) == ScanLines(Unlines(before))
  {
    var s := long + after;
    assert s[..|long|] == long;
    assert Utf8Length("") == 0;
    if after == "" {
      assert s == long;
    } else {
      IndexUnique(s, '\n', |long|);
    }
    ScanUnlines(before, s);
    ScanUnlines(before, "");
    assert Unlines(before) + "" == Unlines(before);
  }
}
