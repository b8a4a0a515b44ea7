/** How the printer quotes a value and how the parser reads arguments back. */
module Quoting {
  import opened Options
  import opened Text

  // ---------------------------------------------------------------- the reader

  /** The local variables of `parseArgs`. */
  datatype Scan = Scan(args: seq<string>, current: string, inQuotes: bool, escape: bool, hadQuotes: bool)

  const START := Scan([], "", false, false, false)

  function Next(st: Scan, c: char): Scan {
    if st.escape then st.(current := st.current + [c], escape := false)
    else if c == '\\' then st.(escape := true)
    else if c == '"' then st.(inQuotes := !st.inQuotes, hadQuotes := true)
    else if (c == ' ' || c == '\t') && !st.inQuotes then
      if st.current != "" || st.hadQuotes then st.(args := st.args + [st.current], current := "", hadQuotes := false) else st
    else st.(current := st.current + [c])
  }

  function ScanAll(st: Scan, s: string): Scan
    decreases |s|
  {
    if s == "" then st else ScanAll(Next(st, s[0]), s[1..])
  }

  /** `None` is the error "unclosed quotes". */
  function Close(st: Scan): Option<seq<string>> {
    if st.inQuotes then None
    else if st.current != "" || st.hadQuotes then Some(st.args + [st.current])
    else Some(st.args)
  }

  function ParseArgs(s: string): Option<seq<string>> {
    Close(ScanAll(START, s))
  }

  method ReadArgs(argsStr: string) returns (r: Option<seq<string>>)
    ensures r == ParseArgs(argsStr)
  {
    var args: seq<string>, current, inQuotes, escape, hadQuotes := [], "", false, false, false;
    for i := 0 to |argsStr|
      invariant ScanAll(START, argsStr) == ScanAll(Scan(args, current, inQuotes, escape, hadQuotes), argsStr[i..])
    {
      var c := argsStr[i];
      assert argsStr[i..][1..] == argsStr[i + 1..];
      if escape {
        current := current + [c];
        escape := false;
      } else if c == '\\' {
        escape := true;
      } else if c == '"' {
        inQuotes := !inQuotes;
        hadQuotes := true;
      } else if c == ' ' || c == '\t' {
        if inQuotes {
          current := current + [c];
        } else if |current| > 0 || hadQuotes {
          args := args + [current];
          current := "";
          hadQuotes := false;
        }
      } else {
        current := current + [c];
      }
    }
    if inQuotes {
      return None;
    }
    if |current| > 0 || hadQuotes {
      args := args + [current];
    }
    return Some(args);
  }

  lemma {:induction false} ScanAppend(st: Scan, a: string, b: string)
    ensures ScanAll(st, a + b) == ScanAll(ScanAll(st, a), b)
    decreases |a|
  {
    if a == "" {
      assert a + b == b;
    } else {
      assert (a + b)[1..] == a[1..] + b;
      ScanAppend(Next(st, a[0]), a[1..], b);
    }
  }

  /** How many characters the reader has put into arguments so far. */
  function Written(st: Scan): nat {
    Total(st.args) + |st.current|
  }

  function Total(args: seq<string>): nat {
    if args == [] then 0 else Total(args[..|args| - 1]) + |args[|args| - 1]|
  }

  lemma CloseTotal(st: Scan)
    requires Close(st).Some?
    ensures Total(Close(st).value) == Written(st)
  {
    assert (st.args + [st.current])[..|st.args|] == st.args;
  }

  /** No character is written more than once. */
  lemma NextWrites(st: Scan, c: char)
    ensures Written(Next(st, c)) <= Written(st) + 1
    ensures st.escape ==> Written(Next(st, c)) == Written(st) + 1
    ensures !st.escape && (c == '\\' || c == '"' || ((c == ' ' || c == '\t') && !st.inQuotes)) ==> Written(Next(st, c)) == Written(st)
  {
    assert (st.args + [st.current])[..|st.args|] == st.args;
  }

  lemma {:induction false} ScanWrites(st: Scan, s: string)
    ensures Written(ScanAll(st, s)) <= Written(st) + |s|
    decreases |s|
  {
    if s != "" {
      NextWrites(st, s[0]);
      ScanWrites(Next(st, s[0]), s[1..]);
    }
  }

  // ---------------------------------------------------------------- unquoted values

  predicate Special(c: char) {
    c == ' ' || c == '\t' || c == '"' || c == '\\'
  }

  lemma {:induction false} PlainScan(st: Scan, s: string)
    requires !st.escape && !st.inQuotes && forall c :: c in s ==> !Special(c)
    ensures ScanAll(st, s) == st.(current := st.current + s)
    decreases |s|
  {
    if s == "" {
      assert st.current + s == st.current;
    } else {
      assert !Special(s[0]) && forall c :: c in s[1..] ==> c in s;
      PlainScan(Next(st, s[0]), s[1..]);
      assert st.current + [s[0]] + s[1..] == st.current + s;
    }
  }

  /** A first special character costs at least itself. */
  lemma {:induction false} SpecialLost(a: string, c: char, b: string)
    requires Special(c) && forall x :: x in a ==> !Special(x)
    ensures Written(ScanAll(START, a + ([c] + b))) < |a| + 1 + |b|
  {
    var st := START.(current := a);
    PlainScan(START, a);
    assert START.current + a == a;
    ScanAppend(START, a, [c] + b);
    ScanAppend(st, [c], b);
    assert [c][1..] == "" && ScanAll(st, [c]) == Next(st, c);
    NextWrites(st, c);
    ScanWrites(Next(st, c), b);
  }

  lemma FirstSpecial(s: string) returns (k: nat)
    requires exists c :: c in s && Special(c)
    ensures k < |s| && Special(s[k]) && forall i :: 0 <= i < k ==> !Special(s[i])
  {
    if Special(s[0]) { k := 0; } else {
      var c :| c in s && Special(c);
      assert c in s[1..];
      k := FirstSpecial(s[1..]);
      k := k + 1;
    }
  }

  lemma SpecialLosesAt(s: string, k: nat)
    requires k < |s| && Special(s[k]) && forall i :: 0 <= i < k ==> !Special(s[i])
    ensures Written(ScanAll(START, s)) < |s|
  {
    var a, c, b := s[..k], s[k], s[k + 1..];
    assert a + ([c] + b) == s;
    SpecialLost(a, c, b);
  }

  lemma SpecialLoses(s: string)
    requires exists c :: c in s && Special(c)
    ensures Written(ScanAll(START, s)) < |s|
  {
    var k := FirstSpecial(s);
    SpecialLosesAt(s, k);
  }

  /** Text is read as the single argument it is if and only if it is not empty and holds no blank, tab,
      quote or backslash. */
  lemma PlainReadsBack(s: string)
    ensures ParseArgs(s) == Some([s]) <==> s != "" && forall c :: c in s ==> !Special(c)
  {
    if exists c :: c in s && Special(c) {
      SpecialLoses(s);
      LossShows(ScanAll(START, s), s);
    } else {
      PlainScan(START, s);
      assert START.current + s == s && START.args + [s] == [s];
    }
  }

  lemma OneArgument(st: Scan, v: string)
    requires Close(st) == Some([v])
    ensures Written(st) == |v|
  {
    assert [v][..0] == [] && Total([v]) == |v|;
    CloseTotal(st);
  }

  /** A reader that has written too little does not return `v`. */
  lemma LossShows(st: Scan, v: string)
    requires Written(st) < |v|
    ensures Close(st) != Some([v])
  {
    assert [v][..0] == [] && Total([v]) == |v|;
    if Close(st).Some? { CloseTotal(st); }
  }

  // ---------------------------------------------------------------- the printer

  /** `strings.ContainsAny(value, " \t\n\r")`. */
  predicate NeedsQuotes(v: string) {
    exists c :: c in v && (c == ' ' || c == '\t' || c == '\n' || c == '\r')
  }

  function Escaped(v: string): string {
    if v == "" then "" else (if v[0] == '"' then "\\\"" else [v[0]]) + Escaped(v[1..])
  }

  function QuoteIfNeeded(v: string): string {
    if NeedsQuotes(v) then "\"" + Escaped(v) + "\"" else v
  }

  lemma {:induction false} EscapedAppend(a: string, b: string)
    ensures Escaped(a + b) == Escaped(a) + Escaped(b)
    decreases |a|
  {
    if a == "" { assert a + b == b; } else {
      assert (a + b)[1..] == a[1..] + b;
      EscapedAppend(a[1..], b);
    }
  }

  lemma EscapedHead(v: string)
    requires v != ""
    ensures Escaped(v) == Escaped([v[0]]) + Escaped(v[1..])
  {
    assert v == [v[0]] + v[1..];
    EscapedAppend([v[0]], v[1..]);
  }

  /** One printed character, read inside or outside quotes, in any state. */
  function Read(st: Scan, c: char): Scan {
    if c == '"' then Next(Next(st, '\\'), '"') else Next(st, c)
  }

  lemma ReadScans(st: Scan, c: char)
    ensures ScanAll(st, Escaped([c])) == Read(st, c)
  {
    assert Escaped([c]) == if c == '"' then "\\\"" else [c];
    if c == '"' {
      assert "\\\""[1..] == "\"" && "\""[1..] == "";
      assert ScanAll(st, "\\\"") == ScanAll(Next(st, '\\'), "\"");
    } else {
      assert [c][1..] == "";
    }
  }

  lemma {:induction false} CleanRead(st: Scan, v: string)
    requires st.inQuotes && !st.escape && '\\' !in v
    ensures ScanAll(st, Escaped(v)) == st.(current := st.current + v)
    decreases |v|
  {
    if v == "" { assert st.current + v == st.current; } else {
      EscapedHead(v);
      ScanAppend(st, Escaped([v[0]]), Escaped(v[1..]));
      ReadScans(st, v[0]);
      CleanRead(Read(st, v[0]), v[1..]);
      assert st.current + [v[0]] + v[1..] == st.current + v;
    }
  }

  /** After `i` characters of the value, at least one of which the reader has swallowed: what is still to be
      written cannot make up for it, not even a closing quote taken literally. */
  predicate Behind(st: Scan, i: nat) {
    Written(st) + 1 <= i && (st.escape ==> st.inQuotes || Written(st) + 2 <= i)
  }

  lemma BehindRead(st: Scan, c: char, i: nat)
    requires Behind(st, i)
    ensures Behind(Read(st, c), i + 1)
  {
    if c == '"' {
      NextWrites(st, '\\');
      NextWrites(Next(st, '\\'), '"');
    } else {
      NextWrites(st, c);
    }
  }

  lemma {:induction false} BehindAll(st: Scan, v: string, i: nat)
    requires Behind(st, i)
    ensures Behind(ScanAll(st, Escaped(v)), i + |v|)
    decreases |v|
  {
    if v != "" {
      EscapedHead(v);
      ScanAppend(st, Escaped([v[0]]), Escaped(v[1..]));
      ReadScans(st, v[0]);
      BehindRead(st, v[0], i);
      BehindAll(Read(st, v[0]), v[1..], i + 1);
    }
  }

  lemma QuotedScan(v: string)
    ensures var open := Scan([], "", true, false, true);
            ScanAll(START, "\"" + Escaped(v) + "\"") == Next(ScanAll(open, Escaped(v)), '"')
  {
    var open := Scan([], "", true, false, true);
    var e := Escaped(v);
    assert ("\"" + e + "\"") == "\"" + (e + "\"");
    assert ("\"" + (e + "\""))[1..] == e + "\"";
    ScanAppend(open, e, "\"");
    assert "\""[1..] == "";
  }

  /** The reader at the first backslash of a printed value. */
  lemma UpToBackslash(v: string, k: nat)
    requires k < |v| && v[k] == '\\' && '\\' !in v[..k]
    ensures ScanAll(Scan([], "", true, false, true), Escaped(v))
         == ScanAll(Next(Scan([], v[..k], true, false, true), '\\'), Escaped(v[k + 1..]))
  {
    var open, st := Scan([], "", true, false, true), Scan([], v[..k], true, false, true);
    var rest := v[k..];
    assert v == v[..k] + rest && rest[1..] == v[k + 1..];
    EscapedAppend(v[..k], rest);
    ScanAppend(open, Escaped(v[..k]), Escaped(rest));
    CleanRead(open, v[..k]);
    assert open.current + v[..k] == v[..k];
    EscapedHead(rest);
    ScanAppend(st, Escaped([rest[0]]), Escaped(v[k + 1..]));
    ReadScans(st, '\\');
  }

  /** A backslash is swallowed, and nothing after it makes up for that. */
  lemma {:induction false} QuotedLoses(v: string)
    requires '\\' in v
    ensures var end := ScanAll(START, "\"" + Escaped(v) + "\""); Close(end).Some? ==> Written(end) < |v|
  {
    var k := Index(v, '\\');
    var st := Next(Scan([], v[..k], true, false, true), '\\');
    UpToBackslash(v, k);
    assert Behind(st, k + 1);
    BehindAll(st, v[k + 1..], k + 1);
    QuotedScan(v);
    NextWrites(ScanAll(st, Escaped(v[k + 1..])), '"');
  }

  /** A value printed in quotes is read back if and only if it holds no backslash. */
  lemma QuotedReadsBack(v: string)
    ensures ParseArgs("\"" + Escaped(v) + "\"") == Some([v]) <==> '\\' !in v
  {
    if '\\' in v {
      QuotedLoses(v);
      var end := ScanAll(START, "\"" + Escaped(v) + "\"");
      if Close(end).Some? { LossShows(end, v); }
    } else {
      var open := Scan([], "", true, false, true);
      QuotedScan(v);
      CleanRead(open, v);
      assert open.current + v == v && open.args + [v] == [v];
    }
  }

  /** The values the printer's quoting preserves. */
  predicate Quotable(v: string) {
    v != "" && '\\' !in v && (!NeedsQuotes(v) ==> '"' !in v)
  }

  /** `parseArgs(quoteIfNeeded(v))` is exactly `[v]` if and only if `v` is not empty, holds no backslash and,
      when it is printed without quotes, holds no quote. */
  lemma QuoteRoundTrip(v: string)
    ensures ParseArgs(QuoteIfNeeded(v)) == Some([v]) <==> Quotable(v)
  {
    if NeedsQuotes(v) { QuotedReadsBack(v); } else { PlainReadsBack(v); }
  }
}
