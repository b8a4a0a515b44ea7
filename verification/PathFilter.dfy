/** `pkg/modelfile/path_filter.go`: exclude and include patterns over relative paths. */
module PathFilters {
  import opened Options

  /** What the glob engine says of a pattern and a path; `Malformed` is its error. */
  datatype Verdict = Matched | Unmatched | Malformed

  type Glob = (string, string) -> Verdict

  datatype PathFilter = PathFilter(excludes: seq<string>, includes: seq<string>)

  /** `strings.TrimRight(p, "/")`. */
  function TrimSeparators(p: string): (t: string)
    ensures t <= p && (t != "" ==> t[|t| - 1] != '/') && forall i :: |t| <= i < |p| ==> p[i] == '/'
  {
    if p != "" && p[|p| - 1] == '/' then TrimSeparators(p[..|p| - 1]) else p
  }

  function Trimmed(patterns: seq<string>): (t: seq<string>)
    ensures |t| == |patterns| && forall i :: 0 <= i < |t| ==> t[i] == TrimSeparators(patterns[i])
  {
    seq(|patterns|, i requires 0 <= i < |patterns| => TrimSeparators(patterns[i]))
  }

  /** The patterns in turn, until one matches or is malformed. */
  predicate Matches(glob: Glob, patterns: seq<string>, path: string) {
    patterns != [] &&
    match glob(patterns[0], path)
    case Malformed => false
    case Matched => true
    case Unmatched => Matches(glob, patterns[1..], path)
  }

  /** Some pattern matches the directory, or is written below it. */
  predicate Leads(glob: Glob, patterns: seq<string>, dir: string) {
    exists p :: p in patterns && (glob(p, dir) == Matched || dir + "/" <= p)
  }

  /** The pattern rejected first, with the excludes before the includes. */
  function Rejected(glob: Glob, patterns: seq<string>): Option<string> {
    if patterns == [] then None
    else if glob(patterns[0], "") == Malformed then Some(patterns[0])
    else Rejected(glob, patterns[1..])
  }

  method Clean(glob: Glob, patterns: seq<string>) returns (cleaned: seq<string>, e: Option<string>)
    ensures e == Rejected(glob, patterns)
    ensures e.None? ==> cleaned == Trimmed(patterns)
  {
    cleaned := [];
    assert patterns[0..] == patterns;
    for i := 0 to |patterns|
      invariant cleaned == Trimmed(patterns[..i])
      invariant Rejected(glob, patterns) == Rejected(glob, patterns[i..])
    {
      var p := patterns[i];
      assert patterns[i..][1..] == patterns[i + 1..];
      if glob(p, "") == Malformed {
        return cleaned, Some(p);
      }
      cleaned := cleaned + [TrimSeparators(p)];
    }
    assert patterns[..|patterns|] == patterns;
    e := None;
  }

  method NewPathFilter(glob: Glob, excludes: seq<string>, includes: seq<string>) returns (r: Result<PathFilter, string>)
    ensures r == FilterOf(glob, excludes, includes)
  {
    var cleanedExclude, e := Clean(glob, excludes);
    if e.Some? {
      RejectedAppend(glob, excludes, includes);
      return Err(e.value);
    }
    var cleanedInclude;
    cleanedInclude, e := Clean(glob, includes);
    RejectedAppend(glob, excludes, includes);
    if e.Some? {
      return Err(e.value);
    }
    return Ok(PathFilter(cleanedExclude, cleanedInclude));
  }

  function FilterOf(glob: Glob, excludes: seq<string>, includes: seq<string>): Result<PathFilter, string> {
    match Rejected(glob, excludes + includes)
    case Some(p) => Err(p)
    case None => Ok(PathFilter(Trimmed(excludes), Trimmed(includes)))
  }

  lemma {:induction false} RejectedAppend(glob: Glob, a: seq<string>, b: seq<string>)
    ensures Rejected(glob, a + b) == if Rejected(glob, a).Some? then Rejected(glob, a) else Rejected(glob, b)
    decreases |a|
  {
    if a == [] {
      assert a + b == b;
    } else {
      assert (a + b)[1..] == a[1..] + b;
      RejectedAppend(glob, a[1..], b);
    }
  }

  method MatchAny(glob: Glob, patterns: seq<string>, path: string) returns (matched: bool)
    ensures matched == Matches(glob, patterns, path)
  {
    assert patterns[0..] == patterns;
    for i := 0 to |patterns|
      invariant Matches(glob, patterns, path) == Matches(glob, patterns[i..], path)
    {
      assert patterns[i..][1..] == patterns[i + 1..];
      match glob(patterns[i], path)
      case Malformed => return false;
      case Matched => return true;
      case Unmatched =>
    }
    return false;
  }

  method ShouldDescend(glob: Glob, patterns: seq<string>, dir: string) returns (descend: bool)
    ensures descend == Leads(glob, patterns, dir)
  {
    for i := 0 to |patterns|
      invariant forall j :: 0 <= j < i ==> glob(patterns[j], dir) != Matched && !(dir + "/" <= patterns[j])
    {
      if glob(patterns[i], dir) == Matched || dir + "/" <= patterns[i] {
        return true;
      }
    }
    return false;
  }

  // ---------------------------------------------------------------- what matching means

  ghost predicate FirstMatch(glob: Glob, patterns: seq<string>, path: string, k: nat) {
    k < |patterns| && glob(patterns[k], path) == Matched && forall j :: 0 <= j < k ==> glob(patterns[j], path) == Unmatched
  }

  /** A path matches if and only if some pattern matches it and every pattern before that one gives an
      answer: a malformed pattern hides all that follow it. */
  lemma {:induction false} MatchesExactly(glob: Glob, patterns: seq<string>, path: string)
    ensures Matches(glob, patterns, path) <==> exists k :: FirstMatch(glob, patterns, path, k)
    decreases |patterns|
  {
    if patterns == [] { return; }
    var rest := patterns[1..];
    MatchesExactly(glob, rest, path);
    if glob(patterns[0], path) == Matched { assert FirstMatch(glob, patterns, path, 0); }
    if k: nat :| FirstMatch(glob, rest, path, k) {
      assert rest[k] == patterns[k + 1] && forall j :: 0 < j < k + 1 ==> patterns[j] == rest[j - 1];
      if glob(patterns[0], path) == Unmatched { assert FirstMatch(glob, patterns, path, k + 1); }
    }
    if k: nat :| FirstMatch(glob, patterns, path, k) && k > 0 {
      assert forall j :: 0 <= j < |rest| ==> rest[j] == patterns[j + 1];
      assert FirstMatch(glob, rest, path, k - 1);
    }
  }

  /** The patterns of a list give an answer on every path. */
  ghost predicate Sane(glob: Glob, patterns: seq<string>) {
    forall p, path :: p in patterns ==> glob(p, path) != Malformed
  }

  lemma {:induction false} SaneMatches(glob: Glob, patterns: seq<string>, path: string)
    requires Sane(glob, patterns)
    ensures Matches(glob, patterns, path) <==> exists p :: p in patterns && glob(p, path) == Matched
    decreases |patterns|
  {
    if patterns != [] {
      assert patterns == [patterns[0]] + patterns[1..];
      SaneMatches(glob, patterns[1..], path);
    }
  }

  /** Checking a pattern before its separators are trimmed does not check the trimmed one: a filter made of
      accepted patterns may match nothing at all. Only the engine's verdict on the trimmed pattern decides. */
  lemma TrimmedPatternHidesTheRest(glob: Glob, p: string, others: seq<string>, path: string)
    requires glob(TrimSeparators(p), path) == Malformed
    ensures !Matches(glob, Trimmed([p] + others), path)
  {
    assert Trimmed([p] + others)[0] == TrimSeparators(p);
  }
}
