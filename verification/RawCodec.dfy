/** `pkg/codec/raw.go`: writing a layer to a file, unless extended attributes say the file has it already. */
module RawCodecs {
  import opened Options
  import opened Oci

  type Data = seq<bv8>

  /** The file metadata annotation; mode 0 stands for "not given". */
  datatype Metadata = Absent | Garbled | Metadata(mode: nat, timed: bool)

  datatype Target = Target(size: int, digest: Digest, metadata: Metadata)

  datatype Node = Node(data: Data, mode: nat, sizeAttr: Option<int>, digestAttr: Option<Digest>)

  /** What goes wrong in a call. `cut` ends the copy after so many bytes. */
  datatype Faults = Faults(mkdir: bool, stat: bool, getAttr: bool, create: bool, cut: Option<nat>, chmod: bool, chtimes: bool,
                           setSize: bool, setDigest: bool)

  datatype Outcome = Written | UpToDate | Failed

  const NEW_MODE: nat := 0x1A4

  predicate NeedsUpdate(files: map<string, Node>, path: string, want: Target, faults: Faults) {
    || path !in files || faults.stat || |files[path].data| != want.size
    || faults.getAttr || files[path].sizeAttr != Some(want.size) || files[path].digestAttr != Some(want.digest)
  }

  /** `os.Create`: truncates a file and keeps its mode and attributes, or makes an empty one. */
  function Created(files: map<string, Node>, path: string): Node {
    if path in files then files[path].(data := []) else Node([], NEW_MODE, None, None)
  }

  function Prefix(data: Data, k: nat): Data {
    if k <= |data| then data[..k] else data
  }

  predicate GivesMode(want: Target) {
    want.metadata.Metadata? && want.metadata.mode != 0
  }

  predicate GivesTime(want: Target) {
    want.metadata.Metadata? && want.metadata.timed
  }

  function Moded(n: Node, want: Target): Node {
    if GivesMode(want) then n.(mode := want.metadata.mode) else n
  }

  /** The size is stored first; when that fails the digest is not tried. */
  function Attributed(n: Node, want: Target, faults: Faults): Node {
    if faults.setSize then n
    else if faults.setDigest then n.(sizeAttr := Some(want.size))
    else n.(sizeAttr := Some(want.size), digestAttr := Some(want.digest))
  }

  /** The file a call leaves once it is open, and how the call ends. */
  function Rewritten(made: Node, data: Data, want: Target, faults: Faults): (Node, Outcome) {
    if faults.cut.Some? then (made.(data := Prefix(data, faults.cut.value)), Failed)
    else
      var full := made.(data := data);
      if want.metadata.Garbled? || (GivesMode(want) && faults.chmod) then (full, Failed)
      else if GivesTime(want) && faults.chtimes then (Moded(full, want), Failed)
      else (Attributed(Moded(full, want), want, faults), Written)
  }

  function Decoded(files: map<string, Node>, path: string, data: Data, want: Target, faults: Faults): (map<string, Node>, Outcome) {
    if faults.mkdir then (files, Failed)
    else if !NeedsUpdate(files, path, want, faults) then (files, UpToDate)
    else if faults.create then (files, Failed)
    else
      var (node, outcome) := Rewritten(Created(files, path), data, want, faults);
      (files[path := node], outcome)
  }

  class Disk {
    var files: map<string, Node>

    method FileNeedsUpdate(path: string, want: Target, faults: Faults) returns (yes: bool)
      ensures yes == NeedsUpdate(files, path, want, faults)
    {
      if faults.stat || path !in files {
        return true;
      }
      if |files[path].data| != want.size {
        return true;
      }
      if faults.getAttr || files[path].sizeAttr.None? || files[path].digestAttr.None? {
        return true;
      }
      return !(files[path].sizeAttr.value == want.size && files[path].digestAttr.value == want.digest);
    }

    method StoreFileMetadata(path: string, want: Target, faults: Faults)
      requires path in files
      modifies this
      ensures files == old(files)[path := Attributed(old(files)[path], want, faults)]
    {
      if faults.setSize {
        return;
      }
      files := files[path := files[path].(sizeAttr := Some(want.size))];
      if faults.setDigest {
        return;
      }
      files := files[path := files[path].(digestAttr := Some(want.digest))];
    }

    method Decode(path: string, data: Data, want: Target, faults: Faults) returns (outcome: Outcome)
      modifies this
      ensures (files, outcome) == Decoded(old(files), path, data, want, faults)
    {
      if faults.mkdir {
        return Failed;
      }
      var needsUpdate := FileNeedsUpdate(path, want, faults);
      if !needsUpdate {
        return UpToDate;
      }
      if faults.create {
        return Failed;
      }
      files := files[path := Created(files, path)];
      if faults.cut.Some? {
        files := files[path := files[path].(data := Prefix(data, faults.cut.value))];
        assert files == old(files)[path := files[path]];
        return Failed;
      }
      files := files[path := files[path].(data := data)];
      assert files == old(files)[path := files[path]];
      if want.metadata.Garbled? {
        return Failed;
      }
      if GivesMode(want) {
        if faults.chmod {
          return Failed;
        }
        files := files[path := files[path].(mode := want.metadata.mode)];
        assert files == old(files)[path := files[path]];
      }
      if GivesTime(want) && faults.chtimes {
        return Failed;
      }
      StoreFileMetadata(path, want, faults);
      assert files == old(files)[path := files[path]];
      return Written;
    }
  }

  // ---------------------------------------------------------------- attributes that tell the truth

  /** The bytes are those of the descriptor. */
  predicate Fits(data: Data, want: Target) {
    want.size == |data| && want.digest == Sha256(Bytes(data))
  }

  /** A file whose attributes are both there is what they say. */
  predicate Truthful(n: Node) {
    n.sizeAttr.Some? && n.digestAttr.Some? ==> n.sizeAttr.value == |n.data| && n.digestAttr.value == Sha256(Bytes(n.data))
  }

  predicate Bare(n: Node) {
    n.sizeAttr.None? && n.digestAttr.None?
  }

  /** On a file system with attributes they are truthful, on one without them there are none. */
  ghost predicate DiskOk(files: map<string, Node>, attributes: bool) {
    forall p :: p in files ==> Truthful(files[p]) && (!attributes ==> Bare(files[p]))
  }

  datatype Call = Call(path: string, data: Data, want: Target, faults: Faults)

  /** The reader delivers the descriptor's bytes, nothing fails once the file is open, and attributes can be
      written always or never. */
  ghost predicate Sound(c: Call, attributes: bool) {
    && Fits(c.data, c.want)
    && c.faults.cut.None? && !c.want.metadata.Garbled? && !c.faults.chmod && !c.faults.chtimes
    && c.faults.setSize == c.faults.setDigest == !attributes
  }

  function DecodeCall(files: map<string, Node>, c: Call): (map<string, Node>, Outcome) {
    Decoded(files, c.path, c.data, c.want, c.faults)
  }

  function DecodeAll(files: map<string, Node>, calls: seq<Call>): map<string, Node>
    decreases |calls|
  {
    if calls == [] then files else DecodeAll(DecodeCall(files, calls[0]).0, calls[1..])
  }

  lemma DecodeKeeps(files: map<string, Node>, c: Call, attributes: bool)
    requires DiskOk(files, attributes) && Sound(c, attributes)
    ensures DiskOk(DecodeCall(files, c).0, attributes)
  {
  }

  /** Over any run of sound calls the attributes describe the bytes on disk. */
  lemma {:induction false} AttributesStayTrue(files: map<string, Node>, calls: seq<Call>, attributes: bool)
    requires DiskOk(files, attributes) && forall c :: c in calls ==> Sound(c, attributes)
    ensures DiskOk(DecodeAll(files, calls), attributes)
    decreases |calls|
  {
    if calls != [] {
      DecodeKeeps(files, calls[0], attributes);
      AttributesStayTrue(DecodeCall(files, calls[0]).0, calls[1..], attributes);
    }
  }

  /** So after any such run "already up to date" is said only of a file that holds the descriptor's bytes,
      whatever the reader of that call would have delivered and whatever failed in it. */
  lemma UpToDateIsTrue(files: map<string, Node>, calls: seq<Call>, attributes: bool, c: Call)
    requires DiskOk(files, attributes) && forall k :: k in calls ==> Sound(k, attributes)
    requires DecodeCall(DecodeAll(files, calls), c).1 == UpToDate
    ensures c.path in DecodeAll(files, calls) && Fits(DecodeAll(files, calls)[c.path].data, c.want)
    ensures DecodeCall(DecodeAll(files, calls), c).0 == DecodeAll(files, calls)
  {
    AttributesStayTrue(files, calls, attributes);
  }

  /** Decoding the same again leaves every file as it is, and with attributes does not even open it. */
  lemma DecodeAgainChangesNothing(files: map<string, Node>, c: Call, again: Faults, attributes: bool)
    requires Sound(c, attributes) && Sound(c.(faults := again), attributes) && DecodeCall(files, c).1 == Written
    ensures DecodeCall(DecodeCall(files, c).0, c.(faults := again)).0 == DecodeCall(files, c).0
    ensures attributes && !again.mkdir && !again.stat && !again.getAttr ==> DecodeCall(DecodeCall(files, c).0, c.(faults := again)).1 == UpToDate
  {
    var after := DecodeCall(files, c).0;
    assert after[c.path := after[c.path]] == after;
  }

  // ---------------------------------------------------------------- without those hypotheses

  /** A call in which nothing fails, and attributes are written. */
  const CLEAN := Faults(false, false, false, false, None, false, false, false, false)

  /** The attributes are stored before the caller checks the digest of what was read: the next call for the same
      descriptor leaves the file alone if and only if the length was right, whatever the bytes are. */
  lemma LengthDecidesTheSecondTime(files: map<string, Node>, path: string, data: Data, again: Data, want: Target)
    requires Decoded(files, path, data, want, CLEAN).1 == Written
    ensures Decoded(Decoded(files, path, data, want, CLEAN).0, path, again, want, CLEAN).1 == UpToDate <==> |data| == want.size
    ensures Decoded(files, path, data, want, CLEAN).0[path].data == data
    ensures Truthful(Decoded(files, path, data, want, CLEAN).0[path]) <==> Fits(data, want)
  {
  }

  /** `pullAndExtractFromRemote` for a raw layer: a layer that is up to date counts as pulled, any other is
      checked against its digest after it was written. */
  function Extracted(files: map<string, Node>, c: Call): (map<string, Node>, bool) {
    var (after, outcome) := DecodeCall(files, c);
    (after, outcome == UpToDate || (outcome == Written && ValidateDigest(c.want.digest, Bytes(c.data))))
  }

  /** Wrong bytes of the right length fail the first attempt and pass the second one, which reports success with
      the wrong bytes in the file. */
  lemma RetryAcceptsWrongBytes(files: map<string, Node>, c: Call, retry: Call)
    requires c.faults == retry.faults == CLEAN && retry.path == c.path && retry.want == c.want && !c.want.metadata.Garbled?
    requires NeedsUpdate(files, c.path, c.want, CLEAN) && c.want.digest != Sha256(Bytes(c.data))
    ensures !Extracted(files, c).1
    ensures |c.data| == c.want.size ==>
              var (after, ok) := Extracted(Extracted(files, c).0, retry);
              ok && c.path in after && after[c.path].data == c.data && !Fits(after[c.path].data, c.want)
  {
  }

  /** A copy that ends early leaves the attributes of the old content in place: if what was copied is as long as
      the old content, asking for the old content again finds it "up to date". */
  lemma CutCopyKeepsOldAttributes(files: map<string, Node>, c: Call, old': Target)
    requires c.path in files && Fits(files[c.path].data, old') && files[c.path].sizeAttr == Some(old'.size) && files[c.path].digestAttr == Some(old'.digest)
    requires !c.faults.mkdir && !c.faults.create && c.faults.cut.Some? && NeedsUpdate(files, c.path, c.want, c.faults)
    ensures var (after, outcome) := DecodeCall(files, c);
            && outcome == Failed && c.path in after
            && (Decoded(after, c.path, [], old', CLEAN).1 == UpToDate <==> |Prefix(c.data, c.faults.cut.value)| == old'.size)
            && (Fits(after[c.path].data, old') <==> Prefix(c.data, c.faults.cut.value) == files[c.path].data)
  {
  }

  /** Attributes that can be written only in part mix the new size with the old digest: the file then claims to be
      the old content of the same length. */
  lemma HalfWrittenAttributesLie(files: map<string, Node>, c: Call, old': Target)
    requires c.path in files && Fits(files[c.path].data, old') && files[c.path].sizeAttr == Some(old'.size) && files[c.path].digestAttr == Some(old'.digest)
    requires c.faults == CLEAN.(setDigest := true) && Fits(c.data, c.want) && !c.want.metadata.Garbled? && c.data != files[c.path].data
    ensures var (after, outcome) := DecodeCall(files, c);
            && outcome == Written && c.path in after && !Fits(after[c.path].data, old')
            && (Decoded(after, c.path, [], old', CLEAN).1 == UpToDate <==> c.want.size == old'.size)
  {
  }

  // ---------------------------------------------------------------- when it is said, and when it is true, exactly

  /** What a call may do to the file of its path: open it, store a size, store a digest. */
  datatype Deed = Opened | Sized | Digested

  predicate Completes(c: Call) {
    c.faults.cut.None? && !c.want.metadata.Garbled? && !(GivesMode(c.want) && c.faults.chmod) && !(GivesTime(c.want) && c.faults.chtimes)
  }

  /** The bytes a call leaves in a file it opened. */
  function Left(c: Call): Data {
    if c.faults.cut.Some? then Prefix(c.data, c.faults.cut.value) else c.data
  }

  function SizeAsked(c: Call): int {
    c.want.size
  }

  function DigestAsked(c: Call): Digest {
    c.want.digest
  }

  predicate Does(files: map<string, Node>, c: Call, deed: Deed) {
    && !c.faults.mkdir && NeedsUpdate(files, c.path, c.want, c.faults) && !c.faults.create
    && (!deed.Opened? ==> Completes(c) && !c.faults.setSize)
    && (deed.Digested? ==> !c.faults.setDigest)
  }

  /** Call `k` of a run did it to the file at `path`. */
  ghost predicate Did(files: map<string, Node>, calls: seq<Call>, path: string, deed: Deed, k: nat) {
    k < |calls| && calls[k].path == path && Does(DecodeAll(files, calls[..k]), calls[k], deed)
  }

  /** And none did it after. */
  ghost predicate DidLast(files: map<string, Node>, calls: seq<Call>, path: string, deed: Deed, k: nat) {
    Did(files, calls, path, deed, k) && forall j: nat :: k < j ==> !Did(files, calls, path, deed, j)
  }

  lemma {:induction false} DecodeAllSnoc(files: map<string, Node>, calls: seq<Call>, c: Call)
    ensures DecodeAll(files, calls + [c]) == DecodeCall(DecodeAll(files, calls), c).0
    decreases |calls|
  {
    if calls == [] {
      assert [] + [c] == [c] && [c][1..] == [];
    } else {
      assert (calls + [c])[1..] == calls[1..] + [c];
      DecodeAllSnoc(DecodeCall(files, calls[0]).0, calls[1..], c);
    }
  }

  lemma DidBefore(files: map<string, Node>, calls: seq<Call>, c: Call, path: string, deed: Deed, k: nat)
    ensures Did(files, calls + [c], path, deed, k) <==>
            if k == |calls| then c.path == path && Does(DecodeAll(files, calls), c, deed) else Did(files, calls, path, deed, k)
  {
    if k <= |calls| { assert (calls + [c])[..k] == calls[..k] && calls[..|calls|] == calls; }
  }

  /** What the file at `path` has from the last call that did something to it; `None` if none did. */
  ghost predicate From<T>(files: map<string, Node>, calls: seq<Call>, path: string, deed: Deed, now: Option<T>, of: Call -> T) {
    match now
    case None => forall k: nat :: !Did(files, calls, path, deed, k)
    case Some(v) => exists k: nat :: DidLast(files, calls, path, deed, k) && of(calls[k]) == v
  }

  function DataAt(files: map<string, Node>, path: string): Option<Data> {
    if path in files then Some(files[path].data) else None
  }

  function SizeAt(files: map<string, Node>, path: string): Option<int> {
    if path in files then files[path].sizeAttr else None
  }

  function DigestAt(files: map<string, Node>, path: string): Option<Digest> {
    if path in files then files[path].digestAttr else None
  }

  /** One call, seen from a path. */
  lemma DecodeSeen(files: map<string, Node>, c: Call, path: string)
    ensures var after := DecodeCall(files, c).0;
            && DataAt(after, path) == (if c.path == path && Does(files, c, Opened) then Some(Left(c)) else DataAt(files, path))
            && SizeAt(after, path) == (if c.path == path && Does(files, c, Sized) then Some(SizeAsked(c)) else SizeAt(files, path))
            && DigestAt(after, path) == (if c.path == path && Does(files, c, Digested) then Some(DigestAsked(c)) else DigestAt(files, path))
  {
  }

  /** The bytes and the attributes, each from the last call that wrote it. */
  ghost predicate Account(files: map<string, Node>, calls: seq<Call>, path: string, after: map<string, Node>) {
    && From(files, calls, path, Opened, DataAt(after, path), Left)
    && From(files, calls, path, Sized, SizeAt(after, path), SizeAsked)
    && From(files, calls, path, Digested, DigestAt(after, path), DigestAsked)
  }

  lemma FromNext<T>(files: map<string, Node>, calls: seq<Call>, c: Call, path: string, deed: Deed, was: Option<T>, now: Option<T>, of: Call -> T)
    requires From(files, calls, path, deed, was, of)
    requires now == if c.path == path && Does(DecodeAll(files, calls), c, deed) then Some(of(c)) else was
    ensures From(files, calls + [c], path, deed, now, of)
  {
    var all := calls + [c];
    forall k: nat ensures Did(files, all, path, deed, k) <==>
      if k == |calls| then c.path == path && Does(DecodeAll(files, calls), c, deed) else Did(files, calls, path, deed, k)
    {
      DidBefore(files, calls, c, path, deed, k);
    }
    if c.path == path && Does(DecodeAll(files, calls), c, deed) {
      assert DidLast(files, all, path, deed, |calls|) && all[|calls|] == c;
    } else if was.Some? {
      var k: nat :| DidLast(files, calls, path, deed, k) && of(calls[k]) == was.value;
      assert DidLast(files, all, path, deed, k) && all[k] == calls[k];
    }
  }

  lemma {:induction false} Accounts(files: map<string, Node>, calls: seq<Call>, path: string)
    requires path !in files
    ensures Account(files, calls, path, DecodeAll(files, calls))
    decreases |calls|
  {
    if calls != [] {
      var before, c := calls[..|calls| - 1], calls[|calls| - 1];
      assert before + [c] == calls;
      Accounts(files, before, path);
      DecodeAllSnoc(files, before, c);
      AccountNext(files, before, c, path);
    }
  }

  lemma AccountNext(files: map<string, Node>, calls: seq<Call>, c: Call, path: string)
    requires Account(files, calls, path, DecodeAll(files, calls))
    ensures Account(files, calls + [c], path, DecodeCall(DecodeAll(files, calls), c).0)
  {
    var was, now := DecodeAll(files, calls), DecodeCall(DecodeAll(files, calls), c).0;
    DecodeSeen(was, c, path);
    FromNext(files, calls, c, path, Opened, DataAt(was, path), DataAt(now, path), Left);
    FromNext(files, calls, c, path, Sized, SizeAt(was, path), SizeAt(now, path), SizeAsked);
    FromNext(files, calls, c, path, Digested, DigestAt(was, path), DigestAt(now, path), DigestAsked);
  }

  /** Call `k` of a run gave the file at `path` the mode its descriptor asks for. */
  ghost predicate SetsMode(files: map<string, Node>, calls: seq<Call>, path: string, k: nat) {
    && k < |calls| && calls[k].path == path && Does(DecodeAll(files, calls[..k]), calls[k], Opened)
    && calls[k].faults.cut.None? && !calls[k].faults.chmod
    && calls[k].want.metadata.Metadata? && calls[k].want.metadata.mode != 0
  }

  ghost predicate SetsModeLast(files: map<string, Node>, calls: seq<Call>, path: string, k: nat) {
    SetsMode(files, calls, path, k) && forall j: nat :: k < j ==> !SetsMode(files, calls, path, j)
  }

  /** The mode of a file that is there: that of the last call that set one; else the one it had before the run; else
      that of a new file, rw-r--r--. */
  ghost predicate ModeTold(files: map<string, Node>, calls: seq<Call>, path: string, after: map<string, Node>) {
    && (path in files || (exists k: nat :: SetsMode(files, calls, path, k)) ==> path in after)
    && (path in after ==>
        || (exists k: nat :: SetsModeLast(files, calls, path, k) && after[path].mode == calls[k].want.metadata.mode)
        || ((forall k: nat :: !SetsMode(files, calls, path, k)) && after[path].mode == if path in files then files[path].mode else 420))
  }

  lemma SetsModeBefore(files: map<string, Node>, calls: seq<Call>, c: Call, path: string, k: nat)
    ensures SetsMode(files, calls + [c], path, k) <==>
            if k == |calls| then c.path == path && SetsNow(DecodeAll(files, calls), c) else SetsMode(files, calls, path, k)
  {
    if k <= |calls| { assert (calls + [c])[..k] == calls[..k] && calls[..|calls|] == calls; }
  }

  ghost predicate SetsNow(files: map<string, Node>, c: Call) {
    && Does(files, c, Opened) && c.faults.cut.None? && !c.faults.chmod
    && c.want.metadata.Metadata? && c.want.metadata.mode != 0
  }

  /** One call, seen from a path. */
  lemma ModeSeen(files: map<string, Node>, c: Call, path: string)
    ensures var after := DecodeCall(files, c).0;
            && (path in files ==> path in after)
            && (c.path == path && SetsNow(files, c) ==> path in after && after[path].mode == c.want.metadata.mode)
            && (!(c.path == path && SetsNow(files, c)) && path in after ==>
                  after[path].mode == if path in files then files[path].mode else 420)
  {
  }

  lemma ModeNext(files: map<string, Node>, calls: seq<Call>, c: Call, path: string)
    requires ModeTold(files, calls, path, DecodeAll(files, calls))
    ensures ModeTold(files, calls + [c], path, DecodeCall(DecodeAll(files, calls), c).0)
  {
    var all, was := calls + [c], DecodeAll(files, calls);
    ModeSeen(was, c, path);
    forall k: nat ensures SetsMode(files, all, path, k) <==>
      if k == |calls| then c.path == path && SetsNow(was, c) else SetsMode(files, calls, path, k)
    {
      SetsModeBefore(files, calls, c, path, k);
    }
    LastAfter(files, calls, c, path);
  }

  lemma LastAfter(files: map<string, Node>, calls: seq<Call>, c: Call, path: string)
    requires forall k: nat :: SetsMode(files, calls + [c], path, k) <==>
      if k == |calls| then c.path == path && SetsNow(DecodeAll(files, calls), c) else SetsMode(files, calls, path, k)
    ensures if c.path == path && SetsNow(DecodeAll(files, calls), c) then SetsModeLast(files, calls + [c], path, |calls|)
            else forall k: nat :: SetsModeLast(files, calls, path, k) ==> SetsModeLast(files, calls + [c], path, k)
    ensures (calls + [c])[|calls|] == c && forall k: nat :: SetsModeLast(files, calls, path, k) ==> (calls + [c])[k] == calls[k]
  {
  }

  /** Over any run, whatever fails in it. */
  lemma {:induction false} ModesTold(files: map<string, Node>, calls: seq<Call>, path: string)
    ensures ModeTold(files, calls, path, DecodeAll(files, calls))
    decreases |calls|
  {
    if calls != [] {
      var before, c := calls[..|calls| - 1], calls[|calls| - 1];
      assert before + [c] == calls;
      ModesTold(files, before, path);
      DecodeAllSnoc(files, before, c);
      ModeNext(files, before, c, path);
    }
  }

  /** The three calls that made the file what it is. */
  ghost predicate Makers(files: map<string, Node>, calls: seq<Call>, path: string, a: nat, b: nat, e: nat) {
    DidLast(files, calls, path, Digested, a) && DidLast(files, calls, path, Sized, b) && DidLast(files, calls, path, Opened, e)
  }

  lemma OneMaker(files: map<string, Node>, calls: seq<Call>, path: string, deed: Deed, j: nat, k: nat)
    requires DidLast(files, calls, path, deed, j) && DidLast(files, calls, path, deed, k)
    ensures j == k
  {
    assert Did(files, calls, path, deed, j) && Did(files, calls, path, deed, k);
  }

  lemma MadeOf(files: map<string, Node>, calls: seq<Call>, path: string, a: nat, b: nat, e: nat)
    requires path !in files && Makers(files, calls, path, a, b, e)
    ensures var after := DecodeAll(files, calls);
            && path in after && after[path].data == Left(calls[e])
            && after[path].sizeAttr == Some(calls[b].want.size) && after[path].digestAttr == Some(calls[a].want.digest)
  {
    Accounts(files, calls, path);
    assert Did(files, calls, path, Opened, e) && Did(files, calls, path, Sized, b) && Did(files, calls, path, Digested, a);
    var after := DecodeAll(files, calls);
    var e': nat :| DidLast(files, calls, path, Opened, e') && Left(calls[e']) == after[path].data;
    var b': nat :| DidLast(files, calls, path, Sized, b') && Some(SizeAsked(calls[b'])) == after[path].sizeAttr;
    var a': nat :| DidLast(files, calls, path, Digested, a') && Some(DigestAsked(calls[a'])) == after[path].digestAttr;
    OneMaker(files, calls, path, Opened, e, e');
    OneMaker(files, calls, path, Sized, b, b');
    OneMaker(files, calls, path, Digested, a, a');
  }

  lemma MakersOf(files: map<string, Node>, calls: seq<Call>, path: string) returns (a: nat, b: nat, e: nat)
    requires path !in files && path in DecodeAll(files, calls)
    requires DecodeAll(files, calls)[path].sizeAttr.Some? && DecodeAll(files, calls)[path].digestAttr.Some?
    ensures Makers(files, calls, path, a, b, e)
  {
    Accounts(files, calls, path);
    var after := DecodeAll(files, calls);
    a :| DidLast(files, calls, path, Digested, a) && DigestAsked(calls[a]) == after[path].digestAttr.value;
    b :| DidLast(files, calls, path, Sized, b) && SizeAsked(calls[b]) == after[path].sizeAttr.value;
    e :| DidLast(files, calls, path, Opened, e) && Left(calls[e]) == after[path].data;
  }

  /** What is said of a file is true. */
  ghost predicate Tells(files: map<string, Node>, c: Call) {
    DecodeCall(files, c).1 == UpToDate ==> c.path in files && Fits(files[c.path].data, c.want)
  }

  /** Bytes left last that are of the size stored last have the digest stored last. */
  ghost predicate MadeRight(files: map<string, Node>, calls: seq<Call>, path: string) {
    forall a: nat, b: nat, e: nat :: Makers(files, calls, path, a, b, e) && |Left(calls[e])| == calls[b].want.size ==>
      Sha256(Bytes(Left(calls[e]))) == calls[a].want.digest
  }

  lemma ToldSoMadeRight(files: map<string, Node>, calls: seq<Call>, path: string)
    requires path !in files && forall c: Call :: c.path == path ==> Tells(DecodeAll(files, calls), c)
    ensures MadeRight(files, calls, path)
  {
    forall a: nat, b: nat, e: nat | Makers(files, calls, path, a, b, e) && |Left(calls[e])| == calls[b].want.size
      ensures Sha256(Bytes(Left(calls[e]))) == calls[a].want.digest
    {
      MadeOf(files, calls, path, a, b, e);
      assert Tells(DecodeAll(files, calls), Call(path, [], Target(calls[b].want.size, calls[a].want.digest, Absent), CLEAN));
    }
  }

  lemma MadeRightSoTold(files: map<string, Node>, calls: seq<Call>, c: Call)
    requires c.path !in files && MadeRight(files, calls, c.path)
    ensures Tells(DecodeAll(files, calls), c)
  {
    if DecodeCall(DecodeAll(files, calls), c).1 == UpToDate {
      var a, b, e := MakersOf(files, calls, c.path);
      MadeOf(files, calls, c.path, a, b, e);
    }
  }

  /** After any run, whatever was read, cut short or failed in it: "already up to date" is said of a file for no
      descriptor but that whose size was stored last and whose digest was stored last, and then only if the bytes left
      last are of that size. So it is never said wrongly if and only if such bytes have the digest stored last. */
  lemma UpToDateExactly(files: map<string, Node>, calls: seq<Call>, path: string)
    requires path !in files
    ensures (forall c: Call :: c.path == path ==> Tells(DecodeAll(files, calls), c)) <==>
            (forall a: nat, b: nat, e: nat :: Makers(files, calls, path, a, b, e) && |Left(calls[e])| == calls[b].want.size ==>
               Sha256(Bytes(Left(calls[e]))) == calls[a].want.digest)
  {
    if forall c: Call :: c.path == path ==> Tells(DecodeAll(files, calls), c) {
      ToldSoMadeRight(files, calls, path);
    }
    if MadeRight(files, calls, path) {
      forall c: Call | c.path == path ensures Tells(DecodeAll(files, calls), c) { MadeRightSoTold(files, calls, c); }
    }
  }

  // ---------------------------------------------------------------- where it is always true

  datatype Attributes = Always | Never | Sometimes

  /** Whether readers deliver the descriptor's bytes, whether a call that has opened its file gets through, and whether
      attributes can be written. */
  datatype Circumstances = Circumstances(honest: bool, whole: bool, attributes: Attributes)

  predicate Allowed(w: Circumstances, c: Call) {
    && (w.honest ==> Fits(c.data, c.want))
    && (w.whole ==> c.faults.cut.None? && !c.want.metadata.Garbled? && !c.faults.chmod && !c.faults.chtimes)
    && (w.attributes.Always? ==> !c.faults.setSize && !c.faults.setDigest)
    && (w.attributes.Never? ==> c.faults.setSize && c.faults.setDigest)
  }

  ghost predicate AllAllowed(w: Circumstances, calls: seq<Call>) {
    forall c :: c in calls ==> Allowed(w, c)
  }

  ghost predicate AlwaysTells(files: map<string, Node>, w: Circumstances) {
    forall calls, c :: AllAllowed(w, calls) ==> Tells(DecodeAll(files, calls), c)
  }

  lemma {:induction false} StaysBare(files: map<string, Node>, calls: seq<Call>)
    requires DiskOk(files, false) && forall c :: c in calls ==> c.faults.setSize
    ensures DiskOk(DecodeAll(files, calls), false)
    decreases |calls|
  {
    if calls != [] { StaysBare(DecodeCall(files, calls[0]).0, calls[1..]); }
  }

  const ZERO: Data := [0]
  const ONE: Data := [1]

  function Asking(data: Data): Target {
    Target(1, Sha256(Bytes(data)), Absent)
  }

  lemma TwoCalls(files: map<string, Node>, c: Call, d: Call)
    ensures DecodeAll(files, [c]) == DecodeCall(files, c).0
    ensures DecodeAll(files, [c, d]) == DecodeCall(DecodeCall(files, c).0, d).0
  {
    var after := DecodeCall(files, c).0;
    assert [c][1..] == [] && [c, d][1..] == [d] && [d][1..] == [];
    assert DecodeAll(after, [d]) == DecodeAll(DecodeCall(after, d).0, []);
  }

  /** Wrong bytes once; or, after the right ones, other bytes in full by a call that is cut or stores no attributes. */
  lemma LiesOnce(files: map<string, Node>, w: Circumstances, path: string) returns (calls: seq<Call>, c: Call)
    requires path !in files && !w.attributes.Never? && !(w.honest && w.whole && w.attributes.Always?)
    ensures AllAllowed(w, calls) && !Tells(DecodeAll(files, calls), c)
  {
    c := Call(path, ZERO, Asking(ZERO), CLEAN);
    if !w.honest {
      var wrong := c.(data := ONE);
      calls := [wrong];
      TwoCalls(files, wrong, wrong);
    } else {
      var other := Call(path, ONE, Asking(ONE), if !w.whole then CLEAN.(cut := Some(1)) else CLEAN.(setSize := true));
      calls := [c, other];
      TwoCalls(files, c, other);
      assert Prefix(ONE, 1) == ONE;
    }
    assert ZERO[0] != ONE[0];
  }

  /** On a disk whose attributes tell the truth, every run is followed by true answers only if and only if attributes can
      never be written, or readers are honest, opened files are written in full and attributes can always be written:
      each of the three is needed. */
  lemma AlwaysTellsExactly(files: map<string, Node>, w: Circumstances, path: string)
    requires DiskOk(files, !w.attributes.Never?) && path !in files
    ensures AlwaysTells(files, w) <==> w.attributes.Never? || (w.honest && w.whole && w.attributes.Always?)
  {
    if w.attributes.Never? {
      forall calls, c | AllAllowed(w, calls) ensures Tells(DecodeAll(files, calls), c) { StaysBare(files, calls); }
    } else if w.honest && w.whole && w.attributes.Always? {
      forall calls, c | AllAllowed(w, calls) ensures Tells(DecodeAll(files, calls), c) { AttributesStayTrue(files, calls, true); }
    } else {
      var calls, c := LiesOnce(files, w, path);
    }
  }
}
