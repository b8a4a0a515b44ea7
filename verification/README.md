# Verification of modctl

modctl packs model files into content-addressed OCI artifacts. This project models the parts of it that carry
state, concurrency or a pair of inverse functions, and proves properties of the model with Dafny.
`dafny verify dfyconfig.toml` checks everything.

The parts, and what the main results say of them:

- **Transfer** (`Oci`, `Store`, `Scheduling`, `Transfer`, `PullRuns`, `PullExact`, `PullAny`, `PullRetries`,
  `LocalStore`, `Push`, `PushRetries`). A pull
  copies layers concurrently under hooks and retries, then the config, then the manifest; a push does the same against a
  registry; a tag mounts blobs and stores a manifest in another repository; a removal deletes a manifest or a tag.
  They are step systems: an event is one store or remote call of one worker, a failure, a cancellation or a
  retry, and a run is any sequence of events that can happen. What is proved of all runs holds wherever one stops.
  The order of blobs before manifests is that of section "Pushing Manifests" of the OCI Distribution
  Specification v1.1.
- **Modelfile** (`Text`, `Quoting`, `Parser`, `Arguments`, `Ordering`, `Modelfile`, `ModelfileClass`, `Printing`,
  `RoundTrip`, `RoundTripExact`). The line parser, the quoting state machine, the object it fills and the printer; the main
  result says exactly which Modelfiles survive being printed and parsed.
- **Workspace** (`PathFilter`, `Workspace`, `Selection`). The pruned walk with skip patterns, rescuing includes,
  absolute excludes and limits, against a predicate over all directories above a file.
- **Layers** (`Layers`, `Attach`, `Processor`). Attaching as a keyed update of a sorted list, and the worker pool
  whose result does not depend on the schedule.
- **Caches and codecs** (`Cache`, `CacheRuns`, `RawCodec`, `Archiver`, `ArchiveRoundTrip`, `ArchiveOver`,
  `ArchiveNames`). The file cache against a plain map, the attribute shortcut of the raw codec, tar against untar, and untar
  over whatever is there.

How the outside world appears: SHA-256 is the constructor `Sha256`, so it is injective; JSON is the value it
encodes; glob engines, pattern tables, file system answers and build results are function parameters; the clock is
a number that moves forward; what a call may do wrong is a parameter of the step. Sequential code that updates an
object or a variable is a class or a method with loops, proved against a function, and the lemmas are about that
function. Code that runs concurrently is a step system on values.

## Hypotheses the code does not establish

Each is carried in a `requires`, and a lemma shows what happens without it.

- A remote answers the manifest's descriptor with the manifest that was decoded, and a descriptor of any other
  manifest with bytes of its digest; blobs are checked by the store. Without it: `DishonestManifestBreaksClosure`, and `RemotesExactly`.
- A hook skips only a layer that is stored. Without it: `LyingHookBreaksClosure`, and `HooksExactly`.
- A layer or config that is itself a manifest refers only to blobs that are there when its turn comes
  (`KeepsClosed`). Without it: `NestedManifestBreaksClosure` and `WholeManifestBreaksClosure`, and
  `PullClosesExactly` and `PushClosesExactly` say that it is exactly this condition. Where no part is a manifest it
  always holds. `PullClosesUnderExactly` is the condition with none of these three.
- The failing runs above presume a store that takes a manifest whose references are absent. Whether it does is decided in the
  distribution library, which is not part of this model; one that refuses them stays closed by itself.
- One call in flight for each cache object. Without it: `SharedObjectLosesAPut`.
- Readers deliver the descriptor's bytes, nothing fails once a file is open, attributes can be written always or
  never. Without each: `RetryAcceptsWrongBytes`, `CutCopyKeepsOldAttributes`, `HalfWrittenAttributesLie`; exactly: `AlwaysTellsExactly`.
- No pattern is malformed once its separators are trimmed. Without it: `BrokenExcludeAddsFiles`.
- No layer before the replaced one has its digest and media type, which distinct contents give. Without it: `TwinGoes`.
- The caller of `Process` does not cancel. Without it: `CancelledProcessLooksEmpty`.

## Where the code does less than it says

The model follows the code. Comments and documentation promise more in these places.

- A pull never tags a manifest it finds in the store, and a manifest write that fails after landing leaves the
  tag unset for good; a part that is a manifest takes the tag (`PullTagsExactly`).
- A push does not move a tag that names something else when the manifest is already there, and a part that is a
  manifest takes the tag (`PushNamesExactly`).
- A layer that is itself a manifest is stored before what it refers to, and is then no blob, so that the manifest
  of the pull refers to something that is not there (`PullClosesExactly`).
- `attach --force` removes the first layer with the digest and media type of the one found, not the one found
  (`ForcedUpdatesExactly`).
- The parser never looks at the scanner's error, so an over-long line cuts the file short (`LongLineTruncates`).
- `Content` does not print datasets, and quotes a value with a line end that the parser, reading line by line, never
  gives back (`ContentComesBackExactly`, `ReadsFlat`).
- Excluding an entry does not keep the walk from failing on it (`UnreadableEndsTheWalk`).
- A cache file cut short by a failing write is never repaired, since a put reads it first (`CorruptForGood`).
- "Checks if a path matches any exclude pattern" stops at the first malformed pattern (`MatchesExactly`).
- Untar refuses any path with two dots in a row, also inside a name (`UntarSucceedsExactly`).

## Model

| member | source | states |
|---|---|---|
| `Transfer.EveryRepositoryStaysClosed` | pkg/backend/pull.go:94-178 | any number of pulls, tags and removals over any repositories, interleaved call by call, failing, retrying and stopping anywhere: every repository stays closed (a manifest only with its config and all its layers) and everything in it lies under its own digest; given remotes and hooks that keep their promises, and pulls of manifests that can be pulled into a closed repository at all, which are those of PullClosesExactly |
| `Transfer.StoringRests` | pkg/backend/pull.go:211-232 | whatever a pull is about to store as a manifest, its own or one among its parts, has everything it refers to in the store |
| `Transfer.TaggedWhatItRead` | pkg/backend/tag.go:41-69 | in every run of pulls, tags and removals, a tag that returned without an error read a manifest its source led to, and at a later moment its target led to that very manifest |
| `Transfer.PullStepSafe` | pkg/backend/pull.go:196-265 | one call of a pull, or one loss, cancellation or retry, keeps the repository sound, never loses a blob, and keeps what the workers of the pull rely on |
| `Transfer.TaskMoveSafe` | pkg/backend/pull.go:196-265 | one move of one attempt keeps the repository sound and loses no blob, provided a manifest about to be stored rests on what is there |
| `Transfer.PartMoveKnows` | pkg/backend/pull.go:196-265 | one move of one layer or config: once it is over, skipped or being checked its blob is in the store, and what is in hand for a part that is a manifest has its digest |
| `Transfer.PartsStored` | pkg/backend/pull.go:149-178 | by the time the manifest may start, everything it refers to is in the store, since the layers are waited for and the config comes before it |
| `Transfer.TagStepSafe` | pkg/backend/tag.go:41-69 | one store call of a tag keeps every repository sound, loses no blob anywhere, and keeps what the tag relies on |
| `LocalStores.TagStepFrame` | pkg/backend/tag.go:41-69 | no repository but the target changes, and of the target's tags only the one asked for, in the last call, after which it resolves to the manifest the tag read |
| `Transfer.StepSafe` | pkg/backend/rm.go:37-48 | one event of any of the processes, a removal among them, keeps all repositories sound and what every other process relies on |
| `Scheduling.OrderKept` | pkg/backend/pull.go:94-98 | the order layers, config, manifest, seen at any later moment, survives any start through the gates and any move |
| `PullRuns.PullStoresEverything` | pkg/backend/pull.go:105-178 | a store-mode pull that returns without an error has left every layer, the config and the manifest behind, each where its media type is looked up and each hashing to its digest, whatever the remote serves |
| `PullRuns.PullAgainChangesNothing` | pkg/backend/pull.go:211-248 | when everything is there, no run of the pull changes the repository, whatever the remote serves and the hooks decide |
| `PullRuns.SecondPullChangesNothing` | pkg/backend/pull.go:105-178 | a successful pull and then any run of the same pull: the second one changes nothing |
| `PullExact.PullClosesExactly` | pkg/backend/pull.go:94-178 | every run of a pull with honest remotes and hooks leaves a closed repository closed at every moment if and only if each manifest on its way (a layer or config that is itself a manifest, and the manifest of the pull) refers only to blobs that are there when its turn comes: a condition on the repository and the manifest alone, which holds whenever no part is a manifest |
| `PullExact.NestedManifestBreaksClosure` | pkg/backend/pull.go:211-236 | an honest run of a new pull with a layer that is a manifest and refers to a blob that is not there: one attempt of it opens the repository |
| `PullExact.WholeManifestBreaksClosure` | pkg/backend/pull.go:171-178 | an honest run of a new pull that has copied every part and then stores its manifest over a part that went to the manifests and is no blob |
| `PullExact.DishonestManifestBreaksClosure` | pkg/backend/pull.go:232-262 | a run of a new pull whose hooks are honest: the remote answers the manifest's descriptor with another manifest, which is stored before its digest is checked; the repository is open and the attempt fails only afterwards |
| `PullExact.LyingHookBreaksClosure` | pkg/backend/pull.go:125-133 | a run of a new pull whose remote is honest: a hook skips a layer that is nowhere, and the pull succeeds with its manifest stored over the gap |
| `PullAny.PullClosesUnderExactly` | pkg/backend/pull.go:94-178 | whatever a remote answers for each descriptor, right or wrong, and whichever layers a hook may skip: every run of a pull leaves a closed repository closed at every moment if and only if every manifest that may get stored refers only to blobs that are surely there by then, as far as the pull can get (wrong answers to one layer may be what another one needs) |
| `PullAny.HooksExactly` | pkg/backend/pull.go:125-133 | with a remote that answers rightly, the hooks that keep every run closed are exactly those that skip only layers that are there or come anyway |
| `PullAny.RemotesExactly` | pkg/backend/pull.go:232-262 | without skipping, the remotes that keep every run closed are exactly those whose answer for the manifest is no manifest or refers to nothing but the parts and what is there |
| `PullExact.PullTagsExactly` | pkg/backend/pull.go:211-236 | every successful honest run of a pull leaves the tag on the pulled manifest if and only if, as far as the parts can be had at all, the tag was on it before and no part is a manifest still to be stored; of a store whose manifest writes never fail half-way, also if and only if that or the manifest was not there before: a manifest that is found is never tagged |
| `PullExact.TagMissed` | pkg/backend/pull.go:172-178 | wherever that condition fails, an honest run of a new pull that succeeds and leaves the tag elsewhere: the manifest is found, or lands without its tag and is found by the retry |
| `PullRuns.HookTraces` | pkg/backend/pull.go:117-147 | in every run, for every layer: at most six Before/After pairs, strictly alternating, After repeating what Before decided, every pair but the last with a retryable error, success if and only if the last call is an After without an error (when a layer is given up is `PullRetries.LostExactly`) |
| `PullRuns.TaskMoveTrace` | pkg/backend/pull.go:125-145 | one move of one layer keeps the shape of its hook trace |
| `PullRuns.NewPullTraces` | pkg/backend/pull.go:117-147 | a new pull starts with empty traces |
| `PullRuns.RunsEnd` | pkg/backend/retry.go:41-49 | every move of a pull uses up some of what is left: attempts only go down |
| `PullRuns.PullEnds` | pkg/backend/retry.go:41-49 | a pull of n layers makes at most 32 * (n + 2) + 1 moves, whatever fails and whoever cancels |
| `PullRuns.PullMoves` | pkg/backend/pull.go:117-178 | until the pull has returned some task of it has a move, so it never gets stuck |
| `PullRetries.LostExactly` | pkg/backend/pull.go:117-178 | in every run of a new pull, for every layer, the config and the manifest: it is given up for good if and only if the registry refused it for want of authorisation, or six attempts at it failed, or it was left between attempts once the caller had cancelled or, for a layer, another one was lost |
| `PullRetries.SucceedsExactly` | pkg/backend/retry.go:41-49 | left alone by its caller, a pull that has returned has succeeded if and only if nothing in it was refused or failed six times; so it never gives up on its own after fewer failures |
| `PullRetries.StepCounts` | pkg/backend/retry.go:41-49 | one event, for a copy that is not over: a failure that is no refusal leaves it another attempt unless five have failed before |
| `LocalStores.LocalStore.PullManifest` | pkg/storage/storage.go:37-38 | a tag names a digest and the digest names a manifest, or the call fails |
| `LocalStores.LocalStore.MountBlob` | pkg/storage/storage.go:49-50 | a blob of one repository becomes one of another, and a missing one is an error that changes nothing |
| `LocalStores.LocalStore.PushManifest` | pkg/storage/storage.go:39-40 | the manifest is stored, then tagged; a failure may come between the two |
| `LocalStores.LocalStore.Tag` | pkg/backend/tag.go:41-72 | success makes the target tag resolve to the very bytes of the source tag with everything they refer to; an error leaves the target's tags alone; no other repository is touched and all stay sound |
| `LocalStores.LocalStore.RemoveReference` | pkg/backend/rm.go:35-51 | a digest wins over a tag, an empty reference is an error, nothing but manifests and tags goes, and all repositories stay sound |
| `LocalStores.TagRunKeeps` | pkg/backend/tag.go:41-69 | what any run of a tag keeps, failures included: source bytes remembered, other repositories untouched, no tag moved before the end |
| `Push.PushClosesExactly` | pkg/backend/push.go:76-133 | every run of a push leaves a closed remote closed at every moment if and only if each manifest on its way refers only to blobs that are there when its turn comes, as far as the push can get to it; always, when no part is a manifest |
| `Push.PushStoresEverything` | pkg/backend/push.go:76-133 | a push that returns without an error has put the config, every layer and the manifest on the remote, so all of them were there before or could be sent |
| `Push.PushNamesExactly` | pkg/backend/push.go:148-181 | every push that returns without an error leaves the tag naming the pushed manifest, in all runs, if and only if, as far as everything can be sent at all, no part is a manifest and the tag was unbound or named it before; a manifest with another media type is sent as a blob and is never tagged |
| `Push.TagMissed` | pkg/backend/push.go:148-181 | wherever that condition fails, a run of a new push that succeeds and leaves the tag elsewhere |
| `Push.SendAndMissTheTag` | pkg/backend/push.go:148-161 | the end of it: the manifest is sent, its Tag call fails, and the retry finds the manifest and some tag and succeeds |
| `Push.InvStep` | pkg/backend/push.go:141-207 | one remote call of a push keeps everything under its own digest, brings nothing but what was there or could be sent, and keeps what the later steps rely on |
| `PushRetries.LostExactly` | pkg/backend/push.go:76-133 | the same of every run of a new push: refused, six failed attempts, or left after a cancellation or, for a layer, after another was lost; and nothing else |
| `PushRetries.SucceedsExactly` | pkg/backend/push.go:76-133 | left alone by its caller, a push that has returned has succeeded if and only if nothing in it was refused or failed six times |
| `Quoting.ReadArgs` | pkg/modelfile/parser/parser.go:147-195 | the quoting state machine over its five variables computes the reader that the lemmas are about; what it returns for any list of arguments is `Arguments.ReadsList` |
| `Quoting.PlainReadsBack` | pkg/modelfile/parser/parser.go:147-195 | text is read as the single argument it is if and only if it is not empty and holds no blank, tab, quote or backslash |
| `Quoting.QuotedReadsBack` | pkg/modelfile/modelfile.go:599-606 | a value printed in quotes is read back if and only if it holds no backslash |
| `Quoting.QuoteRoundTrip` | pkg/modelfile/modelfile.go:599-607 | reading what the printer writes for v is exactly [v] if and only if v is not empty, holds no backslash and, without a blank, tab or line end, holds no quote |
| `Quoting.ScanWrites` | pkg/modelfile/parser/parser.go:154-182 | the reader never writes more characters than it is given |
| `Arguments.ReadsList` | pkg/modelfile/parser/parser.go:147-195 | any number of arguments, each of marks in quotes or not, with backslashes before whichever characters, separated by any blanks and tabs: the reader returns exactly the list of what the marks stand for |
| `Arguments.ListReadsBack` | pkg/modelfile/parser/parser.go:167-178 | values without a backslash, each printed in quotes or, where it has no blank, tab or quote, bare, with any blanks and tabs between: exactly those values come back, in order |
| `Arguments.FailsExactly` | pkg/modelfile/parser/parser.go:184-186 | reading fails if and only if the quotes that are not behind a backslash are odd in number |
| `Arguments.LastBackslash` | pkg/modelfile/parser/parser.go:154-162 | a backslash at the very end is dropped without an error |
| `Arguments.LineOfArguments` | pkg/modelfile/parser/parser.go:98-144 | a known command before such a list is a command line if and only if the list has one argument and it is not empty, and is bad otherwise |
| `Arguments.ManyValuesAreBad` | pkg/modelfile/parser/parser.go:112-144 | a known command with two or more values is bad, however they are quoted |
| `Arguments.AnyCase` | pkg/modelfile/parser/parser.go:75-89 | a command whose letters are small or capital in any mix is read like the one in capitals |
| `Arguments.RimIgnored` | pkg/modelfile/parser/parser.go:41-42 | white space around a line changes nothing |
| `Parser.Node.AddChild` | pkg/modelfile/parser/ast.go:140-142 | a child comes last and the others stay |
| `Parser.SplitLine` | pkg/modelfile/parser/parser.go:123-144 | a line at its first blank, command upper-cased, arguments read |
| `Parser.ParseCommandLine` | pkg/modelfile/parser/parser.go:98-117 | a fresh command node with a non-nil next that holds its one non-empty argument, or an error |
| `Parser.Parse` | pkg/modelfile/parser/parser.go:31-72 | a fresh tree with one child a command line, in order, with line numbers and arguments, or an error naming the line |
| `Parser.ClassifyExactly` | pkg/modelfile/parser/parser.go:98-144 | a trimmed line is a command with an argument if and only if a known word stands before its first blank and exactly one non-empty argument behind it |
| `Parser.CommandStarts` | pkg/modelfile/parser/parser.go:75-89 | the prefix test never turns away a command line, and no command line is a comment |
| `Parser.ParsesExactly` | pkg/modelfile/parser/parser.go:31-72 | parsing succeeds if and only if every line is blank, a comment or a known command with one non-empty argument; otherwise the error names the first other line |
| `Parser.ParseLists` | pkg/modelfile/parser/parser.go:54-65 | the children are exactly the commands of the text, in order, with their line numbers |
| `Parser.LongLineTruncates` | pkg/modelfile/parser/parser.go:35-71 | a line of 65536 bytes or more, the last one without a newline included, ends the scan without an error: it and everything after it is dropped |
| `Modelfiles.ReadsExactly` | pkg/modelfile/modelfile.go:136-188 | commands with non-empty arguments are accepted if and only if no single-value command occurs twice, and the values are then exactly what was said |
| `Modelfiles.ReadFileExactly` | pkg/modelfile/modelfile.go:124-189 | a Modelfile is read if and only if all its lines are acceptable and no single-value command repeats |
| `ModelfileObjects.Modelfile.Record` | pkg/modelfile/modelfile.go:137-185 | one child changes one field or one set of the object, or is a duplicate |
| `ModelfileObjects.Modelfile.RecordField` | pkg/modelfile/modelfile.go:148-185 | a single-value field is set once and a second time is an error |
| `ModelfileObjects.Modelfile.ParseFile` | pkg/modelfile/modelfile.go:124-189 | the object ends with the values of the text, or with its first problem |
| `ModelfileObjects.Modelfile.WriteField` | pkg/modelfile/modelfile.go:572-578 | an unset field prints nothing, a set one an empty line, a comment and its line |
| `ModelfileObjects.Modelfile.WriteMultiField` | pkg/modelfile/modelfile.go:580-596 | a sorted permutation of the values, each quoted if needed, under its two comments; nothing for no values |
| `ModelfileObjects.Modelfile.Content` | pkg/modelfile/modelfile.go:551-570 | the text is that of the seven fields and of the one sorted listing of each of four sets, whatever order the sets are walked in |
| `Ordering.ListingUnique` | pkg/modelfile/modelfile.go:588-588 | a set has one sorted listing |
| `Ordering.LessExactly` | pkg/modelfile/modelfile.go:588-588 | one string is before another if and only if it is a proper prefix of it or has the smaller character where they first differ |
| `Ordering.ListingInOrder` | pkg/modelfile/modelfile.go:588-588 | of two entries of the sorted listing of a set, the earlier is a proper prefix of the later or has the smaller character where they first differ |
| `Ordering.StableSortSorts` | pkg/backend/attach.go:378-407 | the stable sort is a sorted permutation |
| `Ordering.SortedUnique` | pkg/backend/processor/base.go:191-211 | when only equal elements are incomparable there is one sorted permutation |
| `Printing.FieldLineExactly` | pkg/modelfile/modelfile.go:572-578 | a printed field line is read back if and only if the value is not empty, has no space at either end and no blank, tab, quote or backslash inside |
| `Printing.PathLineExactly` | pkg/modelfile/modelfile.go:589-593 | a printed path line is read back if and only if quoting keeps the path and, printed bare, it has no space at either end |
| `RoundTrip.ListedReadsBack` | pkg/modelfile/modelfile.go:551-596 | parsing what is printed of any sorted listings of the sets gives back the fields and those sets, and everything if and only if there are no datasets |
| `RoundTrip.ScannedKinds` | pkg/modelfile/parser/parser.go:35-39 | lines that fit the scanner are read one by one; a carriage return it drops would have been trimmed |
| `RoundTrip.ContentReadsBack` | pkg/modelfile/modelfile.go:551-596 | parsing what is printed gives back the seven fields and the four printed sets, and the Modelfile itself if and only if it has no datasets |
| `RoundTrip.PrintedInOrder` | pkg/modelfile/modelfile.go:551-596 | the printed commands come in one order: the set fields from NAME to QUANTIZATION, then CONFIG, CODE, MODEL and DOC, and among the paths of one command a proper prefix first, else the smaller character where they first differ |
| `RoundTripExactly.ContentComesBackExactly` | pkg/modelfile/modelfile.go:551-607 | whatever the values are, a printed Modelfile comes back if and only if it has no datasets and every field and every path survives its line: it meets the condition of the line, holds no newline and makes no line the scanner gives up on |
| `RoundTripExactly.ReadsFlat` | pkg/modelfile/parser/parser.go:35-58 | no value read from any text holds a newline, though the printer quotes values because of one |
| `RoundTripExactly.PathsMustSurvive` | pkg/modelfile/modelfile.go:589-607 | a set of paths that comes back has no path its line loses: the longest such path would have to be read from a longer one |
| `RoundTripExactly.FieldMustSurvive` | pkg/modelfile/modelfile.go:572-578 | a field that comes back survives its own line, since no other line is read as it |
| `PathFilters.NewPathFilter` | pkg/modelfile/path_filter.go:16-37 | all patterns checked, excludes first, then stored without their trailing separators; or the first rejected pattern |
| `PathFilters.TrimSeparators` | pkg/modelfile/path_filter.go:22-22 | exactly the trailing separators go |
| `PathFilters.MatchAny` | pkg/modelfile/path_filter.go:40-75 | the loop of both match methods: the first pattern that matches or is malformed decides |
| `PathFilters.ShouldDescend` | pkg/modelfile/path_filter.go:79-101 | some pattern matches the directory or is written below it; malformed patterns are passed over |
| `PathFilters.MatchesExactly` | pkg/modelfile/path_filter.go:40-56 | a path matches if and only if some pattern matches it and every pattern before that one gives an answer |
| `PathFilters.TrimmedPatternHidesTheRest` | pkg/modelfile/path_filter.go:45-49 | a pattern that is malformed once trimmed hides all patterns after it |
| `Selections.TablesThenSize` | pkg/modelfile/constants.go:459-475 | for every file that belongs, in which of the four sets its path is after the walk: by the tables of its name in their order, and by whether it has more than 128 MB when it is in none |
| `Selections.BelongsPlainly` | pkg/modelfile/modelfile.go:281-312 | where every pattern gives an answer, which files belong: every directory above matches no exclude pattern and, if the table of skippable names knows it, matches an include pattern or has one written below it; the file matches no exclude pattern and, if the table knows it, some include pattern; a dot and two dots are never skipped |
| `Selections.NothingFoundExactly` | pkg/modelfile/modelfile.go:349-351 | a workspace is turned down as holding no model, code or dataset if and only if all that belongs is configs and plain documents: one file no table knows is enough, whatever its size |
| `Selections.UnreadableEndsTheWalk` | pkg/modelfile/modelfile.go:267-270 | an entry that cannot be read ends the walk in an error even when it is excluded itself; only an impassable directory above it helps |
| `Workspaces.Take` | pkg/modelfile/modelfile.go:313-339 | a file that belongs is counted, checked against the three limits and added to the one set of its kind; the 64-bit sum never wraps unseen |
| `Workspaces.Walk` | pkg/modelfile/modelfile.go:267-342 | the pruned walk collects the files that belong, in order, up to the first limit or the first entry the file system will not show |
| `Workspaces.GenerateByWorkspace` | pkg/modelfile/modelfile.go:255-354 | patterns, walk, errors, limits and the final check that some model, code or dataset was found, with the state of the object in each case |
| `Workspaces.NoneBelow` | pkg/modelfile/modelfile.go:281-298 | skipping a directory loses no file that belongs |
| `Workspaces.CollectedWithin` | pkg/modelfile/modelfile.go:313-331 | nothing stops the walk if and only if all it meets is readable and the files together meet all three limits |
| `Selections.WalkSelectsExactly` | pkg/modelfile/modelfile.go:255-354 | the walk ends well if and only if all it meets is readable and the files that belong are within the limits of 128 GB each, 2048 files and 8 TB together, and a path is then in a set if and only if it is that of a file of that kind of which every directory from the root down lets the walk through and which is itself rescued or not skippable, and not excluded |
| `Selections.EachInOneSet` | pkg/modelfile/modelfile.go:333-342 | each file that belongs lands in the set of its kind and in no other |
| `Selections.ExcludedRootSelectsNothing` | pkg/modelfile/modelfile.go:281-283 | an exclude pattern that matches the root, whose relative path is a dot, leaves nothing to collect |
| `Selections.PathsDistinct` | pkg/modelfile/modelfile.go:274-278 | no two files of a workspace have the same relative path |
| `Selections.MoreExcludesOrFewerIncludes` | pkg/modelfile/path_filter.go:40-75 | an exclude pattern more never adds a file and an include pattern more never removes one, when no pattern errors |
| `Selections.SetsGrow` | pkg/modelfile/modelfile.go:255-354 | the same of each of the four sets, among runs that end well |
| `Selections.BrokenExcludeAddsFiles` | pkg/modelfile/path_filter.go:18-23 | without that hypothesis an accepted exclude pattern can add files |
| `Selections.NamedFileBelongs` | pkg/modelfile/path_filter.go:79-101 | an entry named by a literal include belongs if and only if neither it nor a directory above it is excluded and the root is let in |
| `Layers.LayerLessOrders` | pkg/backend/attach.go:379-405 | the comparison of the layer sort, and that of Process, are strict weak orders |
| `Layers.SortedLayersUnique` | pkg/backend/attach.go:378-407 | two sorted lists of the same layers, no two for one path, are the same list |
| `Layers.SortedGroups` | pkg/backend/attach.go:46-61 | sorted layers come as weight configs and unknown types, weights, code, documents, and of two layers of a group the earlier has the path that is a proper prefix of the other or has the smaller character where they first differ |
| `Attaching.Attach` | pkg/backend/attach.go:97-134 | search, refusal, deletion, append and sort compute the list the lemmas are about |
| `Attaching.UnforcedInserts` | pkg/backend/attach.go:99-110 | without force a file is added exactly when there is none for its path, and every other layer stays as it is and once |
| `Attaching.ForcedUpdatesExactly` | pkg/backend/attach.go:112-134 | forced, attaching is an update of the map from paths to layers, kept sorted, if and only if no layer before the replaced one has its digest and media type |
| `Attaching.TwinGoes` | pkg/backend/attach.go:115-124 | otherwise the twin's path is lost and the attached path has two layers |
| `Attaching.ForcedCommutes` | pkg/backend/attach.go:97-144 | attaching two files at different paths by force gives the identical list in either order, when the layers have distinct contents and no layer for another path has those of a file: all hypotheses on the inputs |
| `Attaching.DistinctContentsCommute` | pkg/backend/attach.go:97-144 | pairwise distinct digest and media type pairs in the list and the two files are enough for both this and the next |
| `Attaching.ForcedTwiceIsOnce` | pkg/backend/attach.go:97-144 | attaching the same file again changes nothing, when no layer for another path has its contents and the layer it first replaced had no twin |
| `Attaching.DistinctContentsNoTwin` | pkg/backend/attach.go:115-124 | layers of distinct digest and media type pairs have no twins |
| `Attaching.OneList` | pkg/backend/attach.go:378-407 | which layers there are determines the sorted list |
| `Processing.MatchPaths` | pkg/backend/processor/base.go:72-102 | the paths of all patterns, sorted, or the error of the first pattern that fails |
| `Processing.MatchedExactly` | pkg/backend/processor/base.go:73-100 | matching fails if and only if some pattern does, and finds what the patterns find one by one |
| `Processing.LiteralsMustExist` | pkg/backend/processor/base.go:73-100 | a pattern with none of the four metacharacters names one file, which must be there and is then matched; any other finds what the file system finds, which may be nothing |
| `Processing.ProcessDeterministic` | pkg/backend/processor/base.go:102-215 | for every schedule and every pattern of failing attempts without a cancelling caller: an error if and only if some file failed six attempts, and else one and the same list, a descriptor for each matched path, sorted by filepath |
| `Processing.ProcessInOrder` | pkg/backend/processor/base.go:191-211 | of two descriptors of the returned list the earlier has the same path, a proper prefix, or the smaller character where the paths first differ |
| `Processing.FailuresTell` | pkg/backend/processor/base.go:145-181 | a worker makes at most six attempts, and is out of them exactly when six have failed |
| `Processing.SixthFailureIsError` | pkg/backend/processor/base.go:145-181 | a worker that fails its sixth attempt makes the call fail, whatever the others do |
| `Processing.PartialListExactly` | pkg/backend/processor/base.go:132-135 | without an error the list is complete if and only if the loop spawned every worker; it stops early only because the caller cancelled |
| `Processing.CancelledProcessLooksEmpty` | pkg/backend/processor/base.go:132-135 | a caller that cancels at once gets an empty list and no error |
| `Processing.ProcessEnds` | pkg/backend/processor/base.go:132-187 | building n layers takes at most 8n + 2 moves, and until the call returns there always is one |
| `Processing.StepKeeps` | pkg/backend/processor/base.go:137-184 | under the mutex the shared list holds the descriptors of the finished workers, each once |
| `Caching.Cache.ReadItems` | internal/cache/cache.go:100-126 | a missing or empty file is no items, a broken one an error, and of items with one path the last counts |
| `Caching.LastCounts` | internal/cache/cache.go:118-126 | of the items of a file with one path the last is the one that is kept |
| `Caching.Cache.WriteItems` | internal/cache/cache.go:130-142 | a list of exactly the items of the map, no path twice, in any order; or what each way of failing leaves: the file as it was, emptied, or cut into something that is no JSON |
| `Caching.Cache.Prune` | internal/cache/cache.go:145-152 | exactly the items created more than 24 hours ago go |
| `Caching.Cache.Get` | internal/cache/cache.go:155-182 | the stored item if not more than 24 hours have gone by since it was created, and else not found |
| `Caching.OnlyAgeCounts` | internal/cache/cache.go:145-152 | items of one path that were created at one time are pruned, kept and found alike, whatever size, digest and modification time they give, and found up to 24 hours after that time |
| `Caching.Cache.Put` | internal/cache/cache.go:185-210 | the item replaces the one for its path and the expired ones go, as far as the writing gets; a file that cannot be read is an error that changes nothing |
| `CacheRuns.CacheRefinesPlainMap` | internal/cache/cache.go:98-210 | with one call in flight for each cache object and a clock that does not go back, any interleaving of objects over the locked file answers as a plain map with an age limit would, in the order the calls were served, and the list never repeats a path; a write cut short forgets everything |
| `CacheRuns.RefinesExactly` | internal/cache/cache.go:98-210 | from a fresh cache every interleaving does so if and only if no two calls in flight share a cache object |
| `CacheRuns.CorruptForGood` | internal/cache/cache.go:116-118 | once a write cut short has left a file that is no JSON, it stays so whatever is called and nobody is served any more |
| `CacheRuns.FollowsAnswers` | internal/cache/cache.go:145-152 | eager pruning is never observable |
| `CacheRuns.GetFindsExactly` | internal/cache/cache.go:155-182 | in every legal history a get finds an item if and only if it is the last one put for the path and not more than 24 hours have gone by since it was created |
| `CacheRuns.StepKeeps` | internal/cache/cache.go:160-209 | one step of any call, failed ones included, keeps the file in step with the plain map and the answers legal |
| `CacheRuns.SharedObjectLosesAPut` | internal/cache/cache.go:190-193 | wherever two calls may share an object, a run of two puts and a get in which the lock lets both puts in and the get is told not found of what was just put |
| `RawCodecs.Disk.FileNeedsUpdate` | pkg/codec/raw.go:59-104 | the file is left alone only if its size and both attributes are the descriptor's |
| `RawCodecs.Disk.StoreFileMetadata` | pkg/codec/raw.go:107-119 | the size attribute first; when that fails the digest is not written |
| `RawCodecs.Disk.Decode` | pkg/codec/raw.go:122-190 | what is on disk after each way the call can end |
| `RawCodecs.AttributesStayTrue` | pkg/codec/raw.go:122-190 | over any run of calls with honest readers, no failure once the file is open and attributes that work always or never, the attributes describe the bytes on disk |
| `RawCodecs.UpToDateIsTrue` | pkg/codec/raw.go:136-138 | after such a run, already up to date is said only of a file with the descriptor's bytes, and changes nothing |
| `RawCodecs.DecodeAgainChangesNothing` | pkg/codec/raw.go:122-190 | decoding the same again leaves every file as it is, and with attributes does not open it |
| `RawCodecs.UpToDateExactly` | pkg/codec/raw.go:59-190 | after any run, whatever was read, cut short or failed: already up to date is said wrongly of no descriptor if and only if the bytes left by the last call that opened the file, should they be as long as the size stored last, have the digest stored last |
| `RawCodecs.AlwaysTellsExactly` | pkg/codec/raw.go:122-190 | all runs are followed by true answers only if and only if attributes can never be written, or readers are honest, opened files are written in full and attributes can always be written: each of the three is needed |
| `RawCodecs.LengthDecidesTheSecondTime` | pkg/codec/raw.go:183-187 | the attributes are stored before anyone checks the digest: the next call for the descriptor skips the file if and only if the length was right |
| `RawCodecs.RetryAcceptsWrongBytes` | pkg/backend/pull.go:283-302 | wrong bytes of the right length fail the first attempt of an extracting pull and pass the second |
| `RawCodecs.CutCopyKeepsOldAttributes` | pkg/codec/raw.go:141-149 | a copy that ends early keeps the old attributes, and the old content is then found up to date if and only if the lengths agree |
| `RawCodecs.HalfWrittenAttributesLie` | pkg/codec/raw.go:107-119 | a new size attribute beside an old digest attribute |
| `RawCodecs.ModesTold` | pkg/codec/raw.go:150-174 | after any run, whatever fails in it, a file has the mode given by the last call that wrote it in full, was given a mode that is not zero and could set it; else the mode it had before the run; else that of a new file |
| `Archiving.FileSystem.MkdirAll` | pkg/archiver/archiver.go:154-156 | missing directories are made from the top down and a file in the way is an error |
| `Archiving.FileSystem.Untar` | pkg/archiver/archiver.go:131-208 | the loop over headers leaves the file system the lemmas are about, also when it fails half-way (`Overlays.UntarWrites` and `UntarLeaves` say what is in it) |
| `Archiving.TargetInside` | pkg/archiver/archiver.go:145-151 | a name that is not refused is unpacked at the destination or below it |
| `Archiving.UntarStaysInside` | pkg/archiver/archiver.go:131-208 | for every archive, unpacked to the end or not, whatever is written lies at or below the destination; above it only missing directories are made |
| `ArchiveNames.CleanLeadsThere` | pkg/archiver/archiver.go:145-146 | a cleaned relative name has no empty component and no single dot, and two dots only in front, and leads from any directory where the name itself leads |
| `ArchiveNames.UnpackedWhereNamed` | pkg/archiver/archiver.go:145-151 | an entry that is not refused is unpacked where its name, as it stands in the archive, leads from the destination |
| `Overlays.UnpackedNames` | pkg/archiver/archiver.go:147-149 | an archive unpacked to its end holds no name that, cleaned, has two dots in a row or starts with a slash or with a colon and a backslash |
| `Overlays.UntarWrites` | pkg/archiver/archiver.go:159-197 | for every file system and every archive unpacked to its end: a path some entry leads to holds what the last entry for it says, bytes and mode of a file or mode of a directory, whatever was there |
| `Overlays.UntarLeaves` | pkg/archiver/archiver.go:131-208 | unpacked to the end or not, what no entry leads to is as it was, and nothing else is new but missing directories |
| `Archives.Tar` | pkg/archiver/archiver.go:31-125 | the walk writes a header for each file and directory, parents first, and the bytes of each file |
| `Archives.NameKept` | pkg/archiver/archiver.go:146-151 | cleaning the relative path of a header gives it back, and joins it to the destination component by component |
| `Archives.UntarSucceedsExactly` | pkg/archiver/archiver.go:145-149 | unpacking a packed tree into an empty place succeeds if and only if no relative path holds two dots in a row and none starts with a colon and a backslash |
| `Archives.UntarRestoresTar` | pkg/archiver/archiver.go:31-208 | then the destination holds the same relative paths with the same contents and modes and nothing else, and beside them only new directories above |
| `Overlays.UntarOverSucceedsExactly` | pkg/archiver/archiver.go:131-208 | over whatever is there, a packed tree is unpacked to its end if and only if the directories it goes into can be made, its names are accepted, and files are in the way of files only and directories of directories |
| `Overlays.UntarOverRestores` | pkg/archiver/archiver.go:131-208 | then every path of the tree has what the tree has there, and every other path at or below its place has what it had |
| `Overlays.NewerReplacesOlder` | pkg/archiver/archiver.go:176-197 | unpacking a packed tree over an older one of the same shape succeeds and gives the newer one, files that neither holds left alone |

## Left out

- Transfer.PullStepSafe: pull workers are steps on values, not threads on a mutable store; the limit on concurrent
  workers is not modelled, since it only forbids schedules that are covered here.
- Push.InvStep: the registry is a value as well, and the push reads a local repository that does not change under it.
- LocalStores.LocalStore.RemoveReference: which tags a removal by digest drops is decided in the distribution
  library; any set of tags is allowed, and nothing is said about tags that name no manifest.
- LocalStores.LocalStore.Tag: nobody else is at work during the call; `Transfer.TaggedWhatItRead` is the statement
  with others beside it.
- Transfer.EveryRepositoryStaysClosed: only the image-manifest media type is stored as a manifest, as in the code; an
  index or any other manifest type is a blob there and here.
- PullExact.LyingHookBreaksClosure: a hook that skips a layer with the media type of a manifest is left out of this
  one run, not of the theorems.
- PullAny.PullClosesUnderExactly: a remote has one answer for each descriptor during a pull, or fails; one that changes its
  answers between attempts is not, since the six attempts then bound how many wrong ones can be stored.
- Selections.SetsGrow: only among runs that end well, since more files may break a limit; and only when no pattern errors.
- Attaching.ForcedCommutes: stated of the computed list; the early return when the digests are unchanged writes nothing.
- Processing.ProcessDeterministic: assumes that descriptors with one filepath are one descriptor, since the sort
  used there says nothing about equal paths.
- RoundTripExactly.ContentComesBackExactly: the printed comments and the time fit a line each, as the constants of the
  code do.
- CacheRuns.CacheRefinesPlainMap: a file changed by anyone else, and an error on closing the file after the whole list
  was written, which counts as a put that was written.
- RawCodecs.UpToDateIsTrue: files changed by other programs between two calls.
- RawCodecs.ModesTold: a new file gets the mode rw-r--r--, which is what the usual umask leaves of it.
- Archiving.UntarStaysInside: the destination is given by its components from the root, none of them empty, a dot or two dots.
- Archives.UntarRestoresTar: modification times, symbolic links, special mode bits, the umask and the byte format
  of tar, which is the list of its entries here.
- Workspaces.Walk: symbolic links, which the walk takes for files; and an error of the file system is named by its
  path alone.
- Pulling in extract mode beyond the raw codec, and pulling or fetching through Dragonfly: near copies of the loop
  that is modelled.
- The progress bars, logging, tracking of transfers, authentication and the command line.
- Garbage collection and the internals of the distribution library; the store is its contract.
- Building layers, configs and manifests: a function of the path, by contract.
- Reading the model configuration and the generate options into a Modelfile: a few assignments each.
- The tables of file patterns and the wording of the printed comments: parameters here.
- `ToUpper` beyond the letters that can become an ASCII capital, and invalid UTF-8.
