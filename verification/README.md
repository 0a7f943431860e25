# Verified models of the Redpanda operator repository

Dafny models of the parts of the repository where a mistake is hard to see, and proofs of what they are for.
`dafny verify dfyconfig.toml` checks all of it.

**The gotohelm compiler.** gotohelm turns a subset of Go into Helm templates. Templates have no `return`, so each body
becomes a loop of one turn with a flag. The model has both languages with their semantics and the translation between.

- `GoLang`: Go syntax, values and a big-step semantics. `fuel` is a budget of nested calls, and
  every statement holds for every budget. `Panic` is a Go panic: a nil pointer's field, an index out of a slice's range, a
  nil function called. `Stuck` stands for runs that Go's type checker excludes (`TypeCheck.SoundInvoke`). Two switches
  describe what the templates do instead: an `eager` program evaluates all initialisers of an if/else-if chain before its
  first condition, and in an `untyped` one all nils are one and loops count with `untilStep`: a nil map cannot be read by
  key, appending nothing to nil gives an empty list, dereferencing nil gives nil.
- `HelmTemplate`: text/template with its one stack of variables, `:=`, `=`, `break`, `continue`, and the functions used.
- `Emit`: the nodes of `ast.go`, the writer that appends their actions one by one, and the parser that reads an action
  list back. `Transpile`: the translation of `transpiler.go`, and the fragment it is right for.
- `ExprProof`, `ScopeProof`, `Simulation`: the templates compute what Go computes.
- `Hoist`, `FrameProof`, `HoistProof`: the rewrite of `rewrite.go`, and why it keeps the meaning that Go would have if it
  evaluated all initialisers first. `EagerProof`: when that is Go's own meaning. `NilSafe`: a check on the source, with nil
  tests and what functions need of their parameters, after which an untyped run is Go's. `TypeCheck`: Go's types for the
  subset, and why no run of a source that type-checks is stuck. `Pipeline` puts all of it together.
- `Limits`: inputs for which the generated templates differ from Go, and exactly when.
- `CountedLoop`, `ForLoop`: what counted loops and their `untilStep` lists run through, and why a `for` statement is a range over
  it. `PackageTree`, `StructFields`: the two worklist algorithms.

**The broker lifecycle.** `Lifecycle` interleaves the detached clear that postStart leaves behind, preStop, the broker and
the timeouts, step by step. `GhostSweep` is the sweep at the end of postStart, as a loop over the answers it gets.

**The plugin publisher.** `ObjectStore` is a store whose requests may fail before or after they took effect, and the dry-run
overlay. `Publisher` uploads, `Versions` orders, `Manifests` builds the manifest, `PublishRun` is a run and a series of runs.

**Smaller algorithms.** `TagExpression` (a suite's tag filter), `CommonPath` (license bundles), `NestedMaps` (the console
migration), `Nolint` (which lines a directive covers), `ConsoleMounts` (mounted TLS files). `Strings` and `Wrappers` are shared.

Where the code and its comments part, the model follows the code:

- `untilStep` loops: `i--`, `<=` and `>=` are translated as well, and differ from Go (`CountedLoopIff` says when).
- `append` is documented to handle nil slices; appending nothing to one gives `[]`, and nil in Go (`AppendDiffers`, exactly when:
  `AppendIff`, `SpreadIff`). A nil pointer is passed on where Go dereferences it (`DerefIff`).
- Hoisted initialisers run although Go would not reach them (`PanicHoisted`, exactly when it matters: `EagerIff`), and
  indexing a nil map fails in a template (`MapReadIff`).
- `getFields` pairs the fields of a type with the declarations of its source, so a declaration of two fields hides the last
  one (`GroupedFieldMissed`), and it does not enter what is embedded under a JSON name (`NamedEmbeddingMissed`).
- `longestCommonPath` is documented to return a common path prefix; its early return does not always (`TrapExample`).
- A fetch of a single broker that fails is skipped by the ghost sweep, which may then end with that ghost uncleared
  (`FailedFetchEnds`, exactly when: `ClearedIff`).
- `buildTagExpression` uses a tag that stands for "no matching group"; a feature that really has this tag is selected.

## Model

| member | source | states |
|---|---|---|
| `Pipeline.TranspileFile` | gotohelm/transpiler.go:155-239 | the printed file of any source is its rewrite's translation and parses to one template for each function, in order, of its name and for its parameters; for every source in the fragment the templates compute what the functions do with eager initialisers and one nil, for all call budgets and arguments; and for an accepted one what they do in Go, without exception when the source type-checks: printed once what is returned, nothing without a return, a failure for a panic |
| `Pipeline.TemplatesRunGo` | gotohelm/transpiler.go:241-436 | the same as a lemma about the hoisted, translated, printed and parsed functions |
| `Pipeline.TypedRunGo` | gotohelm/rewrite.go:58-72 | in a source that type-checks no run of an accepted source is stuck: the templates print exactly what the Go function returns, nothing when it returns nothing, and fail when it panics |
| `Pipeline.TemplatesRunEagerly` | gotohelm/rewrite.go:117-137 | without any check on the source, the templates do what Go would do if it evaluated every initialiser of a chain first, had one nil, and counted loops with `untilStep` |
| `Pipeline.TemplatesRunGoIff` | gotohelm/transpiler.go:241-436 | a corollary, call by call: the templates do what Go does exactly when Go changed in these three ways has the same output |
| `Pipeline.AppendDiffers` | gotohelm/transpiler.go:1101-1144 | `return append(a, b...)` on two nil slices: Go returns nil, the rendered template has an empty list |
| `Pipeline.AppendAccepted` | gotohelm/transpiler.go:1101-1144 | the same function is accepted, and type-checks, for callers whose first slice is not nil |
| `NilSafe.SameInvoke` | gotohelm/transpiler.go:605-1144 | in a source that passes the check, having one nil and `untilStep` loops changes no call whose arguments are not nil where they must not be |
| `TypeCheck.SoundInvoke` | gotohelm/rewrite.go:58-72 | in a source that type-checks, a call with arguments of the declared types is never stuck and never runs off the end of a function with results, and what it returns has the declared types, for both orders of evaluating initialisers |
| `TypeCheck.OpHas` | gotohelm/transpiler.go:605-1144 | each operation on operands of the types it takes has a result of its type, or panics |
| `Simulation.TemplatesComputeGo` | gotohelm/ast.go:257-283 | rendering a parsed template prints `{"r": v}` exactly once when the Go function returns `v`, prints nothing when it falls off the end, and fails when it panics |
| `Simulation.SimStmts` | gotohelm/transpiler.go:241-436 | after the same statements, break, continue and return are signalled alike, all variables in scope agree, and output appears with the return alone |
| `Simulation.SimLoop` | gotohelm/ast.go:312-333 | a loop visits the same items and stops on the same turn; a return inside leaves through the flag |
| `Simulation.SimChain` | gotohelm/ast.go:342-364 | an if/else-if chain takes the same branch and closes its scopes |
| `Simulation.SimReturn` | gotohelm/transpiler.go:292-301 | one result is emitted as itself, several as a list, a forwarded call as its results |
| `Simulation.SimCall` | gotohelm/ast.go:162-185 | `include`, `fromJson` and `get "r"` yield the results of the Go call, for static calls, methods and function values |
| `Simulation.SimFuncTarget` | gotohelm/transpiler.go:1455-1492 | a call through a function value reaches the captured function with the captured receiver before the actual arguments |
| `Simulation.SimMethodRef` | gotohelm/transpiler.go:796-819 | a method value evaluates to the list of its name and its receiver; through a nil pointer, where Go panics, the receiver is nil (`DerefIff`) |
| `Simulation.SimMulti` | gotohelm/transpiler.go:548-603 | several results are evaluated once, into the intermediate variable, and then assigned in order |
| `Simulation.SimMapTest` | gotohelm/transpiler.go:565-569 | `v, ok := m[k]` gives the entry and true, or the zero value and false, also for a nil map |
| `Simulation.SimTuple` | gotohelm/transpiler.go:303-319 | unrolled assignments store what Go's simultaneous one stores when no right side reads an earlier left side |
| `Simulation.SimBlock` | gotohelm/transpiler.go:419-424 | a bare block, which opens no scope in the template, keeps every variable of the surrounding scopes when it shadows none |
| `Simulation.SimExpr` | gotohelm/transpiler.go:605-1060 | an expression evaluates to the encoding of its Go value, or fails where Go panics, also on a nil pointer's field or a nil slice's element; the other cases of nil are as in an untyped program |
| `ExprProof.SimOp` | gotohelm/transpiler.go:847-1036 | every supported operation on encoded operands yields the encoded result, with one nil and `untilStep` loops |
| `ExprProof.OpFails` | gotohelm/transpiler.go:847-1036 | an operand that fails makes every operation fail |
| `ScopeProof.RelLookup` | gotohelm/ast.go:193-203 | in related environments a template variable holds what Go's scoping gives the variable of that name |
| `ScopeProof.SimStore` | gotohelm/ast.go:193-203 | `:=` and `=` on the one template stack keep it related to Go's nested scopes |
| `Emit.Writer.WriteFile` | gotohelm/ast.go:237-271 | the writer appends exactly the actions of the file to what was written |
| `Emit.Writer.Write` | gotohelm/ast.go:277-333 | a node's actions are appended, nothing before is touched |
| `Emit.ReadWritten` | gotohelm/ast.go:229-271 | a written file parses to the templates that its nodes mean |
| `Emit.ParseNode` | gotohelm/ast.go:295-364 | whatever follows, the actions of a node are read as its statements: ends and elses pair up |
| `Hoist.Rewriter.File` | gotohelm/rewrite.go:138-193 | the walk with one counter gives each initialiser the names that the scoping rewrite gives it, file-wide |
| `Hoist.Rewriter.IfChain` | gotohelm/rewrite.go:173-187 | the initialisers of a chain come out in order and the chain without them, both renamed |
| `HoistProof.SameInvoke` | gotohelm/rewrite.go:138-193 | every function of a hoisted file ends as the original does when it evaluates initialisers first: same results, panics and endings |
| `HoistProof.SameStmts` | gotohelm/rewrite.go:138-193 | statement by statement the rewritten code agrees on all variables but the new names, which stay within the numbers given out |
| `HoistProof.SameChain` | gotohelm/rewrite.go:157-189 | a chain without its initialisers does what the chain does with them evaluated, however it shadows or reuses names |
| `HoistProof.SameInits` | gotohelm/rewrite.go:173-187 | the hoisted initialisers leave under their new names what the originals leave in the chain's scopes |
| `FrameProof.GenInjective` | gotohelm/rewrite.go:143-165 | names with different numbers or different stems never collide |
| `FrameProof.SameUpdate` | gotohelm/rewrite.go:168-171 | an assignment under the new name hits the variable that Go's scoping selects |
| `EagerProof.SameInvoke` | gotohelm/rewrite.go:123-124 | evaluating all initialisers first changes nothing when those after the first are total and free of calls |
| `EagerProof.TotalRest` | gotohelm/rewrite.go:123-124 | such initialisers, which read no slice by index and no field through a pointer, have values or the run is ill-typed |
| `EagerProof.EagerIff` | gotohelm/rewrite.go:117-137 | for any chain that Go runs through: evaluating all initialisers first makes no difference exactly when all of them have values |
| `EagerProof.PanicHoisted` | gotohelm/rewrite.go:117-137 | a chain that Go runs through and whose hoisted form panics |
| `Limits.TupleUnrolled` | gotohelm/transpiler.go:309-319 | for any number of targets: one is right exactly when its right side reads the same after the assignments to the targets before it |
| `Limits.SwapFails` | gotohelm/transpiler.go:309-319 | `a, b = b, a` does not swap |
| `Limits.BareBlockIff` | gotohelm/transpiler.go:419-424 | for any bare block: a variable of the surrounding scopes is right after it exactly when the block did not declare it anew, or left it with the value it has outside |
| `Limits.BareBlockHides` | gotohelm/transpiler.go:419-424 | a variable redeclared in a bare block stays redeclared after it |
| `Limits.OperationIff` | gotohelm/transpiler.go:605-1144 | any operation on operands of its types has Go's outcome in the template exactly when it does not read a nil map, append nothing to a nil slice, dereference a nil pointer, or count a loop that `untilStep` miscounts |
| `Limits.MapReadIff` | gotohelm/transpiler.go:989-1036 | `m[k]` on a map or nil always has a value in Go; the template yields it exactly when the map is not nil |
| `Limits.AppendIff` | gotohelm/transpiler.go:1107-1144 | `append(xs, v, ...)` has Go's value in the template exactly when xs is not nil or something is added |
| `Limits.SpreadIff` | gotohelm/transpiler.go:1127-1135 | `append(xs, ys...)` likewise |
| `Limits.DerefIff` | gotohelm/transpiler.go:616-618 | `*p`, and a value method through a pointer, agree with Go exactly when the pointer is not nil |
| `ForLoop.ForIsRange` | gotohelm/transpiler.go:433-540 | a `for` that reads its condition before each turn does what ranging over the values of its variable does, with every break, continue, return and panic of its body, when the body assigns neither its variable nor its bound |
| `ForLoop.SimFor` | gotohelm/transpiler.go:433-540 | the emitted range over `untilStep`, with the bound read again from its declaration, runs the body as the `for` does, when the declaration still has the bound's value and `untilStep` counts like the loop |
| `CountedLoop.CountedLoopIff` | gotohelm/transpiler.go:433-535 | for every start, bound and step, the emitted list equals the loop's values exactly in the listed cases; always for `<` with `++`/`+=` and `>` with `-=` |
| `CountedLoop.StrictLoop` | gotohelm/transpiler.go:433-535 | a strict loop counts like untilStep |
| `CountedLoop.WeakLoop` | gotohelm/transpiler.go:433-535 | a loop that allows its bound counts one more exactly when its steps meet the bound |
| `PackageTree.MkPkgTree` | gotohelm/transpiler.go:1063-1087 | on every finite import graph, cycles included, the walk ends with exactly the packages that the root reaches |
| `StructFields.GetFields` | gotohelm/transpiler.go:1780-1824 | it panics exactly on structs that hold an empty or unsuitable inlined field, and else lists the worklist |
| `StructFields.WorklistByLevel` | gotohelm/transpiler.go:1788-1821 | the list is one embedding depth after the other |
| `StructFields.FindsByDepth` | gotohelm/transpiler.go:1788-1821 | each listed field comes with its path from the root, and the paths are in order of depth |
| `StructFields.Selector` | gotohelm/transpiler.go:821-838 | the translation of a selector panics on structs that `getFields` panics on and on names that it does not list, and else takes the first match |
| `StructFields.SelectorIff` | gotohelm/transpiler.go:821-838 | that match is the field that the Go selector denotes, the only one of its name at the least depth, exactly when this field stands in the listed part of a struct reached through listed, inlined fields |
| `StructFields.AllReachedIff` | gotohelm/transpiler.go:1800-1817 | all fields of a struct are reached in this way exactly when, at every depth, each declaration names one field and every embedded struct with fields, by pointer or not, is inlined |
| `StructFields.GroupedFieldMissed` | gotohelm/transpiler.go:1800-1805 | a declaration of two fields hides the last field |
| `StructFields.NamedEmbeddingMissed` | gotohelm/transpiler.go:1805-1817 | a struct, or a pointer to one, embedded under a JSON name hides the fields that it promotes |
| `Lifecycle.KillEndsDeletes` | charts/redpanda/scripts.go:178-183 | some run sends a maintenance DELETE after preStop's kill exactly when the kill misses a clear that can still send one |
| `Lifecycle.NoDeleteAfterKill` | charts/redpanda/scripts.go:134-155 | in every run where postStart recorded a clear that has its own session, none follows |
| `Lifecycle.UnrecordedClearDeletes` | charts/redpanda/scripts.go:153-154 | a hook stopped between starting and recording the clear lets one follow |
| `Lifecycle.PollEndsOnEvidence` | charts/redpanda/scripts.go:217-235 | preStop leaves its poll after exactly the first answer that completes `finished`, or draining=true and later draining=false |
| `Lifecycle.DrainRealIff` | charts/redpanda/scripts.go:212-235 | from the kill on, that evidence means a drained broker exactly when no sender of a DELETE for this broker and no such DELETE is left |
| `Lifecycle.PreStopDrains` | charts/redpanda/scripts.go:178-236 | the two hooks together: leaving the poll on its evidence leaves a drained broker |
| `Lifecycle.GivesUpAfterTwenty` | charts/redpanda/scripts.go:190-202 | a broker is given up exactly after twenty failed reads of its id, and is then not asked to drain |
| `Lifecycle.PutsUntilAnswered` | charts/redpanda/scripts.go:204-217 | over all runs, preStop leaves as not a member exactly when a PUT was answered 404, polls or has seen the drain exactly when one was answered 200 and no timeout came, and asks again after every other answer, such as 400 |
| `Lifecycle.ClearsUntilAnswered` | charts/redpanda/scripts.go:84-88 | over all runs, the clear sends DELETEs for its own broker until one is answered 200 or 400, not once more, and looks for ghosts only then |
| `Lifecycle.AnyAnswer` | charts/redpanda/scripts.go:212-215 | whatever was answered before, any answer can come next |
| `GhostSweep.Sweeper.Run` | charts/redpanda/scripts.go:104-132 | every DELETE goes to another broker that the same pass read at this pod's exact address, draining and dead; a new pass starts only after one that read a live drainer; the sweep ends only after a pass that asked for all others and cleared every drainer it read |
| `GhostSweep.Sweeper.Visit` | charts/redpanda/scripts.go:109-129 | one broker: skipped, remembered as still alive, or cleared until 200, 400 or 404 |
| `GhostSweep.ClearedIff` | charts/redpanda/scripts.go:112-129 | at the end of any sweep, a drainer at this address that the last pass listed is cleared exactly when its record was read |
| `GhostSweep.AllClearedIff` | charts/redpanda/scripts.go:112-129 | none of them is left exactly when no fetch of one failed |
| `GhostSweep.FailedFetchEnds` | charts/redpanda/scripts.go:112 | a sweep that ends although a listed ghost was not cleared |
| `GhostSweep.LegalStep` | charts/redpanda/scripts.go:104-132 | what one more request needs for the log to stay legal |
| `GhostSweep.ClearStops` | charts/redpanda/scripts.go:125-128 | a ghost is asked until it answers 200, 400 or 404, not once more, and again after any other answer |
| `ObjectStore.Store.Put` | rpk-k8s-publish/main.go:108-115 | a write shows in what readers see, or not at all; a dry run writes nothing to the store |
| `ObjectStore.Store.Head` | rpk-k8s-publish/main.go:130-135 | the overlay answers for its own uploads, the store for the rest |
| `Publisher.ParsePlatformIff` | rpk-k8s-publish/publish.go:92-103 | exactly the names `rpk-k8s-<goos>-<goarch>`, with or without `.exe`, give that platform |
| `Publisher.Upload` | rpk-k8s-publish/publish.go:165-239 | with any store errors: nothing is written unless all expected platforms are there, only archives of local binaries are added, stored objects keep bytes and tags, success publishes every binary with its digest; without errors the outcome is the specified one |
| `Publisher.UploadIff` | rpk-k8s-publish/publish.go:194-236 | an upload is refused exactly when a binary disagrees with what is published or with another of its platform |
| `Publisher.RetryCompletes` | rpk-k8s-publish/publish.go:160-164 | after a cut-off upload the same binaries are accepted again, and end with the tags the first attempt was to end with |
| `Publisher.KeyInjective` | rpk-k8s-publish/publish.go:199-200 | archives of one release for different platforms have different keys, whatever the plugin and the version are called |
| `Publisher.KeyDetermines` | rpk-k8s-publish/publish.go:200 | with slash-free plugins and versions a key determines plugin, version, binary and platform |
| `Publisher.ArchiveFor` | rpk-k8s-publish/publish.go:199-230 | spelt out: where the binary `rpk-k8s-<goos>-<goarch>`, with or without `.exe`, goes, as what, and with which five tags |
| `Versions.LessTransitive` | rpk-k8s-publish/publish.go:306-324 | `lessVersion` is transitive on versions that parse |
| `Versions.LessTotal` | rpk-k8s-publish/publish.go:306-324 | and total on canonical ones |
| `Versions.Incomparable` | rpk-k8s-publish/publish.go:306-324 | versions that parse are incomparable exactly when numbers and remainder are the same |
| `Versions.PaddedIncomparable` | rpk-k8s-publish/publish.go:306-324 | 1.0.0 and 1.00.0, of which neither is less |
| `Versions.UnparsedCycle` | rpk-k8s-publish/publish.go:306-311 | with a version that does not parse, the order has a cycle |
| `Versions.ParseIff` | rpk-k8s-publish/publish.go:48-51 | the pattern reads a string as a version with some fields exactly when it is written from them and they are well-formed |
| `Versions.LessIff` | rpk-k8s-publish/publish.go:306-324 | the first of the three numbers that differs decides; with the same numbers a version without remainder is the greater, and remainders go byte by byte |
| `Versions.UnparsedIff` | rpk-k8s-publish/publish.go:307-311 | a version that does not parse is compared byte by byte |
| `Versions.NumberOrder` | rpk-k8s-publish/publish.go:312-314 | without leading zeros, more digits make the greater number, and as many digits decide one after the other |
| `Versions.StableIff` | rpk-k8s-publish/publish.go:44-46 | a version is stable exactly when it is three numbers and the dots between them |
| `Strings.BeforeIff` | rpk-k8s-publish/publish.go:310 | byte order: the first byte that differs decides, and a string that the other goes on from is the lesser |
| `Versions.MaxStable` | rpk-k8s-publish/publish.go:333-351 | in whatever order the keys come, a stable version that `lessVersion` puts before no other stable one, or none |
| `Versions.GreatestIsLast` | rpk-k8s-publish/publish.go:281-298 | on canonical versions it is the last stable one of the order |
| `Manifests.BuildManifest` | rpk-k8s-publish/publish.go:245-301 | each version once in ascending order, with exactly its artifacts, the last stable one marked latest |
| `Manifests.OneManifest` | rpk-k8s-publish/publish.go:241-244 | the tags in the store determine the manifest: listing and map order have no say |
| `Manifests.OneLatest` | rpk-k8s-publish/publish.go:281-298 | at most one archive is marked latest, and it is stable |
| `PublishRun.Run` | rpk-k8s-publish/main.go:57-98 | a run with any store errors keeps all archives, their tags' places and their digests, changes no other object than its manifest, and adds only archives of its binaries; when it succeeds, every expected platform is published with a local digest, and the object `<plugin>/manifest.json` holds the manifest it built |
| `PublishRun.RunAll` | rpk-k8s-publish/publish.go:155-164 | over any series of runs, from any store and with errors anywhere, archives never change, what a successful run published stays published, only manifests are replaced, and each holds what the last run of its plugin built if that succeeded |
| `PublishRun.DryRunPredicts` | rpk-k8s-publish/main.go:100-135 | a dry run of any release on any store is accepted or refused like the real run, for the same reason, and leaves the store alone; where versions are canonical and tags in place, it shows the manifest that the real run stores |
| `PublishRun.OneOutcome` | rpk-k8s-publish/main.go:76-98 | without store errors the tags determine acceptance, the reason of a refusal and the final tags, and the manifest where versions are canonical |
| `PublishRun.NewVersionAccepted` | rpk-k8s-publish/publish.go:200-212 | in a store that the publisher filled, a version of which nothing is published is accepted exactly when all platforms are there and no two binaries of a platform differ |
| `TagExpression.ExpressionSelects` | harpoon/suite.go:183-253 | read back and evaluated, the expression accepts exactly the features not skipped and either untagged, with the default group requested, or tagged for a requested group; and those with the stand-in tag when nothing matches |
| `TagExpression.WithoutRequests` | harpoon/suite.go:200-203 | without requested groups: exactly the features not skipped that carry the default group's tag, or no tag of another group |
| `TagExpression.ReadBack` | harpoon/suite.go:186-191 | splitting recovers the intended clauses for tags without `&&`, commas or a space at the end |
| `TagExpression.OneExpression` | harpoon/suite.go:212-225 | the text does not depend on the order of Go's map |
| `TagExpression.SuiteBuilder.BuildTagExpression` | harpoon/suite.go:192-253 | the builder's loops produce that text |
| `CommonPath.LongestCommonPath` | licensereport/main.go:697-721 | the result starts every path, no longer path leads all of them, and it leads all of them exactly when they are no trap: a path continued by a slash and by a lesser byte, and by no greater one |
| `CommonPath.TrapExample` | licensereport/main.go:710-713 | `a`, `a-b` and `a/c` are a trap: only the empty path leads all of them |
| `CommonPath.SharedByAll` | licensereport/main.go:706-711 | what the first and the last sorted path share, all share |
| `CommonPath.NearestLicenses` | licensereport/main.go:440-467 | all licenses of the closest directory above the package that has any, and none exactly when no directory above it has |
| `NestedMaps.SetPath` | charts/console/migrate_nogotohelm.go:224-267 | the walk creates maps and sets the path as specified; when it fails the map is as before |
| `NestedMaps.FailsIff` | charts/console/migrate_nogotohelm.go:236-248 | it fails exactly when a value on the way is no map, or a value that is no map is merged into the root |
| `NestedMaps.ReadsBack` | charts/console/migrate_nogotohelm.go:250-266 | the path reads back as the value, or as its merge with what was there |
| `NestedMaps.OthersKept` | charts/console/migrate_nogotohelm.go:224-267 | paths that neither start nor continue the set path keep their values |
| `NestedMaps.MergeMaps` | charts/console/migrate_nogotohelm.go:269-287 | in whatever order the keys come, the merge |
| `NestedMaps.MergeTwice` | charts/console/migrate_nogotohelm.go:269-287 | merging the same source again changes nothing |
| `NestedMaps.MergeGet` | charts/console/migrate_nogotohelm.go:269-287 | what every path holds after a merge |
| `NestedMaps.LeavesSurvive` | charts/console/migrate_nogotohelm.go:269-287 | every value of the source that is no map is in the result |
| `Nolint.OutermostNodes` | lint/suppress.go:177-194 | each line on which a node starts is mapped to its node of least start, the first in preorder among equals |
| `Nolint.OutermostReachesFurthest` | lint/suppress.go:174-176 | in nested trees that node ends no earlier than any other that starts there |
| `Nolint.Nolinted` | lint/suppress.go:143-165 | true exactly for lines in the extended span of some comment group with a directive for the linter |
| `Nolint.ReadsWritten` | lint/suppress.go:217-231 | a directive written for some linters is read as one for exactly those, with or without an explanation |
| `Nolint.MarkedIff` | lint/suppress.go:199-212 | a comment is a directive exactly when, past blanks, it says `nolint` and ends there or goes on with a blank or a colon; without a colon it is one for all linters |
| `Nolint.ListSuppresses` | lint/suppress.go:214-231 | any list suppresses the linters it names, spaces and capitals aside, and all of them when it names `all` or none |
| `ConsoleMounts.AddAll` | charts/console/config.go:213-331 | each returned path is that of exactly one projected file, each projected file was asked for, files come secrets first and by name and key, and the directory is mounted exactly when files are projected |
| `ConsoleMounts.FileOfSource` | charts/console/config.go:213-266 | which file a source stands for: its config map's if it has one, else its secret's, and none for an empty reference |
| `ConsoleMounts.PathInjective` | charts/console/config.go:241-266 | requests with slash-free names have different paths |
| `ConsoleMounts.SlashCollides` | charts/console/config.go:241-266 | for all requests: they share a path exactly when they are of one kind and name, slash and key read the same; two different ones that do |
| `ConsoleMounts.ConfigureTls` | charts/console/config.go:163-188 | the three files of a TLS section are added and their paths returned, a CA from a config map or a secret, the others from secrets only |

## Left out

- Simulation.SimTuple: gives a condition on the text of the assignment under which unrolling is right; when exactly it is right depends on the values (`Limits.TupleUnrolled`).
- Simulation.SimBlock: asks that a bare block redeclare no visible variable; when exactly a variable is right without that is `Limits.BareBlockIff`.
- EagerProof.SameInvoke: asks that later initialisers be total, which is visible in the source; the exact condition, on a run, is `EagerProof.EagerIff`.
- NilSafe.SameInvoke: its check is one that a reader can do; it refuses some sources in which the difference never shows, such as ones that spread into a slice that may be nil and only range over the result. When an operation differs is exact (`Limits.OperationIff`).
- Versions.LessTotal: does not cover versions with leading zeros or numbers beyond 63 bits, which the order cannot tell apart (`Versions.Incomparable`).
- Compiler values: numbers are unbounded integers; the width of Go integers, floats, the float64 that JSON makes of every number, and the casts that undo this are not modelled.
- Compiler types: interfaces other than `any`, named types of scalars, generic functions and implicit conversions of results to `any` are not in `TypeCheck`; a struct literal names all its fields. That the rewritten source type-checks again is not proved.
- Compiler updates in place: values are immutable, so assignments to map entries and fields, aliasing, and what `deepCopy` protects against are left out; it copies.
- Compiler forms: `switch`, ranging over integers, `for k = range` and `if x = f(); ...` with variables declared before (the rewrite renames them, but only where it meets them after that `if`), calls that spread the results of another call, pointers to scalars, type assertions, slices of slices, indexing a string, ordering strings, division and remainder, variadic functions, `for` conditions that do not start with the loop's own variable, `==` on anything but strings, numbers and booleans (and nil tests), and struct literals' omission rules.
- Ranging over a map: entries are visited in key order in both languages; Go promises no order.
- Template text: actions are a list of structured values; how an expression is spelt, trimmed whitespace and JSON syntax are not modelled. `Text` stands for rendered JSON documents.
- Struct types that embed a pointer to themselves, or to a struct around them.
- Package loading, namespaces, function renaming, embedded files, chart values, and all library functions with special translations (quantities, lookups, `tpl`).
- The lifecycle shell: curl's exit codes, `set -x`, the log pipe and reuse of process ids are left out; a failed request is an answer with empty fields. Other clients of the admin API do not change this broker's maintenance mode.
- The broker: it starts draining after it accepted the PUT, does not leave maintenance mode by itself, and reports as `Lifecycle.Shows` says.
- The publisher's I/O: reading binaries, flag parsing and the clock; a digest is a value that no two contents share, a tar.gz is its content. Runs do not overlap.
- The store interface: its two implementations are one class with a switch, since the publisher is the same for both.
- NestedMaps.SetPath: maps are values, so sharing of submaps between source and destination is not captured.
- godog's own evaluation of tags with an `@` inside; trimming is of ASCII spaces.
- Comment positions, license classification, exclusions by path or text, and generated-file detection of the linter.
- Environment variables, and the rest of the console configuration.
- Kubernetes object builders and the repository's own test plumbing: field by field construction.
