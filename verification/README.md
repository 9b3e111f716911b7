# kform: a verified model of its package graph, executor and data paths

kform turns a package of blocks into a dependency graph, reduces the graph, runs every block concurrently in the order of
the graph, and moves resources in and out of YAML streams, stores and downloads. This project models that core in Dafny
and proves what it keeps in every run.

* `wrappers.dfy`, `graphs.dfy`, `walks.dfy`, `reduction.dfy`: optional values; paths, reachability, redundancy; the depth-first walks of a graph and the
  depths they record; what one pass of the transitive reduction does to a set of edges and what a sequence of passes leaves.
* `dag.dfy`, `package_dag.dfy`: the mutable graph with its mirrored edge maps, the reduction that deletes edges while it
  walks them, and the construction of a package's graph. Map iteration orders are arbitrary.
* `executor.dfy`: the executor as a step relation. One goroutine per walked path, one per scheduled vertex, one unbuffered
  channel per edge, one done channel per vertex, and the collecting main goroutine. Any goroutine may take the next step;
  the five-second timeouts only loop back and are stutter steps. `executor_steps.dfy` looks at a step from one goroutine,
  `executor_safety.dfy` and `executor_trace.dfy` prove safety, `executor_termination.dfy` that runs are finite,
  `executor_calls.dfy` that calls are paths, `executor_progress.dfy`, `executor_deliveries.dfy`, `executor_completion.dfy`
  and `executor_orders.dfy` when runs complete, `executor_schedules.dfy` builds runs for a scheduler, `executor_respect.dfy`
  says which vertices wait for which, and `executor_tree.dfy`, `executor_lost.dfy`, `executor_split.dfy` and
  `executor_race.dfy` on which graphs the visited race is harmless.
* `pipeline.dfy`, `package_runs.dfy`: construction, reduction and execution joined; packages whose runs go wrong.
* `download.dfy`, `worker_pool.dfy`: the state functions of one download over a mutable response, and the batch downloader.
* `documents.dfy`: the document splitter, the single-stream writer, the reader's newline handling.
* `differ.dfy`, `instances.dfy`, `dependencies.dfy`, `package_dependencies.dfy`: pruning by deletion in place, loop instances
  that write into one slice, dependency collection by rendering a tree in place, and what resolving makes of it.

What the code demands of its callers is an explicit `requires`: dependencies name blocks of the package and form no cycle,
and the root has no dependencies (`PackageDag.WellFormed`, `Executor.Runnable`). The parser checks the first of these for
most names (`PackageDependencies.ResolvedEndpointsIff`) and nothing checks the second.

## Results that go against expectation

* The reduction does not preserve reachability. `Reduction.ReductionLosesADependency` is a graph on which every run of it
  loses a connection, and `PackageRuns.DependencyViolated` a run of the executor that then starts a block before one of its
  dependencies. `Reduction.PassSafeIffLevel` and `Reduction.ReductionSafeIffLevelled` say exactly for which graphs a pass
  and the whole reduction are harmless for all iteration orders, and `Pipeline.AlwaysRespectedIffLevelled` that these are
  exactly the packages whose dependencies are respected in every run.
* Reading and setting the visited mark are two steps. No vertex runs twice because of it, but every vertex with two edges
  into it can be lost, so that Run, although nothing failed, never returns (`ExecutorRace.RaceLosesVertex`) unless the caller
  cancels (`ExecutorCompletion.CancelledReturns`). Exactly the graphs that are trees always complete
  (`ExecutorRace.AlwaysSucceedsIffSingleEntry`). `PackageRuns.PackageMayHang` is a package of three blocks.
* Different goroutines of a vertex may iterate over its channels in different orders. When they do not, the race is harmless
  and `ExecutorOrders.RunSucceedsIffRankable` says exactly when a run succeeds; even then the executor can deadlock, on
  crossed orders (`ExecutorOrders.CrossedOrdersNeverSucceed`).
* A dependency that returned false still lets its dependents run: the value received from it is dropped while the channel
  is open. For every vertex and every one it leads to there is a run in which the first fails and the second starts
  (`ExecutorRespect.StartsAfterFailure`), so only vertices without predecessors start in every run after all of theirs
  succeeded (`ExecutorRespect.PredecessorsSucceedIff`).
* Downloads look at, and write, the directory of the name they have. When the directory of the requested path exists, as the
  batch function demands, the file is therefore first found by the name the server gives, and only if a HEAD was asked for
  and not refused. Otherwise it is opened without being emptied, so that a longer one keeps its tail
  (`Download.LongerFileStaysIff`, with `Download.KeptTail` as an instance). An expected size does not help; it is compared
  with what the server announces, not with what is left in the file.
* For the same reason a download to an existing directory always fails (`Download.DirectoryFails`), and one to a path whose
  directory does not exist is written in place of that directory (`Download.TargetPath`). The checksum alone is looked for at
  the name itself, where nothing can be: a download with a checksum never succeeds (`Download.ChecksumNeverPasses`).
* The comparison of old and new resources never shows a change: what is printed as old is the new resource
  (`Differs.ShownAsMeantIff`).
* The parser accepts dependencies that no edge can start from (`PackageDependencies.DanglingDependency`); the executor's
  init fails on them.
* The splitter and the writer are inverse under three conditions, the third of which, carriage returns, comes from the
  reader's line end normalization (`Documents.RoundTripIff`).
* The comment on the validation of a local file promises an error for SkipExisting; the code has no such check, and the
  model follows the code (`Download.DoValidateLocal`).
* Pruning counts: a duplicated identity in an old block leaves one of the two to be pruned (`Differs.PruneExactIff`).
* Without instances nothing is written, so a count that drops to zero leaves the old values (`Instances.ReturnedResult`).
  The bounds check of the insert misses the position just past the end, which its caller happens to keep out.

## Model

| member | source | states |
|---|---|---|
| Graphs.SameReachIffOnlyRedundantDeleted | pkg/dag/tr.go:28-50 | deleting edges from an acyclic graph keeps every connection if and only if each deleted edge had a longer path beside it: the condition under which a reduction is harmless |
| Graphs.OnlySourceReachesAll | pkg/syntax/types/package.go:303-313 | when only the root has no edge into it, the root reaches every vertex, so the executor's walk can |
| Walks.FollowsEveryPath | pkg/dag/tr.go:52-72 | the recursive walk follows exactly the paths from its start, in whatever order it takes the children of each visit |
| Walks.WalkRecordsDepths | pkg/dag/tr.go:52-72 | walking every path from v records for exactly the vertices reachable from v the length of some path to them |
| Walks.ForkOf | pkg/dag/tr.go:52-72 | two different depths recorded by one walk, the smaller one at a vertex that does not reach the other, come from paths that part at one vertex, where the first step of one does not lead to the end of the other |
| Walks.ForkedWalkAfter | pkg/dag/tr.go:52-72 | for every such fork, after any path to it, some walk records two depths that differ by the lengths of its branches |
| Reduction.PassKeepsAnOrigin | pkg/dag/tr.go:74-91 | a pass never orphans a vertex: an edge from a deepest origin stays |
| Reduction.PassKeepsDescendants | pkg/dag/tr.go:39-91 | everything reachable from v when its pass starts stays reachable from v, along edges the pass keeps |
| Reduction.PassRemovesShadowedEdges | pkg/dag/tr.go:39-91 | the pass from v keeps an edge out of v if and only if no longer path leads to the same vertex |
| Reduction.PassSafeIffLevel | pkg/dag/tr.go:39-91 | every pass from v is harmless, whatever orders its walk takes, if and only if at no vertex reachable from v two paths part, one to the origin of a needed edge and a longer one to that of another edge into the same vertex, the first step of one not leading to the end of the other: a condition on the graph before the pass |
| Reduction.ReductionSafeIffLevelled | pkg/dag/tr.go:33-91 | every reduction keeps all connections, whatever orders its passes and walks take, if and only if there is no such fork at any vertex |
| Reduction.LevelledReductionExact | pkg/dag/tr.go:33-50 | for a graph without such a fork all passes in any order leave exactly the non-redundant edges and lose no connection |
| Reduction.PassesResult | pkg/dag/tr.go:33-50 | after all passes no edge is shadowed by a longer path of the remaining graph, and every vertex that had an edge into it still has one |
| Reduction.MinimalKeepsReachIffReduction | pkg/dag/tr.go:33-50 | a result without shadowed edges keeps all connections if and only if it is the graph's transitive reduction |
| Reduction.ReductionLosesADependency | pkg/dag/tr.go:74-91 | for root to b and c, c to e, b and e to d, every order of passes and walks deletes the only connection from b to d |
| Dags.Dag.AddVertex | pkg/dag/dag.go:81-91 | an existing vertex is refused and nothing changes; otherwise it is added |
| Dags.Dag.Connect | pkg/dag/dag.go:133-137 | adds exactly that edge and keeps the down and up maps mirrors of each other |
| Dags.Dag.Disconnect | pkg/dag/dag.go:139-142 | removes exactly that edge and keeps the maps mirrors |
| Dags.Dag.AddDownEdge | pkg/dag/dag.go:144-158 | the down map gains exactly the edge |
| Dags.Dag.AddUpEdge | pkg/dag/dag.go:185-199 | the up map gains exactly the edge |
| Dags.Dag.DeleteDownEdge | pkg/dag/dag.go:160-170 | the down map loses exactly the edge |
| Dags.Dag.DeleteUpEdge | pkg/dag/dag.go:201-210 | the up map loses exactly the edge |
| Dags.Dag.GetDownVertexes | pkg/dag/dag.go:172-183 | lists each successor once, in any order |
| Dags.Dag.GetUpVertexes | pkg/dag/dag.go:225-236 | lists each predecessor once, in any order |
| Dags.Dag.TransitiveReduction | pkg/dag/tr.go:33-50 | one pass per vertex in any order; the result is the closed form of the passes, a mirrored subgraph without shadowed edges in which no vertex is orphaned, and for a levelled graph exactly its transitive reduction |
| Dags.Dag.ReducePass | pkg/dag/tr.go:39-46 | a whole pass, deleting while it walks, visits exactly what was reachable from v and leaves exactly the edges whose origin was not walked or is a deepest one among the origins before the pass |
| Dags.Dag.DepthWalk | pkg/dag/tr.go:52-72 | the first walk is one recursive visit of the graph, children in arbitrary orders, and the depths it leaves are those recorded along it; the last path walked to a vertex counts |
| Dags.Dag.DeleteWalk | pkg/dag/tr.go:52-72 | the second walk, although edges vanish under it, visits all that kept edges reach, deletes nothing the closed form keeps, and clears the vertices it visits |
| Dags.Dag.ProcessVertex | pkg/dag/tr.go:74-91 | of the edges into the vertex it leaves exactly those the closed form of the pass keeps, also on a second visit |
| Dags.Dag.GetBestVertexDepth | pkg/dag/tr.go:114-123 | the greatest recorded depth among the origins still there |
| Dags.BestIsDeepest | pkg/dag/tr.go:74-123 | computed from what earlier deletions left, the guard still decides by the origins the pass started with |
| PackageDag.GenerateVertices | pkg/syntax/types/package.go:324-371 | the vertices are the root and every block, blocks that use loop variables included; each with its own context, and a block called root does not replace the root |
| PackageDag.ConnectDependencies | pkg/syntax/types/package.go:303-313 | the edges are exactly those from each block dependency, and from the root for blocks without any |
| PackageDag.DependencyEdgesAre | pkg/syntax/types/package.go:303-313 | there is an edge into a block from each dependency other than the five loop variables, from the root if no dependency is left, and no other edge |
| PackageDag.DependencyPredecessors | pkg/syntax/types/package.go:303-313 | a block is entered exactly from its block dependencies, from the root alone when it has none; the root is never entered |
| PackageDag.GenerateDAG | pkg/syntax/types/package.go:296-323 | the finished graph: the root and every block as vertices, and of the dependencies exactly the edges that one pass per vertex, in some order, leaves; a minimal acyclic subgraph from whose only source, the root, every block is reached; with all connections of the dependencies when these are levelled |
| Pipeline.PlanPackage | pkg/syntax/types/package.go:296-371 | what is built from well-formed blocks has every block as a vertex and meets everything the executor demands of its graph; its edges are those left by such passes, and when the dependencies are levelled every one is respected in every run |
| Pipeline.DependencyRespectedIff | pkg/exec/executor/dag_executor.go:133-180 | end to end: in every interleaving a block starts only after a given dependency returned, if and only if the reduction left a connection from the one to the other |
| Pipeline.AlwaysRespectedIffLevelled | pkg/syntax/types/package.go:296-323 | end to end: every dependency is respected in every run after every reduction if and only if the dependency graph has no fork of the kind above |
| PackageRuns.DependencyViolated | pkg/dag/tr.go:33-91 | a well-formed package of four blocks and, for every order the reduction can take, a run in which d starts although b, one of its dependencies, has not even started |
| PackageRuns.PackageMayHang | pkg/exec/executor/dag_executor.go:148-165 | a well-formed package of three blocks, v depending on a and b, which the reduction leaves as it is and whose run can fail to return although nothing goes wrong |
| Pipeline.RootFirst | pkg/exec/executor/dag_executor.go:133-180 | whatever the reduction deleted, the root returns before any block starts |
| ExecutorSafety.InvOneReady | pkg/exec/executor/exec_context.go:135-162 | two goroutines of one vertex never both get all its dependencies: each channel carries one value |
| ExecutorSafety.StepDeliver | pkg/exec/executor/exec_context.go:117-159 | a rendezvous on an edge channel keeps the invariant |
| ExecutorDeliveries.DeliverPast | pkg/exec/executor/exec_context.go:117-159 | at a rendezvous the channel had not been used, its sender had received everything it waits for, and its receiver had sent nothing |
| ExecutorSafety.StepCloseEdge | pkg/exec/executor/exec_context.go:117-125 | closing an edge channel keeps the invariant and never closes one twice |
| ExecutorTrace.StepGood | pkg/exec/executor/dag_executor.go:148-221 | every step of every goroutine keeps the whole invariant: receipts, sends, trace, reports, no panic |
| ExecutorTrace.RunsAtMostOnce | pkg/exec/executor/exec_context.go:111-133 | in no interleaving does a vertex start twice, although reading and setting its visited mark are two steps |
| ExecutorTrace.RunsAfterAncestors | pkg/exec/executor/exec_context.go:135-162 | in every interleaving a vertex starts only after each ancestor, along any path, has returned |
| ExecutorTrace.NoChannelMisuse | pkg/exec/executor/exec_context.go:117-132 | no interleaving sends on a closed channel or closes one twice, and the collector never reads a closed done channel |
| ExecutorTrace.RunTrue | pkg/exec/executor/dag_executor.go:197-221 | when Run returns true every vertex started exactly once, returned exactly once after that, and returned true |
| ExecutorTrace.RunFalse | pkg/exec/executor/dag_executor.go:197-221 | when Run returns false the caller cancelled or some vertex returned false |
| ExecutorCompletion.CancelledReturns | pkg/exec/executor/dag_executor.go:211-213 | on every runnable graph a run that was cancelled and can go no further has returned, also when a vertex was lost or orders are crossed |
| ExecutorTermination.StepDecreases | pkg/exec/executor/dag_executor.go:148-180 | every step spends some of the remaining work, goroutines still to be started included |
| ExecutorTermination.RunIsFinite | pkg/exec/executor/dag_executor.go:148-180 | no run is longer than a bound in the number of vertices |
| ExecutorCalls.StuckCallsArePaths | pkg/exec/executor/dag_executor.go:148-180 | when nothing can happen any more, the execute calls made are, one to one, the paths from the start |
| ExecutorCompletion.StuckCalled | pkg/exec/executor/dag_executor.go:148-180 | when nothing can happen any more, the walk has called and marked every vertex reachable from the start |
| ExecutorCompletion.CompatibleOrdersComplete | pkg/exec/executor/exec_context.go:117-159 | deadlock freedom: with compatible iteration orders a run can only stop with Run returned, every channel served and every vertex returned, whether or not vertices got two goroutines |
| ExecutorOrders.CompletedRunsRank | pkg/exec/executor/exec_context.go:117-159 | a run in which every vertex returned shows its iteration orders to be compatible |
| ExecutorOrders.RunSucceedsIffRankable | pkg/exec/executor/dag_executor.go:133-146 | when each vertex iterates in one order, a run that can go no further, without failures or cancelling, returned true if and only if the edges can be ranked so that waits and sends go up and in-edges precede out-edges |
| ExecutorRespect.RespectedIff | pkg/exec/executor/exec_context.go:135-162 | u has returned before w starts in every run if and only if u reaches w |
| ExecutorRespect.StartsAfterFailure | pkg/exec/executor/exec_context.go:135-162 | for every u that reaches w there is a run in which u returns false, nothing else does, and w starts after that |
| ExecutorRespect.PredecessorsSucceedIff | pkg/exec/executor/exec_context.go:135-162 | in every run a vertex starts only after each predecessor returned true, if and only if it has no predecessor |
| ExecutorRespect.SuccessNeverAwaited | pkg/exec/executor/exec_context.go:135-162 | no vertex ever waits for another one, near or far, to return true |
| ExecutorTree.TreeSucceeds | pkg/exec/executor/dag_executor.go:133-146 | over a graph with at most one edge into every vertex, whatever the iteration orders, a run that can go no further without failures or cancelling returned true |
| ExecutorOrders.CrossedOrdersNeverSucceed | pkg/exec/executor/exec_context.go:117-159 | two vertices with two common dependents, served and awaited in crossed orders, never let Run return true |
| ExecutorLost.LostNeverSucceeds | pkg/exec/executor/dag_executor.go:148-165 | once every goroutine of a marked vertex has given up, Run never returns true |
| ExecutorLost.NoMoreGoroutines | pkg/exec/executor/dag_executor.go:148-165 | once a vertex is marked and nobody who found it unmarked is still on the way, it gets no goroutine any more, however many paths still lead to it |
| ExecutorRace.RaceLosesVertex | pkg/exec/executor/dag_executor.go:148-165 | for every vertex with two edges into it there is a run, without failures or cancelling, in which both callers find it unmarked, its two goroutines take one value each, and it is lost |
| ExecutorRace.CancelledRace | pkg/exec/executor/dag_executor.go:197-221 | for every vertex with two edges into it there is a run that loses it, waits until the caller cancels, and then returns false although nothing failed |
| ExecutorRace.AlwaysSucceedsIffSingleEntry | pkg/exec/executor/dag_executor.go:133-165 | every run that can go no further, without failures or cancelling, returned true if and only if every vertex has at most one edge into it |
| ExecutorRace.DiamondMayHang | pkg/exec/executor/dag_executor.go:148-165 | two branches that meet: a graph without redundant edges, runnable and reachable from its root, whose run can fail to return |
| ExecutorRace.DiamondCancelled | pkg/exec/executor/dag_executor.go:211-213 | the run of those two branches that hangs returns false once it is cancelled |
| Download.Do | pkg/pkgio/grabber/grabber.go:78-103 | for every file system, server and canceller both runs end and Done is closed once; the HEAD, the GET, its Range, the flags and the target are those foreseen from the request, the files and the answers. Without error: the answer had an accepted status and the expected size, its body did not break, and the one file changed holds the delivered bytes after, instead of, or over what it held; or the local file had the known size and nothing changed. A body that breaks always ends in an error. An interrupted copy leaves in the target what was copied so far; no other file is ever touched |
| Download.DoCalmly | pkg/pkgio/grabber/grabber.go:78-103 | unless something fails by itself the download ends with exactly the error foreseen from the request, the files and the answers, or without one; a body that breaks after the file was opened ends with the error of reading it |
| Download.BrokenBody | pkg/pkgio/grabber/transfer.go:64-68 | a body that breaks after one of two bytes ends with that error |
| Download.EndsWellIff | pkg/pkgio/grabber/transfer.go:48-69 | a body breaks exactly when a read of it fails before one reports its end |
| Download.Run | pkg/pkgio/grabber/client.go:55-72 | the loop over state functions ends, with the transfer ready or the response closed |
| Download.Turn | pkg/pkgio/grabber/client.go:55-72 | one turn of the loop keeps the entry condition of whatever comes next and makes progress; cancelling closes an open download with that error, leaves a closed one as it is, and ends the loop |
| Download.DoStatFileInfo | pkg/pkgio/grabber/client.go:84-102 | leads to validation with the size of the file exactly for a regular local file, drops the name of a directory, and closes exactly on an error of looking; what follows finds its entry condition |
| Download.DoValidateLocal | pkg/pkgio/grabber/client.go:115-149 | by the requested size, or the announced one if none was requested: takes the file for complete exactly when that is its size, refuses it exactly when it is larger, asks for the rest from its end exactly when it is smaller and ranges are known to work, and asks the server when no size is known or ranges are not |
| Download.DoHeadRequest | pkg/pkgio/grabber/client.go:188-218 | sends a HEAD exactly on the first visit, when resuming is wanted and the file could exist; an unanswered one is an error, one with status 200 is read, any other is dropped |
| Download.DoGetRequest | pkg/pkgio/grabber/client.go:220-235 | sends one request with the Range that was decided on; goes on exactly when it was answered with an accepted status, and otherwise fails with that status |
| Download.DoReadResponse | pkg/pkgio/grabber/client.go:237-269 | fails exactly on a size that contradicts the expected one or a name that cannot be made out; goes back to the local file after a HEAD, with what it said of ranges, and on to the writer after a GET; its panic is unreachable |
| Download.CheckAnswer | pkg/pkgio/grabber/client.go:242-260 | refuses the answer exactly when both sizes are known and, with what is resumed, differ, or when there is no name; otherwise fills in the name only where there is none, below the requested path |
| Download.DoOpenWriter | pkg/pkgio/grabber/client.go:275-319 | appends at the end when the GET carried a Range, empties a file that was looked at otherwise, and opens one that was not as it is, to be written from its start; those are the flags foreseen, and no other file changes |
| Download.Copy | pkg/pkgio/grabber/transfer.go:30-72 | for any pattern of short reads what was written is a prefix of what the body delivers, and all of it without error; without error no read failed before the end, and if nothing else fails the error is that of reading exactly when one did |
| Download.DoCopyFile | pkg/pkgio/grabber/client.go:322-362 | returns at once for a closed response; otherwise copies, and without error the files are as foreseen |
| Download.DoChecksumFile | pkg/pkgio/grabber/client.go:151-178 | is only reached with a file name, so its panic is unreachable; closes without error when there is no checksum; otherwise only when there is something at the name, and a regular file exactly when its hash is the checksum, unless something fails by itself; removes the file exactly when the checksum is wrong and that was asked for |
| Download.ChecksumNeverPasses | pkg/pkgio/grabber/client.go:151-178 | below a file system in which everything lies in a directory, a download that meets no other error ends without one if and only if it has no checksum; with one it fails because the checksum is looked for at the name, below the file that was written in place of its directory |
| Download.DoCloseResponse | pkg/pkgio/grabber/client.go:372-388 | is only reached open and closes once |
| Download.RemoteLeftIff | pkg/pkgio/grabber/client.go:84-319 | a successful download leaves the remote bytes if and only if: a file taken for complete is the remote one, a resumed one a prefix of it, one opened without having been looked at not longer; which of these it is follows from the request, the files and the answer to the HEAD |
| Download.TargetPath | pkg/pkgio/grabber/client.go:84-287 | a successful download writes at the path the request gives when the directory of that path exists, and otherwise in place of that directory; the name the server gives is never used |
| Download.DirectoryFails | pkg/pkgio/grabber/client.go:84-291 | a download to an existing directory, or without a name, which stands for the working directory, never succeeds, although the batch function takes destinations to be directories |
| Download.UnseenIff | pkg/pkgio/grabber/client.go:84-319 | a file that is there is opened without having been looked at if and only if the directory of the named path exists and no HEAD was asked for or it was refused |
| Download.LongerFileStaysIff | pkg/pkgio/grabber/client.go:84-309 | when the local file is longer than the remote one and the expected size right or unknown, a successful download leaves the end of the old file if and only if the directory of the named path exists and no HEAD was asked for or it was refused |
| Download.KeptTail | pkg/pkgio/grabber/client.go:188-309 | a request without resuming for the file f of the working directory, with the right size expected: the download ends without error and the third byte of the old file stays behind the two of the remote one |
| Download.DownloadedIsRemote | pkg/pkgio/grabber/client.go:220-319 | when ranges are honoured, the expected size is right or unknown, and the local file is a prefix of the remote one, succeeding leaves exactly the remote bytes (section 3.1 of RFC 7233) |
| Download.PrefixStays | pkg/pkgio/grabber/transfer.go:30-72 | however far a download over a prefix of the remote content gets, it leaves a prefix, which the next one can resume |
| WorkerPool.SendsNeverBlock | pkg/pkgio/grabber/grabber.go:140-165 | both channels always have room for what is still to be sent, and no send or close hits a closed channel |
| WorkerPool.ClosedMeansComplete | pkg/pkgio/grabber/grabber.go:119-165 | when the response channel closes, exactly one response per request was sent and every transfer is over |
| WorkerPool.OpenTransfersBounded | pkg/pkgio/grabber/grabber.go:119-126 | never more open transfers than workers |
| WorkerPool.StopsOnlyWhenDone | pkg/pkgio/grabber/grabber.go:140-165 | when nothing can happen any more the response channel is closed and the caller has each response once |
| WorkerPool.RunIsFinite | pkg/pkgio/grabber/grabber.go:119-165 | no run is longer than nine steps per request, two per worker and three to close |
| Documents.SplitDocuments | pkg/pkgio/file.go:108-134 | gives the pieces between the separators when all separators are good, otherwise the first bad one as the error; nothing for the empty text |
| Documents.BadSeparatorIff | pkg/pkgio/file.go:118-125 | a separator is bad exactly when the first character after its dashes that is not white space is there and is not a number sign |
| Documents.SeparatorsAreLines | pkg/pkgio/file.go:111-118 | every separator is a line that starts with three dashes, from the newline before it to the one that ends it |
| Documents.PiecesRebuild | pkg/pkgio/file.go:108-134 | documents interleaved with the separators rebuild the text exactly |
| Documents.PiecesClean | pkg/pkgio/file.go:111-128 | no document but the last holds a line of dashes, and the last only an unfinished one |
| Documents.NoLineLeft | pkg/pkgio/file.go:111-128 | no document holds a line that starts with three dashes between two newlines |
| Documents.WriteKeys | pkg/pkgio/kform_writer.go:161-175 | prints the documents of each key in order and skips missing keys |
| Documents.WriteSingle | pkg/pkgio/kform_writer.go:159-192 | the output is the printed documents of the prioritized keys followed by those of the others |
| Documents.WrittenAre | pkg/pkgio/kform_writer.go:159-192 | each document is printed between a line of three dashes and a newline, all documents of a key in order, nothing for a missing key |
| Documents.RestoreNewlines | pkg/pkgio/yaml_reader.go:68-73 | every document but the last gets its newline back, in place |
| Documents.Read | pkg/pkgio/yaml_reader.go:54-73 | the texts handed to the parser: line ends normalized, split, newlines restored; an error exactly for a bad separator, the first one |
| Documents.NormalizeJoined | pkg/pkgio/yaml_reader.go:62-64 | lines that hold no Windows line end, joined by Windows line ends, become the same lines joined by newlines |
| Documents.ReadJoined | pkg/pkgio/yaml_reader.go:54-73 | the same lines joined either way, none of them making a Windows line end with its newline, are read as the same documents, or refused for the same separator |
| Documents.RoundTripIff | pkg/pkgio/kform_writer.go:159-192 | reading what was printed gives back each document with its newline, the first with the mark before it, if and only if no document holds a line of dashes, the first does not start with one, and none holds or ends in what the reader takes for a Windows line end |
| Differs.Delete | pkg/data/blockdata.go:34-44 | removes the first item of that namespace and name and keeps the order of the others; without one nothing changes |
| Differs.GetItem | pkg/data/blockdata.go:46-56 | finds an item exactly when the block has one of that namespace and name |
| Differs.DiffContext.GetStoreItem | pkg/exec/diff/diff_context.go:44-61 | something comes back exactly when the package and block exist and hold the identity; it is the new resource, not the stored one |
| Differs.DiffContext.DeleteStoreItem | pkg/exec/diff/diff_context.go:63-74 | takes one item out of one block and changes no other |
| Differs.Differ.TakeOut | pkg/exec/diff/differ.go:54-100 | a block of new resources takes one old item per new one that does not fail, and each of these is printed beside what was found for it; other blocks stay |
| Differs.Differ.Run | pkg/exec/diff/differ.go:48-149 | for any iteration order and any failures, each old block is left without one item per processed new one, and the comparisons printed are determined; nil exactly when nothing failed |
| Differs.PruneExactIff | pkg/exec/diff/differ.go:92-99 | what remains is exactly the unmatched items, in order, if and only if no identity is more frequent among the old items than among the new |
| Differs.PruneSet | pkg/exec/diff/differ.go:48-103 | with unique identities and no error, the old store ends as exactly the entries without a new entry of the same package, block, namespace and name, in their order |
| Differs.LeftIff | pkg/exec/diff/differ.go:48-103 | also when items fail: an old item of a block without duplicates is left to be pruned if and only if every new item of its package, block, namespace and name failed |
| Differs.UnmatchedInOrder | pkg/data/blockdata.go:34-44 | what remains to be pruned keeps its order |
| Differs.DuplicateIsPruned | pkg/data/blockdata.go:34-44 | with a duplicated old identity one of the two is left to be pruned although the resource is still wanted |
| Differs.ComparedAreEqual | pkg/exec/diff/diff_context.go:53-60 | both sides of every printed comparison are equal, or there was nothing before |
| Differs.ComparedAre | pkg/exec/diff/differ.go:63-90 | without errors every new item is printed, in order, and as one that was there if and only if the old block holds more items of its namespace and name than came before it among the new |
| Differs.ShownAsMeantIff | pkg/exec/diff/diff_context.go:53-60 | what is printed is each new resource beside the old one it takes out, if and only if no resource that stays was changed |
| Differs.ChangeIsHidden | pkg/exec/diff/diff_context.go:53-60 | a changed resource is printed as if it had always been what it is now |
| Instances.GetLoopItems | pkg/exec/fn/fns/block_exec_handler.go:152-228 | a list gives index and element for each, a map an index, key and value for each entry and nothing else, any other value that one value with key 0, and an empty list or map the one item 0; a count gives the numbers below it, none if it is not found; an expression that fails or a count that is no number is an error |
| Instances.InitItems | pkg/exec/fn/fns/block_exec_handler.go:230-244 | one item per index below the count |
| Instances.VarData.Insert | pkg/data/vardata.go:37-54 | a slice of another length is replaced by an empty one, then exactly the one slot is written and everything else stays; a position outside is refused, the one just past the end panics |
| Instances.PanicsIff | pkg/data/vardata.go:46-52 | the bounds check passes and the write is out of range exactly when the position equals the total |
| Instances.VarData.UpdateVarStore | pkg/data/vardata.go:58-93 | the check of the index against the total keeps that panic out; a negative index changes only the slice's length and is not reported |
| Instances.InsertsAnyOrder | pkg/data/vardata.go:37-54 | inserts in any order leave each result in its own slot, other slots as they were if the slice had the right length, and empty if not |
| Instances.SendsNeverBlock | pkg/exec/fn/fns/block_exec_handler.go:85-145 | an instance can always send its outcome, and never to a closed channel |
| Instances.ReturnedResult | pkg/exec/fn/fns/block_exec_handler.go:85-150 | in every interleaving runInstances reports an error exactly when an instance failed, and the slice has one slot per instance with its result; without an instance that stores, the old contents stay |
| Instances.NeverStuck | pkg/exec/fn/fns/block_exec_handler.go:124-145 | until the caller has its answer some step is possible |
| Instances.RunIsShort | pkg/exec/fn/fns/block_exec_handler.go:85-150 | no run is longer than three steps per instance and one |
| Dependencies.Renderer.RenderString | pkg/render2/deprenderer/renderer.go:64-74 | adds exactly the block names the text contains, and the package ones among them; the text is returned unchanged |
| Dependencies.Renderer.Render | pkg/render2/render2.go:43-73 | walking the tree in place clears the tag of each string scalar at a value or sequence position, changes nothing else, and collects exactly the block names in those scalars |
| Dependencies.Renderer.ResolveDependsOn | pkg/render2/deprenderer/renderer.go:76-105 | adds the listed names that contain a block name, as listed; others are dropped in silence |
| Dependencies.AcceptedAre | pkg/render2/deprenderer/renderer.go:88-100 | accepted is exactly a listed name of which some block name is a part |
| Dependencies.NamedIff | pkg/render2/deprenderer/renderer.go:64-74 | a name is collected if and only if it is a block name and a path of values and items leads to a string scalar that contains it |
| Dependencies.RecordedAre | pkg/render2/deprenderer/renderer.go:64-74 | recorded are the block names that are part of some text, and as packages those of them that start with package |
| Dependencies.TextsAre | pkg/render2/render2.go:43-73 | a text counts if it is that of a scalar with the string tag, or counts below an item of a sequence or a child at an odd position of a mapping |
| Dependencies.ShapeStays | pkg/render2/render2.go:43-73 | rendering changes neither the shape of the tree nor any text |
| Dependencies.UntaggedIs | pkg/render2/render2.go:43-73 | the string tag is cleared at exactly those scalars; keys, other tags and other nodes stay |
| Dependencies.RenderedOnce | pkg/render2/render2.go:59-70 | a second rendering finds no string scalar and changes nothing |
| Dependencies.DependencyWithoutBlock | pkg/render2/deprenderer/renderer.go:88-100 | a listed name that merely contains a block name becomes a dependency that no block has |
| Dependencies.OnlyBlocksIff | pkg/render2/deprenderer/renderer.go:88-100 | only block names are added from a list if and only if every listed name that contains a block name is one |
| PackageDependencies.ResolveDAGDependencies | pkg/syntax/types/package.go:133-158 | reports an error exactly when some dependency is neither a block nor, for a block with a loop, a name whose first part is each, nor, for one with a count, a name whose first part is count |
| PackageDependencies.FirstPartOf | pkg/syntax/types/package.go:139-158 | the first part is what precedes the first dot, and the whole name when there is none |
| PackageDependencies.ResolvedEndpointsIff | pkg/syntax/types/package.go:139-158 | once everything was resolved, all dependencies are vertices if and only if none starts with each or count without being a loop variable, and none is a block left out of the graph |
| PackageDependencies.CollectedEndpointsIff | pkg/syntax/types/package.go:105-123 | the dependencies collected for a block are vertices if and only if every listed part that contains a block name is a vertex or a loop variable; otherwise the executor's init looks up a vertex that is not there (pkg/exec/executor/dag_executor.go:118-124) |
| PackageDependencies.DanglingDependency | pkg/syntax/types/package.go:139-158 | a looping block that lists each.resource.a is accepted and resolved and makes the package ill-formed |

## Left out

- Executor: wall-clock time, the periodic messages and the finished mark, which only feed logging, are not modelled; a mutex section is one step.
- PackageDag.GenerateDAG: the selection of blocks by the provider flag and prefix is not modelled, the chosen blocks are a parameter.
- Download: the server's answers are an arbitrary function of the verb and the Range header, which is general because each of the two requests is sent at most once; failures of the file system, cancelling and hooks are arbitrary outcomes of calls; the hash is an arbitrary function of the content; buffer sizes, transfer rates and time estimates are not modelled. Paths are clean ones, as `filepath.Clean` leaves them. A path that leads through a regular file, which makes looking it up fail, counts as a failure of the file system by itself, which `Download.DoCalmly` excludes.
- Download.Do: the request is built for GET as NewRequest does, a hand-made HEAD request is excluded; the second run, a goroutine in the code, comes after the first.
- WorkerPool: a download inside a worker is one step that starts a transfer and one that ends it; the details are in Download.
- Documents: finding separators is an explicit predicate for the regular expression, not an engine; parsing, annotations and filtering of the parsed resources are not modelled.
- Documents.WriteSingle: removing kform's annotations before printing is not modelled, a document is the text that is printed.
- Differs.Differ.Run: naming, conversion, masking and printing are one possible failure per item; what is printed is recorded as it is before masking, for the items that do not fail; and the printing of the remainder one for all; the old store is always present.
- Differs.Delete: blocks are values, so that sharing of the underlying array after the shift is not captured.
- Instances.VarData.Insert: slices are values; a negative total, for which allocation panics and which no caller passes, is excluded.
- Instances.GetLoopItems: evaluating the loop expression is a parameter, with the kinds of results the code tells apart; a floating-point count comes in truncated.
- PackageDependencies.ResolveDAGDependencies: that an error stops the parser before a graph is built is the parser's loop, which is not modelled.
- Dependencies.Renderer.ResolveDependsOn: splitting the annotation at commas is a parameter.
- Dependencies.Renderer.Render: the string function is the dependency collector's, which never fails; what the walk does with a failing one is not modelled.
- Providers, inventories, CEL evaluation, the OCI, git and release clients, commands, recording and the masker are not modelled: foreign calls or table-like.
