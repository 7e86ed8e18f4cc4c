# Verified model of the executor pipeline

bonk runs a build by sending tasks through a stack of executors that `driver.Run` assembles
(`pkg/driver/driver.go:36-70`): a scheduler that executes tasks and the followups they emit, an observable
layer that tells listeners about each call, a state checker that skips tasks whose saved state still
matches, and a router that finds the executor a task names, which may live in another process behind
gRPC. This project models those layers in Dafny and proves what they promise, separately and stacked.
`dafny verify dfyconfig.toml` checks everything.

## The layers

**Router** (`Names`, `Trie*`, `Router`). `Router.dfy` holds the mutable router: maps of children that are
inserted, replaced by sub-routers and deleted in place, a footprint that keeps sub-routers apart, and a
task whose `Executor` field is rewritten on the way down and restored on the way back. Every method is
proved to compute a function of the tree of children (`Trie.dfy`). The tree is then related to a flat
table from names to executors that knows nothing of routers:

- over every history of registrations and unregistrations the tree reads as the table, where registering
  is insert-if-absent and unregistering deletes one key (`TreeRefinesTable`, `DuplicateIffPresent`);
- for registrations the table determines the tree (`TablesDetermineTrees`), so order does not matter and
  dumping and registering again gives the same router (`OrderIndependence`, `DumpRebuilds`);
- routing through the tree is a walk on the table (`RoutingByTable`), which without wildcards is
  longest-prefix routing (`LongestPrefixRouting`); exact names always win (`ExactNamesWin`);
- a router mounted under a segment of another, as a plugin's is, behaves as one router with the merged
  table (`MountComposes`).

Unregistering leaves empty routers behind, which the table does not show. With the paths at which routers
stand beside it, the table is a flat state (`TrieFlat.dfy`) that each operation updates by a simple rule and
that determines the router after every history of proper names (`RunReflects`, `SameRouterIffSameFlat`). From
it follow routing after such a history (`RoutingByFlat`), when unregistering undoes registering
(`UnregisterUndoes`) and how far a call with several names gets (`RemovesAllIffByFlat`).

**Scheduler** (`Scheduler*`). Goroutines are steps of a machine; a schedule is any interleaving. A run meets
a finite forest of jobs: for each task, the error, or the outputs and followups, that the child gives. The
theorems are for all forests, limits and schedules: exactly-once execution and conservation of outputs,
errors and messages (`ExecuteManyAccounts`, `ExecuteManyCounts`, `ReturnsFirstFailure`), causality
(`CallsFollowTheirParents`), the full IDs (`CallsAreChains`, `ExecutedIdsDistinct`), when dependencies are
honoured (`HonouredIffCovered`), the bound on calls in flight (`ConcurrencyBound`), termination (`RunsEnd`),
and exactly when a run can deadlock (`ExecuteManyDeadlocks`, `ExecuteDeadlocks`): when the limit is at most
a number computed from the forest, the most goroutines that can wait for a slot while they hold one.

**State checker** (`StateCheck*`). The methods hash, save, load and compare state as the source does, with
one hasher fed and reset step by step. Over every history of edits, failed calls, interrupted saves and
damaged state files, a call gives what the child would give now (`CacheIsTransparent`); and a task that
was just saved is skipped if and only if a condition on its inputs, followups and output patterns holds
(`SkippedIffRepeatable`). Every byte of every matched file counts (`PatternLaidOut`, `ContentsChange`): a task
that is skipped runs again after a change to one file if and only if one of its patterns matches the file
(`EditedInputRuns`, `EditedOutputRuns`).

**Stacked** (`Incremental`, `RoutedCheck`, `Observer`, `ObservedRuns`, `Rpc`, `RemoteRouting`). The
scheduler over the state checker: a second run on the unchanged workspace calls nothing, visits the same
tasks and gives the same outputs, under any limits and interleavings (`SecondRunIsReplay`,
`SecondRunsComplete`). The state checker over the router: the state saved names the executor in full
(`RoutedCheck.Execute`). The scheduler drives the observable layer: every schedule can be followed and the
session closed after it (`EveryRunCloses`); once it is closed nothing is outstanding, ever
(`ClosedIsQuiet`); and each listener has heard exactly the messages of the calls that the forest amounts to,
with errors or not (`ListenersHearEveryCall`). Tasks across gRPC: what arrives, what crosses unchanged, and
that what arrived is replayed exactly by the state checker (`CrossesIff`, `ArrivedAllSurviveJson`); and a
task routed to a plugin's router gives its caller what one router with both tables would
(`ExecuteThroughHost`).

## What the code does not promise

Each is a result here, with the exact condition under which the promise does hold.

- *Unregistering removes the name.* It does, alone, if and only if the name does not end in a separator
  (`UnregisterExactIffPlain`).
- *Unregistering undoes registering.* The last delete is of the whole name, not of its first segment
  (`pkg/executor/router/router.go:118`), so an empty router stays behind and hides wildcards
  (`LeftoverHidesWildcard`). After every history of proper names, registering and unregistering a fresh one
  leaves the router as it was if and only if routers stand at every path above the name already and not an
  empty one at the name itself (`UnregisterUndoes`, `LeftoverIsRemoved`); after registrations alone that is
  when the name has at most one segment or some registered name properly extends its parent's
  (`UnregisterUndoesRegistered`).
- *Unregistering several names processes all of them.* The call returns at the first name that is missing
  or whose router stays non-empty (`pkg/executor/router/router.go:104-105`, `112-113`), so all names are gone
  if and only if those beyond were not registered or are among those up to there (`RemovesAllIff`,
  `EarlyReturnLeaves`). After every history of proper names the call goes on past a non-empty name if and only
  if something is at its first segment and, if that is a router, the router is empty once the name is gone,
  and past the empty name if and only if it is registered (`StopsByFlat`, `RemovesAllIffByFlat`). After
  registrations alone that is, for the first name of the call, when the first segment is registered and
  nothing else starts with it, or the name has two segments, is registered, and nothing else starts with the
  first (`GoesOnByTable`).
- *A limit is harmless.* A goroutine starts followups while it holds its own slot
  (`pkg/executor/scheduler/scheduler.go:84-91`), so a positive limit can deadlock (`ExecuteManyDeadlocks`).
- *The scheduler waits for dependencies.* The comments at `pkg/executor/scheduler/scheduler.go:34` and
  `pkg/task/task.go:15` say so; the code never reads `Dependencies`. Without a limit, every interleaving calls
  each task only after its dependencies have completed if and only if each dependency of each task is one that
  emits it, directly or further up (`HonouredIffCovered`); then it is so with every limit
  (`CoveredIsHonoured`). Of two roots, the first depending on the second, the first can be called before the
  second is started, with every limit but zero (`DependencyMissed`).
- *Closing a session waits for its tasks.* The comment at `pkg/executor/observable/observer.go:75` says so;
  the code waits for notifications only. Nothing is outstanding afterwards if and only if no call was under
  way or there are no listeners (`CloseIsFinalIffIdle`).
- *A task just run is skipped the next time.* Only if `SkippedIffRepeatable`'s condition holds: an empty
  non-nil `Inputs`, an integer other than zero in a followup's arguments, or an output pattern that matches
  `state.json` makes it run every time.
- *A cached result is the task's own.* The result passed in is saved whole, so a call whose result already
  held outputs or followups replays those too (`LeftoverIsReplayed`). The scheduler always passes a fresh one
  (`pkg/executor/scheduler/scheduler.go:77`).
- *Arguments encode.* A nil inside a list or a map makes the encoder panic
  (`pkg/executor/rpc/proto_conversion.go:27-31`); `ToProtoValue` says exactly when.

## Assumptions

- errgroup: `Go` waits while as many goroutines as the limit run, a negative limit is none, `Wait` returns
  the first error recorded. Cancellation of the context is one of the reasons a child may fail, and any call
  may fail.
- `Sound`: checksums do not collide beyond what `Hashed` and `AsHashed` say hashing cannot see, which is the
  difference between the integer zero and the float zero, written as the same eight bytes, and between nil
  and empty slices of a task; lists of tasks without such a difference hash alike; a state file decodes to
  what was encoded, as JSON brings it back, and so does part of one if it decodes at all; an empty file does
  not decode. Checksums are natural numbers of any size; `Value`, `Task` and byte strings are countable, so
  the assumption can be met. The library's other coincidences, such as a nil inside a list and zero, count
  as collisions.
- hashstructure resets the hasher it is given before it writes to it. `SaveState` needs this, as it does not
  reset the hasher before hashing the followups (`pkg/executor/statecheck/taskstate.go:72-80`); `HashAnyValue`
  derives from it that what was fed before does not matter.
- `Deterministic`: the child's result depends on the task's ID, executor, input patterns and arguments as
  hashing sees them, and on the concatenated contents the patterns match; names and boundaries of files are
  not hashed, so it may not depend on them. It leaves `state.json` and the task it is given alone.
- A call to the state checker touches its own output directory and reads the source tree, so calls of
  different tasks are atomic with respect to each other.
- Names of tables built by registration alone, and of histories read off the flat state, have no empty segments
  (`Proper`). The other results on histories allow arbitrary names to be registered, and names that do not end
  in a separator to be unregistered (`Plain`).

## Model

| member | source | states |
|---|---|---|
| Names.Cut | pkg/task/id.go:33-35 | Cutting a name gives the text before its first separator, and putting the parts back gives the name |
| Names.SegsOfNames | pkg/task/id.go:17-19 | An ID joined from any parts spells their segments, one part after the other |
| Names.SegsOfJoin | pkg/task/id.go:17-19 | An ID joined from separator-free parts splits into exactly those parts |
| Names.SegsOfChild | pkg/task/id.go:26-30 | A child's ID spells its parent's segments followed by those of the names, however many |
| Routers.Router.constructor | pkg/executor/router/router.go:37-41 | A new router is valid and holds nothing |
| Routers.Router.RegisterExecutor | pkg/executor/router/router.go:43-95 | Registration in place turns the router's tree into the tree with the executor registered, and fails in the same cases; sub-routers stay apart |
| Routers.Router.MakeSub | pkg/executor/router/router.go:51-76 | A leaf in the way of a longer name becomes a router in which it is nameless |
| Routers.Router.UnregisterExecutors | pkg/executor/router/router.go:97-120 | Unregistering names in place is unregistering them one by one on the tree until the call returns |
| Routers.Router.UnregisterOne | pkg/executor/router/router.go:101-119 | What one name does to the tree, and that the call returns after a name that is missing or whose router is not emptied |
| Routers.Router.Execute | pkg/executor/router/router.go:143-171 | Execution calls the executor that routing finds, fails when there is none or the executor fails, and leaves the task's Executor field as it was, whether or not it fails, unless a nameless executor changed it; at each depth the field holds what Stations says |
| Routers.Router.Forward | pkg/executor/router/router.go:156-164 | The field is rewritten to what follows the first segment for the child, and restored whatever the child leaves in it |
| Routers.Router.ForEachExecutor | pkg/executor/router/router.go:182-211 | The callback is called once for every key of the tree, with its executor and its name, whatever the order of map iteration |
| Routers.Router.GetNumExecutors | pkg/executor/router/router.go:173-180 | The number is that of the calls of a full visit; by VisitsTheTable it is the size of the flat table |
| Routers.Router.OpenSession | pkg/executor/router/router.go:122-132 | A session is opened once on every executor even if some fail, and the failures are those of the executors that failed, in order |
| Routers.Router.CloseSession | pkg/executor/router/router.go:134-141 | A session is closed once on every executor |
| TrieVisits.FailingCount | pkg/executor/router/router.go:126-131 | An executor is among a broadcast's failures as often as it was reached if it fails, and otherwise not at all |
| TrieRefinement.RegisterLookup | pkg/executor/router/router.go:43-95 | Registration succeeds exactly when the key is absent, then adds it, and changes no other key, through promotions and nameless children |
| TrieRefinement.UnregisterLookup | pkg/executor/router/router.go:97-120 | Unregistering a name that does not end in a separator removes its key and no other |
| TrieRefinement.UnregisterTrailing | pkg/executor/router/router.go:108-118 | For each name that does end in one, a router where its key stays registered |
| TrieRefinement.RunClean | pkg/executor/router/router.go:47-90 | After every history no key of any map contains a separator |
| TrieRefinement.TreeRefinesTable | pkg/executor/router/router.go:43-120 | After every history of registrations and unregistrations the tree reads as the flat table |
| TrieRefinement.DuplicateIffPresent | pkg/executor/router/router.go:78-84 | After every history a registration is a duplicate exactly when its key is in the flat table |
| TrieRefinement.UnregisterExactIffPlain | pkg/executor/router/router.go:97-120 | Unregistering a name removes exactly its key in every reachable router if and only if the name does not end in a separator |
| TrieUnregister.UnregisterAllIsHistory | pkg/executor/router/router.go:101-119 | A call with several names is the history of single-name calls for the names it reaches |
| TrieUnregister.UnregisterAllLookup | pkg/executor/router/router.go:101-119 | After a call with several names exactly the keys of the names it reached are removed from the flat table |
| TrieUnregister.RemovesAllIff | pkg/executor/router/router.go:104-113 | After every history all names are gone if and only if those not reached were not registered or share a key with one that was reached |
| TrieFlat.RegisterRouters | pkg/executor/router/router.go:51-76 | Registering a name makes routers stand at every path above it and nowhere else |
| TrieFlat.UnregisterRouters | pkg/executor/router/router.go:108-118 | Unregistering a name removes the router at that very name if it is left empty, and no other router |
| TrieFlat.RunReflects | pkg/executor/router/router.go:43-120 | After every history of proper names the router holds the names, and has routers at the paths, that the flat state of the history says |
| TrieFlat.FlatDetermines | pkg/executor/router/router.go:43-120 | Two routers with the same flat state are the same tree, emptied routers included |
| TrieFlat.SameRouterIffSameFlat | pkg/executor/router/router.go:43-120 | Two histories of proper names, unregistrations included, leave the same router if and only if they leave the same flat state |
| TrieFlatRouting.RoutingByFlat | pkg/executor/router/router.go:143-171 | After every such history routing is the greedy walk on the flat state, in which emptied routers take requests too |
| TrieReach.StopsByFlat | pkg/executor/router/router.go:102-115 | The call returns at a name exactly when the flat state says so |
| TrieReach.ReachIsFlatReach | pkg/executor/router/router.go:101-119 | The number of names a call processes is what the flat state and the names give |
| TrieReach.RemovesAllIffByFlat | pkg/executor/router/router.go:101-119 | After every history of proper names all names of a call are gone if and only if those beyond that number were not registered or share a key with one up to it |
| TrieReach.GoesOnByTable | pkg/executor/router/router.go:102-115 | After registrations alone, the call returns at its first name exactly when the flat table says so |
| TrieUnregister.EarlyReturnLeaves | pkg/executor/router/router.go:104-105 | A missing name keeps the next one registered |
| TrieRouting.StationsSpellRequest | pkg/executor/router/router.go:152-169 | At every depth, in routers on the way and whether or not an executor is found, the segments taken off so far joined with the field spell the name requested |
| TrieRouting.LastStationIsHit | pkg/executor/router/router.go:157-160 | The executor reached finds in the field what the last of these says |
| TrieRouting.LastFieldHere | pkg/executor/router/router.go:166-170 | A router that forwards nowhere names the field as it finds it |
| TrieRouting.LastFieldBelow | pkg/executor/router/router.go:156-168 | And otherwise the field named is the one found further down |
| TrieRouting.RouteIsSound | pkg/executor/router/router.go:156-168 | A request only reaches an executor that is registered under the key it is routed by |
| TrieRouting.ExactNamesWin | pkg/executor/router/router.go:156-168 | In every tree each registered name, wildcards in it or not, reaches its own executor with nothing left over |
| TrieRouting.UnregisterKeepsRoutes | pkg/executor/router/router.go:97-120 | Unregistering another name leaves every request where it was, with the same remainder |
| TrieTables.RunTidy | pkg/executor/router/router.go:51-76 | Registration alone never leaves a router below the root without a named child, nor a nameless router |
| TrieTables.TablesDetermineTrees | pkg/executor/router/router.go:43-95 | Two such routers that read as the same flat table are the same tree |
| TrieTables.OrderIndependence | pkg/executor/router/router.go:43-95 | Registration histories with the same flat table build the same router |
| TrieTables.RouteIsWalk | pkg/executor/router/router.go:152-168 | At every depth routing is a walk on the part of the table below |
| TrieTables.RoutingByTable | pkg/executor/router/router.go:143-171 | For registrations routing is the greedy walk on the flat table: exact segment, then wildcard, then the name matched so far |
| TrieTables.LongestPrefixRouting | pkg/executor/router/router.go:152-170 | Without wildcards a request goes to its longest prefix that starts some registered name if that is registered itself, and nowhere otherwise; there is no backtracking |
| TrieTables.RedumpRebuilds | pkg/executor/router/router.go:43-95 | Registering a listing of the flat table, in any order, rebuilds the router |
| TrieUndo.FlatUndone | pkg/executor/router/router.go:101-119 | Unregistering a fresh name gives back the very flat state exactly when routers stand above it and none stands empty at it |
| TrieUndo.UnregisterUndoes | pkg/executor/router/router.go:117-118 | After every history of proper names, unregistering a fresh name gives back the very router exactly under that condition |
| TrieUndo.RegisteredRouters | pkg/executor/router/router.go:51-76 | After registrations alone routers stand at the root and above registered names, and nowhere else |
| TrieUndo.UnregisterUndoesRegistered | pkg/executor/router/router.go:117-118 | There the condition is that the name has at most one segment or some registered name properly extends its parent's |
| TrieUndo.LeftoverIsRemoved | pkg/executor/router/router.go:117-118 | After `a.b` has come and gone, registering and unregistering `a` does not give the router back: it takes the empty one away |
| TrieUndo.LeftoverHidesWildcard | pkg/executor/router/router.go:156-170 | Registering and unregistering `a.b` makes `a.x` fail where a wildcard answered before |
| TrieMount.MountComposes | pkg/executor/router/router.go:156-164 | Routing through a host to a mounted router and then through that router reaches the same executor with the same remainder, or none, as one router with the mounted names under the mount's segment |
| RemoteRouting.MountBehavesAsMerged | pkg/executor/rpc/server.go:227-245 | What the plugin's router does with the task that arrives is what the merged router would do with the whole task, arrived |
| TrieMount.MountedTree | pkg/executor/router/router.go:51-76 | The merged router holds the mounted one, tree for tree, under the segment |
| RemoteRouting.RunBehind | pkg/executor/router/router.go:143-171 | The plugin's router, in place, gives the arrived task to the executor that routing finds with what is left of the name, or returns the error that there is none, and restores the task's field |
| RemoteRouting.ExecuteThroughHost | pkg/executor/rpc/client.go:92-126 | A task for a mounted name, routed by the host and executed over gRPC, gives the caller what the executor that the merged router finds does with the arrived task; if it finds none, the error that says so and an unchanged result |
| TrieMount.WalkBelow | pkg/executor/router/router.go:152-170 | Below the mount's segment the merged table is walked as the mounted one |
| TrieVisits.SpellIsJoin | pkg/executor/router/router.go:199-203 | The name handed to the callback is the key, joined, when it has no empty segments |
| TrieVisits.VisitsTheTable | pkg/executor/router/router.go:173-211 | After every history a visit calls once for each key of the flat table, with its name and executor, and the number of calls is the table's size |
| TrieVisits.BroadcastReachesTheTable | pkg/executor/router/router.go:122-141 | After every history a broadcast reaches each executor exactly as many times as it is registered, and as many executors as the flat table holds |
| TrieVisits.DumpRebuilds | pkg/executor/router/router.go:182-211 | Registering what a visit hands out, in whatever order it did, rebuilds the router |
| Tasks.DecodedIff | pkg/task/task.go:17-18 | What comes back from JSON keeps null, booleans, strings, floats, list positions and map keys, and has for each integer the float that is that number; nothing else comes back |
| Tasks.DecodedTaskKeeps | pkg/task/task.go:8-19 | A task comes back with its ID, executor, input patterns and dependencies, empty slices as nil, and its arguments so |
| Tasks.SurvivesIffNoInts | pkg/task/task.go:17-18 | Arguments come back from JSON unchanged exactly when there is no integer anywhere in them |
| Tasks.Result.AddOutputs | pkg/task/result.go:45-54 | Outputs are appended in order and followups left alone |
| Tasks.Result.AddFollowupTasks | pkg/task/result.go:72-87 | Followups are copied and appended in order and outputs left alone |
| Tasks.Result.Append | pkg/task/result.go:89-102 | Appends another result; itself or nothing changes nothing |
| Scheduler.SumStep | pkg/executor/scheduler/scheduler.go:84-91 | A step changes one goroutine and starts at most one, so a total over goroutines changes by those two shares |
| Scheduler.RunWellFormed | pkg/executor/scheduler/scheduler.go:41-49 | In every reachable state only the caller runs without a slot, it calls the child only while alone, and the slots held are within the limit |
| SchedulerDeadlock.StartsWellFormed | pkg/executor/scheduler/scheduler.go:41-66 | Both entry points start in such a state, and the goroutines that can wait at once are then those below the caller |
| Scheduler.ConcurrencyBound | pkg/executor/scheduler/scheduler.go:41-49 | At most as many calls of the child are in flight as the limit, or one if it is zero, in every reachable state |
| SchedulerTotals.StepConserves | pkg/executor/scheduler/scheduler.go:70-97 | Every step moves what it records out of what is still to come |
| SchedulerTotals.RunConserves | pkg/executor/scheduler/scheduler.go:70-97 | Recorded and still to come together never change, in any interleaving |
| SchedulerTotals.ExecuteManyAccounts | pkg/executor/scheduler/scheduler.go:52-68 | When a run is over every root and every followup of a successful call was called exactly once and nothing else, the outputs are those of the successful calls, the error is nil exactly when none failed and otherwise that of a call, and each call had its two messages |
| SchedulerTotals.ExecuteAccounts | pkg/executor/scheduler/scheduler.go:35-50 | The same for a single root that runs outside the group |
| SchedulerCounts.ExecuteManyCounts | pkg/executor/scheduler/scheduler.go:52-97 | Over the executed jobs: every task is called as often as it is a job's, each job tells that it is running and then that it succeeded or with which error it failed, each successful job gives its outputs, and an error is returned exactly when some job fails |
| SchedulerCounts.ExecuteCounts | pkg/executor/scheduler/scheduler.go:35-50 | The same for a single root |
| SchedulerCounts.NodeIffChain | pkg/executor/scheduler/scheduler.go:84-91 | The executed jobs are those at the ends of chains of followups from the roots, through jobs that succeed |
| SchedulerCounts.ReturnsFirstFailure | pkg/executor/scheduler/scheduler.go:49-67 | The error to be returned is at every moment that of the first call that returned one |
| SchedulerCounts.RunAnnounces | pkg/executor/observable/observer.go:57-61 | At every moment as many calls have been announced as have ended or are under way, so each is announced before it ends |
| SchedulerCounts.StartsAnnounced | pkg/executor/scheduler/scheduler.go:41-66 | Both entry points start with nothing announced and nothing under way |
| SchedulerOrder.CallsFollowTheirParents | pkg/executor/scheduler/scheduler.go:79-91 | In every run, over or not, each call is of a root, or of a followup, under its full ID, of a job that succeeds and whose task was called before; executor, inputs, dependencies and arguments are as emitted |
| SchedulerDependencies.CoveredIsHonoured | pkg/task/task.go:15-16 | If each dependency is a task that emits the dependent one, directly or further up, no interleaving with any limit calls a task before its dependencies have completed |
| SchedulerDependencies.ChainAlone | pkg/executor/scheduler/scheduler.go:61-91 | Without a limit some interleaving completes exactly the tasks above the end of a chain, and is about to call the task there |
| SchedulerDependencies.HonouredIffCovered | pkg/executor/scheduler/scheduler.go:33-50 | Without a limit, dependencies are honoured by every interleaving if and only if each is such a task |
| SchedulerDependencies.DependencyMissed | pkg/executor/scheduler/scheduler.go:61-65 | A root that depends on a later one can be called before that is started, with every limit but zero |
| SchedulerDeadlock.RunsEnd | pkg/executor/scheduler/scheduler.go:70-97 | No interleaving is longer than a number computed from the forest, and every step brings the end nearer by one |
| SchedulerDeadlock.StuckIffAllBlocked | pkg/executor/scheduler/scheduler.go:84-91 | A state is stuck exactly when every slot is held, all goroutines still running wait to start something, and there is one |
| SchedulerDeadlock.WidthStep | pkg/executor/scheduler/scheduler.go:84-91 | The number of goroutines that can come to wait at once drops by one at a step that wastes a wait, and never otherwise |
| SchedulerDeadlock.WideGetsStuck | pkg/executor/scheduler/scheduler.go:84-91 | From a state where as many can wait as there are slots, a schedule is constructed that gets stuck |
| SchedulerDeadlock.DeadlockIffWide | pkg/executor/scheduler/scheduler.go:84-91 | With a positive limit some interleaving deadlocks if and only if the limit is at most the number that can wait at once |
| SchedulerDeadlock.NoLimitNoDeadlock | pkg/executor/scheduler/scheduler.go:18-18 | Without a limit no interleaving deadlocks |
| SchedulerDeadlock.ExecuteManyDeadlocks | pkg/executor/scheduler/scheduler.go:58-67 | Exactly when ExecuteMany can deadlock, for every limit and forest |
| SchedulerDeadlock.ExecuteDeadlocks | pkg/executor/scheduler/scheduler.go:41-49 | Exactly when Execute can deadlock, for every limit and root |
| SchedulerDeadlock.FewEmittersComplete | pkg/executor/scheduler/scheduler.go:84-91 | With fewer jobs that emit followups than slots every run that cannot go on is over |
| SchedulerIds.ChainSpells | pkg/executor/scheduler/scheduler.go:86-89 | A task's full ID is the first one's followed by the relative IDs along its chain of followups, each once |
| SchedulerIds.ExecutedIffChain | pkg/executor/scheduler/scheduler.go:84-91 | The tasks executed below a job are exactly those at the ends of chains of followups through jobs that succeed |
| SchedulerIds.CallsAreChains | pkg/executor/scheduler/scheduler.go:52-91 | Every task called in a run is at the end of a chain from a root with the ID that spells it and all else as emitted, and when the run is over all of them have been called |
| SchedulerIds.IdsBelow | pkg/executor/scheduler/scheduler.go:86-89 | Every task executed below a job has the job's full ID as a proper prefix |
| SchedulerIds.IdsDistinctAll | pkg/task/id.go:26-30 | If the IDs of the roots, and of the followups of each task that succeeds, are prefix-free among themselves no two tasks share a full ID |
| SchedulerIds.ExecutedIdsDistinct | pkg/executor/scheduler/scheduler.go:52-68 | In every completed run the executed tasks then have distinct full IDs |
| StateCheck.HashAnyValue | pkg/executor/statecheck/taskstate.go:149-157 | A nil value sums to zero and another to the digest of what is written for it alone, whatever was fed to the hasher before |
| StateCheck.HashFiles | pkg/executor/statecheck/taskstate.go:159-180 | The sum is of what was fed before followed by the contents that the patterns match, one after another; it fails exactly when a pattern or a file does |
| StateCheckContents.PatternLaidOut | pkg/executor/statecheck/taskstate.go:161-176 | A pattern contributes exactly the files it matches: as many bytes as they have together, and each file's bytes in full, after those of the files before it; it fails exactly when it cannot be expanded or a file is not there |
| StateCheckContents.ContentsJoin | pkg/executor/statecheck/taskstate.go:160-177 | Patterns contribute one after the other, and one that fails fails them all |
| StateCheckContents.ContentsChange | pkg/executor/statecheck/taskstate.go:172-179 | Any change to one file, of length or of a byte, changes what is hashed exactly when some pattern matches the file |
| StateCheckEdits.EditedInputRuns | pkg/executor/statecheck/taskstate.go:124-127 | A skipped task runs after a change to one source file if and only if one of its input patterns matches it |
| StateCheckEdits.EditedOutputRuns | pkg/executor/statecheck/taskstate.go:130-135 | Likewise for a change to one of its output files and its saved output patterns |
| StateCheckEdits.MissingInputRuns | pkg/executor/statecheck/taskstate.go:161-170 | A pattern that cannot be expanded, or a matched file that is not there, makes it run |
| StateCheckEdits.HitsAgree | pkg/executor/statecheck/taskstate.go:111-127 | Tasks that one saved state matches agree in executor, input patterns, arguments as hashing sees them, and the bytes matched |
| StateCheck.SaveState | pkg/executor/statecheck/taskstate.go:35-89 | What each way of failing leaves in the task's output directory, part of the encoded state after a failed write included, and what success leaves; other tasks' directories are untouched |
| StateCheckEdits.SaveLeaves | pkg/executor/statecheck/taskstate.go:38-88 | Only the state file is touched; it is as it was if it could not be created, empty if something could not be hashed, the start of the encoded state if writing failed, and otherwise all of it; saving succeeds only then |
| StateCheckEdits.RunReports | pkg/executor/statecheck/statecheck.go:43-57 | When the state does not match, the child's error is returned and nothing saved, and without one an error is returned exactly when saving fails; the child's outputs and followups are added in every case |
| StateCheckEdits.SkipReports | pkg/executor/statecheck/statecheck.go:33-38 | When it matches there is no error, the saved outputs and followups are added, and the directory stays as it is |
| StateCheckEdits.DecodedSavedKeeps | pkg/executor/statecheck/taskstate.go:23-33 | A saved state decodes to the same executor, outputs and checksums, the same inputs with empty ones nil, and each followup as JSON brings it back, in order |
| StateCheck.HashState | pkg/executor/statecheck/taskstate.go:49-81 | One hasher used for all four sums gives the fingerprint in which each sees its own data only |
| StateCheck.DetectStateMismatches | pkg/executor/statecheck/taskstate.go:91-147 | There are no mismatches exactly when the state is there, decodes and matches the task and the workspace; otherwise they say that it is missing, that it does not decode, or which parts differ, in order |
| StateCheckEdits.LabelMeans | pkg/executor/statecheck/taskstate.go:111-143 | Each label is reported exactly when its part differs or cannot be had, and nothing else is |
| StateCheck.Execute | pkg/executor/statecheck/statecheck.go:27-58 | Skips and replays exactly when the state matches, and otherwise runs the child and saves; the error, the caller's result and the directory after, in all cases |
| StateCheck.Replay | pkg/executor/statecheck/statecheck.go:33-38 | The decoded result is appended to the caller's |
| StateCheck.RunAndSave | pkg/executor/statecheck/statecheck.go:43-57 | A failing child saves nothing, and a failing save is returned after the child's result was added |
| StateCheckHistories.HistoryKeepsGenuine | pkg/executor/statecheck/taskstate.go:43-83 | After every history a state file that decodes was written by a successful call on a task with that ID, over the directory that call left |
| StateCheckHistories.MatchIsSameCall | pkg/executor/statecheck/taskstate.go:111-142 | A state that matches was written by a call the child cannot tell from this one, with its followups intact, and its outputs match the bytes that call left |
| StateCheckHistories.CacheIsTransparent | pkg/executor/statecheck/statecheck.go:33-57 | After every history of edits, failures, interrupted saves and damaged state files a call gives the outputs, the followups and, unless saving fails, the error that the child would give now; when it is skipped the output files are as the child left them |
| StateCheckHits.ContentsGrow | pkg/executor/statecheck/taskstate.go:72-83 | Writing the state changes the contents hashed exactly when an output pattern matches the state file |
| Tasks.HashedIff | pkg/executor/statecheck/taskstate.go:149-157 | Hashing is assumed to miss no difference between values but that of an integer and a float zero |
| Tasks.AsHashedIff | pkg/executor/statecheck/taskstate.go:138-143 | Nor between lists of tasks but that and the one of nil and empty slices |
| Tasks.HashSurvivesIff | pkg/executor/statecheck/taskstate.go:138-143 | Hashing sees no difference in a value after JSON exactly when there is no integer in it but zero |
| StateCheckHits.StableIffHashed | pkg/executor/statecheck/taskstate.go:138-143 | The followups' checksum survives decoding exactly when no integer but zero is in their arguments |
| StateCheckHits.SkippedIffRepeatable | pkg/executor/statecheck/taskstate.go:91-147 | A task just saved is skipped if and only if its inputs are not empty but non-nil, its followups hold no integers but zero and no output pattern matches the state file; the result read back is what was saved as JSON brings it back |
| StateCheckHits.LeftoverIsReplayed | pkg/executor/statecheck/statecheck.go:43-50 | What the next skip replays after a call whose result already held something: all of it, and the child's own outputs, or followups, if and only if there were no others |
| Incremental.ReplaysAfterRun | pkg/executor/scheduler/scheduler.go:70-97 | After a run over distinct tasks every replayable task it called matches and replays its outcome |
| Incremental.CallsStayKnown | pkg/executor/scheduler/scheduler.go:84-91 | Call by call, a run in a workspace where a forest replays calls only tasks of that forest, its own forest unknown |
| Incremental.SameForest | pkg/executor/scheduler/scheduler.go:84-91 | A forest grown from the same tasks out of replayed results is the same forest, full IDs included |
| Incremental.SecondRunIsReplay | pkg/executor/statecheck/statecheck.go:33-57 | A second run on the unchanged workspace calls the child for nothing, leaves the workspace as it is, visits the same tasks and gives the same outputs |
| Incremental.SecondRunsComplete | pkg/executor/scheduler/scheduler.go:52-68 | Every completed schedule of the same forest, with any limit, is such a second run |
| RoutedCheck.CallRouter | pkg/executor/router/router.go:152-170 | Called on a task whose executors leave its field alone, the router gives it to the executor that routing finds with what is left of the name, or returns the error that there is none, and the field holds the full name again when it returns |
| RoutedCheck.Execute | pkg/executor/statecheck/statecheck.go:33-57 | A state checker over a router, reading the task's field again when it saves, does what it does over that child: the saved state names the executor in full |
| Rpc.ToProtoValue | pkg/executor/rpc/proto_conversion.go:16-72 | Encoding fails exactly for a nil inside a list or a map; otherwise the protobuf value carries the value part by part, integers as the numbers they are, and comes out as it would from JSON, at any depth |
| Rpc.NoInnerNullIff | pkg/executor/rpc/proto_conversion.go:27-31 | The values that encode are those with no nil inside a list or a map at any depth |
| Rpc.Server.ExecuteTask | pkg/executor/rpc/server.go:207-274 | The reply in every case: unopened session, directory failure, executor's error, followup that cannot be encoded, and otherwise outputs and followups in order |
| Rpc.Execute | pkg/executor/rpc/client.go:86-129 | The caller's result grows by the outputs and the followups as they arrive exactly when the remote call succeeds, and is unchanged otherwise; the executor's error is returned as it is, and any other as an unknown error |
| Rpc.ArrivedKeeps | pkg/executor/rpc/server.go:227-232 | A task arrives with its ID, executor and input patterns, without dependencies, and with its arguments as they come back from JSON |
| Rpc.ArrivedAllKeep | pkg/executor/rpc/client.go:115-126 | Followups arrive each as a task does, all of them and in order |
| Rpc.CrossesIff | pkg/executor/rpc/server.go:227-232 | A task crosses unchanged exactly when its inputs are nil or not empty, it has no dependencies and no integer is in its arguments |
| Rpc.ArrivedIsStable | pkg/executor/rpc/client.go:117-125 | Crossing twice is crossing once, and what crossed survives JSON |
| Rpc.ArrivedAllSurviveJson | pkg/executor/rpc/client.go:115-126 | Followups from another process come back from the saved state as they are |
| Observer.ListenersAccount | pkg/executor/observable/observer.go:46-96 | In any order of events each listener has received, or has pending, exactly the messages triggered |
| Observer.CloseIsFinalIffIdle | pkg/executor/observable/observer.go:74-81 | After a session is closed no notification is ever outstanding if and only if no call was under way or nobody listens |
| Observer.EachReceivesAll | pkg/executor/observable/observer.go:90-96 | Once everything is delivered each listener has received what was sent, each as often as it was sent |
| ObservedRuns.PlayedCoupled | pkg/executor/observable/observer.go:46-96 | In every interleaving of goroutines and deliveries the calls under way in the session are those of the goroutines, and each listener has received, or has pending, the run's messages so far |
| ObservedRuns.RunIsPlayed | pkg/executor/observable/observer.go:46-64 | The layer never holds the scheduler up: every schedule can be followed, whatever has been delivered |
| ObservedRuns.EveryRunCloses | pkg/driver/driver.go:57-70 | Every schedule that completes can be followed, its notifications delivered and the session closed |
| ObservedRuns.ClosedIsQuiet | pkg/driver/driver.go:68-70 | Once the session is closed the run is over, no call is under way, nothing is outstanding and nothing ever is again |
| ObservedRuns.ListenersHearEveryCall | pkg/driver/driver.go:57-70 | Once the session is closed each listener has received, for each executed job, one Running and one Success or one Failure with its error, and nothing else; one Running and one Success per executed task if none failed |

## Left out

- Names with empty segments inside them, in tables built by registration alone: promotion changes what the executor below finds in the task's field. All methods, and the lemmas on histories with unregistration, are for such names too.
- Routers.Router.ForEachExecutor: for a key with empty segments the name handed out is stated as the source spells it, which is not the registered name.
- Routers.Router.Execute: executors are handles with a given behaviour on the task's field; one registered executor that is itself a router is not part of the model, nor are the context, the session and the result passed along.
- Routers.Router.OpenSession: the combined error is modelled as the list of executors that failed.
- Locks: each router call is one step, and so is each call of the state checker. Unregistering while visiting, as the plugin manager's shutdown does, is not part of the model.
- SchedulerDependencies.HonouredIffCovered: states both directions without a limit; a limit can delay tasks enough to honour more, and then `CoveredIsHonoured` is what holds.
- Incremental: overlapping calls of different tasks are taken in the order in which they begin, each as one step.
- Observer: one session, listeners fixed when it is opened, as in `driver.Run`; reopening a session, a call for one that was never opened, and the panic on closing one that is not open are not part of the model. `ObservedRuns` also closes the session after a run with errors, which `driver.Run` does not (`pkg/driver/driver.go:64-66`). The session map and the wait group are fields of a value that a machine steps, since what is proved is about interleavings.
- Scheduler: a machine over values, not a class, for the same reason.
- StateCheck.Execute: the text of the error when saving fails is not part of the model. A directory is a map from file names to contents; permissions, modes and nested mounts are not part of it. `Append` with a nil receiver, and a state file written by something else that decodes, are left out.
- Values: struct arguments and mapstructure, nil slices and maps inside arguments (null in JSON), NaN and infinities, byte slices, strings that are not UTF-8, and the rounding of integers beyond 2^53.
- Rpc: transport, log streaming, the handshake that opens and closes sessions, and plugin start-up. A server that panics is a failed call.
- hashstructure, FNV, glob and JSON themselves: functions with the assumptions above.
- driver.Run's options, plugins and the order of its sessions; command line, k8s and holos plugins, and the terminal observer.
