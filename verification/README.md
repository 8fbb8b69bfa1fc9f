# A verified model of the gas framework

gas is a Go framework for services: a dependency-injection container builds them, a worker
starts and stops them, a router serves their routes, and satellite modules give them
migrations, object storage, logging and a cache. This project models the parts of it whose
correctness spans many functions or many goroutines, and proves what each of them keeps.
`dafny verify dfyconfig.toml` checks all of it.

## The parts

**The container** (`service_registry.go`, `di_guard.go`).
`BuildProtocol` describes the protocol by which goroutines build singletons: its steps are
the regions that run with the mutex held, and a run is any interleaving of them.
`BuildSafety` proves the invariant of that system and `BuildTheorems` what follows from it:
no deadlock, one build and one instance per type, failures forgotten, real cycles named.
`Deadlocks` compares what the container refuses as a deadlock with what is one.
`Walks` is the theory of the waits-for graph. `Container` is the container itself as a
class; its regions are proved to be the steps of the protocol, and resolution on one
goroutine is proved to end for every registration graph and to blame only what is really
wrong. `TopoSort` is Kahn's algorithm as the source runs it, over parameter lists with
repeats. `ContainerSpec`, `ContainerProofs` and `BuildPlan` say what resolution and
`BuildAll` keep and when they succeed, `Initialized` which services they initialize.
`OrderedMaps` is the insertion-ordered map under it.

**The router** (`router.go`).
Calls on a router are data: a callback is the script of the calls it makes on its
sub-router. `Routes` flattens recorded calls into entries and says which tree they
describe; `RouterRecords` says what each call does to the records; `Router` is the router
as a class that replays them step by step. `RouterTheorems` proves that the tree that
answers is the one the records describe, that every leaf is booked once, that names always
resolve, and what becomes of this in runs that go on after a panic. `Scripts` and
`Callbacks` say, by where each call stands in the callbacks, what is around every route.
`KillSwitch` proves what removing a service does to every route, and `Restarts` what is
left of that while the service comes back.

**The migration manager** (`migrate/`).
`Migrations` gives the meaning of each step on a database of tracking rows and a schema of
any kind; `MigrationManager` is the manager as a class, against a database any of whose
calls may fail; `MigrationTheorems` proves what holds over all runs with all failures, and
`MigrationErrors` which error each call gives and what it then leaves behind.

**The worker** (`worker.go`, `service_management.go`).
`Lifecycle` is the transition system of closing, restarting and shutting down; `Worker` is
the worker as a class over the container.

**Object storage** (`storage/`).
`Listing` is listing with delimiters and pages, `ByteRanges` the Range header against
section 14.1.2 of RFC 9110, and `LengthReaders` the reader that holds a body to its length.

**The log sender and the cache** (`log/httpsink.go`, `cache/memory/service.go`) are in
`LogSenders` and `Caches`. `Strings`, `Sets` and `Wrappers` are shared.

## Where the code does not do what one would expect

Each of these is a lemma with an input that shows it and, beside it, a lemma that says for
all inputs when the code does meet the expectation.

- A wait that is refused as a deadlock need not be one: a waiter forgets its wait only
  after it has woken up (`RefusedWithoutDeadlock`, `RefusedYetFree`; `RefusalIsGenuine`,
  `DeadlockRefused`).
- A service that was built by a Resolve before `BuildAll` is initialized a second time, and
  so is one that is registered as an instance under two types (`InitializedTwice`,
  `InitializedUnderTwoTypes`; `InitializedOnceIff`). The worker then opens it while it is
  open (`TwoTypesOpenTwice`, `AlternateIff`).
- An instance whose Init failed is reported as initialized, and so closed by a failing
  Start, if its type is a singleton with a constructor too (`ReportedUninitialized`;
  `ListedIsLogIff`). The comment at `service_registry.go:419-420` says that this never
  happens.
- The first route that a restarting service registers takes the 503 off all its old routes,
  and what it does not register again is not reached by a second removal
  (`PartialRestartRevives`, `StaysDownIff`, `CoveredAgainIff`). The comment at
  `router.go:424-426` describes the lifting for the routes registered again.
- A restart that calls Use again applies its middleware once more around every route
  (`UsedTwice`; `RestartRestores`).
- A callback that panics on an unknown name stays recorded, and every later removal of a
  service panics too until the name is registered. Each time the routes it has before that
  name are booked again, also by the removal that succeeds, which then leaves them up
  (`CallbackPanics`; `PanicsIff`, `BookedOnceIff`, `StaysRemovedIff`).
- A Use before a Route call that joins an existing mount is not around the routes of that
  call, so they answer without it (`UseBeforeJoining`; `AroundIff`, `UseRefuses`). The
  comment at `router.go:341-343` describes the middleware used inside such a block only.
- Registering a name that is in use again does not build a tree, so the old function keeps
  answering until something else does (`StaleExample`, `SyncIff`).
- A Start that fails after its services came up closes them one by one without stopping
  `RestartService`, which can then initialize a service that is still open
  (`FailingStartRaces`, `StepKeepsIff`). The comment at `worker.go:177-181` says that a
  failed Start leaves nothing running.
- A Get of the cache checks an entry after it has let go of the lock, so an overwrite in
  between can make it miss a key that is live all the time (`GetMissesLiveKey`,
  `GetExactIff`, `ExistsExactIff`).

## Model

| member | source | states |
|---|---|---|
| Container.ServiceContainer.WaitsOn | di_guard.go:107-122 | walking one step more than there are recorded waits decides exactly whether the goroutine that runs a build reaches the caller along the waits |
| Container.ServiceContainer.Begin | service_registry.go:669-716 | one locked region: a cached instance is returned; a build of the caller itself is refused with the cycle on its stack; a build that waits on the caller is refused; any other build is waited on; otherwise a build is started |
| Container.ServiceContainer.EnterBuild | di_guard.go:51-71 | entering a type that is on the stack reports the cycle, entering at depth 256 is refused, otherwise the stack grows by that type |
| Container.ServiceContainer.LeaveBuild | di_guard.go:74-85 | takes the last type off the stack, and forgets an empty stack |
| Container.ServiceContainer.FinishBuild | service_registry.go:683-702 | publishes the result: success is cached, failure is not, and the build stops being in flight |
| Container.ServiceContainer.EndWait | service_registry.go:736-738 | a goroutine that has woken up forgets its wait, and nothing else changes |
| BuildSafety.KeepInv | service_registry.go:669-740 | every locked region, by any goroutine, keeps the invariant: stacks match what each goroutine is constructing, every open build has one runner, cached instances are those of the one successful build, and the recorded waits have no cycle |
| BuildSafety.RunInv | service_registry.go:669-740 | the invariant holds in every state of every interleaving |
| BuildTheorems.NeverWaitsOnItself | di_guard.go:107-122 | in no reachable state does following the recorded waits from a goroutine come back to it |
| BuildTheorems.NoDeadlock | service_registry.go:706-740 | whenever a goroutine is blocked on an unfinished build, some goroutine that runs a build can take a step |
| BuildTheorems.OneBuildAtATime | service_registry.go:669-704 | at most one build of a type is under way, whoever runs it |
| BuildTheorems.ConstructorOnce | service_registry.go:669-704 | no two goroutines are ever in the constructor of one singleton on behalf of a build |
| BuildTheorems.OneSuccess | service_registry.go:669-740 | over a whole run at most one build of a singleton succeeds |
| BuildTheorems.ResultsLast | service_registry.go:683-702 | a published result is never lost or changed |
| BuildTheorems.SameInstance | service_registry.go:669-740 | everyone who is ever given an instance of a type, resolver or waiter, is given the same one |
| BuildTheorems.FailureNotCached | service_registry.go:694-702 | after a failed build nothing is cached: the next request starts a build |
| BuildTheorems.SuccessCached | service_registry.go:694-702 | after a successful build every later request gets its instance |
| BuildTheorems.OwnBuildNamesCycle | service_registry.go:712-716 | a goroutine refused because it asks for a type it is building gets a cycle through that type as the types on its own stack give it |
| Deadlocks.RefusalIsGenuine | service_registry.go:717-739 | in any reachable state: were a wait recorded that the container refuses, the caller would stay where it is in every continuation if and only if every build waited on, from the builder on along the recorded waits, is still open; and exactly then would everyone on the way |
| Deadlocks.HeldNeverMove | service_registry.go:731-739 | goroutines that each wait for an open build run by another of them never move again |
| Deadlocks.ChainMoves | service_registry.go:731-739 | goroutines that wait for one another in a row, of which the last can move, can all be brought to move |
| Deadlocks.RefusedYetFree | service_registry.go:734-738 | a run whose last state refuses a wait in which the caller would not have been stuck |
| BuildTheorems.DeadlockRefused | service_registry.go:717-726 | whoever would close a circle of waits on unfinished builds is refused |
| BuildTheorems.RefusedWithoutDeadlock | service_registry.go:734-738 | a run in which a refused wait would have closed no circle of open builds, because a wait is forgotten only after its goroutine has woken up |
| Walks.ReachesWithin | di_guard.go:107-122 | in a graph with one edge per node whatever is reached is reached within as many steps as there are edges |
| Walks.AcyclicMeansNoCycle | di_guard.go:107-122 | every walk ends exactly when no walk comes back to its start |
| Walks.AddEdge | service_registry.go:717-730 | an edge from a node to one that does not reach it keeps the graph free of cycles |
| Container.ServiceContainer.ResolveType | service_registry.go:629-660 | ends for every registration graph; on success the value is what the type resolves to: the instance if there is one, and otherwise one made by this very call, by a constructor that works and with all it takes; a transient value is held under no type; on failure the error points at something wrong with a type that the asked one leads to, a returned cycle being a real path back to its start and a too-deep error a real path of 257 different types; stacks and builds are as before |
| ContainerProofs.MadeDiffers | service_registry.go:648-649 | two resolutions never make the same value, so two of one transient give different ones |
| Container.ServiceContainer.ResolveSingleton | service_registry.go:669-704 | caches and returns one instance, or leaves nothing of this type cached; from outside any constructor it builds exactly what is missing |
| Container.ServiceContainer.RunBuild | service_registry.go:684-703 | a build that was started ends: its stack and its entry in flight are gone, a success is the cached instance with what it took before it in the order, and a failure has a genuine reason |
| Container.ServiceContainer.Invoke | service_registry.go:907-935 | enter and leave balance on success and on every error; a success carries a value not held before and all its dependencies are provided |
| Container.ServiceContainer.Construct | service_registry.go:921-938 | once entered, the constructor of a type is called only if all its parameters are resolved, and the type is left in every case |
| Container.ServiceContainer.ResolveCtorArgs | service_registry.go:969-984 | every parameter is resolved, or the first failing one is reported |
| TopoSort.RelaxOne | service_registry.go:1112-1124 | a type built takes one off the count of a consumer for every time the consumer names it, and queues the consumer once |
| TopoSort.TopoSortOrder | service_registry.go:1106-1130 | what the loop returns is in build order, and what it leaves out still waits for something left out |
| TopoSort.TopoSort | service_registry.go:1065-1104 | the result lists every registration once, each after every registered type it takes, aliases followed; it fails exactly when the registered types take one another in a circle |
| TopoSort.NoCycleInOrder | service_registry.go:1106-1130 | a graph that has a build order has no cycle |
| TopoSort.StuckTypesCycle | service_registry.go:1096-1103 | types that all still wait for one of themselves hold a cycle |
| Container.ServiceContainer.ValidateAliases | service_registry.go:332-349 | reports the first alias whose target is neither registered nor an instance, if there is one |
| Container.ServiceContainer.ValidateLifetimes | service_registry.go:990-1025 | succeeds exactly when no singleton takes a scoped or transient type that has no instance; what it reports is such a pair |
| Container.ServiceContainer.InitInstances | service_registry.go:411-434 | initializes the instances that are services in registration order, up to the first whose Init fails |
| Container.ServiceContainer.BuildAll | service_registry.go:370-405 | succeeds exactly when aliases, lifetimes, Inits, constructors and dependencies are sound and there is no cycle; reports a cycle only for one among the registrations and before building; never reports nesting too deep; never has two constructors running inside one another; keeps dependencies before consumers in the instance order |
| Container.ServiceContainer.BuildInOrder | service_registry.go:384-405 | building in a build order needs each singleton to be sound and nothing else, and never reports a cycle |
| Initialized.ListedIsLogIff | service_registry.go:436-460 | after a first BuildAll, failed or not, the services the container reports as initialized are exactly those whose Init succeeded, in that order, if and only if before it: among the instances up to the first failing Init no service has two types, and from there on none has a type with a singleton constructor too, unless its Init is among the others |
| Initialized.ReportedUninitialized | service_registry.go:417-460 | an instance whose Init failed is reported as initialized, because its type has a constructor too |
| Initialized.StartMakesOnce | service_registry.go:669-704 | after a first BuildAll no instance that was constructed is held under another type too |
| Initialized.InitializedOnceIff | service_registry.go:411-487 | BuildAll initializes every service at most once if and only if no service had been built by an earlier Resolve and none is registered under two types |
| Initialized.InitializedTwice | service_registry.go:411-434 | a service built by a Resolve and then initialized again by BuildAll |
| Initialized.InitializedUnderTwoTypes | service_registry.go:411-487 | a BuildAll that succeeds and initializes a service twice, because it is registered under two types |
| Container.ServiceContainer.RegisterServiceAlias | service_registry.go:264-330 | one lookup of an alias always leads to a type that is no alias, because chains are refused |
| Container.ServiceContainer.RegisterService | service_registry.go:169-207 | refuses a type that is an alias, otherwise registers it; aliases stay flat |
| Container.ServiceContainer.RegisterServiceInstance | service_registry.go:240-257 | refuses a type that is an alias, otherwise holds the instance; aliases stay flat |
| OrderedMaps.OMap.Set | internal/ordered_map.go:38-46 | the key has the new value and all others keep theirs; a new key goes to the end and an existing key keeps its place |
| Router.Router.RunScript | router.go:318-363 | a callback fails exactly when it uses an unknown name; otherwise it puts exactly its leaves and mounts into the tree, in order; run for the first time it books its leaves up to the call that fails |
| Router.Router.RunHandle | router.go:374-431 | a Handle call in a callback is booked on its first run only, also if it then fails, and builds its leaves, a GET also serving HEAD |
| Scripts.CallStands | router.go:318-363 | the entries of a call in nested callbacks are those of the call where its way leads: at the mounts of the Route calls around it, with the middleware of the Use calls before it since the last mount |
| Scripts.StartOrder | router.go:318-363 | calls are replayed in the order in which they were made |
| Callbacks.LeafIs | router.go:283-291 | a leaf has the handler of the last Handle call for it, and around it the middleware of the Use calls before that in the callbacks around it, since the last mount, outermost first, and then its own |
| Callbacks.LeafHasCall | router.go:374-431 | every leaf of the tree comes from a Handle call |
| Callbacks.MountIs | router.go:344-361 | a mount has around it the middleware of the Use calls before the first Route call for it, since the mount before |
| Callbacks.ChainIs | router.go:318-363 | if every mount a leaf is under was made by the Route calls around it, it has around it the middleware of the router, of all Use calls on the way in, outermost first, and its own |
| Callbacks.AroundIff | router.go:334-343 | exactly which middleware is around a leaf; a Use before a Route call that joins an existing mount is not |
| Callbacks.UseBeforeJoining | router.go:334-361 | a callback that uses a middleware and then joins an existing mount: its route is answered without the middleware |
| Callbacks.GuardedLeaf | router.go:283-291 | a callback that uses a middleware function: the route after it is answered through that function |
| Callbacks.BookedAs | router.go:500-521 | a route is booked with the patterns of the Route calls around it spelled from the root before its own, and with the names of the middleware of the router, of the Use calls before it and its own |
| Callbacks.NamesListed | router.go:433-446 | the names of a list of middleware are those of its members that have one, in order |
| Router.Router.RecordBookkeeping | router.go:500-521 | a booked route is added to its service and clears what was removed of that service |
| Router.Router.BuildMux | router.go:708-744 | fails exactly when a recorded name is unknown; otherwise the tree is the one the records describe and every recorded call is booked; after a failure what was not built before counts as not built |
| Router.Router.Register | router.go:249-266 | reclaims a retired name, and builds a tree only then; whatever panicked before, it panics exactly when that tree cannot be built |
| Router.Router.Use | router.go:271-301 | queues what comes before the first name that is not in use, and panics if there is one; otherwise the middleware goes around the whole tree |
| Router.Router.Handle | router.go:374-431 | refuses a name that is not in use; otherwise the route is booked at once and a sealed router serves it if its records can be built |
| Router.Router.Group | router.go:318-332 | the callback is recorded, also when it panics; on a sealed router it has run and is served if the records can be built |
| Router.Router.Route | router.go:344-363 | the callback is recorded under its pattern, also when it panics; on a sealed router it has run and is served if the records can be built |
| Router.Router.Seal | router.go:672-681 | builds and serves what was recorded, once; it is sealed also when that panics |
| Router.Router.RemoveByService | router.go:596-627 | whatever panicked before, it fails exactly when the router is sealed and a recorded call that was never built uses an unknown name; the routes of the service become removed ones, its middleware is retired, and the tree is rebuilt |
| RouterRecords.PanicsIff | router.go:249-801 | exactly when each call panics, whatever has panicked before: when it uses a name not in use, or builds while a recorded call that was never built uses an unknown name |
| RouterRecords.OutcomeSound | router.go:249-744 | every call, panicking or not, keeps what was built buildable and forgets no name |
| RouterRecords.DoIs | router.go:249-744 | while nothing has panicked, recording a call and building from scratch comes to the same as booking the new call alone |
| RouterRecords.MendedByName | router.go:249-266 | registering a name makes the records build if and only if it is the only one that was unknown |
| RouterRecords.DoGood | router.go:249-744 | every call that does not panic keeps the records good: names are never both registered and retired, every recorded name resolves, and the leaves booked are the leaves recorded |
| RouterTheorems.ReachedGood | router.go:249-744 | the records are good after every sequence of calls |
| RouterTheorems.RecordsAre | router.go:271-365 | while nothing panics the router has the middleware of all Use calls and all other calls in the order in which they were made, and is sealed once Seal was called |
| RouterTheorems.NamesAre | router.go:249-266 | after any calls a name is in use, as the function registered last, if it was registered since the service that did so was last removed; otherwise, if it was ever registered, it is retired |
| RouterTheorems.UsePanicsIff | router.go:762-778 | using a name panics at once if and only if it is not in use; a retired name is not |
| RouterTheorems.UseQueues | router.go:271-301 | a Use that comes to a name not in use panics, has queued what came before it and has built nothing |
| RouterTheorems.BookedOnce | router.go:410-431 | while nothing panics: on a sealed router the multiset of leaves ever booked is that of the leaves recorded, each exactly once, however often the tree was rebuilt |
| RouterTheorems.BookedOnceIff | router.go:708-729 | over all runs, with any panics: once everything is built each leaf has been booked once, and once more for each build that panicked after booking it; so exactly once if and only if no such build had booked anything |
| RouterTheorems.ReachedIff | router.go:249-744 | the runs in which nothing panics are exactly those the simple description covers, with the same records and tree |
| RouterTheorems.CameSound | router.go:249-744 | the records are sound after every run, panics included |
| RouterTheorems.CallbackPanics | router.go:596-724 | a run: a callback books a route and panics on an unknown name, a removal of its service panics too, and once the name is registered the removal succeeds, but has booked the route a third time and does not take it down |
| RouterTheorems.NamesStay | router.go:787-800 | a name once registered is, after every later call, in exactly one of the registry and the retired names, so no rebuild fails on it |
| RouterTheorems.NeverPanics | router.go:596-627 | removing a service or registering a name panics if and only if it builds and a recorded call that was never built uses an unknown name; so never after calls that completed |
| RouterTheorems.SyncIff | router.go:258-265 | after a call the tree that answers is what the records describe, if and only if the call did not give a name in use, which the tree mentions, a new function |
| RouterTheorems.StaleExample | router.go:258-265 | a run that registers a middleware again with another function: the old one goes on answering |
| RouterTheorems.UsedTwice | router.go:271-301 | a run in which a removed service starts again and calls Use again: its middleware is around every route twice |
| RouterTheorems.RunInSync | router.go:700-744 | after every run without such a call the published tree is what building the records from scratch gives |
| RouterTheorems.MentionsKnown | router.go:787-800 | whatever the tree mentions, at any nesting depth, is a known name |
| RouterTheorems.LastWins | router.go:448-468 | the last recorded route for a leaf is the one in the tree |
| RouterTheorems.FirstWins | router.go:348-361 | the first Route call for a pattern decides the middleware around its mount; repeats join it |
| KillSwitch.RoutesRefused | router.go:736-742 | after a service is removed every route booked for it answers 503 |
| KillSwitch.MiddlewareRefuses | router.go:787-800 | after a service is removed no leaf, at any nesting depth, with a middleware of that service around it reaches its handler |
| Callbacks.UseRefuses | router.go:787-800 | after the service of a middleware is removed, every leaf whose Handle call follows a Use of it, in the same callback or one inside it at any depth, answers 503, unless a mount lies between that another Route call had made |
| KillSwitch.OthersUnchanged | router.go:596-627 | with the served tree as the records describe it, every route that shares no method and path with the service and has none of its middleware around it is answered as before |
| KillSwitch.ChainResolves | router.go:787-800 | resolving names in the recorded tree resolves the chain around every leaf, mounts included |
| KillSwitch.KillTakesDown | router.go:605-611 | removing a service takes down exactly the routes booked for it since it was last removed, besides those already down |
| KillSwitch.StaysRemovedIff | router.go:596-627 | whatever panicked before, when a removal succeeds the routes of the service stay down if and only if no callback that it builds for the first time has a route of the service |
| Restarts.CoveredFirst | router.go:500-521 | until a service is removed for the first time the bookkeeping has all its routes |
| Restarts.KilledEverywhere | router.go:596-627 | if the bookkeeping has all routes of a service, removing it answers 503 on every leaf ever recorded for it |
| Restarts.RestartingStep | router.go:500-521 | every call other than a new removal continues a restart |
| Restarts.StaysDownIff | router.go:507-507 | while a service restarts, its old routes are down as its own exactly until its first route is booked again |
| Restarts.OldHandlerBack | router.go:722-728 | a leaf that is not taken down has the last handler recorded for it, whether or not it was booked again |
| Restarts.CoveredAgainIff | router.go:596-627 | after a restart, removing the service again reaches all its leaves if and only if the restart booked nothing or every old route |
| Restarts.RestartRestores | router.go:596-627 | a restart that registers the same middleware and routes gives back the tree from before the removal if and only if it does not call Use |
| Restarts.PartialRestartRevives | router.go:507-507 | two routes, a removal, and one of them recorded again: the other answers again, and goes on after another removal |
| Restarts.TwoRoutesReached | router.go:374-431 | the calls that lead to a router with these two routes |
| MigrationManager.Service.RegisteredMigrations | migrate/manager.go:378-425 | lists every registered migration once in version order, or reports the first registration, by service name, that conflicts with an earlier one |
| Migrations.ClashIff | migrate/manager.go:398-417 | registration is refused exactly when two registrations share a version and differ in owner or content |
| Migrations.PlanUnique | migrate/manager.go:419-425 | consistent registrations have one plan only, whatever order the map is ranged over in |
| MigrationManager.Service.ApplyUp | migrate/manager.go:243-259 | stops at the first failing call; the up SQL and the clean row are committed together or not at all; a failure after the transaction began is marked unless marking fails too |
| MigrationManager.Service.RunPending | migrate/manager.go:130-173 | refuses for the reasons and in the order of the source, changing nothing; otherwise commits a first part of the pending migrations in version order with four calls each, all of them exactly when no call fails |
| MigrationManager.Service.ApplyDown | migrate/manager.go:341-371 | the down SQL and the deleted row are committed together or not at all, and a failure is not marked |
| MigrationManager.Service.Down | migrate/manager.go:191-241 | reverts a first part of the n highest versions, highest first; stops at one that is not registered or fails |
| MigrationManager.Service.ClearDirty | migrate/clear_dirty.go:19-53 | deletes exactly one row, succeeding exactly when the service is usable, the version dirty and no call fails; says that the version is not dirty exactly then |
| MigrationManager.Service.CheckReady | migrate/service.go:96-136 | refuses as RunPending does, and otherwise counts the pending migrations |
| MigrationManager.Service.Register | migrate/manager.go:16-21 | the migration is added to those of its service, with the service as its owner |
| MigrationTheorems.StepFaithful | migrate/manager.go:130-370 | whatever fails, each call keeps this: the schema is what the committed SQL gives, a version is in effect exactly when its row exists and is clean, and at most one row is dirty |
| MigrationTheorems.AlwaysFaithful | migrate/manager.go:130-370 | it holds in every state of every run of RunPending, Down, ClearDirty and registrations, with any failures |
| MigrationErrors.ClosedForEver | migrate/manager.go:175-185 | after Close, whatever is called in between, RunPending, Down, CheckReady and ClearDirty say that the service is closed and change nothing |
| MigrationErrors.NothingBeforeInit | migrate/manager.go:175-185 | until an Init that knows the driver they say that it is not initialized, or closed, and change nothing |
| MigrationErrors.RefusesExactly | migrate/manager.go:130-163 | each refusal is given exactly when it is due: closed, not initialized, a query that fails, the dirty versions in order, a version registered twice with a difference; and then nothing changes |
| MigrationErrors.RunPendingApplies | migrate/manager.go:151-173 | a RunPending that may run makes two calls and four for each migration to do, and succeeds exactly when none of them fails |
| MigrationErrors.RunPendingStopsAt | migrate/manager.go:243-330 | otherwise the first call that fails tells how many migrations are committed, and in which phase the next one stopped; that one is marked dirty unless it had not begun or the call that marks it fails too |
| MigrationErrors.CommittedRows | migrate/manager.go:275-300 | the row of every committed migration names its owner and description and is clean; the other rows are as before |
| MigrationErrors.TodoIs | migrate/manager.go:160-163 | what is left to do is every registered migration without a row, in version order |
| MigrationErrors.RegisteredHas | migrate/manager.go:378-397 | registered is exactly what some service has registered |
| MigrationErrors.ClashIsFirst | migrate/manager.go:398-417 | the duplicate reported is the version of the first registration that differs from an earlier one |
| MigrationErrors.DownReverts | migrate/manager.go:221-238 | a Down that may run reverts highest versions, the highest first, and succeeds exactly when n of them or all are reverted |
| MigrationErrors.DownStopsAt | migrate/manager.go:227-238 | a Down that stops leaves the version it was at as the highest one: one that is not registered, or one whose revert failed, in the phase of the first call that failed, without a mark |
| MigrationErrors.ReadyTells | migrate/service.go:113-135 | CheckReady succeeds exactly when every registered version has a row, and otherwise counts those that do not |
| MigrationErrors.ClearTells | migrate/clear_dirty.go:19-53 | ClearDirty succeeds exactly when the version is dirty and none of its four calls fails, takes away that row only, and says that it is not dirty exactly then |
| MigrationTheorems.FrozenWhileDirty | migrate/manager.go:143-149 | while a version is dirty no call applies or reverts anything, and RunPending and Down return an error |
| MigrationTheorems.AttemptForward | migrate/manager.go:151-170 | an attempt moves forward along the outstanding migrations or stays where it is |
| MigrationTheorems.AttemptsConverge | migrate/manager.go:130-173 | any failing attempts and ClearDirty calls, then a RunPending that succeeds: together they committed exactly the outstanding migrations, each once and in ascending order, as one run without failures would |
| MigrationTheorems.Recovers | migrate/clear_dirty.go:9-18 | with calls that do not fail, clearing the dirty version and running again applies every registered migration and leaves nothing dirty |
| MigrationTheorems.DownRestores | migrate/manager.go:221-238 | when all pending versions sort after the table and downs invert ups, Down of the number applied restores table and schema |
| MigrationTheorems.ReadyMeansNothingToRun | migrate/service.go:92-136 | CheckReady succeeds exactly when RunPending, meeting the same failures, would succeed and change nothing |
| Migrations.PendingRest | migrate/manager.go:160-163 | once the first pending migrations are in the table, exactly the others are pending |
| Strings.SortedUnique | migrate/manager.go:419-425 | a set of strings has one ascending listing |
| Strings.LessIff | storage/dir/list.go:233-239 | a string comes before another if it is a first part of it, or has the lesser byte where they first differ |
| Worker.Worker.InitServices | worker.go:133-170 | succeeds exactly when everything can be built; then each service is tracked once, in instance order, and their Inits alternate with Closes if and only if none is registered under two types; when BuildAll fails, exactly what was initialized is closed, in reverse, if and only if the state before was clean |
| Worker.DependenciesFirst | worker.go:143-158 | a service that a constructor took is tracked before the service it made |
| Worker.ConsumersCloseFirst | worker.go:256-302 | after every successful start and under every interleaving, Shutdown closes an active service before every active service its constructor took |
| Worker.AlternateIff | service_management.go:111-229 | after a successful start, Inits and Closes alternate under every interleaving if and only if no service was registered under two types |
| Worker.TwoTypesOpenTwice | service_registry.go:411-487 | a start that succeeds and initializes a service while it is open |
| Worker.Worker.CloseService | service_management.go:111-160 | an active service is closed once and is no longer active; refuses once Shutdown has begun or when it is not active, and then changes nothing |
| Worker.Worker.RestartService | service_management.go:175-229 | a tracked service that is not active is initialized once and is active; refuses once Shutdown has begun; a refusal or a failing Init changes nothing |
| Worker.Worker.CloseActive | worker.go:275-288 | takes all active services, newest first, and leaves none of them active |
| Lifecycle.StepKeepsBooks | service_management.go:111-229 | every region keeps the lists of open services right and adds no Init or Close out of turn, if and only if it is not a restart of a service that a failing Start has yet to close |
| Lifecycle.StepKeepsIff | service_management.go:111-229 | every region keeps each service's Inits and Closes alternating, if and only if it is not such a restart |
| Lifecycle.AlwaysAlternates | service_management.go:111-229 | after a successful Start the lists of open services are right under every interleaving of close, restart and shutdown, and Inits and Closes alternate if and only if they did when Start was done |
| Lifecycle.CloseDoes | service_management.go:111-160 | closing touches the service it closes and no other |
| Lifecycle.RestartDoes | service_management.go:175-229 | restarting touches the service it starts and no other |
| Lifecycle.StaysClosed | service_management.go:111-229 | after a successful close and until a restart that works, a service is neither active nor open under any interleaving; and such a restart succeeds unless Shutdown has begun |
| Lifecycle.RefusedOnceDown | service_management.go:111-190 | once Shutdown has begun no CloseService and no RestartService does anything |
| Lifecycle.CloseNextDoes | worker.go:291-302 | each step of Shutdown closes the next service and touches no other |
| Lifecycle.ShutdownEnds | worker.go:291-302 | as many steps as it took services close all of them in order |
| Worker.FailedStartUndoes | worker.go:133-141 | a start that failed has closed what it had initialized, the last first |
| Lifecycle.NothingReopens | service_management.go:183-186 | once Shutdown has begun nothing is initialized any more |
| Lifecycle.StopProgress | worker.go:256-302 | while Shutdown runs it has closed a first part of the services it took, in order, and nobody else closes or opens anything |
| Lifecycle.ShutdownCloses | worker.go:256-302 | when Shutdown is done it has closed each service that was active once, and no service is open |
| Lifecycle.NewestReverses | worker.go:278-284 | the order of closing is the reverse of the order of starting |
| Lifecycle.ClosesInReverse | worker.go:256-302 | of two active services Shutdown closes the one first that was started last |
| Lifecycle.FailingStartRaces | worker.go:275-302 | a Start that fails while a restart runs: a service is initialized while it is still open |
| Listing.RollUp | storage/dir/list.go:190-210 | the names listed are those of the selected keys, and exactly the ones rolled up are common prefixes |
| Listing.RollUpPartitions | storage/dir/list.go:183-210 | every key with the prefix that comes after the start is represented by exactly one listed name, and every listed name represents such a key |
| Listing.OccursIff | storage/dir/list.go:187-189 | a delimiter is found exactly where the key is what comes before it, the delimiter and what comes after |
| Listing.CommonIff | storage/dir/list.go:187-189 | a listed name is a common prefix exactly when it ends at the first delimiter after the prefix, and never equals a key listed as itself |
| Listing.RolledAgain | storage/dir/list.go:199-205 | rolling a listed name up again gives itself |
| Listing.Page | storage/dir/list.go:233-245 | returns the names after the given one in ascending order without repeats, at most n, and says exactly whether more follow |
| Listing.BinarySearch | storage/dir/list.go:236-239 | finds the place of a name in an ascending list |
| Listing.PagesJoin | storage/dir/list.go:139-181 | however many pages it takes, together they hold every name after the start once, in order |
| Listing.PagesEnd | storage/dir/list.go:139-181 | following the continuation comes to a last page |
| Listing.ListingComplete | storage/dir/list.go:139-245 | for every key set, prefix, delimiter, start and page size, the pages together are the sorted list of the names without repeats |
| Listing.ListObjects | storage/dir/list.go:139-181 | hands out the page's common prefixes and readable objects, each sorted and together the page; counts damaged ones on top of those of the bucket, leaves out deleted ones, fails exactly when one cannot be read, and goes on after the last name of the page exactly when more follow |
| Listing.PageNames | storage/dir/list.go:233-245 | the names on a page are listed names after the one it resumes after, in ascending order |
| ByteRanges.ParseDigits | storage/dir/range.go:100-117 | accepts exactly the non-empty runs of digits, and gives the smaller of their value and the largest 64-bit integer without overflow on the way |
| ByteRanges.DigitsLess | storage/dir/range.go:86-92 | compares the values of digit runs of any length |
| ByteRanges.ParseByteRange | storage/dir/range.go:30-82 | every header that is one byte range selects exactly the bytes it asks for, on unbounded numbers: from the first to the last, from the first on, or the last ones; it is unsatisfiable exactly when there are none and it is not a suffix of an empty object; every other header, and a range that ends before it begins, selects the whole object |
| ByteRanges.SelectionInside | storage/dir/range.go:18-29 | what a range selects lies within the object, and says exactly when a range cannot be satisfied |
| ByteRanges.ReadInRanges | storage/dir/range.go:30-82 | consecutive printed ranges of any length tile an object exactly |
| ByteRanges.AnswersBytes | storage/dir/range.go:49-82 | the bytes selected: the last ones for a suffix, those from the first on, or those from the first to the last |
| ByteRanges.ReadInTwo | storage/dir/range.go:30-82 | the first n bytes and then the rest, asked for as what follows them or as a suffix, are the object |
| LengthReaders.ReadKeeps | storage/internal/util.go:322-385 | whatever the body does, a Read keeps this: the bytes handed over are a first part of the body and no more than declared, and every error tells what the body did |
| LengthReaders.After | storage/internal/util.go:322-385 | it holds after Reads with any sequence of buffers |
| LengthReaders.Verdict | storage/internal/util.go:275-288 | the end is reported only for a body of exactly the declared length; a mismatch that is not the body's own only for one of another length, and a body that is too long is then never handed over up to the declared length |
| LengthReaders.OwnMismatch | storage/internal/util.go:353-354 | a body of the declared length that reports a mismatch of its own, which is passed on |
| LengthReaders.Sticky | storage/internal/util.go:322-326 | after an error every later Read gives the same and does nothing |
| LengthReaders.Advances | storage/internal/util.go:327-346 | a Read that does not end in an error hands over bytes unless the body gave none |
| LengthReaders.LengthReader.Read | storage/internal/util.go:322-346 | the method does what the specification of a Read says |
| LengthReaders.CheckLength | storage/internal/util.go:289-304 | a negative length is a mismatch at once, a missing one leaves the body unchecked |
| LogSenders.StepKeeps | log/httpsink.go:146-197 | every step keeps this: posted batches, the current batch and the queue are the accepted records in order, and at the loop head the batch is below its limit |
| LogSenders.AlwaysInv | log/httpsink.go:146-197 | it holds in every state of every run |
| LogSenders.PostsWhen | log/httpsink.go:163-173 | the interval posts whatever was received, a full batch is posted at once, and otherwise nothing is |
| LogSenders.FlushPosts | log/httpsink.go:240-248 | when a flush is over every record accepted before it began has been posted |
| LogSenders.ClosePosts | log/httpsink.go:250-257 | when the sender is closed every record accepted before the stop has been posted, each once and in order |
| LogSenders.Sender.EnqueueRecord | log/httpsink.go:143-152 | takes the record exactly when there is room and a stopped sender does not drop it |
| LogSenders.Sender.ReceiveRecord | log/httpsink.go:163-168 | takes one record and posts a full batch |
| LogSenders.Sender.Flush | log/httpsink.go:174-178 | posts the batch and everything queued |
| Caches.StepRefines | cache/memory/service.go:124-222 | every operation answers as a map that is only changed by Set and Delete, a Set is refused exactly when its key is not live and MaxEntries entries are, and the cache never holds more than MaxEntries |
| Caches.RunRefines | cache/memory/service.go:124-270 | over every run, any clean-ups in between cannot be seen in the other answers |
| Caches.SetLasts | cache/memory/service.go:151-189 | after a Set that was not refused, until its key is set or deleted again, Get and Exists find the value up to the end of the time given, or of the default if that is zero, and for ever if it is not positive; afterwards they find nothing |
| Caches.DeleteLasts | cache/memory/service.go:193-205 | after a Delete, until the key is set again, Get and Exists find nothing |
| Caches.Cache.Set | cache/memory/service.go:157-189 | makes room by one expired entry if it must, and is refused if there is none |
| Caches.Cache.Take | cache/memory/service.go:127-134 | the first locked region hands over the entry of the key as it is |
| Caches.Cache.Forget | cache/memory/service.go:135-144 | the second locked region removes the key only if what it holds by then has expired |
| Caches.Cache.Get | cache/memory/service.go:124-149 | answers from the entry taken, and removes it only if it has expired |
| Caches.Cache.RemoveExpired | cache/memory/service.go:246-257 | removes exactly the expired entries |
| Caches.Cache.Exists | cache/memory/service.go:207-222 | tells whether the key is live |
| Caches.GetExactIff | cache/memory/service.go:127-149 | with any calls between its regions, a Get answers what the plain map gives at some moment in between, if and only if it is not so that its entry expires before the check and was overwritten in time, and so on up to the check |
| Caches.ExistsExactIff | cache/memory/service.go:207-222 | the same of Exists |
| Caches.GetMissesLiveKey | cache/memory/service.go:127-149 | a run with an overwrite in the gap: Get misses a key that is live at every moment of it |

## Left out

- Reflection, constructor and service shape checks: types are opaque, a constructor is a parameter list with an outcome.
- Goroutine ids, contexts, timers and init deadlines: ids are given, and an Init that is late is one that fails.
- A constructor or Init that panics: its build would stay in flight for ever, and so would everyone who waits on it.
- A constructor that starts goroutines and blocks on them: the wait graph has builds only.
- Scopes (`Scope.resolveType`, `Scope.Close`, scoped instances): singletons and transients only; a scoped type asked for outside a scope is the error it is in the source.
- Container.ServiceContainer.ResolveType: a transient whose value is a service is excluded, as its shape check excludes it, and other goroutines are the matter of `BuildProtocol`, which has no single-goroutine methods.
- Container.ServiceContainer.ResolveSingleton: one goroutine at work; waiting for a build of another goroutine is a step of `BuildProtocol`.
- Container.ServiceContainer.RegisterService: the shape of the constructor and of a transient's value is not checked; every registration is taken to have passed.
- Container.ServiceContainer.RegisterServiceAlias: whether the alias is an interface that the target implements is not checked.
- Container.ServiceContainer.BuildAll: the service shape check it begins with is left out, as services have no methods here.
- Initialized.InitializedTwice: the state is given, as that after one Resolve; `InitializedOnceIff` speaks of all states.
- OrderedMaps.OMap.Set: the map is a value, so that copies which share storage do not occur; `Remove` and `Clone` add nothing here.
- Build objects are numbered in a heap that only grows, in place of pointers.
- chi: pattern matching beyond equal patterns, its own panics (malformed patterns, Use after the first mount in one callback), request handling and error rendering. A direct leaf is taken to go before a mount with the same full pattern.
- Router.Router.Handle: dependency types of handlers, `NotFound` and `Routes` snapshots are not modelled; a callback is deterministic and does not register middleware.
- Router.Router.RunScript: sub-routers are places that are passed along, not objects.
- Router.Router.Register: in-flight requests and the atomic swap itself; the served tree is a field.
- MigrationManager.Service.RunPending: one process only; a failed commit is taken not to have committed; DDL that commits by itself, as on MySQL, is excluded, as `migrate/doc.go:56-59` says.
- MigrationManager.Service.Down: the order of the table is that of bytes, whatever collation a database uses.
- MigrationManager.Service.Register: reading migration files (`RegisterFS` and its parser) and the module versions written to a row are left out.
- Worker.Worker.InitServices: nothing was resolved before the start (`InitializedOnceIff` says what becomes of what was); a service is its own name, so names are distinct; the post-build hook, migrations and ready hooks are the failing Start of `Lifecycle`; event bus, logger and health reports are left out. A Shutdown that begins while Start still tracks services is not modelled.
- Worker.Worker.RestartService: the router and event clean-up of a closed service is the matter of `KillSwitch`.
- Listing.ListObjects: a continuation token is the name it decodes to; keys do not change between pages; bucket listings, which use the same page, are left out.
- LogSenders.StepKeeps: a batch that is posted may still be lost on the way, which the sender reports and does not retry; attributes, groups and fan-out are left out.
- LogSenders.Sender.Flush: nobody else uses the queue meanwhile; `LogSenders.FlushPosts` is about every interleaving.
- Caches.Cache.Get: the two regions with nobody in between; the gap is the matter of `GetExactIff` and `ExistsExactIff`.
- Caches.Cache.Exists: as `Get`; the entry is checked at the time it is taken.
- Caches.RunRefines: the operations of a run are atomic, at times that do not go back.
- Adapters, SQL text, the file system under object storage, write conditions, names of buckets and keys, S3, SQS, SES, valkey, configuration binding, templates, auth and mocks: unseen code, network clients, or wrappers that would only add easy members.
