# MCP Manager: a verified model

MCP Manager is a gateway that offers the tools of many downstream MCP servers
under one endpoint. This project models the parts of it in which a mistake
would be invisible in any single function:

- **Lifecycle** (`Lifecycle.dfy`, `LifecycleProofs.dfy`,
  `LifecycleWitnesses.dfy`, `ServerConfig.dfy`, `Generation.dfy`, `Router.dfy`): the coordinator of one downstream server, its
  generations and leases, and the routing of a call. The coordinator is a
  transition system with one step per critical section, channel operation or
  call out; the theorems quantify over every interleaving of the run goroutine,
  `UpdateConfig`, refreshes, `Stop`, parent cancellation and removal.
- **Catalog** (`Naming.dfy`, `ToolCatalog.dfy`, `CatalogState.dfy`,
  `Snapshot.dfy`, `Catalog.dfy`, `Publisher.dfy`): allocation of public names,
  admission against the limits, the incremental difference handed to the SDK
  registry, and the sorted snapshot; the bridge's second registry as well.
- **Configuration** (`ConfigFile.dfy`, `Controller.dfy`, `Transaction.dfy`,
  `AdminSecrets.dfy`): the compare-and-swap file write among any number of
  callers with failures and crashes, the reload controller over any run of polls
  and reloads, and the admin transaction with other writers interfering before
  each of its file accesses.
- **Text and streams** (`DuplicateKeys.dfy`, `EnvExpansion.dfy`,
  `WireLimit.dfy`, `Pagination.dfy`): the duplicate-key stack machine, the
  `${NAME}` expander, the per-message byte limiter and cursor pagination.

SHA-256, JSON encoding, schema checks, environment lookup and downstream servers
are arbitrary functions; the digest of a file is assumed injective exactly where
a lemma says so. Clocks, file-system calls and network calls are
nondeterministic outcomes. The order in which Go walks a map is arbitrary. A Go
string is a sequence of bytes, here of characters.

Properties one might expect that the code does not have, each with its exact
condition and a case in which it fails:

- "A 200 reply of the admin API means that the new bytes are running": if and only
  if the reload found them in the file, that is, no other writer had put other bytes
  there since the replacement (`SuccessRunsNewBytes`, `SuccessMayRunOtherBytes`).
- "`change was rolled back` means that the previous bytes are running": likewise for
  the second reload (`RollbackRunsPreviousBytes`, `RollbackMayRunOtherBytes`). It
  leaves the manager as it was if and only if it ran on the previous bytes before
  (`RollbackRestoresTheController`, `RollbackMayChangeManager`).
- "A write error means that the file is unchanged": it does if and only if the error
  is not that of the directory's synchronisation, which comes after the replacement
  (`OutcomeTellsWhetherItWrote`, `EveryReplyAccountsForTheFile` for the replies,
  `WriteErrorMayReplace`).
- "A failed application changed nothing": it changed the manager if and only if the
  manager ran into its deadline and was handed other servers
  (`FailureChangesManagerExactly`, `FailedApplyMayChangeManager`).
- "No stdio server is given a startup credential": the configuration applied at
  startup is not stripped, so this holds if and only if that configuration passes
  none on or an operation has since reached the manager
  (`ManagedServersKeepSecretsExactly`, `StartupMayPassCredentials`).
- "Only an enabled server is published": the first publication of a session tests
  it; a refresh and an edit of the tool filter do not, so they publish a disabled
  server exactly when they succeed while it is desired disabled, which is before
  the run goroutine has acted on the disabling (`DisabledIsPublishedExactly`,
  `RefreshPublishesDisabled`, `EditPublishesDisabled`).
- "A drainer is always woken": runs of n drainers strand one if and only if n is
  at least two, since they share one token (`StrandingNeedsTwo`); somebody can
  always go on (`SomeoneAlwaysProceeds`).

Two tests in the code turn out to be redundant: the second check after publishing
in `handleConnectingAndReady` never fires (`RevisionFencing`), and in `fetchPages`
the comparison with the current cursor adds nothing to the set of cursors seen
(`FollowsOn`).

Check everything with `dafny verify dfyconfig.toml`.

## Model

| member | source | states |
|---|---|---|
| `LifecycleProofs.RunInvariant` | internal/manager/coordinator.go:141-635 | the invariant (lock ownership, captured revisions, generations, open sessions, pending tokens, state shown, tools shown) holds in every state of every interleaving |
| `LifecycleProofs.InvPreserved` | internal/manager/coordinator.go:141-635 | every step of every participant keeps that invariant |
| `LifecycleProofs.LeavesReadyLoopExactly` | internal/manager/coordinator.go:519-561 | over runs, the run goroutine leaves readyLoop of a generation exactly on a reconcile token, a lost session or a done context |
| `LifecycleProofs.NeverServedAgain` | internal/manager/coordinator.go:519-561 | over runs, a generation that readyLoop has left is never served again |
| `LifecycleProofs.LostSessionIsRetired` | internal/manager/coordinator.go:543-554 | over runs, from the tick that sees a lost session on its generation is not served; it is unavailable (or stopped) and not admitting while it is retired, and closed when the run goroutine turns away |
| `LifecycleProofs.FailureLeadsToBackoff` | internal/manager/coordinator.go:607-635 | a failed connection, listing or publication and a lost session lead to the backoff unless superseded, cancelled or stopped |
| `LifecycleProofs.StatusTellsThePlace` | internal/manager/coordinator.go:350-635 | over runs, the state shown tells what the run goroutine is doing |
| `LifecycleProofs.StepsMoveOn` | internal/manager/coordinator.go:329-635 | every step of the run goroutine but an idle tick takes it to another program point |
| `LifecycleProofs.TopDecides` | internal/manager/coordinator.go:329-348 | finish, wait as disabled or connect, as stopping and the desired state say |
| `LifecycleProofs.DisablingRuns` | internal/manager/coordinator.go:350-392 | the steps of disabling and of beginning an attempt, with what they change |
| `LifecycleProofs.AttemptRuns` | internal/manager/coordinator.go:393-420 | the steps of an attempt up to its session, and of its end |
| `LifecycleProofs.AttemptIsGivenUpExactly` | internal/manager/coordinator.go:421-460 | an attempt is given up exactly when it is no longer for the desired revision of an enabled server |
| `LifecycleProofs.SessionCarriesTools` | internal/manager/coordinator.go:430-489 | the tools listed are the ones published, cached and served by the generation installed |
| `LifecycleProofs.RefreshBegins` | internal/manager/coordinator.go:519-580 | a notification taken begins a refresh, which lists exactly when its generation is current and ready |
| `LifecycleProofs.RefreshPublishesUnless` | internal/manager/coordinator.go:580-605 | a refresh publishes exactly unless stopped, replaced, not ready or superseded |
| `LifecycleProofs.UpdateTakesEffect` | internal/manager/coordinator.go:173-190 | the new configuration is desired after the section unless it equals the old one |
| `LifecycleProofs.StopCompletes` | internal/manager/coordinator.go:141-169 | when Stop is done every generation is closed and the context is done |
| `LifecycleProofs.RevisionFencing` | internal/manager/coordinator.go:451-498 | each publication uses the configuration desired at that instant, published revisions never decrease, the recheck after publishing never fires |
| `LifecycleProofs.StepPublishes` | internal/manager/coordinator.go:451-605 | a step publishes exactly the desired configuration if it is a successful publication of a session, a refresh or an edit, and nothing otherwise; never after Stop; for a new session only if enabled |
| `LifecycleProofs.DisabledIsPublishedExactly` | internal/manager/coordinator.go:173-262 | a disabled configuration is published if and only if a refresh or an edit succeeds while disabled is desired, and then a reconcile token is waiting or readyLoop was left |
| `LifecycleWitnesses.RefreshPublishesDisabled` | internal/manager/coordinator.go:563-605 | a run in which a refresh publishes a disabled server |
| `LifecycleWitnesses.EditPublishesDisabled` | internal/manager/coordinator.go:193-213 | a run in which an edit of the tool filter publishes a disabled server |
| `LifecycleProofs.NoLostToolFilter` | internal/manager/coordinator.go:173-262 | when no update is in progress, a readyLoop without a waiting token shows no tools or what the desired filter leaves, unless the republication of an edit failed or the manager removed the server |
| `LifecycleProofs.ReadyLoopIsShown` | internal/manager/coordinator.go:451-605 | a readyLoop is in state ready and the catalog shows the tools discovered last, unless the manager removed the server |
| `LifecycleProofs.HolderCanProceed` | internal/manager/coordinator.go:173-605 | whoever holds publishMu has an enabled step |
| `LifecycleProofs.RunGoroutineIsNeverStuck` | internal/manager/coordinator.go:329-635 | until it finishes, the run goroutine has a step, or waits for an update that has one or for a Close that can finish |
| `LifecycleProofs.StopIsNeverStuck` | internal/manager/coordinator.go:141-169 | past its section Stop has a step or waits for a Close that can finish |
| `LifecycleProofs.NothingAfterStop` | internal/manager/coordinator.go:141-169 | after Stop's critical section nothing is published, no generation is installed, none is current and the state is never ready again |
| `LifecycleProofs.BreakBeforeMake` | internal/manager/coordinator.go:350-561 | at most one open session, none while a new one is being created, outside readyLoop the current generation is nil or closed, only the latest generation admits calls and it owns the open session |
| `LifecycleProofs.NoLostReconcile` | internal/manager/coordinator.go:173-262 | when no update is in progress, a readyLoop on other connection settings or another call timeout, or a disabled wait while enabled is desired, has a reconcile token waiting |
| `LifecycleProofs.SupersededAttemptIsCancelled` | internal/manager/coordinator.go:173-262 | a superseded or stopped attempt has a cancelled context once the update has returned |
| `LifecycleProofs.DisabledServerHasNoRoutes` | internal/manager/coordinator.go:350-378 | a run goroutine parked as disabled has left no publication behind |
| `ServerConfig.DiffConfig` | internal/manager/coordinator.go:650-675 | the comparison sequence computes the declarative classification of an edit |
| `ServerConfig.MapsEqual` | internal/manager/coordinator.go:689-699 | walking one map after comparing sizes decides equality |
| `ServerConfig.SlicesEqual` | internal/manager/coordinator.go:677-687 | decides equality of slices |
| `ServerConfig.ToolSetsEqual` | internal/manager/coordinator.go:701-711 | walking one set after comparing sizes decides equality |
| `GenerationState.Generation.Acquire` | internal/manager/types.go:144-155 | a lease is granted if and only if admitting, open and fewer than maxConcurrency are out, and refused as busy exactly when all are |
| `GenerationState.Lease.Release` | internal/manager/types.go:72-78 | releasing any number of times gives the lease back once; the count drops by exactly one |
| `GenerationState.Generation.StopAdmission` | internal/manager/types.go:170-181 | ends admission and reports idle exactly when no lease is out |
| `GenerationState.Generation.Close` | internal/manager/types.go:196-213 | the session is closed exactly once over any number of calls |
| `DrainProtocol.LeaseConservation` | internal/manager/types.go:144-168 | in every interleaving the count equals the leases out, stays within the limit, and the clamp is never needed |
| `DrainProtocol.GrantedExactly` | internal/manager/types.go:144-155 | in every interleaving a lease is granted exactly when admission is open and fewer than the limit are out |
| `DrainProtocol.RetirersProceed` | internal/manager/types.go:170-213 | until it is done a retirer has a step that takes it on, or waits for a Close that can finish |
| `DrainProtocol.LeasesOnlyShrink` | internal/manager/types.go:144-194 | once draining or closing began no lease is ever handed out |
| `DrainProtocol.IdleDrainIsFinal` | internal/manager/types.go:170-194 | a drain that returned without timing out leaves zero leases for ever |
| `DrainProtocol.CloseIsGraceful` | internal/manager/types.go:170-213 | a session is closed under a call in flight only after a drain timeout |
| `DrainProtocol.NoLostWakeup` | internal/manager/types.go:157-194 | a lone drainer with no lease out can always finish without its timer, stale tokens included |
| `DrainProtocol.TwoDrainersCanStrandOne` | internal/manager/types.go:161-192 | for every number of drainers from two on, a run in which one is parked with no lease and no token |
| `DrainProtocol.StrandingNeedsTwo` | internal/manager/types.go:157-194 | a run of n drainers can strand one if and only if n is at least two |
| `DrainProtocol.SomeoneAlwaysProceeds` | internal/manager/types.go:157-194 | for any number of drainers, with no lease out and one parked there is a token, or another is rechecking or past its drain |
| `Router.RouteTool` | internal/router/router.go:104-243 | on every path the lease taken is returned, there is at most one downstream call, made exactly under the stated condition and under the original name; the reply of a refused call, and the record with server, outcome and category, are determined |
| `Router.AskedExactly` | internal/manager/manager.go:337-349 | which generation is asked for a lease, in the manager's own terms |
| `Router.ReportExactly` | internal/router/router.go:206-243 | how a call that was made is reported: caller, then call context, then answer |
| `Router.RefusalExactly` | internal/router/router.go:104-172 | how a call that was not made is refused |
| `Router.RecordExactly` | internal/router/router.go:116-135 | outcome and category recorded with each reply |
| `Naming.ResolveNamesWithPriority` | internal/catalog/naming.go:105-161 | the two passes compute, for each tool, the outcome stated without passes: empty, colliding with an external claim or a tool served earlier, or free |
| `Naming.SuccessesAreSound` | internal/catalog/naming.go:105-161 | names given out are valid, outside the external claims and pairwise distinct |
| `Naming.CandidateNameIsValid` | internal/catalog/naming.go:57-100 | for a valid server ID every candidate, direct or alias, is a valid public name of at most 64 characters |
| `Naming.DirectFailsOnlyOnClaims` | internal/catalog/naming.go:105-161 | a direct-valid tool fails exactly on an external claim or an earlier equal original, never because of an alias |
| `Naming.AliasFailsOnlyOnClaims` | internal/catalog/naming.go:105-161 | an aliased tool fails exactly on an external claim, a direct name equal to the alias or an earlier equal alias |
| `Naming.DirectValidExactly` | internal/catalog/naming.go:43-79 | when the direct name is used, in characters and length |
| `Naming.AliasesCoincideExactly` | internal/catalog/naming.go:57-66 | two aliases are equal exactly when server and hash are |
| `Naming.HashedTextIsUnambiguous` | internal/catalog/naming.go:57-66 | the text that is hashed determines server and original name |
| `Naming.DirectOutcomeIgnoresOrder` | internal/catalog/naming.go:105-161 | for distinct originals direct outcomes do not depend on the order or the rest of the list |
| `Naming.DirectNamesCollideAcrossServers` | internal/catalog/naming.go:70-79 | direct names of two valid servers can be equal, so disjointness needs the claims |
| `CatalogModel.FilterDisabledTools` | internal/catalog/filter.go:12-37 | computes both halves of the split, in order; nil pointers are skipped exactly when there is a disabled list |
| `CatalogModel.Dereference` | internal/catalog/catalog.go:117-121 | a nil pointer among the enabled tools, and nothing else, stops the update |
| `CatalogModel.GivenIsTheList` | internal/catalog/filter.go:25-28 | dropping nil pointers drops, adds and moves nothing else |
| `CatalogModel.SelectMembers` | internal/catalog/filter.go:12-37 | one half holds exactly the disabled tools, the other exactly the rest |
| `CatalogModel.SplitConservesTools` | internal/catalog/filter.go:12-37 | the split loses and copies no tool |
| `CatalogModel.AcceptedExactly` | internal/catalog/validation.go:25-120 | accepted are exactly the named tools with object schemas, the SDK's approval and encodings within the limit before and after renaming |
| `CatalogModel.AdmitTools` | internal/catalog/catalog.go:124-198 | the loop builds the draft of the admission fold, which the next rows pin down |
| `CatalogModel.PublishedExactly` | internal/catalog/catalog.go:128-198 | a candidate without naming error is published if and only if its definition is acceptable and, after those published before it, fewer than 512 of its server and 2048 in all and at most 8388608 bytes are reached; and then as its own entry |
| `CatalogModel.RefusedBecause` | internal/catalog/catalog.go:131-185 | a tool that is not published is listed with the first condition that fails |
| `CatalogModel.EverythingThatFitsIsPublished` | internal/catalog/catalog.go:128-198 | if all publishable tools keep the limits, every one is published |
| `CatalogModel.DraftEntries` | internal/catalog/catalog.go:128-198 | every published entry is one of the tools, under its own candidate name and with its own definition |
| `CatalogModel.DraftWithinLimits` | internal/catalog/catalog.go:154-185 | the draft keeps 512 per server, and 2048 tools and 8 MiB together with the other servers; published and unpublished add up |
| `CatalogState.EveryToolIsAccountedFor` | internal/catalog/catalog.go:90-198 | of the discovered tools of any name, each is published once or unpublished once |
| `CatalogState.UpdatePublishesExactly` | internal/catalog/catalog.go:82-198 | the same for a whole update beside the other servers |
| `CatalogState.DisabledIsNeverPublished` | internal/catalog/catalog.go:90-100 | no published tool is one of the disabled |
| `CatalogState.DisabledIsListed` | internal/catalog/catalog.go:93-100 | every disabled tool is listed as disabled |
| `CatalogState.UpdateLeavesTheDraft` | internal/catalog/catalog.go:200-239 | afterwards the server shows the draft, the others are as before, and the revision is new exactly when something shows |
| `CatalogState.RemovalLeavesTheRest` | internal/catalog/catalog.go:245-266 | afterwards nothing of the server is left, the others are as before, and the revision is new exactly when there was something |
| `CatalogState.UpdateKeepsConsistent` | internal/catalog/catalog.go:82-242 | an update keeps names disjoint across servers, entries well filed, and all limits |
| `CatalogState.RemoveKeepsConsistent` | internal/catalog/catalog.go:245-266 | so does a removal |
| `CatalogState.UpdateIsIdempotent` | internal/catalog/catalog.go:200-239 | repeating an update yields empty differences, the same contents and the same revision |
| `CatalogState.UpdateMirrors` | internal/catalog/catalog.go:200-217 | applying the difference of one server to a registry equal to the whole catalog leaves it equal to the whole new catalog |
| `CatalogState.RemoveMirrors` | internal/catalog/catalog.go:249-261 | removing a server's names does the same for a removal |
| `CatalogStore.Catalog.UpdateServerTools` | internal/catalog/catalog.go:82-242 | stores the draft exactly when something shows, reports exactly the difference, keeps the invariant and the snapshot, and accounts for every tool; an invalid server ID or a nil tool that panics changes nothing |
| `CatalogStore.Catalog.RemoveServer` | internal/catalog/catalog.go:245-266 | removes the server and reports each of its names once, keeping the invariant and the snapshot |
| `CatalogStore.OtherServers` | internal/catalog/catalog.go:102-115 | the nested loops compute the names, the count and the bytes of all other servers, in whatever order |
| `CatalogStore.Compare` | internal/catalog/catalog.go:200-232 | the lists hold each removed name and each new or changed tool once, and the change test is exact |
| `CatalogStore.UpdateCounts` | internal/catalog/catalog.go:219-239 | stored or not, the published and unpublished tools of the server add up to the tools discovered |
| `Snapshots.Rebuild` | internal/catalog/catalog.go:269-325 | the snapshot agrees with the catalog: strictly sorted tools, exact routes, exact per-server lists, counts and bytes that are the sums, and the flat unpublished list |
| `Snapshots.Flatten` | internal/catalog/catalog.go:295-311 | the flat list is ordered by server and original name and holds each unpublished tool as often as its server does |
| `Snapshots.GetTool` | internal/catalog/snapshot.go:39-51 | binary search finds a name exactly when the route map has it, and returns what its server published |
| `Snapshots.ListsPartitionRoutes` | internal/catalog/catalog.go:278-293 | a name is in exactly the list of the server its route leads to |
| `Snapshots.RoutesMore` | internal/catalog/catalog.go:280-289 | merging one more server loses no route: the number of routes grows by the number of its tools |
| `Sorting.Search` | internal/catalog/snapshot.go:44-46 | the first position whose key is not smaller |
| `Publishing.Publisher.PublishServer` | internal/inbound/publisher.go:71-91 | after any publication the SDK registry equals the full catalog; an error changes nothing |
| `Publishing.Publisher.RemoveServer` | internal/inbound/publisher.go:94-104 | after any removal the SDK registry equals the full catalog |
| `Publishing.EverySequenceIsMirrored` | internal/inbound/publisher.go:71-104 | after any sequence of publications and removals names are disjoint, every limit holds, and the registry fed by differences equals the full catalog |
| `Publishing.PublishMirrors` | internal/inbound/publisher.go:75-88 | RemoveTools then AddTool in any order of the lists is the synchronisation of the registry |
| `Publishing.DifferenceSynchronises` | internal/inbound/publisher.go:80-88 | any listing of the difference has the same effect on the registry |
| `BridgeRegistry.Bridge.UpdateRegisteredTools` | internal/bridge/bridge.go:406-449 | afterwards the bridge's registry has exactly the wanted names, with definitions equal or encoding alike |
| `BridgeRegistry.WantedIsTheLast` | internal/bridge/bridge.go:410-419 | what is wanted is the last non-nil tool of each non-empty name, with a default input schema |
| `ConfigFile.RunInvariant` | internal/config/atomic.go:70-200 | lock, test, log and counts agree in every interleaving of attempts with failures and crashes |
| `ConfigFile.ReplacesExactlyThePresented` | internal/config/atomic.go:147-194 | lost-update freedom: an attempt presenting the digest of some contents replaces nothing else |
| `ConfigFile.WritesFormAChain` | internal/config/atomic.go:131-200 | each replacement replaces the result of the one before it; the last is the present contents |
| `ConfigFile.SecondWriterNeedsRestoration` | internal/config/atomic.go:147-194 | two writers presenting one digest both succeed only if the contents were restored in between |
| `ConfigFile.OutcomeTellsWhetherItWrote` | internal/config/atomic.go:131-200 | success and a failed directory sync mean one replacement, every other error none |
| `ConfigFile.EveryAttemptIsACas` | internal/config/atomic.go:131-200 | in every interleaving an attempt that got the lock and returned is one compare-and-swap on the contents it found: outcome, replacement and data agree with the operation the admin transaction uses, for the fault its outcome tells of |
| `ConfigFile.SmoothAttemptSucceedsExactly` | internal/config/atomic.go:147-200 | an attempt none of whose steps goes wrong, on a file of legal size, succeeds and has replaced the contents it found if and only if they have the presented digest, and reports a mismatch otherwise |
| `ConfigFile.OutcomeHasItsCause` | internal/config/atomic.go:131-200 | a failure needs a failing step or an oversized file, a busy lock another holder, a failed sync a failing step, an oversize refusal more than 1048576 bytes |
| `ConfigFile.TooLargeExactly` | internal/config/atomic.go:132-134 | data is refused as too large exactly above 1048576 bytes |
| `ConfigFile.UnlockedAttemptFails` | internal/config/atomic.go:131-144 | an attempt that never got the lock failed and replaced nothing |
| `ConfigFile.LockExcludes` | internal/config/atomic.go:70-103 | at most one attempt is between locking and unlocking |
| `ConfigFile.NeverAMixture` | internal/config/atomic.go:161-200 | with the temporary file written in parts and crashes in between, the file always holds its first contents or the whole data of one attempt |
| `ConfigFile.OnlyCrashesLeaveTemps` | internal/config/atomic.go:168-195 | an attempt that returned has left no temporary file |
| `Controllers.Controller.ReloadNow` | internal/runtime/controller.go:159-175 | the fields after a reload, for every combination of reads, load and application |
| `Controllers.Controller.Poll` | internal/runtime/controller.go:177-214 | the fields after a poll; the candidate count is at most 1 again |
| `Controllers.Controller.Apply` | internal/runtime/controller.go:216-269 | the fields after an application, successful or not |
| `Controllers.StripStartupSecrets` | internal/runtime/controller.go:271-294 | removes exactly the entries of stdio servers whose value is a startup credential |
| `Controllers.StrippedKeepsSecrets` | internal/runtime/controller.go:271-294 | afterwards no stdio server has one, and servers that had none are untouched |
| `Controllers.StrippedExactly` | internal/runtime/controller.go:280-293 | exactly the stdio entries whose value is a credential go, everything else stays |
| `ControllerRuns.SecretsExactly` | internal/runtime/controller.go:275-279 | the credentials are the admin token and the MCP tokens active at startup |
| `ControllerRuns.ReloadSucceedsExactly` | internal/runtime/controller.go:159-245 | when a reload succeeds, in terms of the reads, the tokens and the manager's answer |
| `ControllerRuns.ReloadStatusExactly` | internal/runtime/controller.go:159-263 | the status shown says how the last reload ended |
| `ControllerRuns.RestartNeededExactly` | internal/runtime/controller.go:248-255 | no restart is needed exactly when only tokens and servers differ and the address is the one listened on |
| `ControllerRuns.TwoPollsApply` | internal/runtime/controller.go:177-214 | two successive polls of new contents apply them, if they can be reloaded, exactly unless the first acted on them and failed |
| `ControllerRuns.CandidateWasJustSampled` | internal/runtime/controller.go:199-214 | over any run the count is at most 1 between operations, and a candidate is what the very last operation sampled |
| `ControllerRuns.PollAppliesOnlyStableContents` | internal/runtime/controller.go:177-197 | a poll touches the configuration or the manager only for a digest the preceding poll had sampled too |
| `ControllerRuns.OnlySuccessInstalls` | internal/runtime/controller.go:159-269 | a failed operation leaves configuration, digest and restart flag; a success installs exactly what was read |
| `ControllerRuns.RestartFlagFollowsLastApplied` | internal/runtime/controller.go:246-263 | over any run the restart flag depends on startup and the last applied configuration alone |
| `ControllerRuns.AdminTokenIsNeverActive` | internal/runtime/controller.go:102-115 | over any run the active MCP tokens never contain the startup admin credential |
| `ControllerRuns.ManagedServersKeepSecretsExactly` | internal/runtime/controller.go:236-245 | over any run the stdio servers carry no startup credential if and only if an operation reached the manager or the servers applied at startup carried none |
| `ControllerRuns.StartupMayPassCredentials` | internal/cli/app.go:143-146 | the failing case: a startup configuration that passes a credential on in a server's own environment |
| `ControllerRuns.ManagedIsHanded` | internal/runtime/controller.go:216-245 | the manager's servers change by nothing but a stripped configuration that reached it |
| `ControllerRuns.FailureChangesManagerExactly` | internal/manager/manager.go:192-249 | a failed operation changed the manager's servers if and only if it reached the manager, ran into the deadline and handed other servers |
| `ControllerRuns.FailedApplyMayChangeManager` | internal/manager/manager.go:242-249 | an instance: a reload that fails by timeout and changes the manager |
| `Transactions.Hub.Transact` | internal/admin/admin.go:351-397 | reply, file, replacements and controller as a function of the request and all that the transaction meets |
| `Transactions.Hub.Replace` | internal/admin/admin.go:415-481 | the same from the second read on |
| `TransactionProofs.EachReplyExactly` | internal/admin/admin.go:351-457 | 400, 404, 409 and the early 500s, each if and only if its condition on the file at each access, If-Match, the edit, the preflight and the write holds |
| `TransactionProofs.EachLateReplyExactly` | internal/admin/admin.go:449-481 | 200, the write error and the three rollback replies, each if and only if its condition on files, faults and the manager's answers holds |
| `TransactionProofs.FailedPreflightWritesNothing` | internal/admin/admin.go:440-448 | a failed preflight is a refusal that wrote nothing |
| `TransactionProofs.RefusalsWriteNothing` | internal/admin/admin.go:351-457 | 400, 404, 409 and the early 500s wrote nothing and left the controller alone |
| `TransactionProofs.EveryReplyAccountsForTheFile` | internal/admin/admin.go:415-481 | for every combination of outcomes and other writers the replacements made are exactly those the reply stands for, each of exactly the contents compared; a failed write replaced the file exactly when only the directory sync failed |
| `TransactionProofs.OnlyMatchingRequestsGoAhead` | internal/admin/admin.go:351-360 | only a request whose If-Match names the contents goes ahead |
| `TransactionProofs.SuccessRunsNewBytes` | internal/admin/admin.go:458-480 | after a 200 the new bytes are running if and only if the reload found them, no other writer having put other bytes there |
| `TransactionProofs.SuccessMayRunOtherBytes` | internal/admin/admin.go:458-480 | the failing case: a 200 while another writer's bytes are running |
| `TransactionProofs.RollbackRunsPreviousBytes` | internal/admin/admin.go:463-476 | after "rolled back" the previous bytes are running if and only if the second reload found them |
| `TransactionProofs.RollbackMayRunOtherBytes` | internal/admin/admin.go:463-476 | the failing case: "rolled back" while another writer's bytes are running |
| `TransactionProofs.RollbackMayChangeManager` | internal/admin/admin.go:463-476 | the failing case of `RollbackRestoresTheController`: "rolled back" with nobody else writing, and other servers than before |
| `TransactionProofs.WriteErrorMayReplace` | internal/admin/admin.go:449-457 | a write error after which the file holds the new bytes |
| `TransactionProofs.RollbackRestoresTheController` | internal/admin/admin.go:463-476 | with no other writer before the second reload, configuration, digest, restart flag and managed servers are the ones before the transaction if and only if they were those of the previous bytes |
| `TransactionProofs.EntityTagRoundTrip` | internal/admin/admin.go:708-710 | the tag of a reply, sent back, names the same digest and no other |
| `TransactionProofs.IfMatchNamesOneDigest` | internal/admin/admin.go:708-710 | whatever blanks surround it and quoted or not, an If-Match value names one digest |
| `AdminSecrets.RedactConfig` | internal/admin/admin.go:495-514 | every secret is shown as the sentinel and nothing else changes |
| `AdminSecrets.ShownAlikeExactlyUpToSecrets` | internal/admin/admin.go:495-514 | two configurations are shown alike if and only if they differ in secret values alone |
| `AdminSecrets.MergeSecrets` | internal/admin/admin.go:516-531 | the merge, with a sentinel for a missing value dropped |
| `AdminSecrets.ShownValuesRestore` | internal/admin/admin.go:516-531 | saving what is shown restores every secret |
| `AdminSecrets.EditTouchesOneValue` | internal/admin/admin.go:516-531 | editing or removing one shown value changes that value alone |
| `AdminSecrets.NoSentinelIsStored` | internal/admin/admin.go:516-531 | a sentinel is stored only where it was stored before |
| `DuplicateKeys.CheckDuplicateKeys` | internal/config/decode.go:26-97 | the loop runs the stack machine |
| `DuplicateKeys.AcceptsExactlyUniqueValues` | internal/config/decode.go:26-97 | a token stream of JSON values is accepted exactly when no object at any depth repeats a key |
| `DuplicateKeys.RejectionNamesARepeatedKey` | internal/config/decode.go:70-80 | the key reported is one that some object repeats |
| `DuplicateKeys.BrokenStreams` | internal/config/decode.go:41-95 | a stream that breaks off without repeated keys is a token error when the decoder fails, and unclosed or complete when it ends |
| `DuplicateKeys.ValueRestoresStack` | internal/config/decode.go:38-90 | one value restores the enclosing stack, its parent expecting a key next |
| `DuplicateKeys.MembersCollectKeys` | internal/config/decode.go:70-90 | the members of an object pass exactly when their keys are new and their values unique |
| `EnvExpansion.ExpandEnv` | internal/config/env.go:25-78 | the loop computes the value of the unique reading, errors included |
| `EnvExpansion.ExpandMeans` | internal/config/env.go:25-78 | for every reading: the text with each reference replaced by its variable's value if and only if the input is complete and every name is set and not blank; otherwise the error of the leftmost offence with its index or name |
| `EnvExpansion.SegmentStandsAtOffset` | internal/config/env.go:25-78 | the index in an error is where the segment stands in the input |
| `EnvExpansion.ParseReads` | internal/config/env.go:25-78 | every input has a reading in the segment grammar |
| `EnvExpansion.ReadingIsUnique` | internal/config/env.go:25-78 | and only one |
| `EnvExpansion.OnlyReferencesMatter` | internal/config/env.go:60-72 | the result depends on the variables referred to alone |
| `EnvExpansion.EscapeRoundTrip` | internal/config/env.go:25-78 | every text can be escaped so that it expands to itself under every lookup |
| `WireLimit.Reader.Read` | internal/wirelimit/reader.go:38-66 | one read delivers exactly the bytes that the whole stream so far allows |
| `WireLimit.ExceededMeansTooLong` | internal/wirelimit/reader.go:43-65 | the meter trips exactly when some message, body, line or event exceeds the limit |
| `WireLimit.DeliveredIsLongestFit` | internal/wirelimit/reader.go:38-66 | what is delivered is the longest prefix in which every message fits |
| `WireLimit.DeliveredStops` | internal/wirelimit/reader.go:38-41 | after the limit error nothing more is delivered |
| `WireLimit.ReadStream` | internal/wirelimit/reader.go:38-66 | however the stream is cut into reads, the bytes delivered depend on the stream alone |
| `Pagination.FetchPages` | internal/downstream/session.go:325-384 | at most 64 requests with pairwise different cursors; success exactly when the chain ends within the limits without repeating a cursor, and then the in-order concatenation |
| `Pagination.CollectPage` | internal/downstream/session.go:350-368 | a page is kept exactly when the list stays free of duplicates, encodable, and within 4096 tools and 8 MiB |
| `Pagination.PresentIsTheList` | internal/downstream/session.go:350-353 | dropping nil tools drops, adds and moves nothing else |
| `Pagination.FollowsOn` | internal/downstream/session.go:370-381 | the cursors recorded follow the chain, and the current one is always empty or among those seen |
| `Pagination.EndingChainHasNoLoop` | internal/downstream/session.go:370-381 | a server that answers by cursor and ends its chain has repeated no cursor |
| `Pagination.StatelessChainDecides` | internal/downstream/session.go:325-384 | for such a server success is decided by the chain ending within the limits |

## Left out

- HTTP routing, cookies, headers, static assets, the browser UI, command line flags, release scripts: presentation and I/O.
- Internals of the MCP SDK, `encoding/json`, URL and CIDR parsing, SHA-256: arbitrary functions here; the SDK registry is a map in which adding replaces.
- Wall-clock timers, back-off delays, the limiter's capacity and OS process groups: nondeterministic steps only.
- `Manager.Apply` as a whole: its revision counter and its unlocked removal are steps of the coordinator model and its error cases are inputs of the controller; "a removed server has no routes" is not claimed, because a late commit can follow the removal.
- Freshness of tool lists: a failed or superseded refresh is discarded by the code, so "every change notification is published" is not claimed.
- `CollectDownstreamTools` (internal/catalog/pagination.go): a sibling of `fetchPages` that would add no harder claim.
- `MergeEnv`, `validateJSONShape`, `Preflight`, status reporting and recent calls: easy or unrelated to the protocols above.
- GenerationState.Generation.StopAdmission: the waiting loop of `drain` is not in the class, because it needs other goroutines to progress; `DrainProtocol` has it as steps.
- CatalogModel.AcceptedExactly: the encoder, the decoding of the copy and the SDK's registration test are arbitrary functions; error texts are shortened.
- CatalogStore.Catalog.UpdateServerTools: a changed original name behind an unchanged public name and definition is not stored, as in the code.
- ConfigFile.OnlyCrashesLeaveTemps: a failing removal of a temporary file, which the code ignores, is not modelled.
- LifecycleProofs.NoLostToolFilter: a republication that failed stays pending in the code until the next publication; the model records it and claims nothing for it.
- Naming.ResolveNamesWithPriority: the index the claim map stores with a name is never read and is dropped.
- Transactions.Hub.Transact: decoding, editing, validating, resolving and encoding are one arbitrary function of the bytes read; a handler without a controller is not modelled.
- Controllers.Controller.Apply: a controller without a manager is not modelled; resolved configurations carry the fields the controller reads.
- EnvExpansion.ExpandEnv: the loop keeps the remaining text instead of an index into the input.
- WireLimit.Reader.Read: errors of the underlying reader are not modelled; a short read is a shorter chunk.
- Router.RouteTool: metrics, request identifiers and log lines are not modelled; the caller's context and the downstream answer are inputs.
