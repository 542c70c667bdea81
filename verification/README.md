# Fortify Lab Manager: the lifecycle control plane, verified

This project models the lifecycle control plane of Fortify Lab Manager in Dafny and proves what its
parts promise, alone and together: the dependency graph, the planners over it, the concurrent engine that
executes plans, and the approval, recovery, retry and migration machinery around it.

`dafny verify dfyconfig.toml` checks everything.

## How the parts fit

| file | subject |
|---|---|
| `Sequences.dfy`, `Decimal.dfy` | facts about finite sequences and sets; decimal numerals |
| `Graph.dfy`, `ComponentRegistry.dfy` | the dependency graph; closure and Kahn's sort, with the exact cycle report |
| `Plans.dfy`, `Planner.dfy` | what makes a plan safe to run; start, stop, restart and lab planners |
| `Worker.dfy` | one run of a plan as a machine: accounting, verification, cancellation, termination |
| `Engine.dfy` | submissions, workers, cancellations and restarts interleaved: exclusion and dependency safety |
| `EngineRuns.dfy` | late adapter calls after a cancellation, and runs that break what the documentation promises |
| `EngineRecords.dfy` | what the events of an operation record in every reachable state, and when its retry is admitted |
| `OperationEngine.dfy` | the engine's methods, updating store and events in place; each run is a trace of the worker machine |
| `Resume.dfy` | event-based resume and retry chains |
| `Health.dfy` | health evaluation in dependency order; well-founded root causes |
| `ProfileUpgrade.dfy`, `UpgradePlans.dfy` | upgrade runs with reverse rollback; single-use upgrade plans |
| `Authorization.dfy`, `RemoteActions.dfy` | the approval ledger; approvals, tokens and operations under any interleaving |
| `ConfigText.dfy` to `ConfigRounds.dfy`, `ConfigHeaders.dfy` | the text-level merge of configuration defaults; strings and table headers against TOML |
| `Heartbeat.dfy`, `HeartbeatRuns.dfy` | heartbeat leases and retention |
| `LoginLimiter.dfy`, `Communications.dfy` | the login limiter, the callback codec |
| `Supervisor.dfy`, `Rollover.dfy` | the supervisor's queue and active milestone; which milestone lists can be walked to the end |

The chain that carries the most weight starts at the graph. `DependencyOrder` returns an order of the least closed
set, which makes every plan a *safe plan*: each step finds what it relies on established by the steps before it.
The engine's conflict check keeps active operations on disjoint components, even though worker saves happen outside
the lock and a cancellation may overwrite an operation that has just finished. Together these give
`Engine.DependencySafety`: the set of up components stays dependency-closed after every step of every
interleaving, whatever failed adapter calls did and at whatever moment of a call its effect came.

Approvals and declarations tie in at the two ends of that chain. Every created operation executes exactly the plan its
own approval was requested for (`RemoteActions.RemotePlanOnce`). Every planned step does what the registry declares for
it: one that may not be repeated is called at most once in a run (`Planner.NotRepeated`), and it counts as done only
after one attempt that passed all of its declared checks (`Planner.PublishedAsDeclared`). While a run goes on, the
store shows the operation as active whenever another thread looks (`OperationEngine.LifecycleEngine.Run`).

Some promises do not hold as the documentation states them, and the project says exactly when they do:

- Terminal operation states are not final. `Engine.TerminalLostIff` says when one can be lost, and
  `EngineRuns.TerminalCanBeLost` gives a run.
- A resumed operation does not look again at the components it skips. The exact conditions under which that is safe
  are `Resume.ResumeSafeIff` for operations that start components and `Resume.ResumeSuspendSafeIff` for those that
  stop them; `EngineRuns.ResumeCanStrand` and `EngineRuns.SuspendCanStrand` are whole runs, from the first
  submission on, in which it is not. What the events of a retry chain record is closed in the graph all the same
  (`Resume.ChainStaysClosed`, `Resume.ChainStaysConsumerClosed`), so the plan that remains is always in a valid order,
  and the engine admits it unless a component is in use (`EngineRecords.StartRetryIff`, `EngineRecords.StopRetryIff`).
- Across retries each planned step succeeds exactly once if and only if every retry wrote all the step-resumed events
  it owed (`Resume.ExactlyOnce`). A restart in the middle of the copying leaves some out, and
  `Resume.CanSucceedTwice` is a chain in which a step then succeeds twice.
- `_multiline_string_state` leaves a multi-line string where TOML v1.0.0, section "String", does if and only if its
  content does not end in exactly one quotation mark of its own kind (`ConfigStrings.ClosesIff`).
  `ConfigStrings.LineReads` and `ConfigStrings.FirstExtraMarkReads` say what it makes of every line, and
  `ConfigStrings.OneExtraMarkMisread` is one it gets wrong.
- The merge promises a default in its table. It sees a TOML table header if and only if the header is plain: a
  table, not an array of tables, with bare keys and no white space inside the brackets (`ConfigHeaders.HeaderReadsIff`).
  A default for the table in front of any other header lands behind that header, in the table it opens
  (`ConfigHeaders.DefaultStaysIff`); `ConfigHeaders.ArrayTakesDefault` is a text with `[[x]]`. The other way round,
  a row like `[1]` of a multi-line array is taken for a header (`ConfigHeaders.SeenIff`).
- `docs/operations/sdlc-supervisor.md` promises that a validated milestone transition is made. The event that records
  a move has a unique fingerprint which need not name the move, so a move whose fingerprint an earlier event has is
  refused for good, and only such a move is (`Rollover.NextMoveIff`). Titles decide it: `Rollover.ClashIff` says when
  moves out of two titles can share a fingerprint, `Rollover.WalkIff` which lists can be walked to the end.
  `Rollover.RolloverCanStick` is a list of four titles that sticks after two moves.
- `docs/runner-heartbeats.md` says a new runner invocation increments the issue generation. It does if and only if the
  record of the last invocation is still there (`HeartbeatRuns.NextGenerationRisesIff`); once retention has deleted it
  the generation is 1 again, as in the run of `HeartbeatRuns.GenerationCanRepeat`. The fresh writer id is what fences
  earlier writers (`HeartbeatRuns.EarlierWritersAreFenced`).

Adapters, probes, verifiers, deadlines and every other thread are free: any answer is a possible one. Stores are maps
with atomic actions, clocks are parameters, and identifiers that the code draws at random are fresh by assumption.

## Model

| member | source | states |
|---|---|---|
| `Graph.ClosureIsLeast` | manager/component_registry.py:79-88 | what the recursive `include` collects is closed, contains the selection, and lies in every closed set that does |
| `Graph.PathGoesLeft` | manager/component_registry.py:103-113 | in a returned order every dependency path leads strictly to the left |
| `Graph.SelfDependentIsCyclic` | manager/component_registry.py:110-112 | leftover components in which each depends on one of them contain a cycle, by pigeonhole on a long walk |
| `ComponentRegistry.Include` | manager/component_registry.py:79-85 | the recursion ends, adds the identifier and all it reaches and nothing else, or reports an unknown identifier it reached |
| `ComponentRegistry.CollectClosure` | manager/component_registry.py:76-88 | for any iteration order of the requested set, the result is the closure, or an unknown identifier the selection reaches |
| `ComponentRegistry.CountEdges` | manager/component_registry.py:90-95 | in-degrees and consumer lists count duplicate dependency entries with the same multiplicity on both sides |
| `ComponentRegistry.PendingAfter` | manager/component_registry.py:106-109 | finishing a component lowers each consumer's count by exactly its multiplicity |
| `ComponentRegistry.LowerNext` | manager/component_registry.py:106-109 | each decrement is still owed, and its consumer is ready exactly when nothing else is pending for it |
| `ComponentRegistry.Release` | manager/component_registry.py:106-109 | the inner loop queues a consumer exactly when its last pending dependency is finished |
| `ComponentRegistry.Drain` | manager/component_registry.py:97-109 | the queue loop ends with dependencies first and in-degrees equal to the unfinished dependencies |
| `ComponentRegistry.LeftoverIsCore` | manager/component_registry.py:110-112 | the components left with a positive in-degree are the greatest subset whose members each depend on a member |
| `ComponentRegistry.DependencyOrder` | manager/component_registry.py:74-113 | returns the least closed superset of the selection, once each, dependencies first; reports an unknown component iff the selection reaches one, and a cycle iff the closure has one, naming its greatest self-dependent set |
| `Plans.RaisingPlanIsSafe` | manager/operation_engine.py:785-789 | dependencies-first order makes a starting plan establish everything each step relies on |
| `Plans.LoweringPlanIsSafe` | manager/operation_engine.py:790-809 | consumers-first order makes a stopping plan safe |
| `Plans.ConcatIsSafe` | manager/operation_engine.py:777-780 | a safe stop followed by a safe start is safe |
| `Plans.ReversedOrder` | manager/operation_engine.py:804-808 | reversing an order and keeping a consumer-closed part puts consumers first and keeps exactly that part |
| `Plans.ConsumersIsLeast` | manager/operation_engine.py:645-651 | a component and its transitive consumers form the least consumer-closed set that contains it |
| `Planner.MakeSteps` | manager/operation_engine.py:809-835 | steps for a list exist iff every member declares the operation with a positive timeout; each has the declared checks, the smaller of the declared and the engine's time bound, and more than one attempt only if declared idempotent |
| `Planner.NotRepeated` | manager/operation_engine.py:833-833 | in any run of a plan, a step whose capability is not declared idempotent is called at most once |
| `Planner.PublishedAsDeclared` | manager/operation_engine.py:826-852 | in any run of a plan, a step is published only after one attempt that passed every check the registry declares for it |
| `Planner.TransitiveDependencies` | manager/operation_engine.py:811-812 | the closure of one component without itself |
| `Planner.MissingConsumers` | manager/operation_engine.py:791-799 | the check finds nothing iff the selection is closed under transitive consumers |
| `Planner.StepsWithDependencies` | manager/operation_engine.py:785-789 | the plan covers exactly the closure of the selection, in dependency order, and is safe for raising operations |
| `Planner.StepsWithConsumers` | manager/operation_engine.py:790-809 | accepted iff the selection is consumer-closed and declares the operation; then a permutation of it, consumers first, safe; otherwise blocked exactly when not consumer-closed |
| `Planner.Plan` | manager/operation_engine.py:774-783 | every accepted plan is safe, can be run by the worker, has its operation's shape and does each step as the registry declares it; for a sound registry, accepted iff plannable, blocked iff not consumer-closed |
| `Planner.RestartPlan` | manager/operation_engine.py:777-780 | stops exactly the selection, then starts its whole closure; safe; accepted iff both halves are |
| `Planner.SuspendSelection` | manager/operation_engine.py:645-651 | selects the component and exactly its transitive consumers |
| `Planner.LabSteps` | manager/operation_engine.py:631-662 | a lab plan installs, starts or suspends and does nothing else; it is safe, can be run by the worker, covers exactly its scope in the order of its direction with each step as declared, is never blocked, and exists iff every member declares the operation |
| `Worker.CallsBounded` | manager/operation_engine.py:873-919 | a run calls the adapter for a step at most as often as the step has attempts |
| `Worker.TotalCallsBounded` | manager/operation_engine.py:837-919 | a run begins at most the sum of its remaining steps' attempts |
| `Worker.PublishedCount` | manager/operation_engine.py:842-852 | finished steps are those resumed plus those published |
| `Worker.PublishIsEarned` | manager/operation_engine.py:881-904 | a step is published only at the end of one attempt whose adapter call returned and whose checks all passed, each behind its boundary |
| `Worker.AtMostOneLateCall` | manager/operation_engine.py:880-882 | once the cancellation flag is up at most one adapter call begins, and only if its boundary check had passed |
| `Worker.RunsEnd` | manager/operation_engine.py:837-919 | every run is finite, with an explicit bound |
| `Engine.ExclusionStep` | manager/operation_engine.py:539-588 | each atomic action keeps active operations disjoint and the lock holder's view valid |
| `Engine.MutualExclusion` | manager/operation_engine.py:204-211 | in every reachable state two queued, running or cancelling operations affect disjoint components |
| `Engine.StatesAreJustified` | manager/operation_engine.py:134-150 | no action drops an operation; an outcome is written only when its run ended with it, running only while it runs, cancelling only by a cancellation, and a restart leaves exactly the active operations interrupted |
| `Engine.TerminalLostIff` | manager/operation_engine.py:760-771 | a stored terminal state can be lost in the next step iff a cancellation that read it earlier still holds the lock |
| `EngineRuns.TerminalCanBeLost` | manager/operation_engine.py:760-771 | a run in which a succeeded operation becomes cancelling |
| `EngineRuns.AtMostOneCallAfterCancel` | manager/operation_engine.py:921-927 | in every interleaving, after a cancellation raised its flag at most one adapter call of the operation begins, and only if its boundary check had passed |
| `Engine.EffectStep` | manager/operation_engine.py:882-919 | an adapter call keeps the up set closed, and what the other workers rely on, at whatever moment it takes effect |
| `EngineRecords.RecordsHold` | manager/operation_engine.py:471-482 | in every reachable state the events of each operation record exactly a prefix of the plan it was created with, and all of its worker's finished steps |
| `EngineRecords.StartRetryIff` | manager/operation_engine.py:713-740 | in every reachable state an ended starting operation has a closed record, and its retry over any valid order is admitted iff the lock is free and no active operation shares a component |
| `EngineRecords.StopRetryIff` | manager/operation_engine.py:461-483 | the same for an ended stopping operation, consumers first |
| `Engine.EffectKeepsClosed` | manager/operation_engine.py:882-919 | an adapter call of a safe plan keeps the up set closed, whether it took effect or not |
| `Engine.EffectElsewhere` | manager/operation_engine.py:539-545 | a worker moves no component of another active operation's plan |
| `Engine.SafetyStep` | manager/operation_engine.py:837-927 | each atomic action keeps the whole safety invariant |
| `Engine.DependencySafety` | manager/operation_engine.py:774-856 | from a closed up set, every interleaving of non-resumed operations keeps it closed, with adapter effects at any moment of a call, through failures, timeouts, cancellations and restarts in mid-call |
| `Engine.DependencySafetyResumed` | manager/operation_engine.py:461-485 | the same with resumed operations, which skip what the events of the operation they retry record, when the skipped components are in place at creation |
| `EngineRuns.ResumeCanStrand` | manager/operation_engine.py:461-485 | a run: a start publishes its first step and fails, a stop takes both components down, the retry skips the first and strands its consumer |
| `EngineRuns.SuspendCanStrand` | manager/operation_engine.py:461-485 | the mirror run for a suspend whose consumer came up again |
| `OperationEngine.ResumedEventsRecord` | manager/operation_engine.py:471-482 | the step-resumed events a retry writes record exactly the skipped steps for the next one |
| `OperationEngine.LifecycleEngine.ActiveComponents` | manager/operation_engine.py:204-211 | the union of the components of active operations, and nothing else |
| `OperationEngine.LifecycleEngine.Admit` | manager/operation_engine.py:546-563 | with authorization on: identity required iff it is missing, another's or nothing observes the state; otherwise admitted iff the state is available and the plan is routine or a matching approval exists, which is then consumed |
| `OperationEngine.LifecycleEngine.PrepareSteps` | manager/operation_engine.py:527-589 | a conflict iff an active operation shares a component, before any approval is touched; prepared iff admitted and there are steps, with exactly one new queued document over the plan's components, each once; the approval it uses up was approved, by the same actor and not yet expired, for exactly the operation, components and state of the new document |
| `OperationEngine.PlanBoundary` | manager/operation_engine.py:961-971 | the recovery class of some step, and no step has a more severe one |
| `OperationEngine.BoundaryMeans` | manager/operation_engine.py:33-42 | irreversible iff the plan deletes data, else restore iff it upgrades, else compensating iff it installs or uninstalls, else reversible |
| `OperationEngine.LifecycleEngine.Cancel` | manager/operation_engine.py:747-772 | each refusal (no actor, no identity, unknown, terminal) with its exact cause and no change; otherwise flags the operation, rewrites its state and adds one event |
| `OperationEngine.LifecycleEngine.ShownConflicts` | manager/operation_engine.py:539-545 | while the store shows a run, a submission over any of its components meets the conflict check |
| `OperationEngine.LifecycleEngine.ResumeSteps` | manager/operation_engine.py:461-483 | runs exactly the steps without a succeeded or resumed event, counts the rest, and carries them forward |
| `OperationEngine.LifecycleEngine.CheckBoundary` | manager/operation_engine.py:921-927 | a set flag is always seen, before the deadline is looked at |
| `OperationEngine.LifecycleEngine.Attempt` | manager/operation_engine.py:880-893 | an attempt returns only with every declared check passed |
| `OperationEngine.LifecycleEngine.Save` | manager/operation_engine.py:837-857 | what a run writes on the way shows it as running, with its own operation and components, its exact count and the step and attempt it is in |
| `OperationEngine.LifecycleEngine.ExecuteStep` | manager/operation_engine.py:873-919 | one step-succeeded event when an attempt comes through, none otherwise; errors are retried within the bound, cancellation and timeout are not |
| `OperationEngine.LifecycleEngine.Run` | manager/operation_engine.py:837-871 | the run is a trace of the worker machine that ends; whenever other threads look on the way the operation is shown as active over its components; the final document is the first one but for its outcome, its exact count, the current step (none on success, else the one it stopped in) and, if not successful, the recovery of that step; one step-succeeded event per finished step in plan order, and the events of exactly the attempts made; succeeded iff all steps are done |
| `OperationEngine.ExplainsMeans` | manager/operation_engine.py:873-919 | the log of a run is a machine trace, and the attempts it accounts for are those of the trace |
| `OperationEngine.AccountsMean` | manager/operation_engine.py:842-853 | one mark per copied and per finished step means the recorded keys are the first steps of the plan, as many as the count says |
| `OperationEngine.LifecycleEngine.RunRetry` | manager/operation_engine.py:713-740 | a retry from creation to end: its count is the number of step-succeeded and step-resumed events, one per recorded key, and it succeeds iff all planned keys are recorded |
| `Resume.PrefixIsClosed` | manager/operation_engine.py:713-727 | what a starting run finished is dependency-closed, wherever it stopped |
| `Resume.PrefixIsConsumerClosed` | manager/operation_engine.py:461-469 | what a suspending run finished is consumer-closed |
| `Resume.ResumeKeepsOrder` | manager/operation_engine.py:723-727 | skipping a closed set from any other valid order leaves a valid order |
| `Resume.ResumeKeepsConsumersFirst` | manager/operation_engine.py:466-469 | the same for consumers-first orders |
| `Resume.ResumeSafeIff` | manager/operation_engine.py:718-727 | running the remaining starts keeps the up set closed iff every skipped dependency of a remaining component is still up |
| `Resume.ResumeSuspendSafeIff` | manager/operation_engine.py:461-483 | running the remaining stops keeps the up set closed iff no skipped consumer of a remaining component is up again |
| `Resume.RecordIsClosed` | manager/operation_engine.py:728-740 | what a retry's own events record is dependency-closed again, wherever it stopped and even when the copying was cut short |
| `Resume.RecordIsConsumerClosed` | manager/operation_engine.py:471-482 | the same for a retried suspend and consumers |
| `Resume.ChainStaysClosed` | manager/operation_engine.py:713-740 | after any chain of retries over valid orders the record is dependency-closed, and skipping it leaves every valid order valid |
| `Resume.ChainStaysConsumerClosed` | manager/operation_engine.py:461-483 | the same for chains of suspends and consumers-first orders |
| `Resume.CarriedIsExact` | manager/operation_engine.py:728-740 | a record always carried forward is exactly the successes so far, each once |
| `Resume.ExactlyOnce` | manager/operation_engine.py:713-740 | a chain that ends in success has succeeded at every planned step, each exactly once iff every retry wrote all its step-resumed events |
| `Resume.NoRestartIff` | manager/operation_engine.py:730-739 | the record is carried forward throughout iff no restart cut the copying short |
| `Resume.CanSucceedTwice` | manager/operation_engine.py:713-740 | a chain that ends in success and runs a step twice |
| `Health.RankStateMeans` | manager/health.py:266-271 | the ranked state is shown by an entry, and no entry shows a more urgent one; healthy iff no entry shows a problem |
| `Health.StatesMean` | manager/health.py:219-235 | the direct state is the most urgent of the required, directly observed problems and goes before a block; blocked iff nothing is directly wrong and a check was held up; degraded otherwise iff some evidence is not healthy |
| `Health.RootsMean` | manager/health.py:237-249 | an item has no root cause iff nothing directly observed is wrong and nothing blocks it |
| `Health.BlockingHasRoot` | manager/health.py:241-249 | an item that would block a consumer names a root cause, so the bare-name fallback is never used |
| `Health.BlocksIffDown` | manager/health.py:293-306 | a dependency blocks iff its latest item shows it down: infrastructure by its state, a component by its workload, storage, service or application evidence |
| `Health.GatheredMeans` | manager/health.py:144-176 | each check is shown once, directly observed iff none of its dependencies is down, else unknown with exactly those named; besides there is what is reported about the external route |
| `Health.SubjectsForeseen` | manager/health.py:504-539 | every dependency of a check is a declared dependency of its subject and is evaluated before it |
| `Health.RootGrounded` | manager/health.py:237-249 | each root cause of a new item names a required, directly observed, unhealthy check, reached through dependencies that blocked checks |
| `Health.RootsGiven` | manager/health.py:237-253 | the root causes are, each once, one for every culprit and the first root cause of every dependency that held a check up, and the first is that of the first such dependency |
| `Health.EvaluateGrounded` | manager/health.py:143-180 | one turn of the loop keeps every root cause grounded |
| `Health.Evaluations` | manager/health.py:143-180 | the loop looks up only evaluated dependencies, grounds every root cause, and gives every subject an item whose states, blocker and root causes follow from its evidence, and its evidence from the items before it |
| `Health.Document` | manager/health.py:134-208 | a fault iff the registry has a gap or a cycle; otherwise one item per subject, in dependency order, all grounded, each with what its evidence and the items before it call for |
| `Health.DeclaredIsProbedIff` | manager/health.py:504-595 | from the registry to the evidence: a required check of a component is observed directly iff the node is up and, for a volume, storage, and for any check but that of a workload or a volume, DNS and every component it depends on; one that shows worse than degraded takes its component down |
| `ProfileUpgrade.MakePlanIsWellMade` | manager/profile_upgrade.py:181-201 | a plan exists iff some version changes; it lists exactly the changed components, in dependency order, between the two profiles, with each component's declared recovery class, reversible if none is declared |
| `ProfileUpgrade.NeedsRestoreIff` | manager/profile_upgrade.py:413-420 | a component needs a restore iff its step is of class restore-required or irreversible |
| `ProfileUpgrade.RollBackAll` | manager/profile_upgrade.py:439-473 | rollbacks happen in the given order, and all of them restore the source versions when each verifies |
| `ProfileUpgrade.Recover` | manager/profile_upgrade.py:390-473 | suspects every upgrade that was called; not required iff there is none; blocked iff one needs a restore; rolled back means exact reverse order and source versions |
| `ProfileUpgrade.Run` | manager/profile_upgrade.py:329-388 | succeeded means every component on its target version; otherwise the upgrades called are a prefix of the plan and recovery has handled exactly those |
| `ProfileUpgrade.DeclaredRestoreIff` | manager/profile_upgrade.py:190-198 | a run of a made plan that did not succeed asks for a restore, without any rollback, iff it called the upgrade of a component declared restore-required or irreversible |
| `ProfileUpgrade.RolledBackMeansSource` | manager/profile_upgrade.py:439-463 | a rolled-back run leaves the source versions, in exact reverse order of the upgrades called |
| `ProfileUpgrade.NotRequiredMeansUntouched` | manager/profile_upgrade.py:402-412 | a not-required run called no upgrade and changed nothing |
| `ProfileUpgrade.RestoreBlocksRollback` | manager/profile_upgrade.py:413-431 | no rollback when a component that may have changed needs a restore |
| `UpgradePlans.AtMostOneOperation` | manager/profile_upgrade.py:126-134 | however submissions, cancellations and restarts interleave, a plan yields at most one operation |
| `UpgradePlans.RowsMove` | manager/profile_upgrade.py:126-134 | a plan row is consumed by exactly one submission and never free again, a restart turns exactly the pending cancellations into interruptions, and each operation is created by the submission that consumed its plan |
| `Authorization.Ledger.Transition` | manager/authorization.py:147-156 | a row changes iff the stored state is the expected one |
| `Authorization.RisksMean` | manager/authorization.py:16-27 | no approval is needed iff the operation only brings something up; a strong decision is needed iff it replaces or removes something |
| `Authorization.MayApproveIff` | manager/authorization.py:282-300 | nothing speaks against a decision iff the record is pending, unexpired and its own actor's in its own session, and for high risk the decision comes from the console or the web, freshly authenticated and spelled out |
| `Authorization.CoversIff` | manager/authorization.py:302-316 | nothing speaks against a use iff the record is approved, unexpired, and for this very plan, state, actor, session and source |
| `Authorization.Ledger.Request` | manager/authorization.py:187-208 | one new pending record for exactly the plan, bound to who asked, with the risk of the operation |
| `Authorization.Ledger.Approve` | manager/authorization.py:214-233 | accepted iff the record is its own actor's, pending and unexpired, with a strong decision where the risk is high; only the decision is added |
| `Authorization.Ledger.Revoke` | manager/authorization.py:235-248 | accepted iff its own actor revokes a pending or approved record |
| `Authorization.Ledger.Authorize` | manager/authorization.py:250-280 | accepted iff the plan is routine, or the record is approved, unexpired, and for this very plan over the state observed now, by the same actor, session and source; it is then consumed and nothing else changes |
| `RemoteActions.TokenStore.Begin` | manager/remote_actions.py:135-162 | starts iff the token is known, its own, pending and not overdue, each refusal with its exact cause; afterwards nobody can start it; a refusal changes at most an overdue token |
| `RemoteActions.TokenStore.Finish` | manager/remote_actions.py:164-170 | settles an execution in flight and leaves any other token alone |
| `RemoteActions.LedgerMoves` | manager/authorization.py:147-156 | under any interleaving a row moves only along the approval graph, its grant untouched |
| `RemoteActions.SwapFacts` | manager/authorization.py:229-280 | a successful compare-and-set keeps every use justified by an earlier decision |
| `RemoteActions.RequestsHold` | manager/authorization.py:187-280 | in every reachable state each record, decision in flight and created operation is for exactly the plan its approval was requested for |
| `RemoteActions.UsedOnce` | manager/authorization.py:264-280 | an approval is used at most once, after a decision by the same actor and session, before it expired and from a strong source where the risk is high |
| `RemoteActions.RevokedByOwnActor` | manager/authorization.py:235-248 | in every reachable state a revoked approval was withdrawn by its own actor, at the time its record carries |
| `RemoteActions.RemotePlanOnce` | manager/remote_actions.py:363-376 | a remote plan creates at most one operation, which executes exactly the plan its own approval was requested for; that approval is consumed, not revoked |
| `RemoteActions.PlanCanRun` | manager/remote_actions.py:363-376 | whatever somebody may ask for and may decide can be carried out by one remote action, as one operation for exactly this plan |
| `RemoteActions.OneExecutionPerToken` | manager/remote_actions.py:153-161 | at most one execution is in flight per token |
| `RemoteActions.TokenMoves` | manager/remote_actions.py:135-170 | a token keeps whom and what it is for; it executes only by a begin, until the thread that began it finishes, then is used up unless another try is allowed; it expires only when overdue |
| `RemoteActions.ExecutionStays` | manager/remote_actions.py:153-170 | a thread that executes a remote action keeps its token until it finishes or the process ends |
| `RemoteActions.SettledForGood` | manager/remote_actions.py:164-170 | consumed tokens, consumed or revoked approvals and created operations stay as they are |
| `RemoteActions.ConsumedTokenIsDead` | manager/remote_actions.py:149-150 | a token finished without retry never begins again |
| `RemoteActions.GrantsNeverChange` | manager/authorization.py:147-156 | between any two points of a run a record only moves forward, its grant and its mirror column intact |
| `ConfigText.JoinSplit` | manager/config_migration.py:254-254 | splitting into lines loses nothing |
| `ConfigText.SplitConcat` | manager/config_migration.py:254-254 | a text that ends with a line ending splits apart from what follows |
| `ConfigText.DefaultKeyIsKey` | manager/config_migration.py:262-265 | the key a default is looked up by is the key the line then assigns |
| `ConfigText.MultilineStringState` | manager/config_migration.py:188-227 | the index-driven scanner, whose index may step past the end, computes the recursive scan of the line |
| `ConfigStrings.LineReads` | manager/config_migration.py:188-227 | on a line of TOML tokens without an extra mark the scanner ends inside a multi-line string iff the tokens do |
| `ConfigStrings.ClosingLineReads` | manager/config_migration.py:188-227 | the same for a line that starts inside a multi-line string and closes it |
| `ConfigStrings.FirstExtraMarkReads` | manager/config_migration.py:188-227 | any other line is read right up to the first extra mark, and from there as if a one-line string had begun |
| `ConfigStrings.ClosesIff` | manager/config_migration.py:192-206 | a multi-line string is left at its closing marks, whatever follows, iff its content does not end in exactly one mark |
| `ConfigStrings.ClosingReads` | manager/config_migration.py:192-206 | a multi-line string is left at its closing marks unless its content ends in exactly one mark |
| `ConfigStrings.OneExtraMarkMisread` | manager/config_migration.py:214-225 | with exactly one extra mark, the next multi-line string on the line is missed |
| `ConfigHeaders.HeaderReadsIff` | manager/config_migration.py:230-250 | every TOML table header: a plain one is read under its name, any other is not seen |
| `ConfigHeaders.SeenIff` | manager/config_migration.py:238-243 | the lines taken for headers are exactly a name in brackets alone, whatever TOML makes of the line |
| `ConfigHeaders.EndingIff` | manager/config_migration.py:237-250 | a table ends at the next header iff that header is plain |
| `ConfigHeaders.DefaultStaysIff` | manager/config_migration.py:253-278 | a default for the table in front of a header is written before the header iff it is plain, and behind it otherwise |
| `ConfigHeaders.ArrayTakesDefault` | manager/config_migration.py:253-278 | a text in which a default lands in an element of an array of tables |
| `ConfigMigration.SectionKeys` | manager/config_migration.py:230-250 | the dictionaries agree with the reading of the lines: every key in its table, every table with its ending |
| `ConfigMigration.EndingsMean` | manager/config_migration.py:237-250 | exactly the tables read have an ending; there they are the current table, outside multi-line strings |
| `ConfigMigration.PendingDistinct` | manager/config_migration.py:269-276 | no two blocks go to the same line |
| `ConfigMigration.BottomUpIsSimultaneous` | manager/config_migration.py:275-276 | splicing from the bottom up is inserting all blocks at once at positions of the original lines |
| `ConfigMerge.SpliceAll` | manager/config_migration.py:275-276 | the sorted splicing loop yields the simultaneous insertion, for any order of the pending list |
| `ConfigMerge.MergeDefaults` | manager/config_migration.py:253-278 | the method computes the merge the lemmas below are about |
| `ConfigMerge.SimultaneousReads` | manager/config_migration.py:275-276 | insertion leaves every table and string state as read before and adds exactly the keys inserted |
| `ConfigMerge.MergedKeys` | manager/config_migration.py:253-278 | afterwards exactly the keys read before and the default keys are read, each in its table as the merge sees tables |
| `ConfigMerge.DefaultsStand` | manager/config_migration.py:253-278 | every default whose key was not read stands in the merged text as it was given, on a line of its own in its table |
| `ConfigMerge.MergeConserves` | manager/config_migration.py:253-278 | all original lines survive, in order, in their table and string state |
| `ConfigMerge.CompleteIsFixed` | manager/config_migration.py:262-268 | lines that have every default are returned as they are |
| `ConfigRounds.ResplitReads` | manager/config_migration.py:254-278 | merged lines, joined and split again, read the same |
| `ConfigRounds.MergedTextKeys` | manager/config_migration.py:253-278 | the merged text has exactly the old and the default keys, and ends outside multi-line strings |
| `ConfigRounds.MergeTwice` | manager/config_migration.py:253-278 | merging a text that ends outside multi-line strings is idempotent |
| `ConfigRounds.DefaultsArePlain` | manager/config_migration.py:289-298 | the defaults the migration adds are self-contained assignments, when the observer's paths need no escape |
| `ConfigRounds.VersionComesFirst` | manager/config_migration.py:281-301 | the migration of a text without a schema version has the version on its first line and then that of a text that has one; it reads the version, the old keys and the defaults, and nothing else |
| `ConfigRounds.LifecycleStaysOff` | manager/config_migration.py:289-298 | a migration that finds no switch for the lifecycle turns it off, in its table |
| `ConfigRounds.MigrateTwice` | manager/config_migration.py:281-301 | a migrated configuration, of either schema version, is its own migration |
| `Heartbeat.IndexIsRank` | manager/runner_heartbeat.py:278-279 | an index in the sorted list is the number of records ahead |
| `Heartbeat.Cleanup` | manager/runner_heartbeat.py:266-285 | the two deletion loops leave exactly the records that survive by rank and age |
| `Heartbeat.RetentionBounds` | manager/runner_heartbeat.py:266-285 | the bounds hold, survivors are unchanged, no terminal record is older than the age bound in seconds; a record goes only behind `max_records` others or, if terminal, behind `max_terminal` others or for its age |
| `Heartbeat.HeartbeatStore.Start` | manager/runner_heartbeat.py:149-183 | a fresh writer, the next generation and a fresh record stamped with the current second, then retention; invalid identities change nothing |
| `Heartbeat.HeartbeatStore.Update` | manager/runner_heartbeat.py:202-264 | succeeds exactly for the current writer and generation of a non-terminal record whose phase does not go back; writes what was asked, the next revision, the current second, the seconds elapsed and the health of the phase, and keeps the lease |
| `HeartbeatRuns.StepAt` | manager/runner_heartbeat.py:149-264 | a call writes its own issue's record and otherwise at most removes one |
| `HeartbeatRuns.EarlierWritersAreFenced` | manager/runner_heartbeat.py:228-234 | after a start no earlier writer's update succeeds again, whatever retention deleted in between |
| `HeartbeatRuns.LeaseAdvances` | manager/runner_heartbeat.py:235-264 | within a lease the revision strictly increases, the phase never goes back, and a terminal record is final |
| `HeartbeatRuns.GenerationRises` | manager/runner_heartbeat.py:157-158 | while the record survives every new lease has a greater generation |
| `HeartbeatRuns.NextGenerationRisesIff` | manager/runner_heartbeat.py:157-158 | in every run the next start of an issue has a greater generation than the last iff that start's record is still there |
| `HeartbeatRuns.GenerationCanRepeat` | manager/runner_heartbeat.py:266-285 | a run in which retention takes the record and two starts of an issue have generation 1 |
| `LoginLimiter.Limiter.Allowed` | manager/dashboard.py:126-135 | the call's outcome, with its place in the history of calls |
| `LoginLimiter.NothingRelevantLost` | manager/dashboard.py:128-131 | pruning never loses a stamp that matters later |
| `LoginLimiter.RefusedIff` | manager/dashboard.py:126-135 | refused iff the number of grants less than one window old has reached the number allowed |
| `LoginLimiter.WindowBound` | manager/dashboard.py:126-135 | grants within one window of each other are at most as many as allowed |
| `LoginLimiter.ClientsAreIndependent` | manager/dashboard.py:126-135 | what other clients do changes nothing |
| `Communications.RoundTrip` | manager/communications.py:191-209 | a valid command that encodes is what its code decodes to, within 64 bytes |
| `Communications.EncodingIsInjective` | manager/communications.py:191-198 | different valid commands have different codes |
| `Communications.DecodesExactly` | manager/communications.py:201-209 | a text decodes iff it spells a valid command, up to leading zeros of the page, and to that command |
| `Communications.EncodingIsShortest` | manager/communications.py:191-209 | a decoded text within the limit encodes again, no longer than it was |
| `Supervisor.IssueFingerprintInjective` | supervisor/fortify_supervisor.py:409-411 | a selection's fingerprint determines the issue and the milestone |
| `Supervisor.MilestoneFingerprintsClash` | supervisor/fortify_supervisor.py:457-459 | a move's fingerprint does not determine the move: every way to move the separator gives a pair |
| `Rollover.ClashIff` | supervisor/fortify_supervisor.py:457-459 | some moves out of a title and out of a longer one share a fingerprint iff the longer one, with a colon behind it, begins with the shorter one and the separator |
| `Rollover.SameLength` | supervisor/fortify_supervisor.py:457-459 | out of titles of one length equal fingerprints mean equal moves |
| `Rollover.HidesIff` | supervisor/fortify_supervisor.py:457-459 | two moves out of different titles share a fingerprint iff one hides the other, a condition on the four titles |
| `Rollover.BlockedForGood` | supervisor/fortify_supervisor.py:424-467 | once an event has the fingerprint of the next move, no interleaving ever moves the milestone |
| `Rollover.NextMoveIff` | supervisor/fortify_supervisor.py:424-467 | in every reachable state the next move can still be made iff no event has its fingerprint |
| `Rollover.WalkIff` | supervisor/fortify_supervisor.py:2111-2134 | from a store without moves of the list, some run reaches the end of the list iff no move of it hides another |
| `Rollover.PlainTitlesAreClear` | supervisor/fortify_supervisor.py:169-184 | titles that do not contain `:advanced` are never in each other's way |
| `Rollover.RolloverCanStick` | supervisor/fortify_supervisor.py:424-467 | an accepted list of four titles on which the third move is refused for ever, not paused |
| `Supervisor.Store.ClaimIssue` | supervisor/fortify_supervisor.py:382-422 | claims iff the slot is empty and the selection is new; otherwise changes nothing |
| `Supervisor.Store.AdvanceMilestone` | supervisor/fortify_supervisor.py:424-467 | moves iff the active milestone is the expected one, automation is not paused and the move is new; otherwise changes nothing |
| `Supervisor.ClaimedOnce` | supervisor/fortify_supervisor.py:382-422 | no issue of a milestone is claimed twice, and the slot is cleared between two claims |
| `Supervisor.ClearsWhatItSaw` | supervisor/fortify_supervisor.py:2312-2315 | a process about to clear the slot finds in it the issue it saw there, unless another process cleared it since |
| `Supervisor.ChecksStep` | supervisor/fortify_supervisor.py:2089-2095 | a process whose reads were overtaken by a move can no longer move the milestone |
| `Supervisor.MovesForward` | supervisor/fortify_supervisor.py:1346-1360 | the moves ever made are exactly the edges of the authorized list from the start to the active milestone, none skipped or repeated |
| `Supervisor.PausedHolds` | supervisor/fortify_supervisor.py:439-444 | while paused no step moves the milestone |

## Left out

- SQLite, file locks, atomic file replacement, permissions and store failures: stores are maps and each store call is one atomic action that succeeds.
- Clocks, random identifiers and SHA-256: clock readings are parameters, identifiers are fresh, and a plan's digest is the plan itself.
- Adapters, probes and verifiers: any answer is possible; an adapter call that timed out does not act after the engine has moved on.
- `Engine.DependencySafety`: takes a step whose adapter returned and whose checks all passed to have brought its component up or down, which is what the checks are for.
- `OperationEngine.LifecycleEngine.PrepareSteps`: the field checks of `_prepare` on identifiers and actor length, and the preflight checks before it, are per-field checks with little structure.
- `Resume.ExactlyOnce`: every operation of a chain plans the same steps; a profile that changes between two retries is not modelled.
- `OperationEngine.LifecycleEngine.Interfere`: stands for other threads through its contract, which lets them do anything but publish this operation's steps; its body does nothing more.
- `ComponentRegistry.DependencyOrder`: the cycle report is a set, not a sorted text.
- `Health.Document`: latency, summaries, dimensions, downstream impact and the aggregate state are finite case analyses; check identifiers are taken to be unique within a component, as registry validation demands.
- `ProfileUpgrade.Run`: saves do not fail, and a cancellation that rewrites the stored document of a finished run is not modelled; the document is the one the run leaves.
- `ProfileUpgrade.MakePlanIsWellMade`: the admission checks on maturity, evidence and observations, and the digest over them, come before and only refuse.
- `ConfigRounds.DefaultsArePlain`: the fixed server address and namespace are parameters that need no escape.
- `ConfigMerge.MergeDefaults`: additions are a dictionary of self-contained one-line assignments, as all callers pass; an explicit schema version 0 in the text is not considered.
- `Heartbeat.HeartbeatStore.Update`: the pull-request reference, the last safe step and the next expected transition are copied or derived fields and are not kept; unreadable record files do not occur.
- `Communications.DecodesExactly`: digits are ASCII digits; other Unicode digits, which Python's `int` also reads, are not part of the model.
- `Rollover.WalkIff`: events written elsewhere are free, so it is about runs that do not write a fingerprint of the list themselves; `Rollover.NextMoveIff` covers them all.
- `ConfigHeaders.DefaultStaysIff`: one addition and the header right behind its table; several are covered by `ConfigMerge.SimultaneousReads` as the merge sees tables.
- `Supervisor.ClaimedOnce`: GitHub, approvals, policy decisions and notifications are left out; any process may try to claim, clear, advance or pause at any time.
- Sessions, availability, backup and restore, secret replacement, preflight, capabilities, evaluation gates, message rendering and redaction: simpler versions of the machines here, or per-field checks.
- Sockets, subprocesses, Helm, Kubernetes, Telegram, GitHub, HTTP routing and the dashboard's JavaScript: input and output.
