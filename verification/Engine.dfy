/**
 The operation engine under concurrency (manager/operation_engine.py).

 Every store call is one atomic action. `_lock` is held from the conflict check
 of a submission to its creation, and from the read of a cancellation to its
 write; worker saves and the metadata update of a lab or clean-install retry
 run without it.
 */
module Engine {
  import opened Sequences
  import opened Graph
  import opened Plans
  import W = Worker

  type OpId = string

  datatype OpState = Queued | Running | Cancelling | Done(outcome: W.Outcome) | Interrupted

  predicate Active(s: OpState) {
    s.Queued? || s.Running? || s.Cancelling?
  }

  /** The stored document, as far as conflicts and states go. */
  datatype Doc = Doc(state: OpState, components: set<Id>)

  datatype Lock =
    | Free
    | Submitting(steps: seq<Step>, resumed: nat)   // conflict check passed, operation not yet created
    | Cancels(id: OpId)                            // a non-terminal document was read, not yet written

  /**
   `recorded` is what each operation's step-succeeded and step-resumed events say is complete. `up` is the set of
   components that are really up, and `planned` the steps each operation was created with; no code reads these two.
   */
  datatype System = System(store: map<OpId, Doc>, recorded: map<OpId, set<Key>>, live: map<OpId, W.State>,
                           cancelled: set<OpId>, lock: Lock, up: set<Id>, planned: map<OpId, seq<Step>>)

  datatype Action =
    | SubmitCheck(steps: seq<Step>, resumed: nat, retryOf: Option<OpId>)
    | SubmitDenied
    | SubmitCreate(id: OpId)
    | MetadataUpdate(id: OpId)
    | CarryEvent(id: OpId, step: nat)           // one step-resumed event; they are written in plan order
    | CancelRead(id: OpId)
    | CancelWrite
    | WorkerAct(id: OpId, event: W.Event)
    | TakeEffect(id: OpId)                      // the adapter call in progress changes its component
    | WorkerSave(id: OpId)
    | WorkerFinish(id: OpId)
    | Restart

  /** `active_components().intersection(affected)` is empty. */
  ghost predicate NoConflict(store: map<OpId, Doc>, components: set<Id>) {
    forall id :: id in store && Active(store[id].state) ==> store[id].components !! components
  }

  /** What the events of an operation record. */
  function Recorded(s: System, id: OpId): set<Key> {
    if id in s.recorded then s.recorded[id] else {}
  }

  /**
   A fresh submission skips nothing. A retry plans the components of a finished operation again and skips exactly
   the steps its events record; they are listed in front, where `Resume.ResumeKeepsOrder` lets them stand.
   */
  ghost predicate Skips(s: System, steps: seq<Step>, resumed: nat, retryOf: Option<OpId>) {
    match retryOf
    case None => resumed == 0
    case Some(previous) =>
      && previous in s.store && previous !in s.live
      && Elems(Components(steps)) == s.store[previous].components
      && forall i :: 0 <= i < |steps| ==> (i < resumed <==> KeyOf(steps[i]) in Recorded(s, previous))
  }

  /** The worker of a retry starts only after every step-resumed event is written. */
  ghost predicate Carried(s: System, id: OpId) {
    id in s.live && s.live[id].pc <= |s.live[id].steps|
    && forall i :: 0 <= i < s.live[id].pc ==> KeyOf(s.live[id].steps[i]) in Recorded(s, id)
  }

  ghost predicate Enabled(g: Deps, s: System, a: Action) {
    match a
    case SubmitCheck(steps, resumed, retryOf) =>
      && s.lock.Free? && steps != []
      && SafePlan(g, steps) && W.Runnable(steps) && resumed <= |steps|
      && Skips(s, steps, resumed, retryOf)
      && NoConflict(s.store, Elems(Components(steps)))
    case SubmitDenied => s.lock.Submitting?
    case SubmitCreate(id) => s.lock.Submitting? && id !in s.store
    case MetadataUpdate(id) => id in s.live && s.live[id].phase.NotStarted? && id in s.store
    case CarryEvent(id, step) =>
      && id in s.live && s.live[id].phase.NotStarted? && step < s.live[id].pc <= |s.live[id].steps|
      && forall i :: 0 <= i < step ==> KeyOf(s.live[id].steps[i]) in Recorded(s, id)
    case CancelRead(id) => s.lock.Free? && id in s.store && Active(s.store[id].state)
    case CancelWrite => s.lock.Cancels? && s.lock.id in s.store
    case WorkerAct(id, e) =>
      && id in s.live && W.Consistent(s.live[id]) && W.Enabled(s.live[id], e)
      && (e == W.Begin ==> Carried(s, id))
      && (e == W.Publish ==> InEffect(s.live[id], s.up))
      && (e == W.Pass ==> id !in s.cancelled)
      && (e == W.SeeCancelled ==> id in s.cancelled)
    case TakeEffect(id) => id in s.live && s.live[id].phase.Calling?
    case WorkerSave(id) =>
      id in s.live && id in s.store && !s.live[id].phase.NotStarted? && !s.live[id].phase.Ended?
    case WorkerFinish(id) => id in s.live && id in s.store && s.live[id].phase.Ended?
    case Restart => true
  }

  /**
   The current step has done its work. This is what a step whose adapter returned and whose declared
   checks all passed is taken to mean; an adapter call that raised may have changed its component too.
   */
  ghost predicate InEffect(w: W.State, up: set<Id>) {
    w.pc < |w.steps| && (w.steps[w.pc].component in up <==> Raises(w.steps[w.pc].operation))
  }

  /** What a step does to its component when it takes effect. */
  function Moved(step: Step, up: set<Id>): set<Id> {
    if Raises(step.operation) then up + {step.component} else up - {step.component}
  }

  /** What the adapter call in progress does to the components when it takes effect. */
  function Effect(w: W.State, up: set<Id>): set<Id> {
    if w.pc < |w.steps| then Moved(w.steps[w.pc], up) else up
  }

  function SetState(store: map<OpId, Doc>, id: OpId, state: OpState): map<OpId, Doc>
    requires id in store
  {
    store[id := store[id].(state := state)]
  }

  function Record(s: System, id: OpId, key: Key): map<OpId, set<Key>> {
    s.recorded[id := Recorded(s, id) + {key}]
  }

  /** A worker's event: publishing a step writes its step-succeeded event. */
  ghost function Act(s: System, id: OpId, e: W.Event): System
    requires id in s.live && W.Consistent(s.live[id]) && W.Enabled(s.live[id], e)
  {
    var w := s.live[id];
    s.(live := s.live[id := W.Next(w, e)],
       recorded := if e == W.Publish then Record(s, id, KeyOf(w.steps[w.pc])) else s.recorded)
  }

  ghost function Perform(g: Deps, s: System, a: Action): System
    requires Enabled(g, s, a)
  {
    match a
    case SubmitCheck(steps, resumed, _) => s.(lock := Submitting(steps, resumed))
    case SubmitDenied => s.(lock := Free)
    case SubmitCreate(id) =>
      s.(store := s.store[id := Doc(Queued, Elems(Components(s.lock.steps)))],
         recorded := s.recorded[id := {}],
         planned := s.planned[id := s.lock.steps],
         live := s.live[id := W.Fresh(s.lock.steps, s.lock.resumed)],
         lock := Free)
    case MetadataUpdate(id) => s.(store := SetState(s.store, id, Queued))
    case CarryEvent(id, step) => s.(recorded := Record(s, id, KeyOf(s.live[id].steps[step])))
    case CancelRead(id) => s.(lock := Cancels(id), cancelled := s.cancelled + {id})
    case CancelWrite => s.(store := SetState(s.store, s.lock.id, Cancelling), lock := Free)
    case WorkerAct(id, e) => Act(s, id, e)
    case TakeEffect(id) => s.(up := Effect(s.live[id], s.up))
    case WorkerSave(id) => s.(store := SetState(s.store, id, Running))
    case WorkerFinish(id) =>
      s.(store := SetState(s.store, id, Done(s.live[id].phase.outcome)),
         live := s.live - {id}, cancelled := s.cancelled - {id})
    case Restart =>
      System(map id | id in s.store ::
               if Active(s.store[id].state) then s.store[id].(state := Interrupted) else s.store[id],
             s.recorded, map[], {}, Free, s.up, s.planned)
  }

  /** A store just opened: nothing is active and no worker exists. */
  ghost predicate Initial(s: System) {
    && s.live == map[] && s.lock.Free? && s.cancelled == {}
    && forall id :: id in s.store ==> !Active(s.store[id].state)
  }

  /** `acts` can happen, in this order, from `s`. */
  ghost predicate Behaviour(g: Deps, s: System, acts: seq<Action>)
    decreases |acts|, 0
  {
    acts == []
    || (Behaviour(g, s, acts[..|acts| - 1]) && Enabled(g, Reached(g, s, acts[..|acts| - 1]), acts[|acts| - 1]))
  }

  ghost function Reached(g: Deps, s: System, acts: seq<Action>): System
    requires Behaviour(g, s, acts)
    decreases |acts|, 1
  {
    if acts == [] then s else Perform(g, Reached(g, s, acts[..|acts| - 1]), acts[|acts| - 1])
  }

  // ----- Mutual exclusion -----

  /** Any two active operations affect different components. */
  ghost predicate Exclusive(store: map<OpId, Doc>) {
    forall i, j :: i in store && j in store && i != j && Active(store[i].state) && Active(store[j].state) ==>
      store[i].components !! store[j].components
  }

  /** An unfinished worker's operation is stored as active, over the components of its plan. */
  ghost predicate Owned(s: System) {
    forall id :: id in s.live ==>
      && id in s.store
      && Active(s.store[id].state)
      && Elems(Components(s.live[id].steps)) == s.store[id].components
  }

  /**
   What the holder of the lock may rely on. The active set can only shrink while the lock is held,
   so neither a creation nor the late write of a cancellation can collide.
   */
  ghost predicate LockSafe(s: System) {
    match s.lock
    case Free => true
    case Submitting(steps, _) => NoConflict(s.store, Elems(Components(steps)))
    case Cancels(id) =>
      && id in s.store
      && forall j :: j in s.store && j != id && Active(s.store[j].state) ==>
           s.store[j].components !! s.store[id].components
  }

  ghost predicate ExclusionInv(s: System) {
    Exclusive(s.store) && Owned(s) && LockSafe(s)
  }

  /** Only a creation, behind its conflict check, and a late cancellation, behind its read, make an operation active. */
  lemma ExclusiveStep(g: Deps, s: System, a: Action)
    requires ExclusionInv(s) && Enabled(g, s, a)
    ensures Exclusive(Perform(g, s, a).store)
  {
  }

  lemma OwnedStep(g: Deps, s: System, a: Action)
    requires ExclusionInv(s) && Enabled(g, s, a)
    ensures Owned(Perform(g, s, a))
  {
    match a
    case WorkerAct(id, e) => assert W.Next(s.live[id], e).steps == s.live[id].steps;
    case _ =>
  }

  lemma LockStep(g: Deps, s: System, a: Action)
    requires ExclusionInv(s) && Enabled(g, s, a)
    ensures LockSafe(Perform(g, s, a))
  {
  }

  lemma ExclusionStep(g: Deps, s: System, a: Action)
    requires ExclusionInv(s) && Enabled(g, s, a)
    ensures ExclusionInv(Perform(g, s, a))
  {
    ExclusiveStep(g, s, a);
    OwnedStep(g, s, a);
    LockStep(g, s, a);
  }

  lemma {:induction false} ExclusionHolds(g: Deps, s: System, acts: seq<Action>)
    requires Initial(s) && Behaviour(g, s, acts)
    ensures ExclusionInv(Reached(g, s, acts))
    decreases |acts|
  {
    if acts != [] {
      ExclusionHolds(g, s, acts[..|acts| - 1]);
      ExclusionStep(g, Reached(g, s, acts[..|acts| - 1]), acts[|acts| - 1]);
    }
  }

  /** In every reachable state any two queued, running or cancelling operations affect different components. */
  lemma MutualExclusion(g: Deps, s: System, acts: seq<Action>)
    requires Initial(s) && Behaviour(g, s, acts)
    ensures Exclusive(Reached(g, s, acts).store)
  {
    ExclusionHolds(g, s, acts);
  }

  // ----- Terminal states are not absorbing -----

  ghost predicate Loses(g: Deps, s: System, a: Action, id: OpId)
    requires Enabled(g, s, a)
  {
    id in s.store && (id in Perform(g, s, a).store ==> Perform(g, s, a).store[id].state != s.store[id].state)
  }

  /** Without a pending cancellation of it, no action touches a stored terminal state. */
  lemma LossNeedsCancel(g: Deps, s: System, a: Action, id: OpId)
    requires ExclusionInv(s) && Enabled(g, s, a) && id in s.store && !Active(s.store[id].state)
    requires s.lock != Cancels(id)
    ensures id in Perform(g, s, a).store && Perform(g, s, a).store[id].state == s.store[id].state
  {
  }

  /**
   From a reachable state, a stored terminal operation can lose its terminal state exactly when a
   cancellation that read it before it finished still holds the lock.
   */
  lemma TerminalLostIff(g: Deps, s0: System, acts: seq<Action>, id: OpId)
    requires Initial(s0) && Behaviour(g, s0, acts)
    requires var s := Reached(g, s0, acts); id in s.store && !Active(s.store[id].state)
    ensures var s := Reached(g, s0, acts);
      (exists a :: Enabled(g, s, a) && Loses(g, s, a, id))
      <==> s.lock == Cancels(id)
  {
    ExclusionHolds(g, s0, acts);
    var s := Reached(g, s0, acts);
    if s.lock == Cancels(id) {
      assert Enabled(g, s, CancelWrite);
      assert Loses(g, s, CancelWrite, id);
    } else {
      forall a | Enabled(g, s, a)
        ensures !Loses(g, s, a, id)
      {
        LossNeedsCancel(g, s, a, id);
      }
    }
  }

  /**
   What stands behind a state that an action writes: an outcome, the end of the worker's run; running, a run under
   way; cancelling, a cancellation; interrupted, a restart that found the operation active.
   */
  ghost predicate Justified(s: System, a: Action, id: OpId, state: OpState)
    requires id in s.store
  {
    match state
    case Done(outcome) => id in s.live && s.live[id].phase == W.Ended(outcome)
    case Running => id in s.live && !s.live[id].phase.NotStarted? && !s.live[id].phase.Ended?
    case Cancelling => s.lock == Cancels(id)
    case Interrupted => a.Restart? && Active(s.store[id].state)
    case Queued => id in s.live && s.live[id].phase.NotStarted?
  }

  /** No action drops an operation or changes its components, and each state it writes is justified. */
  lemma StatesAreJustified(g: Deps, s: System, a: Action, id: OpId)
    requires Enabled(g, s, a) && id in s.store
    ensures var t := Perform(g, s, a);
      && id in t.store && t.store[id].components == s.store[id].components
      && (t.store[id].state != s.store[id].state ==> Justified(s, a, id, t.store[id].state))
    ensures a.Restart? ==>
      var t := Perform(g, s, a);
      && t.live == map[] && t.lock.Free? && t.up == s.up && t.recorded == s.recorded
      && (Active(s.store[id].state) <==> t.store[id].state == Interrupted != s.store[id].state)
  {
  }

  // ----- Dependency safety -----

  /** The components finished steps have moved are where those steps left them. */
  ghost predicate InPlace(w: W.State, up: set<Id>)
    requires w.pc <= |w.steps|
  {
    forall c, b :: LastEffect(w.steps, w.pc, c, b) ==> (c in up <==> b)
  }

  /** What an unfinished worker may rely on: only the current step's component can be in doubt. */
  ghost predicate Holds(g: Deps, w: W.State, up: set<Id>) {
    && W.Consistent(w)
    && SafePlan(g, w.steps)
    && (w.phase.NotStarted? ==> InPlace(w, up))
    && (!w.phase.NotStarted? && !w.phase.Ended? ==>
          forall c, b :: LastEffect(w.steps, w.pc, c, b) && c != w.steps[w.pc].component ==> (c in up <==> b))
  }

  /** A mutation by a step whose predecessors hold keeps the up set closed, finished or not. */
  lemma EffectKeepsClosed(g: Deps, w: W.State, up: set<Id>)
    requires Closed(g, up) && Holds(g, w, up) && w.phase.Calling?
    ensures Closed(g, Effect(w, up))
  {
    var c := w.steps[w.pc].component;
    assert SafeStep(g, w.steps, w.pc);
    if Raises(w.steps[w.pc].operation) {
      forall d | d in g[c]
        ensures d in up
      {
        assert LastEffect(w.steps, w.pc, d, true);
      }
    } else {
      forall u | u in g && c in g[u]
        ensures u !in up
      {
        assert LastEffect(w.steps, w.pc, u, false);
      }
    }
  }

  /** The last effect before the next step is the step itself, or an older one elsewhere. */
  lemma LastEffectAfter(steps: seq<Step>, k: nat, c: Id, b: bool)
    requires k < |steps| && LastEffect(steps, k + 1, c, b)
    ensures if steps[k].component == c
            then (if b then Raises(steps[k].operation) else Lowers(steps[k].operation))
            else LastEffect(steps, k, c, b)
  {
    var i :| EffectAt(steps, k + 1, c, b, i);
    if steps[k].component != c {
      assert EffectAt(steps, k, c, b, i);
    }
  }

  lemma HoldsNext(g: Deps, w: W.State, e: W.Event, up: set<Id>)
    requires Holds(g, w, up) && W.Enabled(w, e)
    requires e == W.Publish ==> InEffect(w, up)
    ensures Holds(g, W.Next(w, e), up)
  {
    if e == W.Publish {
      var k := w.pc + 1;
      forall c, b | LastEffect(w.steps, k, c, b)
        ensures c in up <==> b
      {
        LastEffectAfter(w.steps, w.pc, c, b);
        assert SafeStep(g, w.steps, w.pc);
      }
    }
  }

  /** A change elsewhere does not disturb a worker. */
  lemma HoldsFrame(g: Deps, w: W.State, up: set<Id>, v: set<Id>)
    requires Holds(g, w, up)
    requires forall c :: c in Components(w.steps) ==> (c in up <==> c in v)
    ensures Holds(g, w, v)
  {
    forall c, b | LastEffect(w.steps, w.pc, c, b)
      ensures c in Components(w.steps)
    {
      var i :| EffectAt(w.steps, w.pc, c, b, i);
      assert Components(w.steps)[i] == c;
    }
    if w.pc < |w.steps| {
      assert Components(w.steps)[w.pc] == w.steps[w.pc].component;
    }
  }

  ghost predicate SafetyInv(g: Deps, s: System) {
    && ExclusionInv(s)
    && Closed(g, s.up)
    && (forall id :: id in s.live ==> Holds(g, s.live[id], s.up))
    && (s.lock.Submitting? ==>
          SafePlan(g, s.lock.steps) && W.Runnable(s.lock.steps) && s.lock.resumed <= |s.lock.steps|)
  }

  /** A resumed operation is created only while the steps it skips are still in effect. */
  ghost predicate CreatesInPlace(s: System, a: Action) {
    a.SubmitCreate? && s.lock.Submitting? && s.lock.resumed <= |s.lock.steps| ==>
      InPlace(W.Fresh(s.lock.steps, s.lock.resumed), s.up)
  }

  ghost predicate AllInPlace(g: Deps, s: System, acts: seq<Action>)
    requires Behaviour(g, s, acts)
    decreases |acts|
  {
    acts != [] ==>
      && AllInPlace(g, s, acts[..|acts| - 1])
      && CreatesInPlace(Reached(g, s, acts[..|acts| - 1]), acts[|acts| - 1])
  }

  lemma SafetyStep(g: Deps, s: System, a: Action)
    requires SafetyInv(g, s) && Enabled(g, s, a) && CreatesInPlace(s, a)
    ensures SafetyInv(g, Perform(g, s, a))
  {
    ExclusionStep(g, s, a);
    if a.WorkerAct? {
      HoldsNext(g, s.live[a.id], a.event, s.up);
    } else if a.TakeEffect? {
      EffectStep(g, s, a.id);
    }
  }

  /** An adapter call that takes effect, at whatever moment while it lasts. */
  lemma EffectStep(g: Deps, s: System, id: OpId)
    requires SafetyInv(g, s) && id in s.live && s.live[id].phase.Calling?
    ensures Closed(g, Effect(s.live[id], s.up))
    ensures forall other :: other in s.live ==> Holds(g, s.live[other], Effect(s.live[id], s.up))
  {
    var up := Effect(s.live[id], s.up);
    EffectKeepsClosed(g, s.live[id], s.up);
    forall other | other in s.live
      ensures Holds(g, s.live[other], up)
    {
      if other != id {
        EffectElsewhere(s, id, other);
        HoldsFrame(g, s.live[other], s.up, up);
      }
    }
  }

  /** A worker only moves components of its own plan, which no other active operation shares. */
  lemma EffectElsewhere(s: System, id: OpId, other: OpId)
    requires ExclusionInv(s) && id in s.live && other in s.live && id != other
    ensures forall c :: c in Components(s.live[other].steps) ==>
      (c in s.up <==> c in Effect(s.live[id], s.up))
  {
    var w := s.live[id];
    if w.pc < |w.steps| {
      assert Components(w.steps)[w.pc] == w.steps[w.pc].component;
      assert w.steps[w.pc].component in s.store[id].components;
      forall c | c in Components(s.live[other].steps)
        ensures c != w.steps[w.pc].component
      {
        assert c in s.store[other].components;
      }
    }
  }

  lemma {:induction false} SafetyHolds(g: Deps, s: System, acts: seq<Action>)
    requires Initial(s) && Closed(g, s.up) && Behaviour(g, s, acts) && AllInPlace(g, s, acts)
    ensures SafetyInv(g, Reached(g, s, acts))
    decreases |acts|
  {
    if acts != [] {
      SafetyHolds(g, s, acts[..|acts| - 1]);
      SafetyStep(g, Reached(g, s, acts[..|acts| - 1]), acts[|acts| - 1]);
    }
  }

  /** No submission is an event-based retry. */
  ghost predicate NothingResumed(acts: seq<Action>) {
    forall i :: 0 <= i < |acts| && acts[i].SubmitCheck? ==> acts[i].retryOf.None?
  }

  /** Nothing that is about to be created skips a step. */
  ghost predicate NothingSkipped(s: System) {
    s.lock.Submitting? ==> s.lock.resumed == 0
  }

  lemma NothingSkippedStep(g: Deps, s: System, a: Action)
    requires NothingSkipped(s) && Enabled(g, s, a) && (a.SubmitCheck? ==> a.retryOf.None?)
    ensures NothingSkipped(Perform(g, s, a)) && CreatesInPlace(s, a)
  {
  }

  lemma {:induction false} NothingResumedInPlace(g: Deps, s: System, acts: seq<Action>)
    requires Initial(s) && Behaviour(g, s, acts) && NothingResumed(acts)
    ensures AllInPlace(g, s, acts) && NothingSkipped(Reached(g, s, acts))
    decreases |acts|
  {
    if acts != [] {
      var init, last := acts[..|acts| - 1], acts[|acts| - 1];
      NothingResumedInPlace(g, s, init);
      NothingSkippedStep(g, Reached(g, s, init), last);
    }
  }

  /**
   Starting from a closed set of up components, every interleaving of submissions, workers, adapters,
   cancellations and restarts keeps it closed after each step. An adapter call may take effect at any
   moment while it lasts, whether it then returns, raises or is cut short by a restart. Stated for runs
   in which nothing resumes.
   */
  lemma DependencySafety(g: Deps, s: System, acts: seq<Action>)
    requires Initial(s) && Closed(g, s.up) && Behaviour(g, s, acts) && NothingResumed(acts)
    ensures Closed(g, Reached(g, s, acts).up)
  {
    NothingResumedInPlace(g, s, acts);
    SafetyHolds(g, s, acts);
  }

  /** The same with resumed operations, when the skipped components are still in place at each creation. */
  lemma DependencySafetyResumed(g: Deps, s: System, acts: seq<Action>)
    requires Initial(s) && Closed(g, s.up) && Behaviour(g, s, acts) && AllInPlace(g, s, acts)
    ensures Closed(g, Reached(g, s, acts).up)
  {
    SafetyHolds(g, s, acts);
  }
}
