/**
 What the events of an operation record, in every reachable state of the engine, and when its retry is admitted.
 */
module EngineRecords {
  import opened Sequences
  import opened Graph
  import opened ComponentRegistry
  import opened Plans
  import opened Engine
  import R = Resume
  import W = Worker

  /** The keys of the first `n` steps. */
  function FirstKeys(steps: seq<Step>, n: nat): set<Key>
    requires n <= |steps|
  {
    set i | 0 <= i < n :: KeyOf(steps[i])
  }

  lemma FirstKeysNext(steps: seq<Step>, n: nat)
    requires n < |steps|
    ensures FirstKeys(steps, n + 1) == FirstKeys(steps, n) + {KeyOf(steps[n])}
  {
  }

  /** The events of an operation record exactly the first `n` steps of its plan. */
  ghost predicate Records(s: System, id: OpId, n: nat) {
    id in s.planned && n <= |s.planned[id]| && Recorded(s, id) == FirstKeys(s.planned[id], n)
  }

  ghost predicate RecordsUpTo(s: System, id: OpId, max: nat) {
    exists n: nat :: n <= max && Records(s, id, n)
  }

  /** A worker runs the plan its operation was created with, and all its finished steps are recorded. */
  ghost predicate WorkerRecords(s: System, id: OpId)
    requires id in s.live
  {
    && id in s.planned && s.live[id].steps == s.planned[id] && s.live[id].pc <= |s.planned[id]|
    && if s.live[id].phase.NotStarted? then RecordsUpTo(s, id, s.live[id].pc) else Records(s, id, s.live[id].pc)
  }

  /** Every operation created in the run records a prefix of its plan. */
  ghost predicate RecordsInv(s: System) {
    && (forall id :: id in s.planned ==> id in s.store && s.store[id].components == Elems(Components(s.planned[id])))
    && (forall id :: id in s.planned ==> RecordsUpTo(s, id, |s.planned[id]|))
    && (forall id :: id in s.live ==> WorkerRecords(s, id))
    && (s.lock.Submitting? ==> s.lock.resumed <= |s.lock.steps|)
  }

  /** What an operation records depends on its own events and plan only. */
  lemma RecordsFrame(s: System, t: System, id: OpId)
    requires Recorded(t, id) == Recorded(s, id) && id in s.planned && id in t.planned && t.planned[id] == s.planned[id]
    ensures forall n: nat :: Records(t, id, n) <==> Records(s, id, n)
    ensures forall max: nat :: RecordsUpTo(t, id, max) <==> RecordsUpTo(s, id, max)
  {
    assert forall n: nat :: Records(t, id, n) <==> Records(s, id, n);
  }

  /** Step-resumed events are written in plan order, so what they record stays a prefix. */
  lemma CarryRecords(g: Deps, s: System, id: OpId, step: nat)
    requires RecordsInv(s) && Enabled(g, s, CarryEvent(id, step))
    ensures RecordsUpTo(Perform(g, s, CarryEvent(id, step)), id, s.live[id].pc)
  {
    var t, steps := Perform(g, s, CarryEvent(id, step)), s.planned[id];
    assert WorkerRecords(s, id);
    var n: nat :| n <= s.live[id].pc && Records(s, id, n);
    if step < n {
      assert KeyOf(steps[step]) in FirstKeys(steps, n);
      assert Recorded(t, id) == Recorded(s, id);
      assert Records(t, id, n);
    } else {
      assert FirstKeys(steps, step) == FirstKeys(steps, n);
      FirstKeysNext(steps, step);
      assert Records(t, id, step + 1);
    }
  }

  /** A worker that begins has recorded exactly the steps it skips. */
  lemma BeginRecords(s: System, id: OpId)
    requires id in s.live && WorkerRecords(s, id) && Carried(s, id) && s.live[id].phase.NotStarted?
    ensures Records(s, id, s.live[id].pc)
  {
    var n: nat :| n <= s.live[id].pc && Records(s, id, n);
    assert FirstKeys(s.planned[id], s.live[id].pc) == FirstKeys(s.planned[id], n);
  }

  lemma ActRecords(g: Deps, s: System, id: OpId, e: W.Event)
    requires RecordsInv(s) && Enabled(g, s, WorkerAct(id, e))
    ensures var t := Perform(g, s, WorkerAct(id, e));
      WorkerRecords(t, id) && Records(t, id, t.live[id].pc)
  {
    var t, w := Perform(g, s, WorkerAct(id, e)), s.live[id];
    assert WorkerRecords(s, id);
    if e == W.Begin {
      BeginRecords(s, id);
    }
    assert Records(s, id, w.pc);
    if e == W.Publish {
      FirstKeysNext(w.steps, w.pc);
    } else {
      RecordsFrame(s, t, id);
    }
  }

  /** An action leaves the records of every operation it is not about. */
  lemma ElsewhereRecords(s: System, t: System, id: OpId)
    requires RecordsInv(s) && id in s.planned && id in t.planned && t.planned[id] == s.planned[id]
    requires Recorded(t, id) == Recorded(s, id)
    requires id in t.live ==> id in s.live && t.live[id] == s.live[id]
    ensures RecordsUpTo(t, id, |t.planned[id]|)
    ensures id in t.live ==> WorkerRecords(t, id)
  {
    RecordsFrame(s, t, id);
  }

  /** The operation an action writes events for, or creates. */
  ghost predicate Writes(a: Action, id: OpId) {
    match a
    case SubmitCreate(other) => other == id
    case CarryEvent(other, _) => other == id
    case WorkerAct(other, _) => other == id
    case _ => false
  }

  lemma WrittenRecords(g: Deps, s: System, a: Action, id: OpId)
    requires RecordsInv(s) && Enabled(g, s, a) && Writes(a, id)
    ensures var t := Perform(g, s, a);
      id in t.planned && id in t.live && WorkerRecords(t, id) && RecordsUpTo(t, id, |t.planned[id]|)
  {
    var t := Perform(g, s, a);
    match a
    case SubmitCreate(_) =>
      assert Records(t, id, 0);
    case CarryEvent(_, step) =>
      CarryRecords(g, s, id, step);
      var n: nat :| n <= s.live[id].pc && Records(t, id, n);
    case WorkerAct(_, e) =>
      ActRecords(g, s, id, e);
  }

  lemma OthersUntouched(g: Deps, s: System, a: Action, id: OpId)
    requires Enabled(g, s, a) && !Writes(a, id)
    ensures var t := Perform(g, s, a);
      && Recorded(t, id) == Recorded(s, id)
      && (id in t.planned <==> id in s.planned) && (id in t.planned ==> t.planned[id] == s.planned[id])
      && (id in t.live ==> id in s.live && t.live[id] == s.live[id])
  {
  }

  lemma StoreKeeps(g: Deps, s: System, a: Action, id: OpId)
    requires RecordsInv(s) && Enabled(g, s, a) && id in Perform(g, s, a).planned
    ensures var t := Perform(g, s, a); id in t.store && t.store[id].components == Elems(Components(t.planned[id]))
  {
  }

  lemma RecordsStep(g: Deps, s: System, a: Action)
    requires RecordsInv(s) && Enabled(g, s, a)
    ensures RecordsInv(Perform(g, s, a))
  {
    var t := Perform(g, s, a);
    forall id | id in t.planned
      ensures id in t.store && t.store[id].components == Elems(Components(t.planned[id]))
      ensures RecordsUpTo(t, id, |t.planned[id]|)
    {
      StoreKeeps(g, s, a, id);
      RecordsAt(g, s, a, id);
    }
    forall id | id in t.live
      ensures WorkerRecords(t, id)
    {
      RecordsAt(g, s, a, id);
    }
  }

  lemma RecordsAt(g: Deps, s: System, a: Action, id: OpId)
    requires RecordsInv(s) && Enabled(g, s, a)
    ensures var t := Perform(g, s, a);
      && (id in t.planned ==> RecordsUpTo(t, id, |t.planned[id]|))
      && (id in t.live ==> WorkerRecords(t, id))
  {
    var t := Perform(g, s, a);
    if Writes(a, id) {
      WrittenRecords(g, s, a, id);
    } else {
      OthersUntouched(g, s, a, id);
      if id in t.live {
        assert WorkerRecords(s, id);
      }
      if id in t.planned {
        ElsewhereRecords(s, t, id);
      }
    }
  }

  /** In every reachable state each operation created in the run has recorded a prefix of its plan. */
  lemma {:induction false} RecordsHold(g: Deps, s: System, acts: seq<Action>)
    requires Initial(s) && s.planned == map[] && Behaviour(g, s, acts)
    ensures RecordsInv(Reached(g, s, acts))
    decreases |acts|
  {
    if acts != [] {
      RecordsHold(g, s, acts[..|acts| - 1]);
      RecordsStep(g, Reached(g, s, acts[..|acts| - 1]), acts[|acts| - 1]);
    }
  }

  // ----- Retries -----

  /** The components an operation's events record. */
  function Done(s: System, id: OpId): set<Id> {
    R.NamesOf(Recorded(s, id))
  }

  lemma FirstNames(steps: seq<Step>, op: Operation, n: nat)
    requires Uniform(steps, op) && n <= |steps|
    ensures R.NamesOf(FirstKeys(steps, n)) == Elems(Components(steps)[..n])
    ensures forall key: Key :: key in FirstKeys(steps, n) <==> key.1 == op && key.0 in R.NamesOf(FirstKeys(steps, n))
  {
    var ids := Components(steps)[..n];
    forall id
      ensures id in R.NamesOf(FirstKeys(steps, n)) <==> id in ids
    {
      if id in R.NamesOf(FirstKeys(steps, n)) {
        var key :| key in FirstKeys(steps, n) && key.0 == id;
        var i :| 0 <= i < n && KeyOf(steps[i]) == key;
        assert ids[i] == id;
      }
      if id in ids {
        var i :| 0 <= i < n && ids[i] == id;
        assert KeyOf(steps[i]) in FirstKeys(steps, n);
      }
    }
    forall key: Key | key.1 == op && key.0 in ids
      ensures key in FirstKeys(steps, n)
    {
      var i :| 0 <= i < n && ids[i] == key.0;
      assert KeyOf(steps[i]) == key;
    }
  }

  /** The operation was planned with one operation throughout, and the record holds its keys for these components. */
  lemma RecordedNames(s: System, id: OpId, op: Operation) returns (n: nat)
    requires RecordsInv(s) && id in s.planned && Uniform(s.planned[id], op)
    ensures n <= |s.planned[id]| && Done(s, id) == Elems(Components(s.planned[id])[..n])
    ensures Done(s, id) <= Elems(Components(s.planned[id]))
    ensures forall key: Key :: key in Recorded(s, id) <==> key.1 == op && key.0 in Done(s, id)
  {
    n :| n <= |s.planned[id]| && Records(s, id, n);
    FirstNames(s.planned[id], op, n);
    var ids := Components(s.planned[id]);
    assert forall x :: x in ids[..n] ==> x in ids;
  }

  /** The steps are a plan of one operation that lists the skipped components of `order` first. */
  ghost predicate Regroups(steps: seq<Step>, op: Operation, order: seq<Id>, done: set<Id>) {
    steps != [] && Uniform(steps, op) && W.Runnable(steps) && Components(steps) == R.Regrouped(order, done)
  }

  /** The record of the retried operation names exactly the steps in front. */
  lemma FrontIsRecorded(s: System, previous: OpId, steps: seq<Step>, op: Operation, order: seq<Id>)
    requires RecordsInv(s) && previous in s.planned && Uniform(s.planned[previous], op)
    requires Regroups(steps, op, order, Done(s, previous))
    ensures var resumed := |Filter(order, Done(s, previous))|;
      && resumed <= |steps|
      && forall i :: 0 <= i < |steps| ==> (i < resumed <==> KeyOf(steps[i]) in Recorded(s, previous))
  {
    var n := RecordedNames(s, previous, op);
    var done := Done(s, previous);
    var front, rest := Filter(order, done), Filter(order, Elems(order) - done);
    assert |steps| == |front| + |rest|;
    forall i | 0 <= i < |steps|
      ensures i < |front| <==> steps[i].component in done
      ensures KeyOf(steps[i]).1 == op
    {
      assert steps[i].component == Components(steps)[i];
      if i < |front| {
        assert Components(steps)[i] == front[i] && front[i] in front;
      } else {
        assert Components(steps)[i] == rest[i - |front|] && rest[i - |front|] in rest;
      }
    }
  }

  /** What is left of the conditions of a submission, once its plan is safe and its skips are the record. */
  lemma AdmittedIff(g: Deps, s: System, previous: OpId, steps: seq<Step>, op: Operation, order: seq<Id>)
    requires RecordsInv(s) && previous in s.planned && previous !in s.live && Uniform(s.planned[previous], op)
    requires Regroups(steps, op, order, Done(s, previous)) && SafePlan(g, steps)
    requires Elems(Components(steps)) == Elems(Components(s.planned[previous]))
    ensures Enabled(g, s, SubmitCheck(steps, |Filter(order, Done(s, previous))|, Some(previous)))
            <==> s.lock.Free? && NoConflict(s.store, Elems(Components(steps)))
  {
    FrontIsRecorded(s, previous, steps, op, order);
  }

  /** The steps whose component is in `done`, or those whose component is not. */
  function Part(steps: seq<Step>, done: set<Id>, inside: bool): (r: seq<Step>)
    ensures forall step :: step in r ==> step in steps
  {
    if steps == [] then []
    else (if (steps[0].component in done) == inside then [steps[0]] else []) + Part(steps[1..], done, inside)
  }

  lemma {:induction false} PartComponents(steps: seq<Step>, done: set<Id>, keep: set<Id>, inside: bool)
    requires forall step :: step in steps ==> ((step.component in done) == inside <==> step.component in keep)
    ensures Components(Part(steps, done, inside)) == Filter(Components(steps), keep)
  {
    if steps != [] {
      PartComponents(steps[1..], done, keep, inside);
      var rest := Part(steps[1..], done, inside);
      assert Components([steps[0]] + rest) == [steps[0].component] + Components(rest);
      assert Components(steps)[1..] == Components(steps[1..]);
    }
  }

  /** What a retry runs, seen whole: the planned steps it skips, then those that remain, each part in plan order. */
  function Listed(prepared: seq<Step>, done: set<Id>): seq<Step> {
    Part(prepared, done, true) + Part(prepared, done, false)
  }

  lemma ComponentIn(steps: seq<Step>, step: Step)
    requires step in steps
    ensures step.component in Components(steps)
  {
    var i :| 0 <= i < |steps| && steps[i] == step;
    assert Components(steps)[i] == step.component;
  }

  lemma ListedComponents(prepared: seq<Step>, done: set<Id>)
    ensures Components(Listed(prepared, done)) == R.Regrouped(Components(prepared), done)
  {
    var order := Components(prepared);
    forall step | step in prepared
      ensures step.component in Elems(order)
    {
      ComponentIn(prepared, step);
    }
    PartComponents(prepared, done, done, true);
    PartComponents(prepared, done, Elems(order) - done, false);
    var front, rest := Part(prepared, done, true), Part(prepared, done, false);
    assert Components(front + rest) == Components(front) + Components(rest);
  }

  lemma {:induction false} PartsCover(steps: seq<Step>, done: set<Id>)
    ensures |Part(steps, done, true)| + |Part(steps, done, false)| == |steps|
  {
    if steps != [] {
      PartsCover(steps[1..], done);
    }
  }

  lemma PartIsRunnable(steps: seq<Step>, op: Operation, done: set<Id>, inside: bool)
    requires Uniform(steps, op) && W.Runnable(steps)
    ensures Uniform(Part(steps, done, inside), op) && W.Runnable(Part(steps, done, inside))
  {
    var part := Part(steps, done, inside);
    forall i | 0 <= i < |part|
      ensures part[i].operation == op && part[i].maxAttempts >= 1
    {
      assert part[i] in steps;
    }
  }

  /** That is how the planned order is regrouped. */
  lemma ListedRegroups(prepared: seq<Step>, op: Operation, done: set<Id>)
    requires prepared != [] && Uniform(prepared, op) && W.Runnable(prepared)
    ensures Regroups(Listed(prepared, done), op, Components(prepared), done)
  {
    ListedComponents(prepared, done);
    PartsCover(prepared, done);
    PartIsRunnable(prepared, op, done, true);
    PartIsRunnable(prepared, op, done, false);
  }

  /** How many planned steps a retry skips. */
  function Resumed(prepared: seq<Step>, done: set<Id>): nat {
    |Filter(Components(prepared), done)|
  }

  /**
   In every reachable state, an ended operation that was planned to start components in a valid order has a
   dependency-closed record; and its retry, planned in any other valid order of the same components, is admitted
   unless an active operation shares a component or another submission or cancellation holds the lock.
   */
  lemma StartRetryIff(g: Deps, s0: System, acts: seq<Action>, previous: OpId, op: Operation, prepared: seq<Step>)
    requires Initial(s0) && s0.planned == map[] && Behaviour(g, s0, acts)
    requires var s := Reached(g, s0, acts);
      && previous in s.planned && previous in s.store && previous !in s.live
      && Raises(op) && Uniform(s.planned[previous], op)
      && Order(g, Components(s.planned[previous]), s.store[previous].components)
    requires prepared != [] && Uniform(prepared, op) && W.Runnable(prepared)
    requires Order(g, Components(prepared), Reached(g, s0, acts).store[previous].components)
    ensures var s := Reached(g, s0, acts);
      var done := Done(s, previous);
      && Closed(g, done) && done <= s.store[previous].components
      && (Enabled(g, s, SubmitCheck(Listed(prepared, done), Resumed(prepared, done), Some(previous)))
          <==> s.lock.Free? && NoConflict(s.store, s.store[previous].components))
  {
    RecordsHold(g, s0, acts);
    var s := Reached(g, s0, acts);
    var scope, order, done := s.store[previous].components, Components(prepared), Done(s, previous);
    var n := RecordedNames(s, previous, op);
    R.PrefixIsClosed(g, Components(s.planned[previous]), scope, n);
    ListedRegroups(prepared, op, done);
    R.ResumeKeepsOrder(g, order, scope, done);
    RaisingPlanIsSafe(g, Listed(prepared, done), op, scope);
    AdmittedIff(g, s, previous, Listed(prepared, done), op, order);
  }

  /** The same for an ended operation that was planned to stop components, consumers first. */
  lemma StopRetryIff(g: Deps, s0: System, acts: seq<Action>, previous: OpId, op: Operation, prepared: seq<Step>)
    requires Initial(s0) && s0.planned == map[] && Behaviour(g, s0, acts)
    requires var s := Reached(g, s0, acts);
      && previous in s.planned && previous in s.store && previous !in s.live
      && Lowers(op) && Uniform(s.planned[previous], op)
      && ConsumersFirst(g, Components(s.planned[previous]))
      && Elems(Components(prepared)) == s.store[previous].components
    requires prepared != [] && Uniform(prepared, op) && W.Runnable(prepared)
    requires ConsumersFirst(g, Components(prepared))
    ensures var s := Reached(g, s0, acts);
      var done := Done(s, previous);
      && R.HoldsConsumers(g, done) && done <= s.store[previous].components
      && (Enabled(g, s, SubmitCheck(Listed(prepared, done), Resumed(prepared, done), Some(previous)))
          <==> s.lock.Free? && NoConflict(s.store, s.store[previous].components))
  {
    RecordsHold(g, s0, acts);
    var s := Reached(g, s0, acts);
    var order, done := Components(prepared), Done(s, previous);
    var n := RecordedNames(s, previous, op);
    R.PrefixIsConsumerClosed(g, Components(s.planned[previous]), n);
    ListedRegroups(prepared, op, done);
    R.ResumeKeepsConsumersFirst(g, order, done);
    R.RegroupedNoDup(order, done);
    LoweringPlanIsSafe(g, Listed(prepared, done), op);
    AdmittedIff(g, s, previous, Listed(prepared, done), op, order);
  }
}
