/**
 Runs of the engine: what a raised cancellation flag stops, and concrete runs in which a terminal state is lost and
 in which a retry strands a component.
 */
module EngineRuns {
  import opened Sequences
  import opened Graph
  import opened ComponentRegistry
  import opened Plans
  import opened Engine
  import W = Worker

  // ----- Cancellation -----

  /** Adapter calls of one operation among the actions. */
  function CallsOf(acts: seq<Action>, id: OpId): nat {
    multiset(acts)[WorkerAct(id, W.Call)]
  }

  lemma OneMoreCall(acts: seq<Action>, a: Action, id: OpId)
    ensures CallsOf(acts + [a], id) == CallsOf(acts, id) + if a == WorkerAct(id, W.Call) then 1 else 0
  {
  }

  /** The operation exists, and its worker, if it is still there, has the flag up. */
  ghost predicate Flagged(s: System, id: OpId) {
    id in s.store && (id in s.live ==> id in s.cancelled)
  }

  ghost predicate IsArmed(s: System, id: OpId) {
    id in s.live && s.live[id].phase.Armed?
  }

  lemma FlaggedStep(g: Deps, s: System, a: Action, id: OpId)
    requires Flagged(s, id) && Enabled(g, s, a)
    ensures Flagged(Perform(g, s, a), id)
    ensures IsArmed(Perform(g, s, a), id) ==> IsArmed(s, id) && a != WorkerAct(id, W.Call)
    ensures a == WorkerAct(id, W.Call) ==> IsArmed(s, id)
  {
    if a.WorkerAct? && a.id == id && a.event != W.Pass {
      W.ArmedByPass(s.live[id], a.event);
    }
  }

  /** The calls made since the flag went up, and the one that may still be armed, are one at most. */
  ghost predicate LateCalls(s: System, since: seq<Action>, id: OpId, armed: bool) {
    Flagged(s, id) && CallsOf(since, id) + (if IsArmed(s, id) then 1 else 0) <= if armed then 1 else 0
  }

  lemma LateCallsNext(g: Deps, s: System, a: Action, since: seq<Action>, id: OpId, armed: bool)
    requires LateCalls(s, since, id, armed) && Enabled(g, s, a)
    ensures LateCalls(Perform(g, s, a), since + [a], id, armed)
  {
    FlaggedStep(g, s, a, id);
    OneMoreCall(since, a, id);
  }

  /**
   After a cancellation has raised the flag of an operation, at most one more of its adapter calls begins, and only
   if its boundary check had already passed; this holds for whatever else runs.
   */
  lemma {:induction false} AtMostOneCallAfterCancel(g: Deps, s: System, acts: seq<Action>, m: nat, id: OpId)
    requires Behaviour(g, s, acts) && m < |acts| && acts[m] == CancelRead(id)
    ensures Behaviour(g, s, acts[..m])
    ensures LateCalls(Reached(g, s, acts), acts[m + 1..], id, IsArmed(Reached(g, s, acts[..m]), id))
    ensures CallsOf(acts[m + 1..], id) <= 1
    decreases |acts|
  {
    var init, last := acts[..|acts| - 1], acts[|acts| - 1];
    if m == |init| {
      assert acts[..m] == init && acts[m + 1..] == [];
    } else {
      assert init[..m] == acts[..m] && init[m] == acts[m];
      AtMostOneCallAfterCancel(g, s, init, m, id);
      assert acts[m + 1..] == init[m + 1..] + [last];
      LateCallsNext(g, Reached(g, s, init), last, init[m + 1..], id, IsArmed(Reached(g, s, acts[..m]), id));
    }
  }

  // ----- Building runs -----

  lemma Extend(g: Deps, s: System, acts: seq<Action>, a: Action) returns (longer: seq<Action>)
    requires Behaviour(g, s, acts) && Enabled(g, Reached(g, s, acts), a)
    ensures longer == acts + [a] && longer[..|longer| - 1] == acts
    ensures Behaviour(g, s, longer) && Reached(g, s, longer) == Perform(g, Reached(g, s, acts), a)
  {
    longer := acts + [a];
    assert longer[..|longer| - 1] == acts;
  }

  /** Nothing is running or about to. */
  ghost predicate Quiet(s: System) {
    && s.lock.Free? && s.live == map[] && s.cancelled == {}
    && forall id :: id in s.store ==> !Active(s.store[id].state)
  }

  /** One worker runs alone and stands at `w`. */
  ghost predicate Alone(s: System, id: OpId, w: W.State) {
    && s.lock.Free? && s.live == map[id := w] && s.cancelled == {}
    && id in s.store && Active(s.store[id].state) && W.Consistent(w)
    && forall j :: j in s.store && j != id ==> !Active(s.store[j].state)
  }

  /** Everything but the worker, its record and the components is as before. */
  ghost predicate Onward(s: System, t: System, id: OpId) {
    && t.store == s.store
    && forall j :: j != id ==> Recorded(t, j) == Recorded(s, j)
  }

  /** A step without checks that is tried once. */
  ghost predicate Plain(step: Step) {
    step.verify == [] && step.maxAttempts == 1
  }

  /** Nothing conflicts when nothing runs. */
  lemma CheckQuiet(g: Deps, s: System, steps: seq<Step>, resumed: nat, retryOf: Option<OpId>)
    requires Quiet(s) && steps != [] && SafePlan(g, steps) && W.Runnable(steps) && resumed <= |steps|
    requires Skips(s, steps, resumed, retryOf)
    ensures Enabled(g, s, SubmitCheck(steps, resumed, retryOf))
    ensures Perform(g, s, SubmitCheck(steps, resumed, retryOf)) == s.(lock := Submitting(steps, resumed))
  {
  }

  lemma CreateAlone(g: Deps, s: System, id: OpId, steps: seq<Step>, resumed: nat)
    requires Quiet(s) && id !in s.store && W.Runnable(steps) && resumed <= |steps|
    ensures var t := s.(lock := Submitting(steps, resumed));
      Enabled(g, t, SubmitCreate(id)) &&
      var u := Perform(g, t, SubmitCreate(id));
      && Alone(u, id, W.Fresh(steps, resumed)) && u.up == s.up && Recorded(u, id) == {}
      && u.store == s.store[id := Doc(Queued, Elems(Components(steps)))]
      && (forall j :: j != id ==> Recorded(u, j) == Recorded(s, j))
  {
    var u := Perform(g, s.(lock := Submitting(steps, resumed)), SubmitCreate(id));
    assert u.live == map[id := W.Fresh(steps, resumed)];
  }

  lemma Submit(g: Deps, s: System, acts: seq<Action>, id: OpId, steps: seq<Step>, resumed: nat, retryOf: Option<OpId>)
    returns (longer: seq<Action>)
    requires Behaviour(g, s, acts) && Quiet(Reached(g, s, acts)) && id !in Reached(g, s, acts).store
    requires steps != [] && SafePlan(g, steps) && W.Runnable(steps) && resumed <= |steps|
    requires Skips(Reached(g, s, acts), steps, resumed, retryOf)
    ensures Behaviour(g, s, longer)
    ensures var t, u := Reached(g, s, acts), Reached(g, s, longer);
      && Alone(u, id, W.Fresh(steps, resumed)) && u.up == t.up && Recorded(u, id) == {}
      && u.store == t.store[id := Doc(Queued, Elems(Components(steps)))]
      && (forall j :: j != id ==> Recorded(u, j) == Recorded(t, j))
  {
    CheckQuiet(g, Reached(g, s, acts), steps, resumed, retryOf);
    CreateAlone(g, Reached(g, s, acts), id, steps, resumed);
    longer := Extend(g, s, acts, SubmitCheck(steps, resumed, retryOf));
    longer := Extend(g, s, longer, SubmitCreate(id));
  }

  /** A worker's event moves that worker and nobody else. */
  lemma ActAlone(s: System, id: OpId, w: W.State, e: W.Event)
    requires Alone(s, id, w) && W.Enabled(w, e)
    ensures var t := Act(s, id, e);
      && Alone(t, id, W.Next(w, e)) && t.store == s.store && t.up == s.up
      && (forall j :: j != id ==> Recorded(t, j) == Recorded(s, j))
      && (e == W.Publish ==> Recorded(t, id) == Recorded(s, id) + {KeyOf(w.steps[w.pc])})
      && (e != W.Publish ==> Recorded(t, id) == Recorded(s, id))
  {
  }

  /** Any event of the worker but publishing and the two that depend on records or flags. */
  lemma Work(g: Deps, s: System, acts: seq<Action>, id: OpId, w: W.State, e: W.Event) returns (longer: seq<Action>)
    requires Behaviour(g, s, acts) && Alone(Reached(g, s, acts), id, w)
    requires W.Enabled(w, e) && e != W.Publish && e != W.SeeCancelled
    requires e == W.Begin ==> Carried(Reached(g, s, acts), id)
    ensures Behaviour(g, s, longer) && Alone(Reached(g, s, longer), id, W.Next(w, e))
    ensures var t, u := Reached(g, s, acts), Reached(g, s, longer);
      Onward(t, u, id) && u.up == t.up && Recorded(u, id) == Recorded(t, id)
  {
    ActAlone(Reached(g, s, acts), id, w, e);
    longer := Extend(g, s, acts, WorkerAct(id, e));
  }

  /** A step that passes its boundary and begins its adapter call. */
  lemma CallStep(g: Deps, s: System, acts: seq<Action>, id: OpId, w: W.State) returns (longer: seq<Action>)
    requires Behaviour(g, s, acts) && Alone(Reached(g, s, acts), id, w) && w.phase.AtBoundary?
    ensures Behaviour(g, s, longer) && Alone(Reached(g, s, longer), id, w.(phase := W.Calling))
    ensures var t, u := Reached(g, s, acts), Reached(g, s, longer);
      Onward(t, u, id) && u.up == t.up && Recorded(u, id) == Recorded(t, id)
  {
    longer := Work(g, s, acts, id, w, W.Pass);
    longer := Work(g, s, longer, id, w.(phase := W.Armed), W.Call);
  }

  /** The adapter call takes effect, then returns; there is nothing to check. */
  lemma TakeAndReturn(g: Deps, s: System, acts: seq<Action>, id: OpId, w: W.State) returns (longer: seq<Action>)
    requires Behaviour(g, s, acts) && Alone(Reached(g, s, acts), id, w) && w.phase.Calling?
    requires Plain(w.steps[w.pc]) && w.check == 0
    ensures Behaviour(g, s, longer) && Alone(Reached(g, s, longer), id, w.(phase := W.Verified))
    ensures var t, u := Reached(g, s, acts), Reached(g, s, longer);
      Onward(t, u, id) && u.up == Moved(w.steps[w.pc], t.up) && Recorded(u, id) == Recorded(t, id)
  {
    longer := Extend(g, s, acts, TakeEffect(id));
    longer := Work(g, s, longer, id, w, W.AdapterReturned);
  }

  /** The step-succeeded event. */
  lemma PublishStep(g: Deps, s: System, acts: seq<Action>, id: OpId, w: W.State) returns (longer: seq<Action>)
    requires Behaviour(g, s, acts) && Alone(Reached(g, s, acts), id, w) && w.phase.Verified?
    requires InEffect(w, Reached(g, s, acts).up)
    ensures Behaviour(g, s, longer) && Alone(Reached(g, s, longer), id, W.Next(w, W.Publish))
    ensures var t, u := Reached(g, s, acts), Reached(g, s, longer);
      Onward(t, u, id) && u.up == t.up && Recorded(u, id) == Recorded(t, id) + {KeyOf(w.steps[w.pc])}
  {
    ActAlone(Reached(g, s, acts), id, w, W.Publish);
    longer := Extend(g, s, acts, WorkerAct(id, W.Publish));
  }

  /** One step that goes well from its boundary to its event. */
  lemma GoodStep(g: Deps, s: System, acts: seq<Action>, id: OpId, w: W.State) returns (longer: seq<Action>)
    requires Behaviour(g, s, acts) && Alone(Reached(g, s, acts), id, w) && W.AtHead(w) && w.pc < |w.steps|
    requires Plain(w.steps[w.pc]) && (Raises(w.steps[w.pc].operation) || Lowers(w.steps[w.pc].operation))
    ensures Behaviour(g, s, longer)
    ensures Alone(Reached(g, s, longer), id, W.Advance(w.(pc := w.pc + 1)))
    ensures var t, u := Reached(g, s, acts), Reached(g, s, longer);
      && Onward(t, u, id) && u.up == Moved(w.steps[w.pc], t.up)
      && Recorded(u, id) == Recorded(t, id) + {KeyOf(w.steps[w.pc])}
  {
    longer := CallStep(g, s, acts, id, w);
    longer := TakeAndReturn(g, s, longer, id, w.(phase := W.Calling));
    longer := PublishStep(g, s, longer, id, w.(phase := W.Verified));
    AdvanceForgets(w);
  }

  /** Where the next step starts does not depend on how the last one stood. */
  lemma AdvanceForgets(w: W.State)
    requires W.AtHead(w) && w.pc < |w.steps| && W.Consistent(w.(phase := W.Verified))
    ensures W.Next(w.(phase := W.Verified), W.Publish) == W.Advance(w.(pc := w.pc + 1, phase := W.Verified))
    ensures W.Advance(w.(pc := w.pc + 1, phase := W.Verified)) == W.Advance(w.(pc := w.pc + 1))
  {
  }

  /** A step whose adapter raises without having taken effect. */
  lemma BadStep(g: Deps, s: System, acts: seq<Action>, id: OpId, w: W.State) returns (longer: seq<Action>)
    requires Behaviour(g, s, acts) && Alone(Reached(g, s, acts), id, w) && W.AtHead(w) && w.pc < |w.steps|
    requires Plain(w.steps[w.pc])
    ensures Behaviour(g, s, longer) && Alone(Reached(g, s, longer), id, w.(phase := W.Ended(W.Failed)))
    ensures var t, u := Reached(g, s, acts), Reached(g, s, longer);
      Onward(t, u, id) && u.up == t.up && Recorded(u, id) == Recorded(t, id)
  {
    longer := CallStep(g, s, acts, id, w);
    longer := Work(g, s, longer, id, w.(phase := W.Calling), W.AdapterRaised(W.RaisedError));
  }

  /** The final save. */
  lemma Finish(g: Deps, s: System, acts: seq<Action>, id: OpId, w: W.State) returns (longer: seq<Action>)
    requires Behaviour(g, s, acts) && Alone(Reached(g, s, acts), id, w) && w.phase.Ended?
    ensures Behaviour(g, s, longer) && Quiet(Reached(g, s, longer))
    ensures var t, u := Reached(g, s, acts), Reached(g, s, longer);
      && u.up == t.up && u.recorded == t.recorded
      && u.store == t.store[id := t.store[id].(state := Done(w.phase.outcome))]
  {
    longer := Extend(g, s, acts, WorkerFinish(id));
  }

  // ----- A terminal state is lost -----

  lemma OneStart(g: Deps, c: Id, steps: seq<Step>)
    requires c in g && g[c] == [] && steps == [Step(c, Start, 1.0, [], 1)]
    ensures SafePlan(g, steps) && W.Runnable(steps)
  {
    assert Components(steps) == [c];
    RaisingPlanIsSafe(g, steps, Start, {c});
  }

  /** The worker's final save falls between the read and the write of a cancellation. */
  lemma SaveInside(g: Deps, s: System, begun: seq<Action>, id: OpId, w: W.State) returns (acts: seq<Action>)
    requires Behaviour(g, s, begun) && Alone(Reached(g, s, begun), id, w) && w.phase == W.Ended(W.Succeeded)
    ensures Behaviour(g, s, acts)
    ensures var t := Reached(g, s, acts);
      t.lock == Cancels(id) && id in t.store && t.store[id].state == Done(W.Succeeded)
  {
    acts := Extend(g, s, begun, CancelRead(id));
    acts := Extend(g, s, acts, WorkerFinish(id));
  }

  /** Such a run exists: a cancellation reads, the worker finishes, the cancellation writes. */
  lemma TerminalCanBeLost(g: Deps, s: System, id: OpId, c: Id) returns (acts: seq<Action>)
    requires Initial(s) && id !in s.store && c in g && g[c] == []
    ensures Behaviour(g, s, acts) && acts != []
    ensures var before := Reached(g, s, acts[..|acts| - 1]);
      id in before.store && before.store[id].state == Done(W.Succeeded)
    ensures var after := Reached(g, s, acts); id in after.store && after.store[id].state == Cancelling
  {
    var steps := [Step(c, Start, 1.0, [], 1)];
    OneStart(g, c, steps);
    acts := [];
    acts := Submit(g, s, acts, id, steps, 0, None);
    acts := Work(g, s, acts, id, W.Fresh(steps, 0), W.Begin);
    acts := GoodStep(g, s, acts, id, W.Advance(W.Fresh(steps, 0)));
    acts := SaveInside(g, s, acts, id, W.Advance(W.State(steps, 1, 1, 0, W.AtBoundary)));
    acts := Extend(g, s, acts, CancelWrite);
  }

  // ----- A retry strands a component -----

  /** A plan of two different plain steps that is safe by itself. */
  ghost predicate Pair(g: Deps, x: Step, y: Step) {
    && Plain(x) && Plain(y) && KeyOf(x) != KeyOf(y) && SafePlan(g, [x, y])
  }

  lemma PairRuns(g: Deps, x: Step, y: Step)
    requires Pair(g, x, y)
    ensures W.Runnable([x, y])
    ensures Raises(x.operation) || Lowers(x.operation)
    ensures Raises(y.operation) || Lowers(y.operation)
  {
    assert SafeStep(g, [x, y], 0) && SafeStep(g, [x, y], 1);
  }

  /** The second step of a pair, about to be tried. */
  function Second(x: Step, y: Step): W.State {
    W.State([x, y], 1, 1, 0, W.AtBoundary)
  }

  /** A submission whose first step succeeds. */
  lemma FirstStep(g: Deps, s: System, acts: seq<Action>, id: OpId, x: Step, y: Step) returns (longer: seq<Action>)
    requires Behaviour(g, s, acts) && Quiet(Reached(g, s, acts)) && id !in Reached(g, s, acts).store && Pair(g, x, y)
    ensures Behaviour(g, s, longer) && Alone(Reached(g, s, longer), id, Second(x, y))
    ensures var t, u := Reached(g, s, acts), Reached(g, s, longer);
      && u.up == Moved(x, t.up) && Recorded(u, id) == {KeyOf(x)}
      && (forall j :: j != id ==> Recorded(u, j) == Recorded(t, j))
      && u.store == t.store[id := Doc(Queued, Elems(Components([x, y])))]
  {
    PairRuns(g, x, y);
    var w := W.Fresh([x, y], 0);
    longer := Submit(g, s, acts, id, [x, y], 0, None);
    longer := Work(g, s, longer, id, w, W.Begin);
    longer := GoodStep(g, s, longer, id, W.Advance(w));
  }

  /** An operation whose first step succeeds and whose second fails. */
  lemma HalfRun(g: Deps, s: System, acts: seq<Action>, id: OpId, x: Step, y: Step) returns (longer: seq<Action>)
    requires Behaviour(g, s, acts) && Quiet(Reached(g, s, acts)) && id !in Reached(g, s, acts).store && Pair(g, x, y)
    ensures Behaviour(g, s, longer) && Quiet(Reached(g, s, longer))
    ensures var t, u := Reached(g, s, acts), Reached(g, s, longer);
      && u.up == Moved(x, t.up) && Recorded(u, id) == {KeyOf(x)}
      && u.store == t.store[id := Doc(Done(W.Failed), Elems(Components([x, y])))]
  {
    longer := FirstStep(g, s, acts, id, x, y);
    longer := BadStep(g, s, longer, id, Second(x, y));
    longer := Finish(g, s, longer, id, Second(x, y).(phase := W.Ended(W.Failed)));
  }

  /** An operation whose two steps succeed. */
  lemma FullRun(g: Deps, s: System, acts: seq<Action>, id: OpId, x: Step, y: Step) returns (longer: seq<Action>)
    requires Behaviour(g, s, acts) && Quiet(Reached(g, s, acts)) && id !in Reached(g, s, acts).store && Pair(g, x, y)
    ensures Behaviour(g, s, longer) && Quiet(Reached(g, s, longer))
    ensures var t, u := Reached(g, s, acts), Reached(g, s, longer);
      && u.up == Moved(y, Moved(x, t.up)) && (forall j :: j != id ==> Recorded(u, j) == Recorded(t, j))
      && u.store == t.store[id := Doc(Done(W.Succeeded), Elems(Components([x, y])))]
  {
    PairRuns(g, x, y);
    longer := FirstStep(g, s, acts, id, x, y);
    longer := GoodStep(g, s, longer, id, Second(x, y));
    longer := Finish(g, s, longer, id, W.Advance(Second(x, y).(pc := 2)));
  }

  /** A retry that skips the recorded first step and succeeds with the second. */
  lemma RetryRun(g: Deps, s: System, acts: seq<Action>, previous: OpId, id: OpId, x: Step, y: Step)
    returns (longer: seq<Action>)
    requires Behaviour(g, s, acts) && Quiet(Reached(g, s, acts)) && id !in Reached(g, s, acts).store && Pair(g, x, y)
    requires var t := Reached(g, s, acts);
      && previous in t.store && Recorded(t, previous) == {KeyOf(x)}
      && t.store[previous].components == Elems(Components([x, y]))
    ensures Behaviour(g, s, longer)
    ensures Reached(g, s, longer).up == Moved(y, Reached(g, s, acts).up)
  {
    PairRuns(g, x, y);
    var w := W.Fresh([x, y], 1);
    longer := Submit(g, s, acts, id, [x, y], 1, Some(previous));
    longer := Extend(g, s, longer, CarryEvent(id, 0));
    longer := Work(g, s, longer, id, w, W.Begin);
    longer := GoodStep(g, s, longer, id, W.Advance(w));
  }

  /** Half of one plan, all of another that undoes it, then the retry of the first. */
  lemma HalfUndoRetry(g: Deps, s: System, ids: seq<OpId>, x: Step, y: Step, p: Step, q: Step)
    returns (acts: seq<Action>)
    requires Initial(s) && |ids| == 3 && NoDup(ids) && (forall i :: 0 <= i < 3 ==> ids[i] !in s.store)
    requires Pair(g, x, y) && Pair(g, p, q)
    ensures Behaviour(g, s, acts)
    ensures Reached(g, s, acts).up == Moved(y, Moved(q, Moved(p, Moved(x, s.up))))
  {
    acts := [];
    assert ids[0] != ids[1] && ids[0] != ids[2] && ids[1] != ids[2];
    acts := HalfRun(g, s, acts, ids[0], x, y);
    acts := FullRun(g, s, acts, ids[1], p, q);
    acts := RetryRun(g, s, acts, ids[0], ids[2], x, y);
  }

  function Starting(c: Id): Step {
    Step(c, Start, 1.0, [], 1)
  }

  function Stopping(c: Id): Step {
    Step(c, Stop, 1.0, [], 1)
  }

  /** Two components, the second depending on the first. */
  function TwoComponents(a: Id, b: Id): Deps {
    map[a := [], b := [a]]
  }

  lemma TwoPlans(a: Id, b: Id)
    requires a != b
    ensures Pair(TwoComponents(a, b), Starting(a), Starting(b))
    ensures Pair(TwoComponents(a, b), Stopping(b), Stopping(a))
  {
    var starts, stops := [Starting(a), Starting(b)], [Stopping(b), Stopping(a)];
    assert Components(starts) == [a, b] && Components(stops) == [b, a];
    assert [a, b][..1] == [a] && [b, a][..1] == [b];
    RaisingPlanIsSafe(TwoComponents(a, b), starts, Start, {a, b});
    LoweringPlanIsSafe(TwoComponents(a, b), stops, Stop);
  }

  /** The consumer is up alone. */
  lemma Stranded(a: Id, b: Id, up: set<Id>)
    requires a != b && b in up && a !in up
    ensures !Closed(TwoComponents(a, b), up)
  {
    assert a in TwoComponents(a, b)[b];
  }

  /**
   A start brings up the first component and fails at the second; both are stopped; the retry of the start skips the
   first, which its events still record, and brings up the second alone.
   */
  lemma ResumeCanStrand(s: System, ids: seq<OpId>, a: Id, b: Id) returns (acts: seq<Action>)
    requires Initial(s) && s.up == {} && a != b
    requires |ids| == 3 && NoDup(ids) && forall i :: 0 <= i < 3 ==> ids[i] !in s.store
    ensures Behaviour(TwoComponents(a, b), s, acts) && Closed(TwoComponents(a, b), s.up)
    ensures !Closed(TwoComponents(a, b), Reached(TwoComponents(a, b), s, acts).up)
  {
    TwoPlans(a, b);
    acts := HalfUndoRetry(TwoComponents(a, b), s, ids, Starting(a), Starting(b), Stopping(b), Stopping(a));
    Stranded(a, b, Reached(TwoComponents(a, b), s, acts).up);
  }

  /**
   A suspend takes down the second component and fails at the first; both are started again; the retry of the
   suspend skips the second, which its events still record as stopped, and takes the first away from under it.
   */
  lemma SuspendCanStrand(s: System, ids: seq<OpId>, a: Id, b: Id) returns (acts: seq<Action>)
    requires Initial(s) && s.up == {a, b} && a != b
    requires |ids| == 3 && NoDup(ids) && forall i :: 0 <= i < 3 ==> ids[i] !in s.store
    ensures Behaviour(TwoComponents(a, b), s, acts) && Closed(TwoComponents(a, b), s.up)
    ensures !Closed(TwoComponents(a, b), Reached(TwoComponents(a, b), s, acts).up)
  {
    TwoPlans(a, b);
    acts := HalfUndoRetry(TwoComponents(a, b), s, ids, Stopping(b), Stopping(a), Starting(a), Starting(b));
    Stranded(a, b, Reached(TwoComponents(a, b), s, acts).up);
  }
}
