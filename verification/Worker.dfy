/**
 One run of a plan (`_run` and `_execute_step` of manager/operation_engine.py),
 as a machine over the atomic things a run does. The adapter, the verifier, the
 clock and the cancellation flag are free: any of their answers is a transition.
 */
module Worker {
  import opened Sequences
  import opened Plans

  datatype Outcome = Succeeded | Failed | TimedOut | Cancelled

  datatype Phase =
    | NotStarted
    | AtBoundary           // the boundary check before an adapter call
    | Armed                // that check passed; the adapter call has not begun
    | Calling              // inside the adapter
    | AtCheckBoundary      // the boundary check before a verification check
    | Checking             // inside the verifier
    | Verified             // adapter returned and every check passed
    | Ended(outcome: Outcome)

  /** `pc` counts finished steps, resumed ones included; `attempt` counts from 1. */
  datatype State = State(steps: seq<Step>, pc: nat, attempt: nat, check: nat, phase: Phase)

  /** How an adapter or verifier call can end other than by returning. */
  datatype Raised = RaisedCancelled | RaisedTimedOut | RaisedError

  datatype Event =
    | Begin
    | Pass                                  // boundary check: no cancellation flag, deadline not reached
    | SeeCancelled                          // boundary check: flag set
    | SeeTimedOut                           // boundary check: deadline reached
    | Call                                  // the adapter call begins
    | AdapterReturned
    | AdapterRaised(raised: Raised)
    | CheckPassed
    | CheckRefused                          // the verifier answered False
    | CheckRaised(raised: Raised)
    | Publish                               // step-succeeded event, then completedSteps

  /** A plan the engine can run: its bounds give every step at least one attempt. */
  ghost predicate Runnable(steps: seq<Step>) {
    forall i :: 0 <= i < |steps| ==> steps[i].maxAttempts >= 1
  }

  ghost predicate Consistent(w: State) {
    && Runnable(w.steps)
    && w.pc <= |w.steps|
    && (!w.phase.NotStarted? && !w.phase.Ended? ==>
          && w.pc < |w.steps|
          && 1 <= w.attempt <= w.steps[w.pc].maxAttempts
          && w.check <= |w.steps[w.pc].verify|)
    && (w.phase.Checking? ==> w.check < |w.steps[w.pc].verify|)
    && (w.phase.AtCheckBoundary? ==> w.check < |w.steps[w.pc].verify|)
    && (w.phase.Verified? ==> w.check == |w.steps[w.pc].verify|)
    && (w.phase.Ended? ==> (w.phase.outcome.Succeeded? <==> w.pc == |w.steps|))
  }

  function Fresh(steps: seq<Step>, resumed: nat): State {
    State(steps, resumed, 0, 0, NotStarted)
  }

  /** Head of the step loop: the next step's first attempt, or success. */
  function Advance(w: State): State {
    if w.pc < |w.steps| then w.(attempt := 1, check := 0, phase := AtBoundary)
    else w.(phase := Ended(Succeeded))
  }

  /** Between steps: about to make the next step's first attempt, or done. */
  ghost predicate AtHead(w: State) {
    if w.pc < |w.steps| then w.phase.AtBoundary? && w.attempt == 1 && w.check == 0
    else w.phase == Ended(Succeeded)
  }

  /** The adapter has returned or a check has passed: the next check, or none left. */
  function AfterCheck(w: State): State
    requires w.pc < |w.steps|
  {
    w.(phase := if w.check < |w.steps[w.pc].verify| then AtCheckBoundary else Verified)
  }

  /** An attempt raised: cancellation and timeout end the run, anything else is retried while attempts remain. */
  function AfterRaise(w: State, raised: Raised): State
    requires w.pc < |w.steps|
  {
    match raised
    case RaisedCancelled => w.(phase := Ended(Cancelled))
    case RaisedTimedOut => w.(phase := Ended(TimedOut))
    case RaisedError =>
      if w.attempt < w.steps[w.pc].maxAttempts
      then w.(attempt := w.attempt + 1, check := 0, phase := AtBoundary)
      else w.(phase := Ended(Failed))
  }

  /** What a raise leads to, whatever checks the attempt had got through. */
  ghost predicate RaisedTo(w: State, raised: Raised, v: State)
    requires w.pc < |w.steps|
  {
    if raised.RaisedError? && w.attempt < w.steps[w.pc].maxAttempts
    then v == w.(attempt := w.attempt + 1, check := 0, phase := AtBoundary)
    else v.phase == AfterRaise(w, raised).phase && v.pc == w.pc && v.attempt == w.attempt && v.steps == w.steps
  }

  /** A call that raises ends or restarts the attempt, whatever the attempt had got through before. */
  lemma CallRaises(w: State, x: State, raised: Raised)
    requires w.pc < |w.steps| && x == w.(check := x.check, phase := x.phase)
    ensures RaisedTo(w, raised, AfterRaise(x, raised))
  {
  }

  lemma RaisedEarlier(w: State, x: State, raised: Raised, v: State)
    requires w.pc < |w.steps| && x == w.(check := x.check, phase := x.phase) && RaisedTo(x, raised, v)
    ensures RaisedTo(w, raised, v)
  {
  }

  predicate Enabled(w: State, e: Event) {
    match e
    case Begin => w.phase.NotStarted?
    case Pass => w.phase.AtBoundary? || w.phase.AtCheckBoundary?
    case SeeCancelled => w.phase.AtBoundary? || w.phase.AtCheckBoundary?
    case SeeTimedOut => w.phase.AtBoundary? || w.phase.AtCheckBoundary?
    case Call => w.phase.Armed?
    case AdapterReturned => w.phase.Calling?
    case AdapterRaised(_) => w.phase.Calling?
    case CheckPassed => w.phase.Checking?
    case CheckRefused => w.phase.Checking?
    case CheckRaised(_) => w.phase.Checking?
    case Publish => w.phase.Verified?
  }

  function Next(w: State, e: Event): (v: State)
    requires Enabled(w, e) && Consistent(w)
    ensures Consistent(v) && v.steps == w.steps && w.pc <= v.pc
  {
    match e
    case Begin => Advance(w)
    case Pass => w.(phase := if w.phase.AtBoundary? then Armed else Checking)
    case SeeCancelled => w.(phase := Ended(Cancelled))
    case SeeTimedOut => w.(phase := Ended(TimedOut))
    case Call => w.(phase := Calling)
    case AdapterReturned => AfterCheck(w.(check := 0))
    case AdapterRaised(raised) => AfterRaise(w, raised)
    case CheckPassed => AfterCheck(w.(check := w.check + 1))
    case CheckRefused => AfterRaise(w, RaisedError)
    case CheckRaised(raised) => AfterRaise(w, raised)
    case Publish => Advance(w.(pc := w.pc + 1))
  }

  /** `es` is a run of the machine from `w`. */
  ghost predicate Trace(w: State, es: seq<Event>)
    requires Consistent(w)
    decreases |es|, 0
  {
    es == [] || (Trace(w, es[..|es| - 1]) && Enabled(After(w, es[..|es| - 1]), es[|es| - 1]))
  }

  /** The state a run leads to. */
  ghost function After(w: State, es: seq<Event>): (v: State)
    requires Consistent(w) && Trace(w, es)
    ensures Consistent(v) && v.steps == w.steps && w.pc <= v.pc
    decreases |es|, 1
  {
    if es == [] then w else Next(After(w, es[..|es| - 1]), es[|es| - 1])
  }

  function Count(es: seq<Event>, e: Event): nat {
    multiset(es)[e]
  }

  lemma CountExtend(es: seq<Event>, e: Event)
    requires es != []
    ensures Count(es, e) == Count(es[..|es| - 1], e) + if es[|es| - 1] == e then 1 else 0
  {
    assert es == es[..|es| - 1] + [es[|es| - 1]];
  }

  // ----- Accounting -----

  /** Adapter calls begun while step `i` was current. */
  ghost function CallsAt(w: State, es: seq<Event>, i: nat): nat
    requires Consistent(w) && Trace(w, es)
    decreases |es|
  {
    if es == [] then 0
    else
      var init := es[..|es| - 1];
      CallsAt(w, init, i) + if es[|es| - 1].Call? && After(w, init).pc == i then 1 else 0
  }

  /** Adapter calls step `i` can still get. */
  ghost function CallsLeft(w: State, i: nat): int
    requires Consistent(w) && i < |w.steps|
  {
    if w.phase.Ended? || i < w.pc then 0
    else if i > w.pc || w.phase.NotStarted? then w.steps[i].maxAttempts
    else w.steps[i].maxAttempts - if w.phase.AtBoundary? || w.phase.Armed? then w.attempt - 1 else w.attempt
  }

  lemma CallUsesOne(w: State, e: Event, i: nat)
    requires Consistent(w) && Enabled(w, e) && i < |w.steps|
    ensures 0 <= CallsLeft(Next(w, e), i)
    ensures CallsLeft(Next(w, e), i) + (if e.Call? && w.pc == i then 1 else 0) <= CallsLeft(w, i)
  {
  }

  /** Each step gets at most its own number of attempts, so a step that is not idempotent is called once per run. */
  lemma {:induction false} CallsBounded(w: State, es: seq<Event>, i: nat)
    requires Consistent(w) && w.phase.NotStarted? && Trace(w, es) && i < |w.steps|
    ensures CallsAt(w, es, i) + CallsLeft(After(w, es), i) <= CallsLeft(w, i)
    ensures CallsAt(w, es, i) <= w.steps[i].maxAttempts
    decreases |es|
  {
    if es != [] {
      var init := es[..|es| - 1];
      CallsBounded(w, init, i);
      CallUsesOne(After(w, init), es[|es| - 1], i);
    }
  }

  /** Sum of the attempts allowed to steps `from` and later. */
  ghost function Budget(steps: seq<Step>, from: nat): nat
    requires from <= |steps|
    decreases |steps| - from
  {
    if from == |steps| then 0 else steps[from].maxAttempts + Budget(steps, from + 1)
  }

  /** Adapter calls the whole run can still make. */
  ghost function BudgetLeft(w: State): int
    requires Consistent(w)
  {
    if w.phase.Ended? then 0
    else if w.pc == |w.steps| then 0
    else CallsLeft(w, w.pc) + Budget(w.steps, w.pc + 1)
  }

  lemma CallUsesBudget(w: State, e: Event)
    requires Consistent(w) && Enabled(w, e)
    ensures 0 <= BudgetLeft(Next(w, e))
    ensures BudgetLeft(Next(w, e)) + (if e.Call? then 1 else 0) <= BudgetLeft(w)
  {
  }

  /** A run begins at most as many adapter calls as its remaining steps allow attempts. */
  lemma {:induction false} TotalCallsBounded(w: State, es: seq<Event>)
    requires Consistent(w) && w.phase.NotStarted? && Trace(w, es)
    ensures Count(es, Call) + BudgetLeft(After(w, es)) <= Budget(w.steps, w.pc)
    ensures Count(es, Call) <= Budget(w.steps, w.pc)
    decreases |es|
  {
    if es != [] {
      var init := es[..|es| - 1];
      TotalCallsBounded(w, init);
      CountExtend(es, Call);
      CallUsesBudget(After(w, init), es[|es| - 1]);
    }
  }

  /** Finished steps are the published ones plus those resumed; success means all of them. */
  lemma {:induction false} PublishedCount(w: State, es: seq<Event>)
    requires Consistent(w) && w.phase.NotStarted? && Trace(w, es)
    ensures After(w, es).pc == w.pc + Count(es, Publish)
    decreases |es|
  {
    if es != [] {
      PublishedCount(w, es[..|es| - 1]);
      CountExtend(es, Publish);
    }
  }

  /** The events of one clean attempt with `n` checks passed so far. */
  function CleanAttempt(n: nat): seq<Event> {
    if n == 0 then [Pass, Call, AdapterReturned] else CleanAttempt(n - 1) + [Pass, CheckPassed]
  }

  ghost predicate EndsWith(es: seq<Event>, tail: seq<Event>) {
    |tail| <= |es| && forall i :: 0 <= i < |tail| ==> es[|es| - |tail| + i] == tail[i]
  }

  /** What the last events of a run are, by phase: no check is skipped and none is carried over from another attempt. */
  ghost predicate Recent(v: State, es: seq<Event>) {
    match v.phase
    case Armed => EndsWith(es, [Pass])
    case Calling => EndsWith(es, [Pass, Call])
    case AtCheckBoundary => EndsWith(es, CleanAttempt(v.check))
    case Checking => EndsWith(es, CleanAttempt(v.check) + [Pass])
    case Verified => EndsWith(es, CleanAttempt(v.check))
    case _ => true
  }

  lemma EndsWithExtend(es: seq<Event>, tail: seq<Event>, e: Event)
    requires EndsWith(es, tail)
    ensures EndsWith(es + [e], tail + [e])
  {
  }

  lemma CleanAttemptStarts()
    ensures CleanAttempt(0) == [Pass, Call] + [AdapterReturned]
  {
  }

  lemma CleanAttemptGrows(n: nat)
    ensures CleanAttempt(n + 1) == (CleanAttempt(n) + [Pass]) + [CheckPassed]
  {
    var tail: seq<Event> := [Pass, CheckPassed];
    assert tail == [Pass] + [CheckPassed];
    Associative(CleanAttempt(n), [Pass], [CheckPassed]);
  }

  lemma RecentChecking(v: State, es: seq<Event>, e: Event)
    requires Consistent(v) && Enabled(v, e) && Recent(v, es) && v.phase.Checking?
    ensures Recent(Next(v, e), es + [e])
  {
    EndsWithExtend(es, CleanAttempt(v.check) + [Pass], e);
    CleanAttemptGrows(v.check);
  }

  lemma RecentStep(v: State, es: seq<Event>, e: Event)
    requires Consistent(v) && Enabled(v, e) && Recent(v, es)
    ensures Recent(Next(v, e), es + [e])
  {
    match v.phase
    case AtBoundary => EndsWithExtend(es, [], e);
    case Armed => EndsWithExtend(es, [Pass], e);
    case Calling =>
      EndsWithExtend(es, [Pass, Call], e);
      CleanAttemptStarts();
    case AtCheckBoundary => EndsWithExtend(es, CleanAttempt(v.check), e);
    case Checking => RecentChecking(v, es, e);
    case _ =>
  }

  lemma {:induction false} RecentEvents(w: State, es: seq<Event>)
    requires Consistent(w) && w.phase.NotStarted? && Trace(w, es)
    ensures Recent(After(w, es), es)
    decreases |es|
  {
    if es != [] {
      var init := es[..|es| - 1];
      RecentEvents(w, init);
      RecentStep(After(w, init), init, es[|es| - 1]);
      assert es == init + [es[|es| - 1]];
    }
  }

  /**
   A step is published only at the end of one attempt that called the adapter, saw it return,
   and passed every one of the step's verification checks, each behind its own boundary check.
   */
  lemma PublishIsEarned(w: State, es: seq<Event>)
    requires Consistent(w) && w.phase.NotStarted? && Trace(w, es) && es != [] && es[|es| - 1] == Publish
    ensures var init := es[..|es| - 1];
      EndsWith(init, CleanAttempt(|w.steps[After(w, init).pc].verify|))
  {
    RecentEvents(w, es[..|es| - 1]);
  }

  // ----- Cancellation -----

  /** Past position `m` no boundary check passes: the cancellation flag is up. */
  ghost predicate FlaggedFrom(es: seq<Event>, m: nat) {
    m <= |es| && Pass !in es[m..]
  }

  /** Only a passed boundary check arms an adapter call, and only an armed run makes one. */
  lemma ArmedByPass(w: State, e: Event)
    requires Consistent(w) && Enabled(w, e)
    ensures e == Call ==> w.phase.Armed?
    ensures e != Pass ==> !Next(w, e).phase.Armed?
  {
  }

  /** Once the flag is up at most one adapter call begins, and only if its boundary check had already passed. */
  lemma {:induction false} AtMostOneLateCall(w: State, es: seq<Event>, m: nat)
    requires Consistent(w) && Trace(w, es) && FlaggedFrom(es, m)
    ensures Trace(w, es[..m])
    ensures Count(es[m..], Call) <= if After(w, es[..m]).phase.Armed? then 1 else 0
    ensures After(w, es).phase.Armed? ==>
      After(w, es[..m]).phase.Armed? && Count(es[m..], Call) == 0
    decreases |es|
  {
    if m == |es| {
      assert es[..m] == es;
      assert es[m..] == [];
    } else {
      var init, last := es[..|es| - 1], es[|es| - 1];
      assert es[m..] == init[m..] + [last];
      assert last in es[m..] && forall x :: x in init[m..] ==> x in es[m..];
      assert init[..m] == es[..m];
      AtMostOneLateCall(w, init, m);
      ArmedByPass(After(w, init), last);
    }
  }

  // ----- Termination -----

  /** Events one attempt of a step can take. */
  function AttemptCost(s: Step): nat {
    2 * |s.verify| + 4
  }

  /** Events `attempts` attempts of a step can take. */
  function AttemptsCost(s: Step, attempts: nat): nat {
    if attempts == 0 then 0 else AttemptCost(s) + AttemptsCost(s, attempts - 1)
  }

  function StepsCost(steps: seq<Step>, from: nat): nat
    requires from <= |steps|
    decreases |steps| - from
  {
    if from == |steps| then 0 else AttemptsCost(steps[from], steps[from].maxAttempts) + StepsCost(steps, from + 1)
  }

  /** Events the current attempt has taken. */
  function Spent(w: State, checks: nat): nat {
    match w.phase
    case Armed => 1
    case Calling => 2
    case AtCheckBoundary => 3 + 2 * w.check
    case Checking => 4 + 2 * w.check
    case Verified => 3 + 2 * checks
    case _ => 0
  }

  /** An upper bound on the events a run can still take. */
  ghost function Fuel(w: State): int
    requires Consistent(w)
  {
    if w.phase.Ended? then 0
    else if w.phase.NotStarted? then 1 + StepsCost(w.steps, w.pc)
    else
      var s := w.steps[w.pc];
      AttemptsCost(s, s.maxAttempts - w.attempt) + (AttemptCost(s) - Spent(w, |s.verify|))
      + StepsCost(w.steps, w.pc + 1)
  }

  lemma FuelDecreases(w: State, e: Event)
    requires Consistent(w) && Enabled(w, e)
    ensures 0 <= Fuel(Next(w, e)) < Fuel(w)
  {
  }

  /** Every run is finite: no sequence of answers keeps a plan going for ever. */
  lemma {:induction false} RunsEnd(w: State, es: seq<Event>)
    requires Consistent(w) && Trace(w, es)
    ensures |es| + Fuel(After(w, es)) <= Fuel(w)
    ensures |es| <= Fuel(w)
    decreases |es|
  {
    if es != [] {
      RunsEnd(w, es[..|es| - 1]);
      FuelDecreases(After(w, es[..|es| - 1]), es[|es| - 1]);
    }
  }
}
