/**
 The operation engine's own code (manager/operation_engine.py): the store, the
 conflict check, cancellation and the run loop, updating their state in place.
 A run is proved to be a trace of the worker machine.
 */
module OperationEngine {
  import opened Sequences
  import opened Graph
  import opened ComponentRegistry
  import opened Plans
  import opened Engine
  import A = Authorization
  import R = Resume
  import W = Worker

  datatype RecoveryClass = Reversible | CompensatingAction | RestoreRequired | Irreversible

  /** RECOVERY_CLASS_BY_OPERATION. */
  function ClassOf(op: Operation): RecoveryClass {
    match op
    case Install => CompensatingAction
    case Configure => Reversible
    case Start => Reversible
    case Stop => Reversible
    case Restart => Reversible
    case Upgrade => RestoreRequired
    case Uninstall => CompensatingAction
    case DeleteData => Irreversible
  }

  datatype CurrentStep = CurrentStep(number: nat, component: Id, operation: Operation, attempt: nat)

  datatype Document = Document(
    state: OpState, operation: Operation, components: seq<Id>, currentStep: Option<CurrentStep>,
    completedSteps: nat, totalSteps: nat, recoveryRequired: bool, boundary: RecoveryClass)

  datatype LogEntry =
    | StepSucceeded(key: Key, attempt: nat)
    | StepResumed(key: Key)
    | AttemptFailed(key: Key, attempt: nat, retrying: bool)
    | CancellationRequested

  function Keys(steps: seq<Step>): (r: seq<Key>)
    ensures |r| == |steps|
  {
    seq(|steps|, i requires 0 <= i < |steps| => KeyOf(steps[i]))
  }

  /** What the step events of an operation say, in order: this run did the step, or it took it over. */
  datatype Mark = Ran(key: Key) | TakenOver(key: Key)

  function MarkOf(e: LogEntry): seq<Mark> {
    match e
    case StepSucceeded(key, _) => [Ran(key)]
    case StepResumed(key) => [TakenOver(key)]
    case _ => []
  }

  function Marks(log: seq<LogEntry>): seq<Mark> {
    if log == [] then [] else Marks(log[..|log| - 1]) + MarkOf(log[|log| - 1])
  }

  lemma MarksAppend(log: seq<LogEntry>, e: LogEntry)
    ensures Marks(log + [e]) == Marks(log) + MarkOf(e)
  {
    assert (log + [e])[..|log|] == log;
  }

  /** The events that tell how an attempt went. */
  function TryOf(e: LogEntry): seq<LogEntry> {
    if e.StepSucceeded? || e.AttemptFailed? then [e] else []
  }

  function Tries(log: seq<LogEntry>): seq<LogEntry> {
    if log == [] then [] else Tries(log[..|log| - 1]) + TryOf(log[|log| - 1])
  }

  lemma TriesAppend(log: seq<LogEntry>, e: LogEntry)
    ensures Tries(log + [e]) == Tries(log) + TryOf(e)
  {
    assert (log + [e])[..|log|] == log;
  }

  /** The attempt-failed event of the current attempt. */
  function FailedTry(w: W.State): LogEntry
    requires w.pc < |w.steps|
  {
    AttemptFailed(KeyOf(w.steps[w.pc]), w.attempt, w.attempt < w.steps[w.pc].maxAttempts)
  }

  /** What one event of the machine puts into the event table. */
  function TriesBy(w: W.State, e: W.Event): seq<LogEntry> {
    if w.pc >= |w.steps| then []
    else match e
      case Publish => [StepSucceeded(KeyOf(w.steps[w.pc]), w.attempt)]
      case AdapterRaised(raised) => if raised == W.RaisedError then [FailedTry(w)] else []
      case CheckRaised(raised) => if raised == W.RaisedError then [FailedTry(w)] else []
      case CheckRefused => [FailedTry(w)]
      case _ => []
  }

  datatype Verdict = Returned | Raised(raised: W.Raised)

  function Appended(tries: seq<LogEntry>, more: seq<LogEntry>): seq<LogEntry> {
    if more == [] then tries else tries + more
  }

  /** What an attempt of the current step leaves in the event table when it ends with `v`. */
  function AttemptTries(w: W.State, v: Verdict): seq<LogEntry>
    requires w.pc < |w.steps|
  {
    if v.Returned? then [StepSucceeded(KeyOf(w.steps[w.pc]), w.attempt)]
    else if v.raised == W.RaisedError then [FailedTry(w)] else []
  }

  /** A check belongs to the attempt its boundary belongs to. */
  lemma CheckIsOfAttempt(w: W.State, v: Verdict)
    requires w.pc < |w.steps| && w.phase.AtCheckBoundary?
    ensures var x := w.(phase := W.Checking);
      && AttemptTries(x, v) == AttemptTries(w, v)
      && W.AfterCheck(x.(check := x.check + 1)) == W.AfterCheck(w.(check := w.check + 1))
      && (v.Raised? ==> W.AfterRaise(x, v.raised) == W.AfterRaise(w, v.raised))
  {
  }

  /** What a run puts into the event table about its attempts. */
  ghost function TriesOf(w: W.State, es: seq<W.Event>): seq<LogEntry>
    requires W.Consistent(w) && W.Trace(w, es)
    decreases |es|
  {
    if es == [] then []
    else TriesOf(w, es[..|es| - 1]) + TriesBy(W.After(w, es[..|es| - 1]), es[|es| - 1])
  }

  function AllRan(keys: seq<Key>): (r: seq<Mark>)
    ensures |r| == |keys|
  {
    seq(|keys|, i requires 0 <= i < |keys| => Ran(keys[i]))
  }

  function AllTakenOver(keys: seq<Key>): (r: seq<Mark>)
    ensures |r| == |keys|
  {
    seq(|keys|, i requires 0 <= i < |keys| => TakenOver(keys[i]))
  }

  /** The keys an operation's events record are those of its marks. */
  lemma {:induction false} CompletedAreMarked(log: seq<LogEntry>)
    ensures CompletedKeys(log) == set m | m in Marks(log) :: m.key
  {
    if log != [] {
      var init, e := log[..|log| - 1], log[|log| - 1];
      CompletedAreMarked(init);
      assert log == init + [e];
      CompletedKeysAppend(init, e);
      assert forall m :: m in Marks(log) <==> m in Marks(init) || m in MarkOf(e);
    }
  }

  /** What the events of an operation let a retry of it skip. */
  function CompletedKeys(log: seq<LogEntry>): set<Key> {
    set e | e in log && (e.StepSucceeded? || e.StepResumed?) :: e.key
  }

  /** The step-resumed events a retry writes for the keys it takes over. */
  function ResumedEvents(keys: seq<Key>): seq<LogEntry> {
    if keys == [] then [] else ResumedEvents(keys[..|keys| - 1]) + [StepResumed(keys[|keys| - 1])]
  }

  /** Writing the skipped keys as step-resumed events records exactly those keys. */
  lemma {:induction false} ResumedEventsRecord(keys: seq<Key>)
    ensures CompletedKeys(ResumedEvents(keys)) == Elems(keys)
    ensures Marks(ResumedEvents(keys)) == AllTakenOver(keys)
  {
    if keys != [] {
      var init := keys[..|keys| - 1];
      ResumedEventsRecord(init);
      MarksAppend(ResumedEvents(init), StepResumed(keys[|keys| - 1]));
      var last := StepResumed(keys[|keys| - 1]);
      assert keys == init + [keys[|keys| - 1]];
      assert ResumedEvents(keys) == ResumedEvents(init) + [last];
      CompletedKeysAppend(ResumedEvents(init), last);
    }
  }

  lemma CompletedKeysAppend(log: seq<LogEntry>, e: LogEntry)
    ensures CompletedKeys(log + [e]) ==
      CompletedKeys(log) + if e.StepSucceeded? || e.StepResumed? then {e.key} else {}
  {
    assert forall x :: x in log + [e] <==> x in log || x == e;
    if e.StepSucceeded? || e.StepResumed? {
      assert e in log + [e];
    }
    forall key | key in CompletedKeys(log)
      ensures key in CompletedKeys(log + [e])
    {
      var x :| x in log && (x.StepSucceeded? || x.StepResumed?) && x.key == key;
      assert x in log + [e];
    }
  }

  /** After some steps of the plan, the rest to run and the resumed events written so far. */
  ghost predicate Sorted(keys: seq<Key>, scope: set<Key>, done: set<Key>, remaining: seq<Step>, log: seq<LogEntry>) {
    && Keys(remaining) == Filter(keys, scope - done)
    && log == ResumedEvents(Filter(keys, done))
    && |Filter(keys, done)| + |remaining| == |keys|
  }

  lemma SortedNext(keys: seq<Key>, scope: set<Key>, done: set<Key>, remaining: seq<Step>, log: seq<LogEntry>,
                   step: Step)
    requires Sorted(keys, scope, done, remaining, log) && KeyOf(step) in scope
    ensures KeyOf(step) in done ==>
      Sorted(keys + [KeyOf(step)], scope, done, remaining, log + [StepResumed(KeyOf(step))])
    ensures KeyOf(step) !in done ==> Sorted(keys + [KeyOf(step)], scope, done, remaining + [step], log)
  {
    var key := KeyOf(step);
    FilterAppend(keys, key, scope - done);
    FilterAppend(keys, key, done);
    if key in done {
      var skipped := Filter(keys, done);
      assert (skipped + [key])[..|skipped|] == skipped;
    } else {
      assert Filter(keys + [key], done) == Filter(keys, done);
      assert Keys(remaining + [step]) == Keys(remaining) + [key];
    }
  }

  /** Steps `first` to `done` of the plan are what the event table gained. */
  ghost predicate Tally(done: nat, first: nat, plan: seq<Step>, before: seq<Mark>, after: seq<Mark>) {
    first <= done <= |plan| && after == before + AllRan(Keys(plan[first..done]))
  }

  lemma TallyStart(first: nat, plan: seq<Step>, before: seq<Mark>)
    requires first <= |plan|
    ensures Tally(first, first, plan, before, before)
  {
    assert plan[first..first] == [];
    assert before + AllRan(Keys([])) == before;
  }

  lemma TallyNext(done: nat, first: nat, plan: seq<Step>, before: seq<Mark>, after: seq<Mark>)
    requires Tally(done, first, plan, before, after) && done < |plan|
    ensures Tally(done + 1, first, plan, before, after + [Ran(KeyOf(plan[done]))])
  {
    assert plan[first..done + 1] == plan[first..done] + [plan[done]];
    assert AllRan(Keys(plan[first..done + 1])) == AllRan(Keys(plan[first..done])) + [Ran(KeyOf(plan[done]))];
  }

  lemma SortedStart(steps: seq<Step>, scope: set<Key>, done: set<Key>)
    ensures Sorted(Keys(steps)[..0], scope, done, [], [])
  {
    assert Keys(steps)[..0] == [];
  }

  lemma SortedSkip(steps: seq<Step>, i: nat, done: set<Key>, remaining: seq<Step>, log: seq<LogEntry>)
    requires i < |steps| && Sorted(Keys(steps)[..i], Elems(Keys(steps)), done, remaining, log)
    requires KeyOf(steps[i]) in done
    ensures Sorted(Keys(steps)[..i + 1], Elems(Keys(steps)), done, remaining, log + [StepResumed(KeyOf(steps[i]))])
  {
    assert KeyOf(steps[i]) == Keys(steps)[i] && Keys(steps)[i] in Keys(steps);
    assert Keys(steps)[..i + 1] == Keys(steps)[..i] + [KeyOf(steps[i])];
    SortedNext(Keys(steps)[..i], Elems(Keys(steps)), done, remaining, log, steps[i]);
  }

  lemma SortedKeep(steps: seq<Step>, i: nat, done: set<Key>, remaining: seq<Step>, log: seq<LogEntry>)
    requires i < |steps| && Sorted(Keys(steps)[..i], Elems(Keys(steps)), done, remaining, log)
    requires KeyOf(steps[i]) !in done
    ensures Sorted(Keys(steps)[..i + 1], Elems(Keys(steps)), done, remaining + [steps[i]], log)
  {
    assert KeyOf(steps[i]) == Keys(steps)[i] && Keys(steps)[i] in Keys(steps);
    assert Keys(steps)[..i + 1] == Keys(steps)[..i] + [KeyOf(steps[i])];
    SortedNext(Keys(steps)[..i], Elems(Keys(steps)), done, remaining, log, steps[i]);
  }

  // ----- Accounting -----

  /** The steps a retry takes over, in plan order. */
  ghost function TakenSteps(steps: seq<Step>, done: set<Key>): (r: seq<Step>)
    ensures forall step :: step in r ==> step in steps
  {
    if steps == [] then []
    else
      var init, last := steps[..|steps| - 1], steps[|steps| - 1];
      TakenSteps(init, done) + if KeyOf(last) in done then [last] else []
  }

  lemma {:induction false} TakenKeys(steps: seq<Step>, done: set<Key>)
    ensures Keys(TakenSteps(steps, done)) == Filter(Keys(steps), done)
  {
    if steps != [] {
      var init, last := steps[..|steps| - 1], steps[|steps| - 1];
      TakenKeys(init, done);
      assert Keys(steps) == Keys(init) + [KeyOf(last)];
      FilterAppend(Keys(init), KeyOf(last), done);
      assert Keys(TakenSteps(init, done) + [last]) == Keys(TakenSteps(init, done)) + [KeyOf(last)];
    } else {
      assert Keys(steps) == [];
    }
  }

  lemma KeysConcat(a: seq<Step>, b: seq<Step>)
    ensures Keys(a + b) == Keys(a) + Keys(b)
  {
  }

  /** The plan of a retry with the steps it takes over listed in front. */
  ghost function RetryPlan(steps: seq<Step>, remaining: seq<Step>, done: set<Key>): seq<Step> {
    TakenSteps(steps, done) + remaining
  }

  lemma RetryPlanKeys(steps: seq<Step>, remaining: seq<Step>, done: set<Key>)
    requires NoDup(Keys(steps)) && Keys(remaining) == Filter(Keys(steps), Elems(Keys(steps)) - done)
    ensures var keys := Keys(RetryPlan(steps, remaining, done));
      NoDup(keys) && Elems(keys) == Elems(Keys(steps)) && |keys| == |Keys(steps)|
  {
    TakenKeys(steps, done);
    KeysConcat(TakenSteps(steps, done), remaining);
    R.RegroupedNoDup(Keys(steps), done);
    ElemsCardinality(Keys(steps));
    ElemsCardinality(R.Regrouped(Keys(steps), done));
  }

  lemma RetryPlanRuns(steps: seq<Step>, remaining: seq<Step>, done: set<Key>)
    requires W.Runnable(steps) && forall step :: step in remaining ==> step in steps
    ensures W.Runnable(RetryPlan(steps, remaining, done))
  {
    var plan := RetryPlan(steps, remaining, done);
    forall i | 0 <= i < |plan|
      ensures plan[i].maxAttempts >= 1
    {
      assert plan[i] in plan;
      assert plan[i] in steps;
    }
  }

  /** The marks of an operation that took over the first steps of its plan and ran the next ones. */
  ghost predicate Accounts(marks: seq<Mark>, plan: seq<Step>, taken: nat, done: nat) {
    && taken <= done <= |plan|
    && marks == AllTakenOver(Keys(plan[..taken])) + AllRan(Keys(plan[taken..done]))
  }

  /** Then the keys recorded are those of the first steps, as many as there are marks. */
  lemma AccountsMean(log: seq<LogEntry>, plan: seq<Step>, taken: nat, done: nat)
    requires NoDup(Keys(plan)) && Accounts(Marks(log), plan, taken, done)
    ensures CompletedKeys(log) == Elems(Keys(plan[..done])) && |CompletedKeys(log)| == |Marks(log)| == done
  {
    CompletedAreMarked(log);
    var marks, keys := Marks(log), Keys(plan[..done]);
    assert |marks| == done;
    forall i | 0 <= i < done
      ensures marks[i].key == keys[i] && keys[i] == Keys(plan)[i]
    {
      if i >= taken {
        assert plan[taken..done][i - taken] == plan[i];
      }
    }
    forall k
      ensures k in Elems(keys) <==> k in CompletedKeys(log)
    {
      if k in Elems(keys) {
        var i :| 0 <= i < done && keys[i] == k;
        assert marks[i] in marks;
      }
      if k in CompletedKeys(log) {
        var m :| m in marks && m.key == k;
        var i :| 0 <= i < done && marks[i] == m;
        assert keys[i] in keys;
      }
    }
    forall i, j | 0 <= i < j < done
      ensures keys[i] != keys[j]
    {
      assert Keys(plan)[i] != Keys(plan)[j];
    }
    ElemsCardinality(keys);
  }

  /** All of the plan is recorded exactly when the count says so. */
  lemma AllRecordedIff(plan: seq<Step>, done: nat)
    requires NoDup(Keys(plan)) && done <= |plan|
    ensures Elems(Keys(plan[..done])) == Elems(Keys(plan)) <==> done == |plan|
    ensures Elems(Keys(plan[..done])) <= Elems(Keys(plan))
  {
    assert Keys(plan[..done]) == Keys(plan)[..done];
    if done < |plan| {
      assert Keys(plan)[done] in Elems(Keys(plan));
      assert forall i :: 0 <= i < done ==> Keys(plan)[i] != Keys(plan)[done];
      assert Keys(plan)[done] !in Keys(plan)[..done];
    } else {
      assert plan[..done] == plan;
    }
    assert forall k :: k in Keys(plan)[..done] ==> k in Keys(plan);
  }

  /** What a retry starts from: the plan it runs and the marks of what it took over. */
  lemma RetryBegins(steps: seq<Step>, remaining: seq<Step>, done: set<Key>, log: seq<LogEntry>)
    requires NoDup(Keys(steps)) && W.Runnable(steps) && forall step :: step in remaining ==> step in steps
    requires Keys(remaining) == R.Remaining(done, R.Link(Keys(steps), 0, 0))
    requires log == ResumedEvents(R.Skipped(done, R.Link(Keys(steps), 0, 0)))
    ensures var taken, plan := |TakenSteps(steps, done)|, RetryPlan(steps, remaining, done);
      && |plan| == |steps| && taken == |R.Skipped(done, R.Link(Keys(steps), 0, 0))| <= |plan|
      && plan[taken..] == remaining && W.Runnable(plan)
      && NoDup(Keys(plan)) && Elems(Keys(plan)) == Elems(Keys(steps))
      && Marks(log) == AllTakenOver(Keys(plan[..taken]))
  {
    RetryPlanKeys(steps, remaining, done);
    RetryPlanRuns(steps, remaining, done);
    TakenKeys(steps, done);
    ResumedEventsRecord(Keys(TakenSteps(steps, done)));
    var plan := RetryPlan(steps, remaining, done);
    assert plan[|TakenSteps(steps, done)|..] == remaining;
    assert plan[..|TakenSteps(steps, done)|] == TakenSteps(steps, done);
  }

  /** What a retry ends with: the keys recorded are those counted, and all of them exactly when it succeeded. */
  lemma RetryEnds(log: seq<LogEntry>, plan: seq<Step>, taken: nat, done: nat)
    requires NoDup(Keys(plan)) && Accounts(Marks(log), plan, taken, done)
    ensures |CompletedKeys(log)| == |Marks(log)| == done && CompletedKeys(log) <= Elems(Keys(plan))
    ensures CompletedKeys(log) == Elems(Keys(plan)) <==> done == |plan|
  {
    AccountsMean(log, plan, taken, done);
    AllRecordedIff(plan, done);
  }

  /** The document shows step `number` of the plan, in this attempt. */
  predicate ShowsStep(doc: Document, steps: seq<Step>, number: nat, attempt: nat) {
    && 1 <= number <= |steps|
    && doc.currentStep
       == Some(CurrentStep(number, steps[number - 1].component, steps[number - 1].operation, attempt))
  }

  /** The step being tried, before its first attempt or in this one, or the last one finished. */
  ghost predicate ShowsProgress(at: W.State, doc: Document) {
    || (at.phase.AtBoundary? && ShowsStep(doc, at.steps, at.pc + 1, 0))
    || (at.phase.AtBoundary? && ShowsStep(doc, at.steps, at.pc + 1, at.attempt))
    || (doc.currentStep.Some? && ShowsStep(doc, at.steps, at.pc, doc.currentStep.value.attempt))
  }

  /** The document still is the operation `base` was, and shows it as running. */
  predicate RunningAs(base: Document, doc: Document) {
    && doc.state == Running && doc.operation == base.operation && doc.components == base.components
    && doc.totalSteps == base.totalSteps
    && doc.recoveryRequired == base.recoveryRequired && doc.boundary == base.boundary
  }

  /** What the store shows while a run over the document is going on. */
  ghost predicate WhileRunning(base: Document, at: W.State, doc: Document) {
    && RunningAs(base, doc) && doc.completedSteps == at.pc
    && ((at.phase.NotStarted? && doc.currentStep == base.currentStep) || ShowsProgress(at, doc))
  }

  lemma FirstSave(base: Document, at: W.State, doc: Document)
    requires RunningAs(base, doc) && doc.completedSteps == at.pc
    requires at.phase.NotStarted? && doc.currentStep == base.currentStep
    ensures WhileRunning(base, at, doc)
  {
  }

  lemma StepSave(base: Document, at: W.State, doc: Document, attempt: nat)
    requires RunningAs(base, doc) && doc.completedSteps == at.pc
    requires at.phase.AtBoundary? && attempt in {0, at.attempt} && ShowsStep(doc, at.steps, at.pc + 1, attempt)
    ensures WhileRunning(base, at, doc)
  {
  }

  lemma FinishedSave(base: Document, at: W.State, doc: Document, attempt: nat)
    requires RunningAs(base, doc) && doc.completedSteps == at.pc
    requires ShowsStep(doc, at.steps, at.pc, attempt)
    ensures WhileRunning(base, at, doc)
  {
  }

  /** The machine gets from `start` to `now` by `trace`, and tells of `tries` on the way. */
  ghost predicate Explains(start: W.State, trace: seq<W.Event>, now: W.State, tries: seq<LogEntry>)
    decreases |trace|
  {
    if trace == [] then now == start && tries == []
    else exists w, told :: ExplainsLast(start, trace, w, told, now, tries)
  }

  ghost predicate ExplainsLast(start: W.State, trace: seq<W.Event>, w: W.State, told: seq<LogEntry>, now: W.State,
                               tries: seq<LogEntry>)
    requires trace != []
    decreases |trace|, 0
  {
    var e := trace[|trace| - 1];
    && Explains(start, trace[..|trace| - 1], w, told)
    && W.Consistent(w) && W.Enabled(w, e) && now == W.Next(w, e) && tries == Appended(told, TriesBy(w, e))
  }

  /** That is what a trace of the machine is. */
  lemma {:induction false} ExplainsMeans(start: W.State, trace: seq<W.Event>, now: W.State, tries: seq<LogEntry>)
    requires W.Consistent(start) && Explains(start, trace, now, tries)
    ensures W.Trace(start, trace) && now == W.After(start, trace) && tries == TriesOf(start, trace)
    decreases |trace|
  {
    if trace != [] {
      var w, told :| ExplainsLast(start, trace, w, told, now, tries);
      ExplainsMeans(start, trace[..|trace| - 1], w, told);
    }
  }

  lemma ExplainsNext(start: W.State, trace: seq<W.Event>, now: W.State, tries: seq<LogEntry>, e: W.Event)
    requires Explains(start, trace, now, tries) && W.Consistent(now) && W.Enabled(now, e)
    ensures Explains(start, trace + [e], W.Next(now, e), Appended(tries, TriesBy(now, e)))
  {
    var longer := trace + [e];
    assert longer[..|longer| - 1] == trace;
    assert ExplainsLast(start, longer, now, tries, W.Next(now, e), Appended(tries, TriesBy(now, e)));
  }

  ghost predicate FlagFits(trace: seq<W.Event>, flagged: bool, flaggedAt: nat) {
    flaggedAt <= |trace| && (flagged ==> W.FlaggedFrom(trace, flaggedAt))
  }

  lemma FlagNext(trace: seq<W.Event>, flagged: bool, at: nat, e: W.Event)
    requires FlagFits(trace, flagged, at) && (flagged ==> e != W.Pass)
    ensures FlagFits(trace + [e], flagged, at)
  {
    assert flagged ==> (trace + [e])[at..] == trace[at..] + [e];
  }

  /**
   The machine trace of one run over the document `base`, the tries already in the event table before, and the point
   at which the cancellation flag went up.
   */
  class RunLog {
    ghost const start: W.State
    ghost const base: Document
    ghost const before: seq<LogEntry>
    ghost var trace: seq<W.Event>
    ghost var now: W.State
    ghost var tries: seq<LogEntry>
    ghost var flagged: bool
    ghost var flaggedAt: nat

    ghost predicate Valid()
      reads this
    {
      && W.Consistent(start) && start.phase.NotStarted?
      && Explains(start, trace, now, tries) && FlagFits(trace, flagged, flaggedAt)
      && W.Consistent(now) && now.steps == start.steps
    }

    ghost constructor (steps: seq<Step>, resumed: nat, base: Document, before: seq<LogEntry>)
      requires W.Runnable(steps) && resumed <= |steps|
      ensures Valid() && start == W.Fresh(steps, resumed) && now == start && !flagged
      ensures this.base == base && this.before == before && tries == []
    {
      start, now := W.Fresh(steps, resumed), W.Fresh(steps, resumed);
      this.base, this.before := base, before;
      trace, tries := [], [];
      flagged := false;
      flaggedAt := 0;
    }

    ghost method Emit(e: W.Event)
      requires Valid() && W.Enabled(now, e) && (flagged ==> e != W.Pass)
      modifies this`trace, this`now, this`tries
      ensures Valid() && W.Consistent(old(now)) && now == W.Next(old(now), e)
      ensures tries == Appended(old(tries), TriesBy(old(now), e))
    {
      ExplainsNext(start, trace, now, tries, e);
      FlagNext(trace, flagged, flaggedAt, e);
      now, tries := W.Next(now, e), Appended(tries, TriesBy(now, e));
      trace := trace + [e];
    }

    /** Note that the flag is up, if it is and was not before. */
    ghost method Observe(up: bool)
      requires Valid() && (flagged ==> up)
      modifies this`flagged, this`flaggedAt
      ensures Valid() && flagged == up
    {
      if up && !flagged {
        flagged := true;
        flaggedAt := |trace|;
        assert trace[flaggedAt..] == [];
      }
    }
  }

  function RaisedOutcome(raised: W.Raised): W.Outcome {
    match raised
    case RaisedCancelled => W.Cancelled
    case RaisedTimedOut => W.TimedOut
    case RaisedError => W.Failed
  }

  datatype PrepareResult =
    | Prepared | Conflict | IdentityRequired | ObservationFailed | Unauthorized(reason: A.Result) | NothingToDo

  function Severity(c: RecoveryClass): nat {
    match c
    case Reversible => 0
    case CompensatingAction => 1
    case RestoreRequired => 2
    case Irreversible => 3
  }

  /** `_plan_recovery_boundary`, which has no answer for a plan without steps. */
  function PlanBoundary(steps: seq<Step>): (r: RecoveryClass)
    requires steps != []
    ensures exists i :: 0 <= i < |steps| && r == ClassOf(steps[i].operation)
    ensures forall i :: 0 <= i < |steps| ==> Severity(ClassOf(steps[i].operation)) <= Severity(r)
  {
    var last := ClassOf(steps[|steps| - 1].operation);
    if |steps| == 1 then last
    else
      var r := PlanBoundary(steps[..|steps| - 1]);
      if Severity(last) > Severity(r) then last else r
  }

  /** Some step of the plan is one of `operations`. */
  ghost predicate Does(steps: seq<Step>, operations: set<Operation>) {
    exists i :: 0 <= i < |steps| && steps[i].operation in operations
  }

  /** What has to be done to recover from a plan is decided by the worst thing it does. */
  lemma BoundaryMeans(steps: seq<Step>)
    requires steps != []
    ensures PlanBoundary(steps) == Irreversible <==> Does(steps, {DeleteData})
    ensures PlanBoundary(steps) == RestoreRequired <==> !Does(steps, {DeleteData}) && Does(steps, {Upgrade})
    ensures PlanBoundary(steps) == CompensatingAction <==>
      !Does(steps, {DeleteData, Upgrade}) && Does(steps, {Install, Uninstall})
    ensures PlanBoundary(steps) == Reversible <==> !Does(steps, {DeleteData, Upgrade, Install, Uninstall})
  {
    var r := PlanBoundary(steps);
    var k :| 0 <= k < |steps| && r == ClassOf(steps[k].operation);
    assert steps[k].operation in {steps[k].operation};
    match r {
      case Irreversible => assert Does(steps, {DeleteData});
      case RestoreRequired => assert Does(steps, {Upgrade}) && Does(steps, {DeleteData, Upgrade});
      case CompensatingAction => assert Does(steps, {Install, Uninstall});
      case Reversible =>
    }
  }

  datatype CancelResult = ActorRequired | IdentityMissing | NotFound | AlreadyTerminal | Requested

  /** Who asks, with what approval, and the two observations of the affected components' state. */
  datatype Request = Request(
    actor: string, identity: Option<A.Identity>, approval: Option<A.ApprovalId>,
    before: Option<map<Id, string>>, current: Option<map<Id, string>>, now: A.Time, consumedAt: A.Time)

  /** The request carries the identity of its actor. */
  predicate Identified(identity: Option<A.Identity>, actor: string) {
    identity.Some? && identity.value.actor == actor
  }

  /** What the authorization service grants over the affected components. */
  ghost predicate Granted(rows: map<A.ApprovalId, A.Row>, op: Operation, affected: seq<Id>, r: Request) {
    && Identified(r.identity, r.actor) && r.before.Some?
    && (|| !A.NeedsApproval(op)
        || (r.current.Some?
            && A.Authorizes(rows, r.approval, A.Plan(op, affected, r.current.value), r.identity.value, r.now)))
  }

  class LifecycleEngine {
    var store: map<OpId, Document>
    var events: map<OpId, seq<LogEntry>>
    var cancelled: set<OpId>
    const ledger: Option<A.Ledger>
    const observed: bool               // a current-state provider is configured

    constructor (ledger: Option<A.Ledger>, observed: bool)
      ensures store == map[] && events == map[] && cancelled == {}
      ensures this.ledger == ledger && this.observed == observed
    {
      store, events, cancelled := map[], map[], {};
      this.ledger, this.observed := ledger, observed;
    }

    /** The approvals the engine's authorization service holds. */
    ghost function Approvals(): map<A.ApprovalId, A.Row>
      reads if ledger.Some? then {ledger.value} else {}
    {
      if ledger.Some? then ledger.value.rows else map[]
    }

    ghost predicate LedgerValid()
      reads if ledger.Some? then {ledger.value} else {}
    {
      ledger.Some? ==> ledger.value.Valid()
    }

    /** An active operation affects one of the components. */
    ghost predicate Conflicts(components: seq<Id>)
      reads this
    {
      exists j, c :: j in store && Active(store[j].state) && c in store[j].components && c in components
    }

    /** Without an authorization service nothing is asked. */
    ghost predicate Admitted(op: Operation, affected: seq<Id>, r: Request)
      reads if ledger.Some? then {ledger.value} else {}
    {
      ledger.Some? ==> observed && Granted(ledger.value.rows, op, affected, r)
    }

    function EventsOf(id: OpId): seq<LogEntry>
      reads this
    {
      if id in events then events[id] else []
    }

    /** `OperationStore.active_components`. */
    method ActiveComponents() returns (active: set<Id>)
      ensures forall c :: c in active <==>
        exists id :: id in store && Active(store[id].state) && c in store[id].components
    {
      active := {};
      var rows := store.Keys;
      while rows != {}
        invariant rows <= store.Keys
        invariant forall c :: c in active <==>
          exists id :: id in store.Keys - rows && Active(store[id].state) && c in store[id].components
        decreases rows
      {
        var id :| id in rows;
        if Active(store[id].state) {
          active := active + Elems(store[id].components);
        }
        rows := rows - {id};
      }
    }

    /** The authorization half of `_prepare_steps`; a non-routine operation uses up its approval. */
    method Admit(op: Operation, affected: seq<Id>, r: Request) returns (res: PrepareResult)
      requires LedgerValid()
      modifies if ledger.Some? then {ledger.value} else {}
      ensures LedgerValid()
      ensures res.Prepared? <==> old(Admitted(op, affected, r))
      ensures res.Prepared? && ledger.Some? && A.NeedsApproval(op) ==>
        Approvals() == A.Consume(old(Approvals()), r.approval.value, r.consumedAt)
      ensures !(res.Prepared? && ledger.Some? && A.NeedsApproval(op)) ==> Approvals() == old(Approvals())
      ensures res.IdentityRequired? <==> ledger.Some? && !(Identified(r.identity, r.actor) && observed)
      ensures !res.Conflict? && !res.NothingToDo?
    {
      if ledger.None? {
        return Prepared;
      }
      if r.identity.None? || r.identity.value.actor != r.actor || !observed {
        return IdentityRequired;
      }
      if r.before.None? {
        return ObservationFailed;
      }
      var plan := A.Plan(op, affected, r.before.value);
      var answer := ledger.value.Authorize(plan, r.identity.value, r.approval, r.current, r.now, r.consumedAt);
      return if answer == A.Accepted then Prepared else Unauthorized(answer);
    }

    /** The conflict check of `_prepare_steps`. */
    method HasConflict(affected: seq<Id>) returns (conflict: bool)
      ensures conflict <==> Conflicts(affected)
    {
      var active := ActiveComponents();
      conflict := exists i :: 0 <= i < |affected| && affected[i] in active;
      if conflict {
        var i :| 0 <= i < |affected| && affected[i] in active;
        ghost var j :| j in store && Active(store[j].state) && affected[i] in store[j].components;
        assert affected[i] in affected;
      } else {
        forall j, c | j in store && Active(store[j].state) && c in store[j].components
          ensures c !in affected
        {
          assert c in active;
          assert forall i :: 0 <= i < |affected| ==> affected[i] !in active;
        }
      }
    }

    /** `_prepare_steps`: conflict check, authorization and creation, under the lock. */
    method PrepareSteps(id: OpId, op: Operation, steps: seq<Step>, r: Request) returns (res: PrepareResult)
      requires id !in store && LedgerValid()
      modifies this`store, if ledger.Some? then {ledger.value} else {}
      ensures LedgerValid()
      ensures res.Conflict? <==> old(Conflicts(Distinct(Components(steps))))
      ensures res.Prepared? ==> steps != [] && store == old(store)[id :=
        Document(Queued, op, Distinct(Components(steps)), None, 0, |steps|, false, PlanBoundary(steps))]
      ensures res.Prepared? <==>
        !res.Conflict? && old(Admitted(op, Distinct(Components(steps)), r)) && steps != []
      ensures res.NothingToDo? <==>
        !res.Conflict? && old(Admitted(op, Distinct(Components(steps)), r)) && steps == []
      ensures res.Prepared? && ledger.Some? && A.NeedsApproval(op) ==>
        Approvals() == A.Consume(old(Approvals()), r.approval.value, r.consumedAt)
      ensures res.Prepared? && ledger.Some? && A.NeedsApproval(op) ==>
        && id in store
        && var used := old(Approvals())[r.approval.value].payload;
        && used.digest == A.Plan(store[id].operation, store[id].components, r.current.value)
        && used.actor == r.actor && used.state == A.Approved && r.now < used.expiresAt
      ensures !res.Prepared? && !res.NothingToDo? ==> Approvals() == old(Approvals())
      ensures !res.Prepared? ==> store == old(store)
    {
      var affected := Distinct(Components(steps));
      var conflict := HasConflict(affected);
      if conflict {
        return Conflict;
      }
      res := Admit(op, affected, r);
      if !res.Prepared? {
        return;
      }
      if steps == [] {
        return NothingToDo;
      }
      store := store[id := Document(Queued, op, affected, None, 0, |steps|, false, PlanBoundary(steps))];
    }

    /** `cancel`: leaves a terminal document alone, otherwise flags the operation and rewrites its state. */
    method Cancel(id: OpId, actor: string, identity: Option<A.Identity>) returns (res: CancelResult)
      modifies this
      ensures res.ActorRequired? <==> actor == ""
      ensures res.IdentityMissing? <==> actor != "" && ledger.Some? && !Identified(identity, actor)
      ensures res.NotFound? <==> !res.ActorRequired? && !res.IdentityMissing? && id !in old(store)
      ensures res.AlreadyTerminal? <==>
        !res.ActorRequired? && !res.IdentityMissing? && id in old(store) && !Active(old(store)[id].state)
      ensures !res.Requested? ==> store == old(store) && events == old(events) && cancelled == old(cancelled)
      ensures res.Requested? ==>
        && store == old(store)[id := old(store)[id].(state := Cancelling)]
        && cancelled == old(cancelled) + {id}
        && EventsOf(id) == old(EventsOf(id)) + [CancellationRequested]
        && (forall j :: j != id ==> EventsOf(j) == old(EventsOf(j)))
    {
      if actor == "" {
        return ActorRequired;
      }
      if ledger.Some? && (identity.None? || identity.value.actor != actor) {
        return IdentityMissing;
      }
      if id !in store {
        return NotFound;
      }
      if !Active(store[id].state) {
        return AlreadyTerminal;
      }
      cancelled := cancelled + {id};
      store := store[id := store[id].(state := Cancelling)];
      events := events[id := EventsOf(id) + [CancellationRequested]];
      return Requested;
    }

    /** The step-resumed event of one step. */
    method CarryForward(id: OpId, key: Key)
      modifies this`events
      ensures EventsOf(id) == old(EventsOf(id)) + [StepResumed(key)]
      ensures forall j :: j != id ==> EventsOf(j) == old(EventsOf(j))
    {
      events := events[id := EventsOf(id) + [StepResumed(key)]];
    }

    /** One turn of the loop of the retry paths. */
    method SortStep(id: OpId, steps: seq<Step>, i: nat, done: set<Key>, before: seq<Step>)
      returns (remaining: seq<Step>)
      requires i < |steps| && Sorted(Keys(steps)[..i], Elems(Keys(steps)), done, before, EventsOf(id))
      modifies this`events
      ensures Sorted(Keys(steps)[..i + 1], Elems(Keys(steps)), done, remaining, EventsOf(id))
      ensures forall j :: j != id ==> EventsOf(j) == old(EventsOf(j))
      ensures forall step :: step in remaining ==> step in before || step == steps[i]
    {
      if KeyOf(steps[i]) in done {
        SortedSkip(steps, i, done, before, EventsOf(id));
        CarryForward(id, KeyOf(steps[i]));
        remaining := before;
      } else {
        SortedKeep(steps, i, done, before, EventsOf(id));
        remaining := before + [steps[i]];
      }
    }

    /** The loop of the retry paths: a completed step is carried forward, any other stays. */
    method SortSteps(id: OpId, steps: seq<Step>, done: set<Key>) returns (remaining: seq<Step>)
      requires EventsOf(id) == []
      modifies this`events
      ensures Sorted(Keys(steps), Elems(Keys(steps)), done, remaining, EventsOf(id))
      ensures forall j :: j != id ==> EventsOf(j) == old(EventsOf(j))
      ensures forall step :: step in remaining ==> step in steps
    {
      ghost var scope := Elems(Keys(steps));
      remaining := [];
      SortedStart(steps, scope, done);
      for i := 0 to |steps|
        invariant Sorted(Keys(steps)[..i], scope, done, remaining, EventsOf(id))
        invariant forall j :: j != id ==> EventsOf(j) == old(EventsOf(j))
        invariant forall step :: step in remaining ==> step in steps
      {
        remaining := SortStep(id, steps, i, done, remaining);
      }
      assert Keys(steps)[..|steps|] == Keys(steps);
    }

    /** The retry paths: drop the completed steps, count them, and carry them forward as step-resumed events. */
    method ResumeSteps(id: OpId, retryOf: OpId, steps: seq<Step>) returns (remaining: seq<Step>)
      requires id in store && id != retryOf && EventsOf(id) == []
      modifies this
      ensures var done := CompletedKeys(old(EventsOf(retryOf)));
        var link := R.Link(Keys(steps), 0, 0);
        && Keys(remaining) == R.Remaining(done, link)
        && EventsOf(id) == ResumedEvents(R.Skipped(done, link))
        && store == old(store)[id := old(store)[id].(completedSteps := |R.Skipped(done, link)|)]
      ensures EventsOf(retryOf) == old(EventsOf(retryOf)) && cancelled == old(cancelled)
      ensures forall step :: step in remaining ==> step in steps
    {
      remaining := SortSteps(id, steps, CompletedKeys(EventsOf(retryOf)));
      store := store[id := store[id].(completedSteps := |steps| - |remaining|)];
    }

    /** The store shows the operation as active, over the components of the document the run works on. */
    ghost predicate Shown(id: OpId, base: Document)
      reads this
    {
      && id in store && Active(store[id].state)
      && store[id].operation == base.operation && store[id].components == base.components
    }

    /** The run's log is up to date, and so is what other threads see of the operation. */
    ghost predicate Follows(id: OpId, log: RunLog)
      reads this, log
    {
      log.Valid() && (log.flagged <==> id in cancelled) && Shown(id, log.base)
    }

    /** The event table tells every attempt the run has finished. */
    ghost predicate Told(id: OpId, log: RunLog)
      reads this, log
    {
      Tries(EventsOf(id)) == log.before + log.tries
    }

    /** While an operation is shown, no other submission over its components gets past the conflict check. */
    lemma ShownConflicts(id: OpId, base: Document, components: seq<Id>)
      requires Shown(id, base) && exists c :: c in components && c in base.components
      ensures Conflicts(components)
    {
    }

    /**
     Other threads run: they may cancel this operation and touch others, but not publish its steps. Whenever they do,
     the operation is shown as active.
     */
    method Interfere(id: OpId, ghost log: RunLog)
      requires Follows(id, log)
      modifies this, log`flagged, log`flaggedAt
      ensures Follows(id, log)
      ensures log.now == old(log.now) && log.tries == old(log.tries)
      ensures old(id in cancelled) ==> id in cancelled
      ensures Marks(EventsOf(id)) == old(Marks(EventsOf(id))) && Tries(EventsOf(id)) == old(Tries(EventsOf(id)))
    {
      log.Observe(id in cancelled);
    }

    method AddEvent(id: OpId, e: LogEntry)
      modifies this`events
      ensures Marks(EventsOf(id)) == old(Marks(EventsOf(id))) + MarkOf(e)
      ensures Tries(EventsOf(id)) == old(Tries(EventsOf(id))) + TryOf(e)
    {
      MarksAppend(EventsOf(id), e);
      TriesAppend(EventsOf(id), e);
      events := events[id := EventsOf(id) + [e]];
    }

    /** `_check_boundary`: the flag first, then the clock. */
    method CheckBoundary(id: OpId, ghost log: RunLog) returns (v: Verdict)
      requires log.Valid() && (log.flagged <==> id in cancelled)
      requires log.now.phase.AtBoundary? || log.now.phase.AtCheckBoundary?
      modifies log`trace, log`now, log`tries
      ensures log.Valid() && log.tries == old(log.tries)
      ensures v.Returned? ==> id !in cancelled && log.now == W.Next(old(log.now), W.Pass)
      ensures v == Raised(W.RaisedCancelled) <==> id in cancelled
      ensures v.Raised? ==> v.raised != W.RaisedError && log.now == W.AfterRaise(old(log.now), v.raised)
    {
      if id in cancelled {
        log.Emit(W.SeeCancelled);
        return Raised(W.RaisedCancelled);
      }
      var expired: bool := *;
      if expired {
        log.Emit(W.SeeTimedOut);
        return Raised(W.RaisedTimedOut);
      }
      log.Emit(W.Pass);
      return Returned;
    }

    /** A boundary check, whatever other threads did before it. */
    method Boundary(id: OpId, ghost log: RunLog) returns (v: Verdict)
      requires Follows(id, log)
      requires log.now.phase.AtBoundary? || log.now.phase.AtCheckBoundary?
      modifies this, log`trace, log`now, log`tries, log`flagged, log`flaggedAt
      ensures Follows(id, log) && log.tries == old(log.tries)
      ensures Marks(EventsOf(id)) == old(Marks(EventsOf(id))) && Tries(EventsOf(id)) == old(Tries(EventsOf(id)))
      ensures v.Returned? ==> log.now == W.Next(old(log.now), W.Pass)
      ensures v.Raised? ==> v.raised != W.RaisedError && log.now == W.AfterRaise(old(log.now), v.raised)
    {
      Interfere(id, log);
      v := CheckBoundary(id, log);
    }

    /** A call into code outside the model: it returns, or raises anything. */
    method Answer() returns (v: Verdict) {
      var returned: bool := *;
      var raised: W.Raised := *;
      v := if returned then Returned else Raised(raised);
    }

    /** Up to the moment the adapter is inside its call. */
    method EnterCall(id: OpId, ghost log: RunLog)
      requires Follows(id, log) && log.now.phase.Armed?
      modifies this, log`trace, log`now, log`tries, log`flagged, log`flaggedAt
      ensures Follows(id, log) && log.now == old(log.now).(phase := W.Calling)
      ensures Marks(EventsOf(id)) == old(Marks(EventsOf(id))) && Tries(EventsOf(id)) == old(Tries(EventsOf(id)))
      ensures log.tries == old(log.tries)
    {
      Interfere(id, log);
      log.Emit(W.Call);
      Interfere(id, log);
    }

    /** How the call ends. */
    method LeaveCall(ghost log: RunLog) returns (v: Verdict)
      requires log.Valid() && log.now.phase.Calling?
      modifies log`trace, log`now, log`tries
      ensures log.Valid()
      ensures v.Returned? ==> log.tries == old(log.tries)
      ensures v.Raised? ==> log.tries == Appended(old(log.tries), AttemptTries(old(log.now), v))
      ensures v.Returned? ==> log.now == W.AfterCheck(old(log.now).(check := 0))
      ensures v.Raised? ==> log.now == W.AfterRaise(old(log.now), v.raised)
    {
      v := Answer();
      if v.Returned? {
        log.Emit(W.AdapterReturned);
      } else {
        log.Emit(W.AdapterRaised(v.raised));
      }
    }

    /** `adapter.execute` of the current step: any answer, any interference while it runs. */
    method Adapter(id: OpId, step: Step, ghost log: RunLog) returns (v: Verdict)
      requires Follows(id, log) && log.now.phase.Armed?
      requires log.now.steps[log.now.pc] == step
      modifies this, log`trace, log`now, log`tries, log`flagged, log`flaggedAt
      ensures Follows(id, log) && Tries(EventsOf(id)) == old(Tries(EventsOf(id)))
      ensures v.Returned? ==> log.tries == old(log.tries)
      ensures v.Raised? ==> log.tries == Appended(old(log.tries), AttemptTries(old(log.now), v))
      ensures Marks(EventsOf(id)) == old(Marks(EventsOf(id)))
      ensures v.Returned? ==> log.now == W.AfterCheck(old(log.now).(check := 0))
      ensures v.Raised? ==> log.now == W.AfterRaise(old(log.now), v.raised)
    {
      EnterCall(id, log);
      v := LeaveCall(log);
    }

    /** `verify` of the check that is due: true, false, or anything raised. */
    method Verifier(component: Id, check: string, ghost log: RunLog) returns (v: Verdict)
      requires log.Valid() && log.now.phase.Checking?
      requires var w := log.now; w.steps[w.pc].component == component && w.steps[w.pc].verify[w.check] == check
      modifies log`trace, log`now, log`tries
      ensures log.Valid()
      ensures v.Returned? ==> log.now == W.AfterCheck(old(log.now).(check := old(log.now).check + 1))
      ensures v.Raised? ==> log.now == W.AfterRaise(old(log.now), v.raised)
      ensures v.Returned? ==> log.tries == old(log.tries)
      ensures v.Raised? ==> log.tries == Appended(old(log.tries), AttemptTries(old(log.now), v))
    {
      v := Answer();
      if v.Raised? {
        log.Emit(W.CheckRaised(v.raised));
        return;
      }
      var healthy: bool := *;
      if healthy {
        log.Emit(W.CheckPassed);
      } else {
        log.Emit(W.CheckRefused);
        v := Raised(W.RaisedError);
      }
    }

    /** The verifier's turn, whatever other threads did since the boundary. */
    method RunCheck(id: OpId, component: Id, check: string, ghost log: RunLog) returns (v: Verdict)
      requires Follows(id, log) && log.now.phase.Checking?
      requires var w := log.now; w.steps[w.pc].component == component && w.steps[w.pc].verify[w.check] == check
      modifies this, log`trace, log`now, log`tries, log`flagged, log`flaggedAt
      ensures Follows(id, log) && Tries(EventsOf(id)) == old(Tries(EventsOf(id)))
      ensures Marks(EventsOf(id)) == old(Marks(EventsOf(id)))
      ensures v.Returned? ==> log.now == W.AfterCheck(old(log.now).(check := old(log.now).check + 1))
      ensures v.Raised? ==> log.now == W.AfterRaise(old(log.now), v.raised)
      ensures v.Returned? ==> log.tries == old(log.tries)
      ensures v.Raised? ==> log.tries == Appended(old(log.tries), AttemptTries(old(log.now), v))
    {
      Interfere(id, log);
      v := Verifier(component, check, log);
    }

    /** One verification check: its boundary, then the verifier. */
    method Verify(id: OpId, component: Id, check: string, ghost log: RunLog) returns (v: Verdict)
      requires Follows(id, log) && log.now.phase.AtCheckBoundary?
      requires var w := log.now; w.steps[w.pc].component == component && w.steps[w.pc].verify[w.check] == check
      modifies this, log`trace, log`now, log`tries, log`flagged, log`flaggedAt
      ensures Follows(id, log) && Tries(EventsOf(id)) == old(Tries(EventsOf(id)))
      ensures v.Returned? ==> log.tries == old(log.tries)
      ensures v.Raised? ==> log.tries == Appended(old(log.tries), AttemptTries(old(log.now), v))
      ensures Marks(EventsOf(id)) == old(Marks(EventsOf(id)))
      ensures v.Returned? ==> log.now == W.AfterCheck(old(log.now).(check := old(log.now).check + 1))
      ensures v.Raised? ==> log.now == W.AfterRaise(old(log.now), v.raised)
    {
      ghost var w := log.now;
      v := Boundary(id, log);
      if v.Returned? {
        v := RunCheck(id, component, check, log);
        CheckIsOfAttempt(w, v);
      }
    }

    /** The verification loop of an attempt: every declared check, or the first that raises. */
    method VerifyAll(id: OpId, step: Step, ghost log: RunLog) returns (v: Verdict)
      requires Follows(id, log)
      requires log.now.pc < |log.now.steps| && log.now.steps[log.now.pc] == step
      requires log.now.check == 0 && log.now == W.AfterCheck(log.now)
      modifies this, log`trace, log`now, log`tries, log`flagged, log`flaggedAt
      ensures Follows(id, log) && Tries(EventsOf(id)) == old(Tries(EventsOf(id)))
      ensures v.Returned? ==> log.tries == old(log.tries)
      ensures v.Raised? ==> log.tries == Appended(old(log.tries), AttemptTries(old(log.now), v))
      ensures Marks(EventsOf(id)) == old(Marks(EventsOf(id)))
      ensures v.Returned? ==> log.now == old(log.now).(check := |step.verify|, phase := W.Verified)
      ensures v.Raised? ==> W.RaisedTo(old(log.now), v.raised, log.now)
    {
      ghost var w := log.now;
      for i := 0 to |step.verify|
        invariant Follows(id, log) && Tries(EventsOf(id)) == old(Tries(EventsOf(id)))
        invariant log.tries == old(log.tries)
        invariant Marks(EventsOf(id)) == old(Marks(EventsOf(id)))
        invariant log.now == W.AfterCheck(w.(check := i))
      {
        v := Verify(id, step.component, step.verify[i], log);
        if v.Raised? {
          W.CallRaises(w, W.AfterCheck(w.(check := i)), v.raised);
          return;
        }
      }
      v := Returned;
    }

    /** One attempt of `_execute_step`: boundary, adapter, then every declared check. */
    method Attempt(id: OpId, step: Step, ghost log: RunLog) returns (v: Verdict)
      requires Follows(id, log)
      requires log.now.phase.AtBoundary? && log.now.steps[log.now.pc] == step
      modifies this, log`trace, log`now, log`tries, log`flagged, log`flaggedAt
      ensures Follows(id, log) && Tries(EventsOf(id)) == old(Tries(EventsOf(id)))
      ensures v.Returned? ==> log.tries == old(log.tries)
      ensures v.Raised? ==> log.tries == Appended(old(log.tries), AttemptTries(old(log.now), v))
      ensures Marks(EventsOf(id)) == old(Marks(EventsOf(id)))
      ensures v.Returned? ==>
        log.now == old(log.now).(check := |step.verify|, phase := W.Verified)
      ensures v.Raised? ==> W.RaisedTo(old(log.now), v.raised, log.now)
    {
      ghost var w := log.now;
      v := Boundary(id, log);
      if v.Raised? {
        W.CallRaises(w, w, v.raised);
        return;
      }
      v := Adapter(id, step, log);
      if v.Raised? {
        W.CallRaises(w, w.(phase := W.Armed), v.raised);
        return;
      }
      ghost var returned := log.now;
      v := VerifyAll(id, step, log);
      if v.Raised? {
        W.RaisedEarlier(w, returned, v.raised, log.now);
      }
    }

    /** `_save`, while the run is going on: every document it may write shows the operation as running. */
    method Save(id: OpId, doc: Document, ghost log: RunLog)
      requires Follows(id, log) && WhileRunning(log.base, log.now, doc)
      modifies this, log`flagged, log`flaggedAt
      ensures Follows(id, log)
      ensures Marks(EventsOf(id)) == old(Marks(EventsOf(id))) && Tries(EventsOf(id)) == old(Tries(EventsOf(id)))
      ensures id in store && store[id] == doc
    {
      Interfere(id, log);
      store := store[id := doc];
    }

    /** The end of an attempt in the event table. */
    method Report(id: OpId, step: Step, attempt: nat, v: Verdict, ghost log: RunLog, ghost w: W.State)
      requires Follows(id, log) && w.pc < |w.steps| && w.steps[w.pc] == step && w.attempt == attempt
      requires v.Returned? ==> log.now == w.(check := |step.verify|, phase := W.Verified)
      modifies this`events, log`trace, log`now, log`tries
      ensures Follows(id, log)
      ensures Tries(EventsOf(id)) == Appended(old(Tries(EventsOf(id))), AttemptTries(w, v))
      ensures v.Returned? ==>
        && W.AtHead(log.now) && log.now.pc == w.pc + 1 && log.now.steps == w.steps
        && Marks(EventsOf(id)) == old(Marks(EventsOf(id))) + [Ran(KeyOf(step))]
        && log.tries == Appended(old(log.tries), AttemptTries(w, v))
      ensures v.Raised? ==>
        log.now == old(log.now) && log.tries == old(log.tries)
        && Marks(EventsOf(id)) == old(Marks(EventsOf(id)))
    {
      if v.Returned? {
        AddEvent(id, StepSucceeded(KeyOf(step), attempt));
        log.Emit(W.Publish);
      } else if v.raised == W.RaisedError {
        AddEvent(id, AttemptFailed(KeyOf(step), attempt, attempt < step.maxAttempts));
      }
    }

    /** The body of the attempt loop: save, attempt, and record how it went. */
    method RecordedAttempt(id: OpId, doc0: Document, step: Step, attempt: nat, ghost log: RunLog) returns (v: Verdict)
      requires Follows(id, log)
      requires var w := log.now;
        w.phase.AtBoundary? && w.attempt == attempt && w.steps[w.pc] == step
      requires WhileRunning(log.base, log.now, doc0)
      modifies this, log
      ensures Follows(id, log) && log.now.steps == old(log.now).steps
      ensures v.Returned? ==>
        && W.AtHead(log.now) && log.now.pc == old(log.now).pc + 1
        && Marks(EventsOf(id)) == old(Marks(EventsOf(id))) + [Ran(KeyOf(step))]
      ensures v.Raised? ==>
        && W.RaisedTo(old(log.now), v.raised, log.now)
        && Marks(EventsOf(id)) == old(Marks(EventsOf(id)))
      ensures Tries(EventsOf(id)) == Appended(old(Tries(EventsOf(id))), AttemptTries(old(log.now), v))
      ensures log.tries == Appended(old(log.tries), AttemptTries(old(log.now), v))
    {
      ghost var w := log.now;
      Save(id, doc0, log);
      v := Attempt(id, step, log);
      Report(id, step, attempt, v, log, w);
    }

    /** Before this attempt of the step at `w`: the document shows the one before, the events are as they were. */
    ghost predicate Trying(id: OpId, doc: Document, w: W.State, attempt: nat, before: seq<Mark>, log: RunLog)
      reads this, log
    {
      && Follows(id, log) && Told(id, log) && Marks(EventsOf(id)) == before
      && RunningAs(log.base, doc) && doc.completedSteps == w.pc
      && log.now == w.(attempt := attempt) && w.phase.AtBoundary? && w.check == 0
      && attempt > 0 && ShowsStep(doc, w.steps, w.pc + 1, attempt - 1)
    }

    /** The step at `w` came through. */
    ghost predicate CameThrough(id: OpId, doc: Document, w: W.State, before: seq<Mark>, log: RunLog)
      reads this, log
    {
      && Follows(id, log) && Told(id, log) && RunningAs(log.base, doc) && doc.completedSteps == w.pc < |w.steps|
      && log.now.steps == w.steps && W.AtHead(log.now) && log.now.pc == w.pc + 1
      && doc.currentStep.Some? && ShowsStep(doc, w.steps, w.pc + 1, doc.currentStep.value.attempt)
      && Marks(EventsOf(id)) == before + [Ran(KeyOf(w.steps[w.pc]))]
    }

    /** The step at `w` ended the run. */
    ghost predicate Stopped(id: OpId, doc: Document, w: W.State, before: seq<Mark>, log: RunLog, raised: W.Raised)
      reads this, log
    {
      && Follows(id, log) && Told(id, log) && RunningAs(log.base, doc) && doc.completedSteps == w.pc
      && log.now.steps == w.steps && log.now.phase == W.Ended(RaisedOutcome(raised)) && log.now.pc == w.pc
      && ShowsStep(doc, w.steps, w.pc + 1, log.now.attempt)
      && Marks(EventsOf(id)) == before
    }

    /** The step at `w` is finished, published and counted. */
    ghost predicate Counted(id: OpId, doc: Document, w: W.State, before: seq<Mark>, log: RunLog)
      reads this, log
    {
      && Follows(id, log) && Told(id, log) && RunningAs(log.base, doc) && doc.completedSteps == w.pc + 1
      && w.pc < |w.steps| && log.now.steps == w.steps && W.AtHead(log.now) && log.now.pc == w.pc + 1
      && Marks(EventsOf(id)) == before + [Ran(KeyOf(w.steps[w.pc]))]
    }

    /** The store shows the step `step`, which is the next of the plan. */
    ghost predicate Opened(id: OpId, doc: Document, step: Step, log: RunLog)
      reads this, log
    {
      && Follows(id, log) && Told(id, log) && RunningAs(log.base, doc) && doc.completedSteps == log.now.pc
      && W.AtHead(log.now) && log.now.pc < |log.now.steps| && log.now.steps[log.now.pc] == step
      && ShowsStep(doc, log.now.steps, log.now.pc + 1, 0)
    }

    /** One attempt, with the account kept. */
    method ToldAttempt(id: OpId, doc: Document, step: Step, attempt: nat, ghost log: RunLog) returns (v: Verdict)
      requires Follows(id, log) && Told(id, log)
      requires log.now.phase.AtBoundary? && log.now.attempt == attempt && log.now.steps[log.now.pc] == step
      requires RunningAs(log.base, doc) && doc.completedSteps == log.now.pc
      requires ShowsStep(doc, log.now.steps, log.now.pc + 1, attempt)
      modifies this, log
      ensures Follows(id, log) && Told(id, log) && log.now.steps == old(log.now).steps
      ensures v.Returned? ==>
        && W.AtHead(log.now) && log.now.pc == old(log.now).pc + 1
        && Marks(EventsOf(id)) == old(Marks(EventsOf(id))) + [Ran(KeyOf(step))]
      ensures v.Raised? ==>
        && W.RaisedTo(old(log.now), v.raised, log.now)
        && Marks(EventsOf(id)) == old(Marks(EventsOf(id)))
    {
      StepSave(log.base, log.now, doc, attempt);
      v := RecordedAttempt(id, doc, step, attempt, log);
    }

    /** One attempt, with its number saved first. */
    method Try(id: OpId, doc0: Document, step: Step, attempt: nat, ghost w: W.State, ghost before: seq<Mark>,
               ghost log: RunLog)
      returns (v: Verdict, doc: Document)
      requires Trying(id, doc0, w, attempt, before, log) && w.steps[w.pc] == step && attempt <= step.maxAttempts
      modifies this, log
      ensures v.Returned? ==> CameThrough(id, doc, w, before, log)
      ensures v == Raised(W.RaisedError) && attempt < step.maxAttempts ==>
        Trying(id, doc, w, attempt + 1, before, log)
      ensures v.Raised? && (v.raised != W.RaisedError || attempt == step.maxAttempts) ==>
        Stopped(id, doc, w, before, log, v.raised)
    {
      doc := doc0.(currentStep := Some(doc0.currentStep.value.(attempt := attempt)));
      v := ToldAttempt(id, doc, step, attempt, log);
    }

    /** `_execute_step`: bounded attempts; the step is published at most once, when an attempt comes through. */
    method ExecuteStep(id: OpId, doc0: Document, step: Step, ghost log: RunLog) returns (v: Verdict, doc: Document)
      requires Opened(id, doc0, step, log)
      modifies this, log
      ensures v.Returned? ==> CameThrough(id, doc, old(log.now), old(Marks(EventsOf(id))), log)
      ensures v.Raised? ==> Stopped(id, doc, old(log.now), old(Marks(EventsOf(id))), log, v.raised)
    {
      ghost var w, before := log.now, Marks(EventsOf(id));
      doc := doc0;
      for attempt := 1 to step.maxAttempts + 1
        invariant attempt <= step.maxAttempts && Trying(id, doc, w, attempt, before, log)
      {
        v, doc := Try(id, doc, step, attempt, w, before, log);
        if v.Returned? || v.raised != W.RaisedError || attempt == step.maxAttempts {
          return;
        }
      }
    }

    /** `_set_recovery`: the boundary of the step that was current, else of the operation. */
    function SetRecovery(doc: Document): Document {
      var op := if doc.currentStep.Some? then doc.currentStep.value.operation else doc.operation;
      doc.(recoveryRequired := true, boundary := ClassOf(op))
    }

    /** The document as the run has it in hand. */
    ghost predicate InHand(doc: Document, log: RunLog)
      reads log
    {
      RunningAs(log.base, doc) && doc.completedSteps == log.now.pc
    }

    /** It shows the step the run stopped in. */
    ghost predicate ShowsStop(doc: Document, log: RunLog)
      reads log
    {
      ShowsStep(doc, log.now.steps, log.now.pc + 1, log.now.attempt)
    }

    /** The save that shows the next step. */
    method OpenStep(id: OpId, doc0: Document, step: Step, ghost log: RunLog) returns (doc: Document)
      requires Follows(id, log) && Told(id, log) && InHand(doc0, log)
      requires W.AtHead(log.now) && log.now.pc < |log.now.steps| && log.now.steps[log.now.pc] == step
      modifies this, log`flagged, log`flaggedAt
      ensures Opened(id, doc, step, log) && log.now == old(log.now)
      ensures Marks(EventsOf(id)) == old(Marks(EventsOf(id)))
    {
      doc := doc0.(currentStep := Some(CurrentStep(doc0.completedSteps + 1, step.component, step.operation, 0)));
      StepSave(log.base, log.now, doc, 0);
      Save(id, doc, log);
    }

    /** The count after a step that came through. */
    method CountStep(id: OpId, doc0: Document, ghost w: W.State, ghost before: seq<Mark>, ghost log: RunLog)
      returns (doc: Document)
      requires CameThrough(id, doc0, w, before, log)
      modifies this, log`flagged, log`flaggedAt
      ensures Counted(id, doc, w, before, log)
    {
      doc := doc0.(completedSteps := doc0.completedSteps + 1);
      FinishedSave(log.base, log.now, doc, doc.currentStep.value.attempt);
      Save(id, doc, log);
    }

    /** One turn of the step loop of `_run`. */
    method RunStep(id: OpId, doc0: Document, step: Step, ghost log: RunLog) returns (v: Verdict, doc: Document)
      requires Follows(id, log) && Told(id, log) && InHand(doc0, log)
      requires W.AtHead(log.now) && log.now.pc < |log.now.steps| && log.now.steps[log.now.pc] == step
      modifies this, log
      ensures v.Returned? ==> Counted(id, doc, old(log.now), old(Marks(EventsOf(id))), log)
      ensures v.Raised? ==> Stopped(id, doc, old(log.now), old(Marks(EventsOf(id))), log, v.raised)
    {
      ghost var w, before := log.now, Marks(EventsOf(id));
      doc := OpenStep(id, doc0, step, log);
      v, doc := ExecuteStep(id, doc, step, log);
      if v.Returned? {
        doc := CountStep(id, doc, w, before, log);
      }
    }

    /** A run stands before the next step of its plan, with the steps since `first` accounted for. */
    ghost predicate Underway(id: OpId, doc: Document, first: nat, plan: seq<Step>, before: seq<Mark>, log: RunLog)
      reads this, log
    {
      && Follows(id, log) && Told(id, log) && InHand(doc, log)
      && log.now.steps == plan && W.AtHead(log.now)
      && Tally(doc.completedSteps, first, plan, before, Marks(EventsOf(id)))
    }

    /** A run ended with `raised` in the step it shows, with the steps since `first` accounted for. */
    ghost predicate CutShort(id: OpId, doc: Document, first: nat, plan: seq<Step>, before: seq<Mark>, log: RunLog,
                             raised: W.Raised)
      reads this, log
    {
      && Follows(id, log) && Told(id, log) && InHand(doc, log)
      && log.now.steps == plan && log.now.phase == W.Ended(RaisedOutcome(raised)) && ShowsStop(doc, log)
      && Tally(doc.completedSteps, first, plan, before, Marks(EventsOf(id)))
    }

    /** One turn of the step loop, with its account. */
    method RunNext(id: OpId, doc0: Document, ghost first: nat, ghost plan: seq<Step>, ghost before: seq<Mark>,
                   step: Step, ghost log: RunLog)
      returns (v: Verdict, doc: Document)
      requires Underway(id, doc0, first, plan, before, log)
      requires doc0.completedSteps < |plan| && plan[doc0.completedSteps] == step
      modifies this, log
      ensures v.Returned? ==>
        doc.completedSteps == doc0.completedSteps + 1 && Underway(id, doc, first, plan, before, log)
      ensures v.Raised? ==> CutShort(id, doc, first, plan, before, log, v.raised)
    {
      TallyNext(doc0.completedSteps, first, plan, before, Marks(EventsOf(id)));
      v, doc := RunStep(id, doc0, step, log);
    }

    /** The step loop of `_run`, up to its end or to the first raise. */
    method RunSteps(id: OpId, doc0: Document, steps: seq<Step>, ghost plan: seq<Step>, ghost log: RunLog)
      returns (v: Verdict, doc: Document)
      requires Follows(id, log) && Told(id, log) && InHand(doc0, log)
      requires log.now.steps == plan && doc0.completedSteps <= |plan| && W.AtHead(log.now)
      requires plan[doc0.completedSteps..] == steps
      modifies this, log
      ensures v.Returned? ==>
        doc.completedSteps == |plan|
        && Underway(id, doc, doc0.completedSteps, plan, old(Marks(EventsOf(id))), log)
      ensures v.Raised? ==>
        CutShort(id, doc, doc0.completedSteps, plan, old(Marks(EventsOf(id))), log, v.raised)
    {
      v, doc := Returned, doc0;
      ghost var before := Marks(EventsOf(id));
      TallyStart(doc0.completedSteps, plan, before);
      for i := 0 to |steps|
        invariant doc.completedSteps == doc0.completedSteps + i
        invariant Underway(id, doc, doc0.completedSteps, plan, before, log)
        invariant v.Returned?
      {
        v, doc := RunNext(id, doc, doc0.completedSteps, plan, before, steps[i], log);
        if v.Raised? {
          return;
        }
      }
    }

    /** The end of every run: forget the flag, save the document. */
    method Close(id: OpId, doc: Document, ghost log: RunLog)
      requires Follows(id, log) && Told(id, log)
      modifies this, log`flagged, log`flaggedAt
      ensures log.Valid() && Told(id, log) && log.now == old(log.now)
      ensures Marks(EventsOf(id)) == old(Marks(EventsOf(id)))
      ensures id in store && store[id] == doc && id !in cancelled
    {
      Interfere(id, log);
      cancelled := cancelled - {id};
      store := store[id := doc];
    }

    /** The first save of a run, and the start of its machine. */
    method BeginRun(id: OpId, doc0: Document, ghost log: RunLog) returns (doc: Document)
      requires Follows(id, log) && Told(id, log) && log.base == doc0
      requires log.now.phase.NotStarted? && log.now.pc == doc0.completedSteps
      modifies this, log
      ensures Follows(id, log) && Told(id, log) && InHand(doc, log)
      ensures doc.completedSteps == doc0.completedSteps
      ensures log.now == W.Advance(old(log.now)) && W.AtHead(log.now)
      ensures Marks(EventsOf(id)) == old(Marks(EventsOf(id)))
    {
      doc := doc0.(state := Running);
      FirstSave(log.base, log.now, doc);
      Save(id, doc, log);
      log.Emit(W.Begin);
    }

    /** What a run makes of the document `base`, `count` being the steps finished. */
    ghost predicate EndsAs(base: Document, doc: Document, w: W.State) {
      && w.phase.Ended? && doc.state == Done(w.phase.outcome) && doc.completedSteps == w.pc
      && doc.operation == base.operation && doc.components == base.components && doc.totalSteps == base.totalSteps
      && if w.phase.outcome.Succeeded? then
           doc.currentStep == None && doc.recoveryRequired == base.recoveryRequired && doc.boundary == base.boundary
         else
           && ShowsStep(doc, w.steps, w.pc + 1, w.attempt)
           && doc.recoveryRequired && doc.boundary == ClassOf(w.steps[w.pc].operation)
    }

    /** The end of every run: forget the flag, save the document. */
    method EndRun(id: OpId, doc0: Document, v: Verdict, ghost log: RunLog) returns (doc: Document)
      requires Follows(id, log) && Told(id, log) && InHand(doc0, log)
      requires v.Returned? ==> log.now.phase == W.Ended(W.Succeeded)
      requires v.Raised? ==> log.now.phase == W.Ended(RaisedOutcome(v.raised)) && ShowsStop(doc0, log)
      modifies this, log`flagged, log`flaggedAt
      ensures log.Valid() && Told(id, log) && log.now == old(log.now)
      ensures Marks(EventsOf(id)) == old(Marks(EventsOf(id)))
      ensures EndsAs(log.base, doc, log.now)
      ensures id in store && store[id] == doc && id !in cancelled
    {
      if v.Returned? {
        doc := doc0.(state := Done(W.Succeeded), currentStep := None);
      } else {
        doc := SetRecovery(doc0.(state := Done(RaisedOutcome(v.raised))));
      }
      Close(id, doc, log);
    }

    /**
     `_run` over the remaining steps of a plan whose first `completedSteps` were resumed. On the way the store shows
     the operation as active, over its own components, whenever other threads look. What it leaves behind: a machine
     trace that has ended, the document with the outcome, the exact number of finished steps and the step it stopped
     in, one step-succeeded event for each step it finished, and the event of every attempt the trace made.
     */
    method Run(id: OpId, doc0: Document, steps: seq<Step>, ghost plan: seq<Step>, ghost log: RunLog)
      returns (doc: Document)
      requires doc0.completedSteps <= |plan| == doc0.totalSteps && plan[doc0.completedSteps..] == steps
      requires W.Runnable(plan) && log.start == W.Fresh(plan, doc0.completedSteps) == log.now && log.base == doc0
      requires Follows(id, log) && Told(id, log)
      modifies this, log
      ensures log.Valid() && W.Trace(log.start, log.trace) && log.now == W.After(log.start, log.trace)
      ensures Tries(EventsOf(id)) == log.before + TriesOf(log.start, log.trace)
      ensures id in store && store[id] == doc && id !in cancelled
      ensures EndsAs(doc0, doc, log.now) && log.now.steps == plan
      ensures Tally(doc.completedSteps, doc0.completedSteps, plan,
                    old(Marks(EventsOf(id))), Marks(EventsOf(id)))
      ensures doc.state == Done(W.Succeeded) <==> doc.completedSteps == doc.totalSteps
    {
      var v;
      doc := BeginRun(id, doc0, log);
      v, doc := RunSteps(id, doc, steps, plan, log);
      doc := EndRun(id, doc, v, log);
      ExplainsMeans(log.start, log.trace, log.now, log.tries);
    }

    /** The ghost log of a run over the stored document. */
    ghost method NewLog(id: OpId, steps: seq<Step>, resumed: nat) returns (log: RunLog)
      requires id in store && Active(store[id].state) && W.Runnable(steps) && resumed <= |steps|
      ensures fresh(log) && Follows(id, log) && Told(id, log)
      ensures log.start == W.Fresh(steps, resumed) == log.now && log.base == store[id]
    {
      log := new RunLog(steps, resumed, store[id], Tries(EventsOf(id)));
      log.Observe(id in cancelled);
    }

    /** A run after the steps it took over, with the account of its keys. */
    method RunRest(id: OpId, doc0: Document, steps: seq<Step>, ghost plan: seq<Step>, ghost log: RunLog)
      returns (doc: Document)
      requires doc0.completedSteps <= |plan| == doc0.totalSteps && plan[doc0.completedSteps..] == steps
      requires W.Runnable(plan) && log.start == W.Fresh(plan, doc0.completedSteps) == log.now && log.base == doc0
      requires Follows(id, log) && Told(id, log) && NoDup(Keys(plan))
      requires Marks(EventsOf(id)) == AllTakenOver(Keys(plan[..doc0.completedSteps]))
      modifies this, log
      ensures id in store && store[id] == doc
      ensures doc.completedSteps == |Marks(EventsOf(id))| == |CompletedKeys(EventsOf(id))|
      ensures CompletedKeys(EventsOf(id)) <= Elems(Keys(plan))
      ensures doc.state == Done(W.Succeeded) <==> CompletedKeys(EventsOf(id)) == Elems(Keys(plan))
    {
      doc := Run(id, doc0, steps, plan, log);
      RetryEnds(EventsOf(id), plan, doc0.completedSteps, doc.completedSteps);
    }

    /**
     A retry from its creation to its end. Its stored count is the number of planned steps with a step-succeeded or
     step-resumed event, each of which has exactly one, and it succeeds exactly when that is all of them.
     */
    method RunRetry(id: OpId, retryOf: OpId, steps: seq<Step>) returns (doc: Document)
      requires id in store && id != retryOf && EventsOf(id) == [] && store[id].totalSteps == |steps|
      requires Active(store[id].state)
      requires NoDup(Keys(steps)) && W.Runnable(steps)
      modifies this
      ensures id in store && store[id] == doc
      ensures doc.completedSteps == |Marks(EventsOf(id))| == |CompletedKeys(EventsOf(id))|
      ensures CompletedKeys(EventsOf(id)) <= Elems(Keys(steps))
      ensures doc.state == Done(W.Succeeded) <==> CompletedKeys(EventsOf(id)) == Elems(Keys(steps))
    {
      ghost var done := CompletedKeys(EventsOf(retryOf));
      var remaining := ResumeSteps(id, retryOf, steps);
      ghost var taken, plan := |TakenSteps(steps, done)|, RetryPlan(steps, remaining, done);
      RetryBegins(steps, remaining, done, EventsOf(id));
      ghost var log := NewLog(id, plan, taken);
      doc := RunRest(id, store[id], remaining, plan, log);
    }
  }
}
