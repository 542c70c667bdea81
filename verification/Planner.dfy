/**
 Lifecycle planners over the component registry (manager/operation_engine.py): `_step`, `_ordered_steps`, `_plan`
 and `_lab_steps`.
 */
module Planner {
  import opened Sequences
  import opened Graph
  import opened ComponentRegistry
  import opened Plans
  import W = Worker

  /** `_step`: resolve one declared capability into a bounded step. */
  function MakeStep(r: Registry, b: Bounds, c: Id, op: Operation): Result<Step> {
    if c !in r.operations then Rejected(RegistryGap(c))
    else if op !in r.operations[c] then Rejected(NotDeclared(c))
    else
      var capability := r.operations[c][op];
      var declared := capability.timeoutSeconds as real;
      var timeout := if declared < b.maxStepTimeout then declared else b.maxStepTimeout;
      if timeout <= 0.0 then Rejected(UnboundedTimeout(c))
      else Planned(Step(c, op, timeout, capability.verify, if capability.idempotent then b.maxAttempts else 1))
  }

  /** Every member of `s` declares the operation with a positive timeout. */
  ghost predicate AllDeclared(r: Registry, op: Operation, s: set<Id>) {
    forall c :: c in s ==>
      c in r.operations && op in r.operations[c] && r.operations[c][op].timeoutSeconds > 0
  }

  /**
   The step does what the registry declares for it: every declared check, as long as declared and as the engine's bound
   allows, and more than one attempt only if it may be repeated.
   */
  ghost predicate AsDeclared(r: Registry, b: Bounds, step: Step) {
    && step.component in r.operations && step.operation in r.operations[step.component]
    && var capability := r.operations[step.component][step.operation];
    && var declared := capability.timeoutSeconds as real;
    && step.verify == capability.verify
    && (capability.idempotent ==> step.maxAttempts == b.maxAttempts)
    && (!capability.idempotent ==> step.maxAttempts == 1)
    && 0.0 < step.timeoutSeconds <= declared && step.timeoutSeconds <= b.maxStepTimeout
    && (step.timeoutSeconds == declared || step.timeoutSeconds == b.maxStepTimeout)
  }

  ghost predicate AllAsDeclared(r: Registry, b: Bounds, steps: seq<Step>) {
    forall i :: 0 <= i < |steps| ==> AsDeclared(r, b, steps[i])
  }

  /** One step for each of `ordered`, in that order, as the registry declares it. */
  ghost predicate StepsFor(r: Registry, b: Bounds, op: Operation, ordered: seq<Id>, steps: seq<Step>) {
    && |steps| == |ordered|
    && (forall i :: 0 <= i < |steps| ==> steps[i].component == ordered[i] && steps[i].operation == op)
    && AllAsDeclared(r, b, steps)
  }

  lemma StepsForComponents(r: Registry, b: Bounds, op: Operation, ordered: seq<Id>, steps: seq<Step>)
    requires StepsFor(r, b, op, ordered, steps)
    ensures Components(steps) == ordered && Uniform(steps, op) && W.Runnable(steps)
  {
    forall i | 0 <= i < |steps|
      ensures steps[i].maxAttempts >= 1
    {
      assert AsDeclared(r, b, steps[i]);
    }
  }

  // ----- What a run of planned steps does -----

  /** A planned step that may not be repeated is called at most once in a run, whatever happens in it. */
  lemma NotRepeated(r: Registry, b: Bounds, w: W.State, es: seq<W.Event>, i: nat)
    requires AllAsDeclared(r, b, w.steps) && W.Consistent(w) && w.phase.NotStarted? && W.Trace(w, es)
    requires i < |w.steps| && !r.operations[w.steps[i].component][w.steps[i].operation].idempotent
    ensures W.CallsAt(w, es, i) <= 1
  {
    assert AsDeclared(r, b, w.steps[i]);
    W.CallsBounded(w, es, i);
  }

  /** A planned step is published only after one attempt that passed every check the registry declares for it. */
  lemma PublishedAsDeclared(r: Registry, b: Bounds, w: W.State, es: seq<W.Event>)
    requires AllAsDeclared(r, b, w.steps) && W.Consistent(w) && w.phase.NotStarted? && W.Trace(w, es)
    requires es != [] && es[|es| - 1] == W.Publish
    ensures var init := es[..|es| - 1];
      var step := w.steps[W.After(w, init).pc];
      && AsDeclared(r, b, step)
      && W.EndsWith(init, W.CleanAttempt(|r.operations[step.component][step.operation].verify|))
  {
    W.PublishIsEarned(w, es);
    assert AsDeclared(r, b, w.steps[W.After(w, es[..|es| - 1]).pc]);
  }

  // ----- Steps -----

  /** A step is made exactly for a declared operation with a positive timeout, as declared. */
  lemma MakeStepMeans(r: Registry, b: Bounds, c: Id, op: Operation)
    ensures MakeStep(r, b, c, op).Planned? <==> AllDeclared(r, op, {c})
    ensures MakeStep(r, b, c, op).Planned? ==>
      var step := MakeStep(r, b, c, op).value;
      step.component == c && step.operation == op && AsDeclared(r, b, step)
    ensures MakeStep(r, b, c, op).Rejected? ==>
      var e := MakeStep(r, b, c, op).error;
      !e.DependencyBlocked? && !e.RegistryCycle? && (e.RegistryGap? ==> c !in r.ids)
  {
    if c in r.operations {
      assert c in Elems(r.ids);
    }
  }

  lemma StepsForNext(r: Registry, b: Bounds, op: Operation, ordered: seq<Id>, steps: seq<Step>, c: Id, step: Step)
    requires StepsFor(r, b, op, ordered, steps)
    requires step.component == c && step.operation == op && AsDeclared(r, b, step)
    ensures StepsFor(r, b, op, ordered + [c], steps + [step])
  {
  }

  method MakeSteps(r: Registry, b: Bounds, op: Operation, ordered: seq<Id>) returns (res: Result<seq<Step>>)
    ensures res.Planned? <==> AllDeclared(r, op, Elems(ordered))
    ensures res.Planned? ==> StepsFor(r, b, op, ordered, res.value)
    ensures res.Planned? ==> Components(res.value) == ordered && Uniform(res.value, op) && W.Runnable(res.value)
    ensures res.Rejected? ==> !res.error.DependencyBlocked? && !res.error.RegistryCycle?
    ensures res.Rejected? && res.error.RegistryGap? ==> !(Elems(ordered) <= Elems(r.ids))
  {
    var steps := [];
    for i := 0 to |ordered|
      invariant StepsFor(r, b, op, ordered[..i], steps)
      invariant forall j :: 0 <= j < i ==> AllDeclared(r, op, {ordered[j]})
    {
      assert ordered[i] in Elems(ordered) && ordered[i] in {ordered[i]};
      assert ordered[..i + 1] == ordered[..i] + [ordered[i]];
      MakeStepMeans(r, b, ordered[i], op);
      match MakeStep(r, b, ordered[i], op)
      case Rejected(e) =>
        return Rejected(e);
      case Planned(step) =>
        StepsForNext(r, b, op, ordered[..i], steps, ordered[i], step);
        steps := steps + [step];
    }
    assert ordered[..|ordered|] == ordered;
    StepsForComponents(r, b, op, ordered, steps);
    return Planned(steps);
  }

  /** A sound registry orders any of its selections. */
  lemma SoundSelection(r: Registry, roots: set<Id>)
    requires r.Sound() && roots <= Elems(r.ids)
    ensures !HasGap(r.deps, roots) && !Cyclic(r.deps, Closure(r.deps, roots))
  {
    if u :| u !in r.deps && ReachedFrom(r.deps, roots, u) {
      assert ReachedFrom(r.deps, Elems(r.ids), u);
      assert false;
    }
    if Cyclic(r.deps, Closure(r.deps, roots)) {
      assert Closure(r.deps, roots) <= Elems(r.ids);
      var p :| CycleIn(r.deps, Closure(r.deps, roots), p);
      assert CycleIn(r.deps, Elems(r.ids), p);
      assert false;
    }
  }

  ghost predicate RegistryFault(e: PlanError) {
    e.RegistryGap? || e.RegistryCycle?
  }

  /** `dependency_order` seen as a planner step: its two faults become plan errors. */
  method OrderFor(r: Registry, selected: seq<Id>) returns (res: Result<seq<Id>>)
    ensures res.Planned? ==> !HasGap(r.deps, r.Roots(selected))
    ensures res.Planned? ==> Order(r.deps, res.value, Closure(r.deps, r.Roots(selected)))
    ensures res.Rejected? ==> RegistryFault(res.error)
    ensures res.Rejected? ==> !(r.Sound() && r.Roots(selected) <= Elems(r.ids))
  {
    var order := DependencyOrder(r, selected);
    if r.Sound() && r.Roots(selected) <= Elems(r.ids) {
      SoundSelection(r, r.Roots(selected));
    }
    match order
    case Ordered(o) => return Planned(o);
    case UnknownComponent(u) => return Rejected(RegistryGap(u));
    case DependencyCycle(ids) => return Rejected(RegistryCycle(ids));
  }

  /** `_transitive_dependencies`. */
  method TransitiveDependencies(r: Registry, c: Id) returns (res: Result<set<Id>>)
    ensures res.Planned? ==> res.value == Closure(r.deps, {c}) - {c} && !HasGap(r.deps, {c})
    ensures res.Rejected? ==> RegistryFault(res.error) && !(r.Sound() && c in r.ids)
  {
    assert Elems([c]) == {c};
    var order := OrderFor(r, [c]);
    match order
    case Rejected(e) => return Rejected(e);
    case Planned(o) => return Planned(Elems(o) - {c});
  }

  /** The check that precedes a stopping plan: does an unselected component depend on the selection? */
  method MissingConsumers(r: Registry, selected: set<Id>) returns (res: Result<seq<Id>>)
    ensures res.Planned? ==> (res.value == [] <==> ConsumerClosed(r.deps, selected))
    ensures res.Rejected? ==> RegistryFault(res.error) && !r.Sound()
  {
    var missing := [];
    for i := 0 to |r.ids|
      invariant missing == [] <==>
        forall j, c :: 0 <= j < i && c in selected && Reaches(r.deps, r.ids[j], c) ==> r.ids[j] in selected
    {
      var u := r.ids[i];
      if u !in selected {
        var dependencies := TransitiveDependencies(r, u);
        if dependencies.Rejected? {
          return Rejected(dependencies.error);
        }
        UnselectedConsumer(r, u, selected);
        if selected * dependencies.value != {} {
          missing := missing + [u];
        }
      }
    }
    assert forall u :: u in r.deps <==> u in Elems(r.ids);
    return Planned(missing);
  }

  lemma UnselectedConsumer(r: Registry, u: Id, selected: set<Id>)
    requires u !in selected && !HasGap(r.deps, {u})
    ensures selected * (Closure(r.deps, {u}) - {u}) != {} <==> exists c :: c in selected && Reaches(r.deps, u, c)
  {
    forall c | c in selected && Reaches(r.deps, u, c)
      ensures c in selected * (Closure(r.deps, {u}) - {u})
    {
      assert ReachedFrom(r.deps, {u}, c);
    }
  }

  /** `_ordered_steps` for operations that bring dependencies along. */
  method StepsWithDependencies(r: Registry, b: Bounds, op: Operation, requested: seq<Id>)
    returns (res: Result<seq<Step>>)
    ensures res.Planned? ==> Order(r.deps, Components(res.value), Closure(r.deps, r.Roots(requested)))
    ensures res.Planned? ==> StepsFor(r, b, op, Components(res.value), res.value)
    ensures res.Planned? && Raises(op) ==> SafePlan(r.deps, res.value)
    ensures res.Rejected? ==> !res.error.DependencyBlocked?
    ensures r.Sound() && r.Roots(requested) <= Elems(r.ids) ==>
      (res.Planned? <==> AllDeclared(r, op, Closure(r.deps, r.Roots(requested))))
  {
    var order := OrderFor(r, requested);
    if order.Rejected? {
      return Rejected(order.error);
    }
    res := MakeSteps(r, b, op, order.value);
    if res.Planned? && Raises(op) {
      RaisingPlanIsSafe(r.deps, res.value, op, Closure(r.deps, r.Roots(requested)));
    }
  }

  /** The reversed part of an order that belongs to a consumer-closed selection, as steps. */
  method ReversedSteps(r: Registry, b: Bounds, op: Operation, order: seq<Id>, selected: set<Id>)
    returns (res: Result<seq<Step>>)
    requires Order(r.deps, order, Elems(order)) && selected <= Elems(order)
    requires ConsumerClosed(r.deps, selected)
    ensures res.Planned? ==> Elems(Components(res.value)) == selected
    ensures res.Planned? ==> ConsumersFirst(r.deps, Components(res.value))
    ensures res.Planned? ==> Uniform(res.value, op) && W.Runnable(res.value)
    ensures res.Planned? ==> StepsFor(r, b, op, Components(res.value), res.value)
    ensures res.Planned? && Lowers(op) ==> SafePlan(r.deps, res.value)
    ensures res.Planned? <==> AllDeclared(r, op, selected)
    ensures res != Rejected(DependencyBlocked)
  {
    ReversedOrder(r.deps, order, Elems(order), selected);
    res := MakeSteps(r, b, op, Filter(Reverse(order), selected));
    if res.Planned? && Lowers(op) {
      LoweringPlanIsSafe(r.deps, res.value, op);
    }
  }

  /** `_ordered_steps` for operations that must not strand a consumer. */
  method StepsWithConsumers(r: Registry, b: Bounds, op: Operation, requested: seq<Id>)
    returns (res: Result<seq<Step>>)
    ensures res.Planned? ==> ConsumerClosed(r.deps, Elems(requested))
    ensures res.Planned? ==> Elems(Components(res.value)) == Elems(requested)
    ensures res.Planned? ==> ConsumersFirst(r.deps, Components(res.value))
    ensures res.Planned? ==> StepsFor(r, b, op, Components(res.value), res.value)
    ensures res.Planned? && Lowers(op) ==> SafePlan(r.deps, res.value)
    ensures r.Sound() && Elems(requested) <= Elems(r.ids) ==>
      && (res == Rejected(DependencyBlocked) <==> !ConsumerClosed(r.deps, Elems(requested)))
      && (res.Planned? <==> ConsumerClosed(r.deps, Elems(requested)) && AllDeclared(r, op, Elems(requested)))
  {
    var selected := Elems(requested);
    var missing := MissingConsumers(r, selected);
    if missing.Rejected? {
      return Rejected(missing.error);
    }
    if missing.value != [] {
      return Rejected(DependencyBlocked);
    }
    var order := OrderFor(r, requested);
    if order.Rejected? {
      return Rejected(order.error);
    }
    ClosureIsLeast(r.deps, r.Roots(requested));
    assert selected <= r.Roots(requested);
    res := ReversedSteps(r, b, op, order.value, selected);
  }

  /** A stopping sequence of exactly the selection. */
  ghost predicate StopShape(r: Registry, op: Operation, requested: seq<Id>, steps: seq<Step>) {
    && Uniform(steps, op)
    && Elems(Components(steps)) == Elems(requested)
    && ConsumersFirst(r.deps, Components(steps))
    && ConsumerClosed(r.deps, Elems(requested))
  }

  /** A starting sequence of the selection and everything it depends on. */
  ghost predicate StartShape(r: Registry, op: Operation, requested: seq<Id>, steps: seq<Step>) {
    && Uniform(steps, op)
    && Elems(requested) <= Elems(Components(steps))
    && Order(r.deps, Components(steps), Closure(r.deps, r.Roots(requested)))
  }

  /** A restart stops exactly the selection, then starts it with everything it depends on. */
  ghost predicate PlanShape(r: Registry, op: Operation, requested: seq<Id>, steps: seq<Step>) {
    if op == Restart then
      var n := |Elems(requested)|;
      && n <= |steps|
      && StopShape(r, Stop, requested, steps[..n])
      && StartShape(r, Start, requested, steps[n..])
    else if Raises(op) then StartShape(r, op, requested, steps)
    else StopShape(r, op, requested, steps)
  }

  /** A sound registry plans the operation. */
  ghost predicate Plannable(r: Registry, op: Operation, requested: seq<Id>) {
    var start := AllDeclared(r, if op == Restart then Start else op, Closure(r.deps, r.Roots(requested)));
    var stop := ConsumerClosed(r.deps, Elems(requested))
      && AllDeclared(r, if op == Restart then Stop else op, Elems(requested));
    if op == Restart then start && stop else if Raises(op) then start else stop
  }

  /** `_plan`: reject unknown components, then plan the operation. */
  method Plan(r: Registry, b: Bounds, op: Operation, requested: seq<Id>) returns (res: Result<seq<Step>>)
    ensures res.Planned? ==> SafePlan(r.deps, res.value) && W.Runnable(res.value)
    ensures res.Planned? ==> AllAsDeclared(r, b, res.value)
    ensures res.Planned? ==> PlanShape(r, op, requested, res.value)
    ensures res.Rejected? && res.error.DependencyBlocked? ==> !Raises(op)
    ensures r.Sound() && Elems(requested) <= Elems(r.ids) ==>
      (res.Planned? <==> Plannable(r, op, requested))
    ensures r.Sound() && Elems(requested) <= Elems(r.ids) && !Raises(op) ==>
      (res == Rejected(DependencyBlocked) <==> !ConsumerClosed(r.deps, Elems(requested)))
  {
    for i := 0 to |requested|
      invariant forall j :: 0 <= j < i ==> requested[j] in r.ids
    {
      if requested[i] !in r.deps {
        assert requested[i] in Elems(requested);
        return Rejected(RegistryGap(requested[i]));
      }
      assert requested[i] in Elems(r.ids);
    }
    ClosureCoversSelection(r, requested);
    if op == Restart {
      res := RestartPlan(r, b, requested);
    } else if Raises(op) {
      res := StepsWithDependencies(r, b, op, requested);
      if res.Planned? {
        StepsForComponents(r, b, op, Components(res.value), res.value);
      }
    } else {
      res := StepsWithConsumers(r, b, op, requested);
      if res.Planned? {
        StepsForComponents(r, b, op, Components(res.value), res.value);
      }
    }
  }

  /** The restart branch of `_plan`. */
  method RestartPlan(r: Registry, b: Bounds, requested: seq<Id>) returns (res: Result<seq<Step>>)
    requires Elems(requested) <= Elems(r.ids)
    ensures res.Planned? ==> SafePlan(r.deps, res.value) && W.Runnable(res.value)
    ensures res.Planned? ==> AllAsDeclared(r, b, res.value)
    ensures res.Planned? ==> PlanShape(r, Restart, requested, res.value)
    ensures r.Sound() ==> (res.Planned? <==> Plannable(r, Restart, requested))
    ensures r.Sound() ==> (res == Rejected(DependencyBlocked) <==> !ConsumerClosed(r.deps, Elems(requested)))
  {
    var stop := StepsWithConsumers(r, b, Stop, requested);
    if stop.Rejected? {
      return stop;
    }
    StepsForComponents(r, b, Stop, Components(stop.value), stop.value);
    var start := StepsWithDependencies(r, b, Start, requested);
    if start.Rejected? {
      return start;
    }
    StepsForComponents(r, b, Start, Components(start.value), start.value);
    ClosureCoversSelection(r, requested);
    ConcatIsSafe(r.deps, stop.value, start.value);
    RestartShape(r, b, requested, stop.value, start.value);
    return Planned(stop.value + start.value);
  }

  lemma RestartShape(r: Registry, b: Bounds, requested: seq<Id>, stop: seq<Step>, start: seq<Step>)
    requires StopShape(r, Stop, requested, stop) && StartShape(r, Start, requested, start)
    requires AllAsDeclared(r, b, stop) && AllAsDeclared(r, b, start) && W.Runnable(stop) && W.Runnable(start)
    ensures PlanShape(r, Restart, requested, stop + start)
    ensures AllAsDeclared(r, b, stop + start) && W.Runnable(stop + start)
  {
    ElemsCardinality(Components(stop));
    var steps := stop + start;
    assert steps[..|stop|] == stop && steps[|stop|..] == start;
    forall i | 0 <= i < |steps|
      ensures AsDeclared(r, b, steps[i]) && steps[i].maxAttempts >= 1
    {
      if i < |stop| {
        assert AsDeclared(r, b, stop[i]) && stop[i].maxAttempts >= 1;
      } else {
        assert AsDeclared(r, b, start[i - |stop|]) && start[i - |stop|].maxAttempts >= 1;
      }
    }
  }

  lemma ClosureCoversSelection(r: Registry, requested: seq<Id>)
    requires Elems(requested) <= Elems(r.ids)
    ensures Elems(requested) <= Closure(r.deps, r.Roots(requested))
  {
    forall a | a in Elems(requested)
      ensures a in Closure(r.deps, r.Roots(requested))
    {
      ReachesSelf(r.deps, a);
      assert ReachedFrom(r.deps, r.Roots(requested), a);
    }
  }

  datatype LabAction = Deploy | StartLab | Suspend

  function LabOperation(action: LabAction): Operation {
    match action
    case Deploy => Install
    case StartLab => Start
    case Suspend => Stop
  }

  /** The components a lab action moves: the whole registry, or one component's closure on the side the action needs. */
  ghost function LabScope(r: Registry, action: LabAction, selected: Option<Id>): set<Id> {
    match selected
    case None => Closure(r.deps, Elems(r.ids))
    case Some(c) => if action == Suspend then ConsumersOf(r.deps, c) else Closure(r.deps, {c})
  }

  /** The selection of `_lab_steps` for a suspend: the requested components and every transitive consumer. */
  method SuspendSelection(r: Registry, c: Id) returns (res: Result<set<Id>>)
    requires c in r.deps
    ensures res.Planned? ==> res.value == ConsumersOf(r.deps, c)
    ensures res.Rejected? ==> RegistryFault(res.error) && !r.Sound()
  {
    var selected := {c};
    ReachesSelf(r.deps, c);
    for i := 0 to |r.ids|
      invariant selected == {c} + set j | 0 <= j < i && Reaches(r.deps, r.ids[j], c) :: r.ids[j]
    {
      var candidate := r.ids[i];
      var dependencies := TransitiveDependencies(r, candidate);
      if dependencies.Rejected? {
        return Rejected(dependencies.error);
      }
      assert c in Closure(r.deps, {candidate}) <==> ReachedFrom(r.deps, {candidate}, c);
      if c in dependencies.value {
        selected := selected + {candidate};
      }
    }
    assert forall u :: u in r.deps <==> u in Elems(r.ids);
    return Planned(selected);
  }

  /**
   What a lab plan looks like: safe, with every step tried at least once, over exactly its scope, ordered for its
   direction; it installs, starts or stops and does nothing else.
   */
  ghost predicate LabPlan(r: Registry, b: Bounds, action: LabAction, selected: Option<Id>, steps: seq<Step>) {
    && SafePlan(r.deps, steps) && W.Runnable(steps) && AllAsDeclared(r, b, steps)
    && (action == Deploy ==> Uniform(steps, Install))
    && (action == StartLab ==> Uniform(steps, Start))
    && (action == Suspend ==> Uniform(steps, Stop))
    && Elems(Components(steps)) == LabScope(r, action, selected)
    && if action == Suspend
       then ConsumersFirst(r.deps, Components(steps)) && ConsumerClosed(r.deps, LabScope(r, action, selected))
       else Order(r.deps, Components(steps), LabScope(r, action, selected))
  }

  lemma WholeScope(r: Registry)
    requires !HasGap(r.deps, Elems(r.ids))
    ensures Closure(r.deps, Elems(r.ids)) == Elems(r.ids) == r.deps.Keys
    ensures ConsumerClosed(r.deps, Elems(r.ids))
  {
    ClosureIsLeast(r.deps, Elems(r.ids));
  }

  /** `dependency_order()`: the whole registry in order. */
  method WholeOrder(r: Registry) returns (res: Result<seq<Id>>)
    ensures res.Planned? ==> Order(r.deps, res.value, r.deps.Keys) && !HasGap(r.deps, Elems(r.ids))
    ensures res.Rejected? ==> RegistryFault(res.error) && !r.Sound()
  {
    res := OrderFor(r, []);
    if res.Planned? {
      WholeScope(r);
    }
  }

  /** The scope of a suspend: everything, or one component with its transitive consumers. */
  method SuspendScope(r: Registry, selected: Option<Id>) returns (res: Result<set<Id>>)
    requires selected.Some? ==> selected.value in r.deps
    ensures res.Planned? ==> res.value == LabScope(r, Suspend, selected) <= r.deps.Keys
    ensures res.Planned? ==> ConsumerClosed(r.deps, res.value)
    ensures res.Rejected? ==> RegistryFault(res.error) && !r.Sound()
  {
    if selected.Some? {
      ConsumersIsLeast(r.deps, selected.value);
      res := SuspendSelection(r, selected.value);
    } else {
      var order := WholeOrder(r);
      if order.Rejected? {
        return Rejected(order.error);
      }
      WholeScope(r);
      return Planned(Elems(order.value));
    }
  }

  /** The suspend branch of `_lab_steps`: consumers before dependencies, over a consumer-closed scope. */
  method SuspendSteps(r: Registry, b: Bounds, selected: Option<Id>) returns (res: Result<seq<Step>>)
    requires selected.Some? ==> selected.value in r.deps
    ensures res.Planned? ==> LabPlan(r, b, Suspend, selected, res.value)
    ensures res != Rejected(DependencyBlocked)
    ensures r.Sound() ==> (res.Planned? <==> AllDeclared(r, Stop, LabScope(r, Suspend, selected)))
  {
    var scope := SuspendScope(r, selected);
    if scope.Rejected? {
      return Rejected(scope.error);
    }
    var order := WholeOrder(r);
    if order.Rejected? {
      return Rejected(order.error);
    }
    res := ReversedSteps(r, b, Stop, order.value, scope.value);
  }

  /** The deploy and start branch of `_lab_steps`. */
  method BringUpSteps(r: Registry, b: Bounds, action: LabAction, selected: Option<Id>)
    returns (res: Result<seq<Step>>)
    requires action != Suspend
    requires selected.Some? ==> selected.value in r.deps
    ensures res.Planned? ==> LabPlan(r, b, action, selected, res.value)
    ensures res != Rejected(DependencyBlocked)
    ensures r.Sound() ==> (res.Planned? <==> AllDeclared(r, LabOperation(action), LabScope(r, action, selected)))
  {
    var requested;
    if selected.Some? {
      requested := [selected.value];
    } else {
      var order := WholeOrder(r);
      if order.Rejected? {
        return Rejected(order.error);
      }
      WholeScope(r);
      requested := order.value;
    }
    RequestedScope(r, action, selected, requested);
    res := StepsWithDependencies(r, b, LabOperation(action), requested);
    if res.Planned? {
      StepsForComponents(r, b, LabOperation(action), Components(res.value), res.value);
    }
  }

  /** `_lab_steps`: a safe plan over exactly the action's scope, whenever every member declares the operation. */
  method LabSteps(r: Registry, b: Bounds, action: LabAction, selected: Option<Id>)
    returns (res: Result<seq<Step>>)
    ensures res.Planned? ==> LabPlan(r, b, action, selected, res.value)
    ensures res != Rejected(DependencyBlocked)
    ensures selected.Some? && selected.value !in r.ids ==> res == Rejected(RegistryGap(selected.value))
    ensures r.Sound() && (selected.Some? ==> selected.value in r.ids) ==>
      (res.Planned? <==> AllDeclared(r, LabOperation(action), LabScope(r, action, selected)))
  {
    assert forall u :: u in r.deps <==> u in Elems(r.ids);
    if selected.Some? && selected.value !in r.deps {
      res := Rejected(RegistryGap(selected.value));
    } else if action == Suspend {
      res := SuspendSteps(r, b, selected);
    } else {
      res := BringUpSteps(r, b, action, selected);
    }
  }

  lemma RequestedScope(r: Registry, action: LabAction, selected: Option<Id>, requested: seq<Id>)
    requires action != Suspend
    requires selected.Some? ==> requested == [selected.value]
    requires selected.None? ==> Elems(requested) == Closure(r.deps, Elems(r.ids)) == Elems(r.ids)
    ensures Closure(r.deps, r.Roots(requested)) == LabScope(r, action, selected)
    ensures r.Roots(requested) <= Elems(r.ids) || selected.Some?
  {
    if selected.None? && requested == [] {
      assert r.Roots(requested) == Elems(r.ids);
    } else if selected.Some? {
      assert Elems(requested) == {selected.value};
    }
  }
}
