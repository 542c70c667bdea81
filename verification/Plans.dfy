/**
 Steps and plans: what makes a sequence of steps safe to run, and which orders do.
 */
module Plans {
  import opened Sequences
  import opened Graph
  import opened ComponentRegistry

  datatype Step = Step(component: Id, operation: Operation, timeoutSeconds: real,
                       verify: seq<string>, maxAttempts: nat)

  /** What the events of an operation name a step by. */
  type Key = (Id, Operation)

  function KeyOf(step: Step): Key {
    (step.component, step.operation)
  }

  /** The engine's bounds; its constructor rejects any that are not positive. */
  datatype RawBounds = RawBounds(maxAttempts: nat, maxStepTimeout: real)
  type Bounds = b: RawBounds | b.maxAttempts >= 1 && b.maxStepTimeout > 0.0 witness RawBounds(2, 3600.0)

  datatype PlanError =
    | RegistryGap(id: Id)
    | RegistryCycle(ids: set<Id>)
    | DependencyBlocked
    | NotDeclared(component: Id)
    | UnboundedTimeout(component: Id)

  datatype Result<+T> = Planned(value: T) | Rejected(error: PlanError)

  predicate Raises(op: Operation) {
    op in {Install, Configure, Start, Upgrade}
  }

  predicate Lowers(op: Operation) {
    op in {Stop, Uninstall, DeleteData}
  }

  function Components(steps: seq<Step>): (r: seq<Id>)
    ensures |r| == |steps|
  {
    seq(|steps|, i requires 0 <= i < |steps| => steps[i].component)
  }

  /** Every consumer of a member, however indirect, is a member. */
  ghost predicate ConsumerClosed(g: Deps, s: set<Id>) {
    forall u, c :: u in g && c in s && Reaches(g, u, c) ==> u in s
  }

  /** The consumers of `c` in the registry, `c` included. */
  ghost function ConsumersOf(g: Deps, c: Id): set<Id> {
    set u | u in g.Keys && Reaches(g, u, c)
  }

  /** The latest of the first `k` steps that touches `c` raises it (`up`) or lowers it. */
  ghost predicate LastEffect(steps: seq<Step>, k: nat, c: Id, up: bool)
    requires k <= |steps|
  {
    exists i :: EffectAt(steps, k, c, up, i)
  }

  ghost predicate EffectAt(steps: seq<Step>, k: nat, c: Id, up: bool, i: int)
    requires k <= |steps|
  {
    && 0 <= i < k
    && steps[i].component == c
    && (if up then Raises(steps[i].operation) else Lowers(steps[i].operation))
    && forall j :: i < j < k ==> steps[j].component != c
  }

  /** Step `k` may run once the steps before it have succeeded, whatever was up before the plan. */
  ghost predicate SafeStep(g: Deps, steps: seq<Step>, k: nat)
    requires k < |steps|
  {
    var c := steps[k].component;
    && (Raises(steps[k].operation) || Lowers(steps[k].operation))
    && (Raises(steps[k].operation) ==>
          c in g && forall d :: d in g[c] ==> d != c && LastEffect(steps, k, d, true))
    && (Lowers(steps[k].operation) ==>
          forall u :: u in g && c in g[u] ==> u != c && LastEffect(steps, k, u, false))
  }

  /** A plan that establishes by itself everything each of its steps relies on. */
  ghost predicate SafePlan(g: Deps, steps: seq<Step>) {
    forall k :: 0 <= k < |steps| ==> SafeStep(g, steps, k)
  }

  /** `s` lists its members once each, every consumer before its dependencies. */
  ghost predicate ConsumersFirst(g: Deps, s: seq<Id>) {
    && NoDup(s)
    && forall k, u :: 0 <= k < |s| && u in g && s[k] in g[u] ==> u in s[..k]
  }

  /** All steps carry one operation. */
  ghost predicate Uniform(steps: seq<Step>, op: Operation) {
    forall i :: 0 <= i < |steps| ==> steps[i].operation == op
  }

  lemma InPrefix(steps: seq<Step>, k: nat, c: Id) returns (i: nat)
    requires k <= |steps| && c in Components(steps)[..k]
    ensures i < k && steps[i].component == c
  {
    i :| 0 <= i < k && Components(steps)[..k][i] == c;
  }

  lemma UniformEffect(steps: seq<Step>, op: Operation, k: nat, c: Id)
    requires Uniform(steps, op) && NoDup(Components(steps)) && k <= |steps|
    requires c in Components(steps)[..k]
    ensures Raises(op) ==> LastEffect(steps, k, c, true)
    ensures Lowers(op) ==> LastEffect(steps, k, c, false)
  {
    var i := InPrefix(steps, k, c);
    forall j | i < j < k
      ensures steps[j].component != c
    {
      assert Components(steps)[i] != Components(steps)[j];
    }
    assert Raises(op) ==> EffectAt(steps, k, c, true, i);
    assert Lowers(op) ==> EffectAt(steps, k, c, false, i);
  }

  /** Dependencies first makes a raising plan safe. */
  lemma RaisingPlanIsSafe(g: Deps, steps: seq<Step>, op: Operation, s: set<Id>)
    requires Raises(op) && Uniform(steps, op) && Order(g, Components(steps), s)
    ensures SafePlan(g, steps)
  {
    var o := Components(steps);
    forall k | 0 <= k < |steps|
      ensures SafeStep(g, steps, k)
    {
      var c := steps[k].component;
      assert o[k] == c && c in Elems(o);
      forall d | d in g[c]
        ensures d != c && LastEffect(steps, k, d, true)
      {
        assert d in o[..k];
        UniformEffect(steps, op, k, d);
        var i := InPrefix(steps, k, d);
        assert o[i] != o[k];
      }
    }
  }

  /** Consumers first, over a consumer-closed set, makes a lowering plan safe. */
  lemma LoweringPlanIsSafe(g: Deps, steps: seq<Step>, op: Operation)
    requires Lowers(op) && Uniform(steps, op) && ConsumersFirst(g, Components(steps))
    ensures SafePlan(g, steps)
  {
    var o := Components(steps);
    forall k | 0 <= k < |steps|
      ensures SafeStep(g, steps, k)
    {
      var c := steps[k].component;
      assert o[k] == c;
      forall u | u in g && c in g[u]
        ensures u != c && LastEffect(steps, k, u, false)
      {
        assert u in o[..k];
        UniformEffect(steps, op, k, u);
        var i := InPrefix(steps, k, u);
        assert o[i] != o[k];
      }
    }
  }

  /** Restart: a safe stop plan followed by a safe start plan is safe. */
  lemma ConcatIsSafe(g: Deps, a: seq<Step>, b: seq<Step>)
    requires SafePlan(g, a) && SafePlan(g, b)
    ensures SafePlan(g, a + b)
  {
    var s := a + b;
    forall k | 0 <= k < |s|
      ensures SafeStep(g, s, k)
    {
      if k < |a| {
        assert SafeStep(g, a, k);
        forall c, up | LastEffect(a, k, c, up)
          ensures LastEffect(s, k, c, up)
        {
          var i :| EffectAt(a, k, c, up, i);
          assert EffectAt(s, k, c, up, i);
        }
      } else {
        assert SafeStep(g, b, k - |a|);
        forall c, up | LastEffect(b, k - |a|, c, up)
          ensures LastEffect(s, k, c, up)
        {
          var i :| EffectAt(b, k - |a|, c, up, i);
          assert EffectAt(s, k, c, up, i + |a|);
        }
      }
    }
  }

  /** Reversing a dependency order and keeping a consumer-closed part of it puts consumers first. */
  lemma ReversedOrder(g: Deps, order: seq<Id>, s: set<Id>, keep: set<Id>)
    requires Order(g, order, s) && keep <= s && ConsumerClosed(g, keep)
    ensures ConsumersFirst(g, Filter(Reverse(order), keep))
    ensures Elems(Filter(Reverse(order), keep)) == keep
  {
    var r := Reverse(order);
    var f := Filter(r, keep);
    forall i, j | 0 <= i < j < |r|
      ensures r[i] != r[j]
    {
      assert r[i] == order[|order| - 1 - i] && r[j] == order[|order| - 1 - j];
    }
    FilterNoDup(r, keep);
    forall x | x in keep
      ensures x in f
    {
      assert x in order;
    }
    forall k, u | 0 <= k < |f| && u in g && f[k] in g[u]
      ensures u in f[..k]
    {
      var c := f[k];
      assert c in f;
      ReachesSelf(g, c);
      ReachesFirst(g, u, c, c);
      assert u in keep;
      assert u in order;
      var j :| 0 <= j < |order| && order[j] == u;
      assert c in order[..j];
      var i :| 0 <= i < j && order[..j][i] == c;
      assert Before(order, c, u);
      BeforeReverse(order, c, u);
      BeforeFilter(r, keep, u, c);
      BeforeAt(f, u, k);
    }
  }

  /** The consumers of one component form the least consumer-closed set that contains it. */
  lemma ConsumersIsLeast(g: Deps, c: Id)
    requires c in g
    ensures c in ConsumersOf(g, c) && ConsumerClosed(g, ConsumersOf(g, c))
    ensures forall s: set<Id> :: c in s && ConsumerClosed(g, s) ==> ConsumersOf(g, c) <= s
  {
    ReachesSelf(g, c);
    forall u, x | u in g && x in ConsumersOf(g, c) && Reaches(g, u, x)
      ensures u in ConsumersOf(g, c)
    {
      ReachesTransitive(g, u, x, c);
    }
  }
}
