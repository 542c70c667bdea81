/**
 The component registry and its dependency order (manager/component_registry.py): a recursive closure followed by
 Kahn's topological sort over mutable in-degrees.
 */
module ComponentRegistry {
  import opened Sequences
  import opened Graph

  datatype Operation = Install | Configure | Start | Upgrade | Stop | Uninstall | DeleteData | Restart

  /** A declared lifecycle capability of one component. */
  datatype Capability = Capability(timeoutSeconds: int, verify: seq<string>, idempotent: bool)

  /** The registry document: identifiers in declaration order, their dependencies and capabilities. */
  datatype RawRegistry = RawRegistry(ids: seq<Id>, deps: Deps, operations: map<Id, map<Operation, Capability>>) {
    ghost predicate WellFormed() {
      NoDup(ids) && deps.Keys == Elems(ids) && operations.Keys == Elems(ids)
    }

    /** The identifiers a selection stands for: an empty one means the whole registry. */
    function Roots(selected: seq<Id>): set<Id> {
      if selected == [] then Elems(ids) else Elems(selected)
    }

    /** What `registry_validation.validate_registry` accepts: no gap and no cycle. */
    ghost predicate Sound() {
      !HasGap(deps, Elems(ids)) && !Cyclic(deps, Elems(ids))
    }
  }

  type Registry = r: RawRegistry | r.WellFormed() witness RawRegistry([], map[], map[])

  datatype OrderResult =
    | Ordered(order: seq<Id>)
    | UnknownComponent(id: Id)
    | DependencyCycle(ids: set<Id>)

  /** Number of entries of a dependency list, with multiplicity, that are not in `done`. */
  ghost function Pending(ds: seq<Id>, done: set<Id>): nat {
    if ds == [] then 0 else (if ds[0] in done then 0 else 1) + Pending(ds[1..], done)
  }

  lemma {:induction false} PendingMeans(ds: seq<Id>, done: set<Id>)
    ensures Pending(ds, done) == 0 <==> Elems(ds) <= done
    ensures done == {} ==> Pending(ds, done) == |ds|
  {
    if ds != [] {
      PendingMeans(ds[1..], done);
      assert ds == [ds[0]] + ds[1..];
      assert Elems(ds) == {ds[0]} + Elems(ds[1..]);
    }
  }

  /** Finishing `d` settles each of its occurrences at once. */
  lemma {:induction false} PendingAfter(ds: seq<Id>, done: set<Id>, d: Id)
    requires d !in done
    ensures Pending(ds, done + {d}) + multiset(ds)[d] == Pending(ds, done)
  {
    if ds != [] {
      PendingAfter(ds[1..], done, d);
      assert ds == [ds[0]] + ds[1..];
    }
  }

  /** The members `include` added bring their dependencies along, all reached from `id`. */
  ghost predicate Grown(g: Deps, id: Id, closure: set<Id>, out: set<Id>, except: set<Id>) {
    && closure <= out <= g.Keys
    && (forall c, d :: c in out - closure - except && d in g[c] ==> d in out)
    && (forall x :: x in out - closure ==> Reaches(g, id, x))
  }

  /** Including one dependency after another keeps what was added before closed and reached. */
  lemma GrownNext(g: Deps, id: Id, dependency: Id, closure: set<Id>, before: set<Id>, after: set<Id>)
    requires id in g && dependency in g[id]
    requires Grown(g, id, closure, before, {id}) && Grown(g, dependency, before, after, {})
    ensures Grown(g, id, closure, after, {id})
  {
    forall x | x in after - closure
      ensures Reaches(g, id, x)
    {
      if x !in before {
        ReachesFirst(g, id, dependency, x);
      }
    }
  }

  /** The nested `include`: add `id` and everything it reaches, or report the first unknown identifier met. */
  method Include(r: Registry, id: Id, closure: set<Id>) returns (unknown: Option<Id>, out: set<Id>)
    requires closure <= r.deps.Keys
    ensures closure <= out <= r.deps.Keys
    ensures unknown.None? ==> id in out && Grown(r.deps, id, closure, out, {})
    ensures unknown.Some? ==> unknown.value !in r.deps && Reaches(r.deps, id, unknown.value)
    decreases r.deps.Keys - closure
  {
    ReachesSelf(r.deps, id);
    if id !in r.deps {
      return Some(id), closure;
    }
    if id in closure {
      return None, closure;
    }
    out := closure + {id};
    var dependencies := r.deps[id];
    for i := 0 to |dependencies|
      invariant id in out && Grown(r.deps, id, closure, out, {id})
      invariant forall j :: 0 <= j < i ==> dependencies[j] in out
    {
      var before := out;
      unknown, out := Include(r, dependencies[i], before);
      if unknown.Some? {
        ReachesFirst(r.deps, id, dependencies[i], unknown.value);
        return;
      }
      GrownNext(r.deps, id, dependencies[i], closure, before, out);
    }
    unknown := None;
  }

  /** What collecting keeps, with `rest` of the selection still to do. */
  ghost predicate Collecting(g: Deps, requested: set<Id>, rest: set<Id>, closure: set<Id>) {
    && rest <= requested && requested - rest <= closure <= g.Keys
    && Closed(g, closure)
    && forall x :: x in closure ==> ReachedFrom(g, requested, x)
  }

  lemma CollectNext(g: Deps, requested: set<Id>, rest: set<Id>, before: set<Id>, after: set<Id>, id: Id)
    requires Collecting(g, requested, rest, before) && id in rest && id in after
    requires Grown(g, id, before, after, {})
    ensures Collecting(g, requested, rest - {id}, after)
  {
    forall x | x in after
      ensures ReachedFrom(g, requested, x)
    {
      assert x in before || Reaches(g, id, x);
    }
  }

  /** The first phase of `dependency_order`: the closure of the requested components. */
  method CollectClosure(r: Registry, requested: set<Id>) returns (unknown: Option<Id>, closure: set<Id>)
    ensures unknown.None? ==> closure == Closure(r.deps, requested) && !HasGap(r.deps, requested)
    ensures unknown.Some? ==> unknown.value !in r.deps && ReachedFrom(r.deps, requested, unknown.value)
  {
    closure := {};
    var rest := requested;
    while rest != {}
      invariant Collecting(r.deps, requested, rest, closure)
      decreases rest
    {
      var id :| id in rest;
      var before := closure;
      unknown, closure := Include(r, id, before);
      if unknown.Some? {
        return;
      }
      CollectNext(r.deps, requested, rest, before, closure, id);
      rest := rest - {id};
    }
    unknown := None;
    ClosureUnique(r.deps, requested, closure);
  }

  type InDegree = map<Id, nat>
  type Consumers = map<Id, seq<Id>>

  /** How many times `c` occurs among the recorded consumers of `d`. */
  ghost function Edges(consumers: Consumers, d: Id, c: Id): nat
    requires d in consumers
  {
    multiset(consumers[d])[c]
  }

  /** The bookkeeping Kahn's algorithm starts from; both sides count duplicates. */
  ghost predicate Counted(g: Deps, closure: set<Id>, todo: set<Id>, indegree: InDegree, consumers: Consumers) {
    && indegree.Keys == consumers.Keys == closure <= g.Keys
    && (forall c :: c in closure ==> indegree[c] == if c in todo then 0 else |g[c]|)
    && (forall d, c :: d in closure ==>
          Edges(consumers, d, c) == if c in closure - todo then multiset(g[c])[d] else 0)
  }

  method CountComponent(c: Id, ds: seq<Id>, indegree0: InDegree, consumers0: Consumers)
    returns (indegree: InDegree, consumers: Consumers)
    requires c in indegree0 && indegree0[c] == 0
    requires Elems(ds) <= consumers0.Keys
    ensures indegree == indegree0[c := |ds|]
    ensures consumers.Keys == consumers0.Keys
    ensures forall d, x :: d in consumers ==>
      Edges(consumers, d, x) == Edges(consumers0, d, x) + if x == c then multiset(ds)[d] else 0
  {
    indegree, consumers := indegree0, consumers0;
    for i := 0 to |ds|
      invariant indegree == indegree0[c := i]
      invariant consumers.Keys == consumers0.Keys
      invariant forall d, x :: d in consumers ==>
        Edges(consumers, d, x) == Edges(consumers0, d, x) + if x == c then multiset(ds[..i])[d] else 0
    {
      var d := ds[i];
      assert d in Elems(ds);
      assert ds[..i + 1] == ds[..i] + [d];
      indegree := indegree[c := indegree[c] + 1];
      consumers := consumers[d := consumers[d] + [c]];
    }
    assert ds[..|ds|] == ds;
  }

  method CountEdges(r: Registry, closure: set<Id>) returns (indegree: InDegree, consumers: Consumers)
    requires closure <= r.deps.Keys && Closed(r.deps, closure)
    ensures Counted(r.deps, closure, {}, indegree, consumers)
  {
    indegree := map c | c in closure :: 0;
    consumers := map c | c in closure :: [];
    var todo := closure;
    while todo != {}
      invariant todo <= closure
      invariant Counted(r.deps, closure, todo, indegree, consumers)
      decreases todo
    {
      var c :| c in todo;
      assert Elems(r.deps[c]) <= closure;
      indegree, consumers := CountComponent(c, r.deps[c], indegree, consumers);
      todo := todo - {c};
    }
  }

  /** Components of `ids` whose in-degree is zero, in declaration order. */
  function InitiallyReady(ids: seq<Id>, indegree: InDegree): (ready: seq<Id>)
    ensures forall x :: x in ready <==> x in ids && x in indegree && indegree[x] == 0
    ensures NoDup(ids) ==> NoDup(ready)
  {
    if ids == [] then []
    else
      (if ids[0] in indegree && indegree[ids[0]] == 0 then [ids[0]] else []) + InitiallyReady(ids[1..], indegree)
  }

  /** The ready queue and the finished list hold, together and once each, exactly the nodes of in-degree zero. */
  ghost predicate Split(closure: set<Id>, indegree: InDegree, taken: seq<Id>) {
    && indegree.Keys == closure
    && NoDup(taken)
    && forall c :: c in taken <==> c in closure && indegree[c] == 0
  }

  /** The in-degrees once the components in `done` are finished. */
  ghost function PendingMap(g: Deps, closure: set<Id>, done: set<Id>): InDegree
    requires closure <= g.Keys
  {
    map c | c in closure :: Pending(g[c], done)
  }

  /** Each component of `ordered` comes after all its dependencies. */
  ghost predicate DependenciesFirst(g: Deps, ordered: seq<Id>) {
    forall i, d :: 0 <= i < |ordered| && ordered[i] in g && d in g[ordered[i]] ==> d in ordered[..i]
  }

  /** What every iteration of the drain loop keeps. */
  ghost predicate Draining(g: Deps, closure: set<Id>, indegree: InDegree, ordered: seq<Id>, ready: seq<Id>) {
    && closure <= g.Keys
    && Split(closure, indegree, ordered + ready)
    && indegree == PendingMap(g, closure, Elems(ordered))
    && DependenciesFirst(g, ordered)
  }

  /** Lowering a positive in-degree moves its node into the taken list exactly when it reaches zero. */
  lemma SplitLower(closure: set<Id>, indegree: InDegree, taken: seq<Id>, c: Id)
    requires Split(closure, indegree, taken) && c in closure && indegree[c] > 0
    ensures indegree[c] > 1 ==> Split(closure, indegree[c := indegree[c] - 1], taken)
    ensures indegree[c] == 1 ==> Split(closure, indegree[c := 0], taken + [c])
  {
  }

  /** After `k` decrements, what is left to subtract is what the rest of the consumer list holds. */
  ghost predicate Balanced(closure: set<Id>, indegree: InDegree, final: InDegree, rest: multiset<Id>) {
    && indegree.Keys == final.Keys == closure
    && forall c :: c in closure ==> indegree[c] == final[c] + rest[c]
  }

  /** One decrement: it is one of those still owed, and its consumer is ready exactly when nothing else is pending. */
  lemma LowerNext(final: InDegree, closure: set<Id>, consumers: seq<Id>, k: nat, taken: seq<Id>, indegree: InDegree)
    requires k < |consumers| && consumers[k] in closure
    requires Split(closure, indegree, taken) && Balanced(closure, indegree, final, multiset(consumers[k..]))
    ensures var c := consumers[k];
      && indegree[c] > 0
      && Balanced(closure, indegree[c := indegree[c] - 1], final, multiset(consumers[k + 1..]))
      && (indegree[c] > 1 ==> Split(closure, indegree[c := indegree[c] - 1], taken))
      && (indegree[c] == 1 ==> Split(closure, indegree[c := 0], taken + [c]))
  {
    var c := consumers[k];
    assert consumers[k..] == [c] + consumers[k + 1..];
    assert multiset(consumers[k..]) == multiset{c} + multiset(consumers[k + 1..]);
    SplitLower(closure, indegree, taken, c);
  }

  /** The inner loop: lower the in-degree of each consumer of the component just taken. */
  method Release(ghost final: InDegree, closure: set<Id>, consumers: seq<Id>,
                 ghost taken: seq<Id>, ready0: seq<Id>, indegree0: InDegree)
    returns (ready: seq<Id>, indegree: InDegree)
    requires Split(closure, indegree0, taken + ready0)
    requires forall c :: c in consumers ==> c in closure
    requires Balanced(closure, indegree0, final, multiset(consumers))
    ensures Split(closure, indegree, taken + ready)
    ensures indegree == final
  {
    ready, indegree := ready0, indegree0;
    assert consumers[0..] == consumers;
    for k := 0 to |consumers|
      invariant Split(closure, indegree, taken + ready)
      invariant Balanced(closure, indegree, final, multiset(consumers[k..]))
    {
      var consumer := consumers[k];
      LowerNext(final, closure, consumers, k, taken + ready, indegree);
      indegree := indegree[consumer := indegree[consumer] - 1];
      if indegree[consumer] == 0 {
        Associative(taken, ready, [consumer]);
        ready := ready + [consumer];
      }
    }
    assert consumers[|consumers|..] == [];
  }

  /** Taking the head of the queue: all its dependencies are finished. */
  lemma TakeReady(g: Deps, closure: set<Id>, indegree: InDegree, ordered: seq<Id>, ready: seq<Id>)
    requires ready != [] && Draining(g, closure, indegree, ordered, ready)
    ensures ready[0] in closure && ready[0] !in ordered
    ensures Split(closure, indegree, (ordered + [ready[0]]) + ready[1..])
    ensures DependenciesFirst(g, ordered + [ready[0]])
  {
    var all := ordered + ready;
    assert all[|ordered|] == ready[0];
    assert ready[0] in all;
    assert (ordered + [ready[0]]) + ready[1..] == all;
    forall i | 0 <= i < |ordered|
      ensures ordered[i] != ready[0]
    {
      assert all[i] == ordered[i];
    }
    PendingMeans(g[ready[0]], Elems(ordered));
    var next := ordered + [ready[0]];
    forall i, d | 0 <= i < |next| && next[i] in g && d in g[next[i]]
      ensures d in next[..i]
    {
      assert next[..i] == ordered[..i];
      if i == |ordered| {
        assert d in Elems(g[ready[0]]);
        assert ordered[..i] == ordered;
      }
    }
  }

  /** The decrements of the inner loop turn the old in-degrees into the new ones. */
  lemma ReleaseBalance(g: Deps, closure: set<Id>, indegree0: InDegree, consumers: Consumers, ordered: seq<Id>, d: Id)
    requires Counted(g, closure, {}, indegree0, consumers)
    requires d in closure && d !in ordered
    ensures Elems(ordered + [d]) == Elems(ordered) + {d}
    ensures forall c :: c in consumers[d] ==> c in closure
    ensures forall c :: c in closure ==>
      Pending(g[c], Elems(ordered)) == Pending(g[c], Elems(ordered + [d])) + multiset(consumers[d])[c]
  {
    assert Elems(ordered + [d]) == Elems(ordered) + {d};
    forall c | c in closure
      ensures Pending(g[c], Elems(ordered)) == Pending(g[c], Elems(ordered + [d])) + multiset(consumers[d])[c]
    {
      PendingAfter(g[c], Elems(ordered), d);
      assert Edges(consumers, d, c) == multiset(g[c])[d];
    }
    forall c | c in consumers[d]
      ensures c in closure
    {
      assert Edges(consumers, d, c) > 0;
    }
  }

  lemma DrainStart(r: Registry, closure: set<Id>, indegree: InDegree, consumers: Consumers)
    requires Counted(r.deps, closure, {}, indegree, consumers)
    ensures Draining(r.deps, closure, indegree, [], InitiallyReady(r.ids, indegree))
  {
    forall c | c in closure
      ensures indegree[c] == Pending(r.deps[c], {})
    {
      PendingMeans(r.deps[c], {});
    }
    assert Elems<Id>([]) == {};
    assert [] + InitiallyReady(r.ids, indegree) == InitiallyReady(r.ids, indegree);
    forall c | c in closure
      ensures c in r.ids
    {
      assert c in Elems(r.ids);
    }
  }

  /** The drain loop of Kahn's algorithm. */
  method Drain(r: Registry, closure: set<Id>, indegree0: InDegree, consumers: Consumers)
    returns (ordered: seq<Id>, indegree: InDegree)
    requires Counted(r.deps, closure, {}, indegree0, consumers)
    ensures Draining(r.deps, closure, indegree, ordered, [])
  {
    indegree := indegree0;
    var ready := InitiallyReady(r.ids, indegree);
    ordered := [];
    DrainStart(r, closure, indegree, consumers);
    while ready != []
      invariant Draining(r.deps, closure, indegree, ordered, ready)
      decreases closure - Elems(ordered)
    {
      var dependency := ready[0];
      TakeReady(r.deps, closure, indegree, ordered, ready);
      ReleaseBalance(r.deps, closure, indegree0, consumers, ordered, dependency);
      ordered := ordered + [dependency];
      ready, indegree :=
        Release(PendingMap(r.deps, closure, Elems(ordered)), closure, consumers[dependency], ordered, ready[1..],
                indegree);
    }
  }

  /** With nothing left to drain, the leftover nodes are the greatest self-dependent set. */
  lemma LeftoverIsCore(g: Deps, closure: set<Id>, indegree: InDegree, ordered: seq<Id>)
    requires Closed(g, closure) && Draining(g, closure, indegree, ordered, [])
    ensures Elems(ordered) <= closure
    ensures Order(g, ordered, Elems(ordered))
    ensures GreatestSelfDependent(g, closure, closure - Elems(ordered))
    ensures closure - Elems(ordered) == set c | c in indegree.Keys && indegree[c] > 0
  {
    assert ordered + [] == ordered;
    var core := closure - Elems(ordered);
    forall c | c in core
      ensures DependsInto(g, c, core)
    {
      PendingMeans(g[c], Elems(ordered));
      var d :| d in Elems(g[c]) && d !in Elems(ordered);
    }
    forall u: set<Id> | u <= closure && SelfDependent(g, u)
      ensures u <= core
    {
      forall i | 0 <= i < |ordered|
        ensures ordered[i] !in u
      {
        NotSelfDependent(g, ordered, u, i);
      }
    }
  }

  lemma {:induction false} NotSelfDependent(g: Deps, ordered: seq<Id>, u: set<Id>, i: nat)
    requires i < |ordered| && SelfDependent(g, u) && DependenciesFirst(g, ordered)
    ensures ordered[i] !in u
  {
    if ordered[i] in u {
      assert DependsInto(g, ordered[i], u);
      var d :| d in g[ordered[i]] && d in u;
      var j :| 0 <= j < i && ordered[..i][j] == d;
      NotSelfDependent(g, ordered, u, j);
      assert false;
    }
  }

  /** Counting is enough to see whether everything was ordered. */
  lemma CountDecides(ordered: seq<Id>, closure: set<Id>)
    requires NoDup(ordered) && Elems(ordered) <= closure
    ensures |ordered| == |closure| <==> Elems(ordered) == closure
    ensures |ordered| != |closure| ==> closure - Elems(ordered) != {}
  {
    ElemsCardinality(ordered);
    SubsetCardinality(Elems(ordered), closure);
    assert Elems(ordered) + (closure - Elems(ordered)) == closure;
  }

  /** The second phase of `dependency_order`: sort a closed set of components or report its cycles. */
  method Sort(r: Registry, closure: set<Id>) returns (res: OrderResult)
    requires closure <= r.deps.Keys && Closed(r.deps, closure)
    ensures !res.UnknownComponent?
    ensures res.Ordered? ==> Order(r.deps, res.order, closure)
    ensures res.DependencyCycle? ==> res.ids != {} && GreatestSelfDependent(r.deps, closure, res.ids)
  {
    var indegree, consumers := CountEdges(r, closure);
    var ordered;
    ordered, indegree := Drain(r, closure, indegree, consumers);
    LeftoverIsCore(r.deps, closure, indegree, ordered);
    CountDecides(ordered, closure);
    if |ordered| != |closure| {
      res := DependencyCycle(set c | c in indegree.Keys && indegree[c] > 0);
    } else {
      res := Ordered(ordered);
    }
  }

  lemma CoreIsCyclic(g: Deps, closure: set<Id>, core: set<Id>)
    requires core != {} && GreatestSelfDependent(g, closure, core)
    ensures Cyclic(g, closure)
  {
    SelfDependentIsCyclic(g, core);
    var p :| CycleIn(g, core, p);
    assert CycleIn(g, closure, p);
  }

  /** What `dependency_order` promises for a selection. */
  ghost predicate OrderSpec(r: Registry, roots: set<Id>, res: OrderResult) {
    match res
    case Ordered(order) => Order(r.deps, order, Closure(r.deps, roots))
    case UnknownComponent(u) => u !in r.deps && ReachedFrom(r.deps, roots, u)
    case DependencyCycle(ids) =>
      ids != {} && GreatestSelfDependent(r.deps, Closure(r.deps, roots), ids)
  }

  /** `dependency_order`: the three outcomes, each with the exact condition under which it happens. */
  method DependencyOrder(r: Registry, selected: seq<Id>) returns (res: OrderResult)
    ensures OrderSpec(r, r.Roots(selected), res)
    ensures res.UnknownComponent? <==> HasGap(r.deps, r.Roots(selected))
    ensures res.DependencyCycle? <==>
      !HasGap(r.deps, r.Roots(selected)) && Cyclic(r.deps, Closure(r.deps, r.Roots(selected)))
  {
    var requested := r.Roots(selected);
    var unknown, closure := CollectClosure(r, requested);
    if unknown.Some? {
      return UnknownComponent(unknown.value);
    }
    ClosureIsLeast(r.deps, requested);
    res := Sort(r, closure);
    if res.Ordered? {
      OrderIsAcyclic(r.deps, res.order, closure);
    } else {
      CoreIsCyclic(r.deps, closure, res.ids);
    }
  }
}
