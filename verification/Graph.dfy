/**
 The dependency graph of the component registry: closed sets, reachability, cycles, and what an order of a set of
 components means.
 */
module Graph {
  import opened Sequences

  type Id = string
  type Deps = map<Id, seq<Id>>

  /** `s` contains the dependencies of each of its known members. */
  ghost predicate Closed(g: Deps, s: set<Id>) {
    forall c, d :: c in s && c in g && d in g[c] ==> d in s
  }

  /** Each element of `p` depends on the next one. */
  ghost predicate Path(g: Deps, p: seq<Id>) {
    && |p| > 0
    && forall i :: 0 <= i < |p| - 1 ==> p[i] in g && p[i + 1] in g[p[i]]
  }

  ghost predicate PathBetween(g: Deps, a: Id, b: Id, p: seq<Id>) {
    Path(g, p) && p[0] == a && p[|p| - 1] == b
  }

  ghost predicate Reaches(g: Deps, a: Id, b: Id) {
    exists p :: PathBetween(g, a, b, p)
  }

  ghost predicate ReachedFrom(g: Deps, roots: set<Id>, x: Id) {
    exists a :: a in roots && Reaches(g, a, x)
  }

  /** The known components that a selection reaches. */
  ghost function Closure(g: Deps, roots: set<Id>): set<Id> {
    set x | x in g.Keys && ReachedFrom(g, roots, x)
  }

  /** The selection reaches an identifier that the registry does not define. */
  ghost predicate HasGap(g: Deps, roots: set<Id>) {
    exists u :: u !in g && ReachedFrom(g, roots, u)
  }

  /** `p` leaves a member of `s` and comes back to it. */
  ghost predicate CycleIn(g: Deps, s: set<Id>, p: seq<Id>) {
    Path(g, p) && |p| >= 2 && p[0] == p[|p| - 1] && Elems(p) <= s
  }

  ghost predicate Cyclic(g: Deps, s: set<Id>) {
    exists p :: CycleIn(g, s, p)
  }

  /** `o` lists exactly `s`, once each, with every dependency before its consumers. */
  ghost predicate Order(g: Deps, o: seq<Id>, s: set<Id>) {
    && NoDup(o)
    && Elems(o) == s
    && s <= g.Keys
    && forall i, d :: 0 <= i < |o| && d in g[o[i]] ==> d in o[..i]
  }

  ghost predicate DependsInto(g: Deps, c: Id, s: set<Id>) {
    c in g && exists d :: d in g[c] && d in s
  }

  /** Every member of `s` depends on a member of `s`. */
  ghost predicate SelfDependent(g: Deps, s: set<Id>) {
    forall c {:trigger DependsInto(g, c, s)} :: c in s ==> DependsInto(g, c, s)
  }

  /** The greatest self-dependent subset of `s`. */
  ghost predicate GreatestSelfDependent(g: Deps, s: set<Id>, core: set<Id>) {
    && core <= s
    && SelfDependent(g, core)
    && forall u: set<Id> :: u <= s && SelfDependent(g, u) ==> u <= core
  }

  lemma ReachesSelf(g: Deps, a: Id)
    ensures Reaches(g, a, a)
  {
    assert PathBetween(g, a, a, [a]);
  }

  lemma ReachesStep(g: Deps, a: Id, b: Id, c: Id)
    requires Reaches(g, a, b) && b in g && c in g[b]
    ensures Reaches(g, a, c)
  {
    var p :| PathBetween(g, a, b, p);
    assert PathBetween(g, a, c, p + [c]);
  }

  lemma ReachesFirst(g: Deps, a: Id, b: Id, c: Id)
    requires a in g && b in g[a] && Reaches(g, b, c)
    ensures Reaches(g, a, c)
  {
    var p :| PathBetween(g, b, c, p);
    assert PathBetween(g, a, c, [a] + p);
  }

  lemma ReachesTransitive(g: Deps, a: Id, b: Id, c: Id)
    requires Reaches(g, a, b) && Reaches(g, b, c)
    ensures Reaches(g, a, c)
  {
    var p :| PathBetween(g, a, b, p);
    var q :| PathBetween(g, b, c, q);
    var r := p + q[1..];
    forall i | 0 <= i < |r| - 1
      ensures r[i] in g && r[i + 1] in g[r[i]]
    {
      if i >= |p| - 1 {
        assert r[i] == q[i - (|p| - 1)];
        assert r[i + 1] == q[i + 1 - (|p| - 1)];
      }
    }
    assert PathBetween(g, a, c, r);
  }

  /** A closed set keeps every path that starts in it. */
  lemma {:induction false} ClosedKeepsPath(g: Deps, s: set<Id>, p: seq<Id>, i: nat)
    requires Closed(g, s) && Path(g, p) && p[0] in s && i < |p|
    ensures p[i] in s
  {
    if i > 0 {
      ClosedKeepsPath(g, s, p, i - 1);
    }
  }

  /** The closure is the least dependency-closed set above the selection. */
  lemma ClosureIsLeast(g: Deps, roots: set<Id>)
    requires !HasGap(g, roots)
    ensures roots <= Closure(g, roots) <= g.Keys
    ensures Closed(g, Closure(g, roots))
    ensures forall s: set<Id> :: roots <= s && Closed(g, s) ==> Closure(g, roots) <= s
  {
    forall a | a in roots
      ensures a in Closure(g, roots)
    {
      ReachesSelf(g, a);
      assert ReachedFrom(g, roots, a);
    }
    forall c, d | c in Closure(g, roots) && d in g[c]
      ensures d in Closure(g, roots)
    {
      var a :| a in roots && Reaches(g, a, c);
      ReachesStep(g, a, c, d);
      assert ReachedFrom(g, roots, d);
    }
    forall s: set<Id>, x | roots <= s && Closed(g, s) && x in Closure(g, roots)
      ensures x in s
    {
      ClosedKeepsReached(g, roots, s, x);
    }
  }

  lemma ClosedKeepsReached(g: Deps, roots: set<Id>, s: set<Id>, x: Id)
    requires roots <= s && Closed(g, s) && ReachedFrom(g, roots, x)
    ensures x in s
  {
    var a :| a in roots && Reaches(g, a, x);
    var p :| PathBetween(g, a, x, p);
    ClosedKeepsPath(g, s, p, |p| - 1);
  }

  /** A set built by reaching from the selection, closed and containing it, is the closure. */
  lemma ClosureUnique(g: Deps, roots: set<Id>, c: set<Id>)
    requires roots <= c <= g.Keys && Closed(g, c)
    requires forall x :: x in c ==> ReachedFrom(g, roots, x)
    ensures c == Closure(g, roots) && !HasGap(g, roots)
  {
    forall x | ReachedFrom(g, roots, x)
      ensures x in c
    {
      ClosedKeepsReached(g, roots, c, x);
    }
  }

  /** In an ordered set, dependencies lead strictly to the left. */
  lemma {:induction false} PathGoesLeft(g: Deps, o: seq<Id>, s: set<Id>, p: seq<Id>, k: nat) returns (i: nat, j: nat)
    requires Order(g, o, s) && Path(g, p) && p[0] in s && k < |p|
    ensures i < |o| && j < |o| && o[i] == p[0] && o[j] == p[k]
    ensures if k == 0 then i == j else j < i
  {
    if k == 0 {
      assert p[0] in o;
      i :| 0 <= i < |o| && o[i] == p[0];
      j := i;
    } else {
      var m;
      i, m := PathGoesLeft(g, o, s, p, k - 1);
      assert p[k] in g[p[k - 1]] && p[k] in o[..m];
      j :| 0 <= j < m && o[j] == p[k];
    }
  }

  lemma OrderIsAcyclic(g: Deps, o: seq<Id>, s: set<Id>)
    requires Order(g, o, s)
    ensures !Cyclic(g, s)
  {
    if p :| CycleIn(g, s, p) {
      assert p[0] in Elems(p);
      var i, j := PathGoesLeft(g, o, s, p, |p| - 1);
      assert false;
    }
  }

  /** A walk of any length stays inside a self-dependent set. */
  lemma {:induction false} WalkInside(g: Deps, s: set<Id>, a: Id, n: nat) returns (p: seq<Id>)
    requires SelfDependent(g, s) && a in s
    ensures Path(g, p) && |p| == n + 1 && Elems(p) <= s && p[0] == a
    decreases n
  {
    p := [a];
    if n > 0 {
      assert DependsInto(g, a, s);
      var d :| d in g[a] && d in s;
      var q := WalkInside(g, s, d, n - 1);
      p := [a] + q;
    }
  }

  /** What Kahn's algorithm leaves over contains a cycle: a long enough walk must repeat. */
  lemma SelfDependentIsCyclic(g: Deps, s: set<Id>)
    requires SelfDependent(g, s) && s != {}
    ensures Cyclic(g, s)
  {
    var a :| a in s;
    var p := WalkInside(g, s, a, |s|);
    var i, j := Pigeonhole(p, s);
    var loop := p[i..j + 1];
    forall x | x in loop
      ensures x in s
    {
      assert x in Elems(p);
    }
    assert CycleIn(g, s, loop);
  }
}
