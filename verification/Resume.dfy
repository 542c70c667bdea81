/**
 Event-based resume of clean-install and lab operations (manager/operation_engine.py,
 `retry_async` and `submit_lab_async`): a retry skips what the events of the operation
 it retries say is complete, and carries that set forward as step-resumed events.
 */
module Resume {
  import opened Sequences
  import opened Graph
  import opened ComponentRegistry
  import opened Plans

  /** Whatever depends directly on a member is a member. */
  ghost predicate HoldsConsumers(g: Deps, s: set<Id>) {
    forall u, c :: u in g && c in s && c in g[u] ==> u in s
  }

  // ----- Order independence -----

  /** What a run of a starting plan has finished is dependency-closed, wherever it stopped. */
  lemma PrefixIsClosed(g: Deps, order: seq<Id>, s: set<Id>, k: nat)
    requires Order(g, order, s) && k <= |order|
    ensures Closed(g, Elems(order[..k])) && Elems(order[..k]) <= s
  {
    forall c, d | c in Elems(order[..k]) && c in g && d in g[c]
      ensures d in Elems(order[..k])
    {
      var i :| 0 <= i < k && order[..k][i] == c;
      assert d in order[..i];
      var j :| 0 <= j < i && order[..i][j] == d;
      assert order[..k][j] == d;
    }
  }

  /** What a run of a stopping plan has finished is closed under consumers. */
  lemma PrefixIsConsumerClosed(g: Deps, order: seq<Id>, k: nat)
    requires ConsumersFirst(g, order) && k <= |order|
    ensures HoldsConsumers(g, Elems(order[..k]))
  {
    forall u, c | u in g && c in Elems(order[..k]) && c in g[u]
      ensures u in Elems(order[..k])
    {
      var i :| 0 <= i < k && order[..k][i] == c;
      assert u in order[..i];
      var j :| 0 <= j < i && order[..i][j] == u;
      assert order[..k][j] == u;
    }
  }

  /** The finished part of an order, then the rest of it. */
  function Regrouped<T(!new, ==)>(order: seq<T>, done: set<T>): seq<T> {
    Filter(order, done) + Filter(order, Elems(order) - done)
  }

  lemma RegroupedNoDup<T(!new)>(order: seq<T>, done: set<T>)
    requires NoDup(order)
    ensures NoDup(Regrouped(order, done)) && Elems(Regrouped(order, done)) == Elems(order)
  {
    FilterNoDup(order, done);
    FilterNoDup(order, Elems(order) - done);
    var a, b := Filter(order, done), Filter(order, Elems(order) - done);
    forall i, j | 0 <= i < |a| && 0 <= j < |b|
      ensures a[i] != b[j]
    {
      assert a[i] in a && b[j] in b;
    }
    forall x | x in order
      ensures x in a + b
    {
      assert x in Elems(order);
    }
  }

  /** Something required before `c` keeps its place when the finished part is moved to the front. */
  lemma RegroupedBefore(order: seq<Id>, done: set<Id>, d: Id, k: nat)
    requires NoDup(order) && k < |Regrouped(order, done)|
    requires Before(order, d, Regrouped(order, done)[k])
    requires Regrouped(order, done)[k] in done ==> d in done
    ensures d in Regrouped(order, done)[..k]
  {
    RegroupedNoDup(order, done);
    var rest := Elems(order) - done;
    var a, b := Filter(order, done), Filter(order, rest);
    var r := Regrouped(order, done);
    var c := r[k];
    assert c in r;
    assert d in order;
    if c in done {
      BeforeFilter(order, done, d, c);
      var i, j :| 0 <= i < j < |a| && a[i] == d && a[j] == c;
      assert r[i] == d && r[j] == c;
      BeforeAt(r, d, k);
    } else if d in done {
      assert c in b;
      var i :| 0 <= i < |a| && a[i] == d;
      var j :| 0 <= j < |b| && b[j] == c;
      assert r[i] == d && r[|a| + j] == c;
      BeforeAt(r, d, k);
    } else {
      BeforeFilter(order, rest, d, c);
      var i, j :| 0 <= i < j < |b| && b[i] == d && b[j] == c;
      assert r[|a| + i] == d && r[|a| + j] == c;
      BeforeAt(r, d, k);
    }
  }

  /**
   Whatever valid order the retry computes, skipping a dependency-closed set leaves a valid order:
   each remaining component finds its dependencies among the skipped or earlier remaining ones.
   */
  lemma ResumeKeepsOrder(g: Deps, order: seq<Id>, s: set<Id>, done: set<Id>)
    requires Order(g, order, s) && done <= s && Closed(g, done)
    ensures Order(g, Regrouped(order, done), s)
  {
    RegroupedNoDup(order, done);
    var r := Regrouped(order, done);
    forall i, d | 0 <= i < |r| && d in g[r[i]]
      ensures d in r[..i]
    {
      assert r[i] in Elems(r);
      var m :| 0 <= m < |order| && order[m] == r[i];
      assert d in order[..m];
      var n :| 0 <= n < m && order[..m][n] == d;
      assert Before(order, d, r[i]);
      RegroupedBefore(order, done, d, i);
    }
  }

  /** The same for a suspend: skipping a consumer-closed set leaves consumers before dependencies. */
  lemma ResumeKeepsConsumersFirst(g: Deps, order: seq<Id>, done: set<Id>)
    requires ConsumersFirst(g, order) && done <= Elems(order) && HoldsConsumers(g, done)
    ensures ConsumersFirst(g, Regrouped(order, done))
  {
    RegroupedNoDup(order, done);
    var r := Regrouped(order, done);
    forall k, u | 0 <= k < |r| && u in g && r[k] in g[u]
      ensures u in r[..k]
    {
      assert r[k] in Elems(r);
      var m :| 0 <= m < |order| && order[m] == r[k];
      assert u in order[..m];
      var n :| 0 <= n < m && order[..m][n] == u;
      assert Before(order, u, r[k]);
      RegroupedBefore(order, done, u, k);
    }
  }

  /**
   Resume does not look at the components it skips. Running the remaining starts keeps the set of up
   components closed throughout exactly when every skipped dependency of a remaining component is still up.
   */
  lemma ResumeSafeIff(g: Deps, order: seq<Id>, s: set<Id>, done: set<Id>, up: set<Id>)
    requires Order(g, order, s) && done <= s && Closed(g, done) && Closed(g, up)
    ensures var remaining := Filter(order, s - done);
      (forall k :: 0 <= k <= |remaining| ==> Closed(g, up + Elems(remaining[..k])))
      <==> (forall c, d :: c in remaining && d in g[c] && d in done ==> d in up)
  {
    var remaining := Filter(order, s - done);
    if forall k :: 0 <= k <= |remaining| ==> Closed(g, up + Elems(remaining[..k])) {
      forall c, d | c in remaining && d in g[c] && d in done
        ensures d in up
      {
        var i :| 0 <= i < |remaining| && remaining[i] == c;
        assert remaining[..i + 1][i] == c;
        assert Closed(g, up + Elems(remaining[..i + 1]));
        assert d in up + Elems(remaining[..i + 1]);
      }
    }
    if forall c, d :: c in remaining && d in g[c] && d in done ==> d in up {
      forall k, c, d | 0 <= k <= |remaining| && c in up + Elems(remaining[..k]) && c in g && d in g[c]
        ensures d in up + Elems(remaining[..k])
      {
        if c !in up {
          var i :| 0 <= i < k && remaining[..k][i] == c;
          RemainingDependency(g, order, s, done, i, d);
          if d !in done {
            var j :| 0 <= j < i && remaining[..i][j] == d;
            assert remaining[..k][j] == d;
          }
        }
      }
    }
  }

  lemma RemainingDependency(g: Deps, order: seq<Id>, s: set<Id>, done: set<Id>, i: nat, d: Id)
    requires Order(g, order, s) && done <= s && Closed(g, done)
    requires i < |Filter(order, s - done)| && d in g[Filter(order, s - done)[i]]
    ensures d in done || d in Filter(order, s - done)[..i]
  {
    var a, b := Filter(order, done), Filter(order, s - done);
    var r := Regrouped(order, done);
    ResumeKeepsOrder(g, order, s, done);
    assert r[|a| + i] == b[i] && d in r[..|a| + i];
    var j :| 0 <= j < |a| + i && r[..|a| + i][j] == d;
    if j < |a| {
      assert r[j] == a[j] && a[j] in a;
    } else {
      assert r[j] == b[j - |a|] && b[..i][j - |a|] == d;
    }
  }

  /** If the up set stays closed, nothing recorded as stopped depends on what is stopped next and is up. */
  lemma StopsShowConsumers(g: Deps, remaining: seq<Id>, done: set<Id>, up: set<Id>, u: Id, c: Id)
    requires forall k :: 0 <= k <= |remaining| ==> Closed(g, up - Elems(remaining[..k]))
    requires u in g && c in remaining && c in g[u] && u in done && u !in remaining
    ensures u !in up
  {
    var i :| 0 <= i < |remaining| && remaining[i] == c;
    var stopped := Elems(remaining[..i + 1]);
    assert remaining[..i + 1][i] == c;
    assert c in stopped;
    assert u !in stopped;
    assert Closed(g, up - stopped);
  }

  lemma RemainingConsumer(g: Deps, order: seq<Id>, done: set<Id>, i: nat, k: nat, u: Id)
    requires ConsumersFirst(g, order) && done <= Elems(order) && HoldsConsumers(g, done)
    requires i < k <= |Filter(order, Elems(order) - done)| && u in g
    requires Filter(order, Elems(order) - done)[i] in g[u]
    ensures u in done || u in Filter(order, Elems(order) - done)[..k]
  {
    var a, b := Filter(order, done), Filter(order, Elems(order) - done);
    var r := Regrouped(order, done);
    ResumeKeepsConsumersFirst(g, order, done);
    assert r[|a| + i] == b[i] && u in r[..|a| + i];
    var j :| 0 <= j < |a| + i && r[..|a| + i][j] == u;
    if j < |a| {
      assert r[j] == a[j] && a[j] in a;
    } else {
      assert r[j] == b[j - |a|] && b[..k][j - |a|] == u;
    }
  }

  lemma StopsKeepClosed(g: Deps, order: seq<Id>, done: set<Id>, up: set<Id>, k: nat)
    requires ConsumersFirst(g, order) && done <= Elems(order) && HoldsConsumers(g, done) && Closed(g, up)
    requires k <= |Filter(order, Elems(order) - done)|
    requires forall u, c ::
      u in g && c in Filter(order, Elems(order) - done) && c in g[u] && u in done ==> u !in up
    ensures Closed(g, up - Elems(Filter(order, Elems(order) - done)[..k]))
  {
    var remaining := Filter(order, Elems(order) - done);
    forall u, c | u in up - Elems(remaining[..k]) && u in g && c in g[u]
      ensures c in up - Elems(remaining[..k])
    {
      if c in remaining[..k] {
        var i :| 0 <= i < k && remaining[..k][i] == c;
        assert remaining[i] == c && c in remaining;
        RemainingConsumer(g, order, done, i, k, u);
      }
    }
  }

  /**
   The same for a suspend: stopping the remaining components keeps the set of up components closed throughout
   exactly when no consumer of a remaining component that the events record as stopped is up again.
   */
  lemma ResumeSuspendSafeIff(g: Deps, order: seq<Id>, done: set<Id>, up: set<Id>)
    requires ConsumersFirst(g, order) && done <= Elems(order) && HoldsConsumers(g, done) && Closed(g, up)
    ensures var remaining := Filter(order, Elems(order) - done);
      (forall k :: 0 <= k <= |remaining| ==> Closed(g, up - Elems(remaining[..k])))
      <==> (forall u, c :: u in g && c in remaining && c in g[u] && u in done ==> u !in up)
  {
    var remaining := Filter(order, Elems(order) - done);
    if forall k :: 0 <= k <= |remaining| ==> Closed(g, up - Elems(remaining[..k])) {
      forall u, c | u in g && c in remaining && c in g[u] && u in done
        ensures u !in up
      {
        StopsShowConsumers(g, remaining, done, up, u, c);
      }
    }
    if forall u, c :: u in g && c in remaining && c in g[u] && u in done ==> u !in up {
      forall k | 0 <= k <= |remaining|
        ensures Closed(g, up - Elems(remaining[..k]))
      {
        StopsKeepClosed(g, order, done, up, k);
      }
    }
  }

  // ----- What a retried operation has recorded -----

  /** The components the events of an operation record: `resumed` copied ones, then `published` new ones. */
  function RecordedIds(order: seq<Id>, done: set<Id>, resumed: nat, published: nat): set<Id>
    requires resumed <= |Filter(order, done)| && published <= |Filter(order, Elems(order) - done)|
  {
    Elems(Filter(order, done)[..resumed]) + Elems(Filter(order, Elems(order) - done)[..published])
  }

  /** The events of an operation record a prefix of its skipped part followed by its remaining part. */
  lemma RecordedIsPrefix(order: seq<Id>, done: set<Id>, resumed: nat, published: nat)
    requires resumed <= |Filter(order, done)| && published <= |Filter(order, Elems(order) - done)|
    requires published > 0 ==> resumed == |Filter(order, done)|
    ensures resumed + published <= |Regrouped(order, done)|
    ensures RecordedIds(order, done, resumed, published) == Elems(Regrouped(order, done)[..resumed + published])
  {
    var a, b := Filter(order, done)[..resumed], Filter(order, Elems(order) - done)[..published];
    assert Regrouped(order, done)[..resumed + published] == a + b;
    assert Elems(a + b) == Elems(a) + Elems(b);
  }

  /**
   If what a retry took over is dependency-closed, so is what its own events record, wherever it stopped and
   even when a restart cut the copying short.
   */
  lemma RecordIsClosed(g: Deps, order: seq<Id>, done: set<Id>, resumed: nat, published: nat)
    requires Order(g, order, Elems(order)) && done <= Elems(order) && Closed(g, done)
    requires resumed <= |Filter(order, done)| && published <= |Filter(order, Elems(order) - done)|
    requires published > 0 ==> resumed == |Filter(order, done)|
    ensures Closed(g, RecordedIds(order, done, resumed, published))
  {
    RecordedIsPrefix(order, done, resumed, published);
    ResumeKeepsOrder(g, order, Elems(order), done);
    PrefixIsClosed(g, Regrouped(order, done), Elems(order), resumed + published);
  }

  /** The same for a suspend. */
  lemma RecordIsConsumerClosed(g: Deps, order: seq<Id>, done: set<Id>, resumed: nat, published: nat)
    requires ConsumersFirst(g, order) && done <= Elems(order) && HoldsConsumers(g, done)
    requires resumed <= |Filter(order, done)| && published <= |Filter(order, Elems(order) - done)|
    requires published > 0 ==> resumed == |Filter(order, done)|
    ensures HoldsConsumers(g, RecordedIds(order, done, resumed, published))
  {
    ResumeKeepsConsumersFirst(g, order, done);
    RecordedIsPrefix(order, done, resumed, published);
    PrefixIsConsumerClosed(g, Regrouped(order, done), resumed + published);
  }

  // ----- Retry chains -----

  /**
   One operation of a retry chain: the plan it computed, how many of its step-resumed events and how
   many of its remaining steps were recorded. A Manager restart can leave the first short of the skipped set.
   */
  datatype Link = Link(plan: seq<Key>, resumed: nat, published: nat)

  function Skipped(done: set<Key>, link: Link): seq<Key> {
    Filter(link.plan, done)
  }

  function Remaining(done: set<Key>, link: Link): seq<Key> {
    Filter(link.plan, Elems(link.plan) - done)
  }

  /** The worker starts only after every step-resumed event is written. */
  ghost predicate Possible(scope: set<Key>, done: set<Key>, link: Link) {
    && NoDup(link.plan) && Elems(link.plan) == scope
    && link.resumed <= |Skipped(done, link)|
    && link.published <= |Remaining(done, link)|
    && (link.published > 0 ==> link.resumed == |Skipped(done, link)|)
  }

  /** The keys of the operation's step-succeeded events. */
  function Newly(done: set<Key>, link: Link): seq<Key>
    requires link.published <= |Remaining(done, link)|
  {
    Remaining(done, link)[..link.published]
  }

  /** What the operation's events let the next retry skip. */
  function Recorded(done: set<Key>, link: Link): set<Key>
    requires link.resumed <= |Skipped(done, link)| && link.published <= |Remaining(done, link)|
  {
    Elems(Skipped(done, link)[..link.resumed]) + Elems(Newly(done, link))
  }

  ghost predicate Chain(scope: set<Key>, links: seq<Link>)
    decreases |links|, 0
  {
    links != [] ==>
      && Chain(scope, links[..|links| - 1])
      && Possible(scope, Complete(scope, links[..|links| - 1]), links[|links| - 1])
  }

  /** What the last operation's events record as complete. */
  ghost function Complete(scope: set<Key>, links: seq<Link>): set<Key>
    requires Chain(scope, links)
    decreases |links|, 1
  {
    if links == [] then {}
    else Recorded(Complete(scope, links[..|links| - 1]), links[|links| - 1])
  }

  /** All step-succeeded events of the chain, in the order they were written. */
  ghost function Successes(scope: set<Key>, links: seq<Link>): seq<Key>
    requires Chain(scope, links)
    decreases |links|, 1
  {
    if links == [] then []
    else
      Successes(scope, links[..|links| - 1])
      + Newly(Complete(scope, links[..|links| - 1]), links[|links| - 1])
  }

  /** Each operation recorded at least what the one before it had. */
  ghost predicate CarriesForward(scope: set<Key>, links: seq<Link>)
    requires Chain(scope, links)
    decreases |links|, 1
  {
    links != [] ==>
      && CarriesForward(scope, links[..|links| - 1])
      && Complete(scope, links[..|links| - 1]) <= Complete(scope, links)
  }

  /** The last operation finished every remaining step. */
  ghost predicate EndsInSuccess(scope: set<Key>, links: seq<Link>)
    requires Chain(scope, links)
  {
    links != [] &&
    var done, last := Complete(scope, links[..|links| - 1]), links[|links| - 1];
    last.resumed == |Skipped(done, last)| && last.published == |Remaining(done, last)|
  }

  lemma NewlyFacts(scope: set<Key>, done: set<Key>, link: Link)
    requires Possible(scope, done, link)
    ensures NoDup(Newly(done, link))
    ensures Elems(Newly(done, link)) <= scope - done
    ensures Recorded(done, link) <= done + Elems(Newly(done, link))
    ensures link.resumed == |Skipped(done, link)| && link.published == |Remaining(done, link)| ==>
      Recorded(done, link) == scope
  {
    FilterNoDup(link.plan, Elems(link.plan) - done);
    var remaining, skipped := Remaining(done, link), Skipped(done, link);
    forall x | x in Newly(done, link)
      ensures x in scope - done
    {
      assert x in remaining;
    }
    forall x | x in skipped[..link.resumed]
      ensures x in done
    {
      assert x in skipped;
    }
    assert remaining[..|remaining|] == remaining && skipped[..|skipped|] == skipped;
    forall x | x in scope
      ensures x in Elems(skipped) + Elems(remaining)
    {
      assert x in Elems(link.plan);
    }
  }

  /** Everything recorded has succeeded somewhere in the chain, and inside its scope. */
  lemma {:induction false} CompleteHasSucceeded(scope: set<Key>, links: seq<Link>)
    requires Chain(scope, links)
    ensures Complete(scope, links) <= Elems(Successes(scope, links)) <= scope
    decreases |links|
  {
    if links != [] {
      var init := links[..|links| - 1];
      CompleteHasSucceeded(scope, init);
      NewlyFacts(scope, Complete(scope, init), links[|links| - 1]);
    }
  }

  /** Carrying the completed set forward makes the record exactly the successes so far, each once. */
  lemma {:induction false} CarriedIsExact(scope: set<Key>, links: seq<Link>)
    requires Chain(scope, links) && CarriesForward(scope, links)
    ensures NoDup(Successes(scope, links))
    ensures Complete(scope, links) == Elems(Successes(scope, links))
    decreases |links|
  {
    if links != [] {
      var init, last := links[..|links| - 1], links[|links| - 1];
      CarriedIsExact(scope, init);
      NewlyFacts(scope, Complete(scope, init), last);
      var a, b := Successes(scope, init), Newly(Complete(scope, init), last);
      forall i, j | 0 <= i < |a| && 0 <= j < |b|
        ensures a[i] != b[j]
      {
        assert a[i] in Elems(a) && b[j] in Elems(b);
      }
      assert Elems(b) <= Complete(scope, links);
    }
  }

  lemma RepeatedLeft(a: seq<Key>, b: seq<Key>)
    requires !NoDup(a)
    ensures !NoDup(a + b)
  {
    var i, j :| 0 <= i < j < |a| && a[i] == a[j];
    assert (a + b)[i] == (a + b)[j];
  }

  lemma RepeatedAcross(a: seq<Key>, b: seq<Key>, key: Key)
    requires key in a && key in b
    ensures !NoDup(a + b)
  {
    var i :| 0 <= i < |a| && a[i] == key;
    var j :| 0 <= j < |b| && b[j] == key;
    assert (a + b)[i] == (a + b)[|a| + j];
  }

  /** Every operation of the chain wrote all its step-resumed events. */
  ghost predicate NoRestart(scope: set<Key>, links: seq<Link>)
    requires Chain(scope, links)
    decreases |links|, 1
  {
    links != [] ==>
      var init, last := links[..|links| - 1], links[|links| - 1];
      NoRestart(scope, init) && last.resumed == |Skipped(Complete(scope, init), last)|
  }

  /** A restart in the middle of the copying loses the first key that was not copied. */
  lemma FirstLost(scope: set<Key>, done: set<Key>, link: Link) returns (key: Key)
    requires Possible(scope, done, link) && link.resumed < |Skipped(done, link)|
    ensures key in done && key !in Recorded(done, link)
  {
    var skipped := Skipped(done, link);
    FilterNoDup(link.plan, done);
    key := skipped[link.resumed];
    assert key in skipped;
    assert Newly(done, link) == [];
  }

  /** One operation keeps the record it took over exactly when it wrote all its step-resumed events. */
  lemma KeepsRecordIff(scope: set<Key>, done: set<Key>, link: Link)
    requires Possible(scope, done, link) && done <= scope
    ensures done <= Recorded(done, link) <==> link.resumed == |Skipped(done, link)|
  {
    var skipped := Skipped(done, link);
    if link.resumed < |skipped| {
      var key := FirstLost(scope, done, link);
    } else {
      assert skipped[..link.resumed] == skipped;
      forall key | key in done
        ensures key in skipped
      {
        assert key in Elems(link.plan);
      }
    }
  }

  /** The record is carried forward throughout exactly when no restart cut the copying short. */
  lemma {:induction false} NoRestartIff(scope: set<Key>, links: seq<Link>)
    requires Chain(scope, links)
    ensures CarriesForward(scope, links) <==> NoRestart(scope, links)
    decreases |links|
  {
    if links != [] {
      var init := links[..|links| - 1];
      NoRestartIff(scope, init);
      CompleteHasSucceeded(scope, init);
      KeepsRecordIff(scope, Complete(scope, init), links[|links| - 1]);
    }
  }

  /** Something that had succeeded and left the record stays out of it until it succeeds again. */
  lemma LostUntilRepeated(scope: set<Key>, done: set<Key>, link: Link, succeeded: seq<Key>, key: Key)
    requires Possible(scope, done, link) && key in succeeded && key !in done
    ensures key !in Recorded(done, link) || !NoDup(succeeded + Newly(done, link))
  {
    NewlyFacts(scope, done, link);
    if key in Recorded(done, link) {
      RepeatedAcross(succeeded, Newly(done, link), key);
    }
  }

  /** After a restart some key has succeeded twice, or has succeeded without being in the record. */
  lemma {:induction false} RestartShows(scope: set<Key>, links: seq<Link>)
    requires Chain(scope, links) && !NoRestart(scope, links)
    ensures !NoDup(Successes(scope, links)) || !(Elems(Successes(scope, links)) <= Complete(scope, links))
    decreases |links|
  {
    var init, last := links[..|links| - 1], links[|links| - 1];
    var succeeded, done := Successes(scope, init), Complete(scope, init);
    if NoRestart(scope, init) {
      var key := FirstLost(scope, done, last);
      CompleteHasSucceeded(scope, init);
      assert key in Elems(succeeded + Newly(done, last));
    } else {
      RestartShows(scope, init);
      if NoDup(succeeded) {
        var key :| key in Elems(succeeded) && key !in done;
        LostUntilRepeated(scope, done, last, succeeded, key);
        assert key in Elems(succeeded + Newly(done, last));
      } else {
        RepeatedLeft(succeeded, Newly(done, last));
      }
    }
  }

  /**
   Along a retry chain that ends in success every planned key has succeeded, and each exactly once if and only
   if every operation of the chain wrote all the step-resumed events it owed. A Manager restart between the
   creation of a retry and the last of them is what can leave one out.
   */
  lemma ExactlyOnce(scope: set<Key>, links: seq<Link>)
    requires Chain(scope, links) && EndsInSuccess(scope, links)
    ensures Elems(Successes(scope, links)) == scope
    ensures NoDup(Successes(scope, links)) <==> NoRestart(scope, links)
  {
    CompleteHasSucceeded(scope, links);
    NewlyFacts(scope, Complete(scope, links[..|links| - 1]), links[|links| - 1]);
    if NoRestart(scope, links) {
      NoRestartIff(scope, links);
      CarriedIsExact(scope, links);
    } else {
      RestartShows(scope, links);
    }
  }

  /** The chain one operation longer. */
  lemma Extended(scope: set<Key>, links: seq<Link>, link: Link)
    requires Chain(scope, links) && Possible(scope, Complete(scope, links), link)
    ensures Chain(scope, links + [link])
    ensures Complete(scope, links + [link]) == Recorded(Complete(scope, links), link)
    ensures Successes(scope, links + [link]) == Successes(scope, links) + Newly(Complete(scope, links), link)
    ensures NoRestart(scope, links + [link]) <==>
            NoRestart(scope, links) && link.resumed == |Skipped(Complete(scope, links), link)|
    ensures EndsInSuccess(scope, links + [link]) <==>
            link.resumed == |Skipped(Complete(scope, links), link)|
            && link.published == |Remaining(Complete(scope, links), link)|
  {
    assert (links + [link])[..|links|] == links;
  }

  lemma FilterOne(key: Key, keep: set<Key>)
    ensures Filter([key], keep) == if key in keep then [key] else []
  {
    assert [key][1..] == [];
  }

  lemma PlanOfTwo(a: Key, b: Key)
    requires a != b
    ensures Filter([a, b], {}) == [] && Filter([a, b], {a}) == [a]
    ensures Filter([a, b], {a, b}) == [a, b] && Filter([a, b], {b}) == [b]
    ensures Elems([a, b]) == {a, b}
  {
    assert [a, b][1..] == [b];
    FilterOne(b, {});
    FilterOne(b, {a});
    FilterOne(b, {b});
    FilterOne(b, {a, b});
  }

  lemma NothingToSkip(a: Key, b: Key, published: nat)
    requires a != b && published <= 2
    ensures var link := Link([a, b], 0, published);
      && Possible({a, b}, {}, link) && Newly({}, link) == [a, b][..published]
      && Skipped({}, link) == [] && Remaining({}, link) == [a, b]
  {
    PlanOfTwo(a, b);
    assert Elems([a, b]) - {} == {a, b};
  }

  lemma NothingCopied(a: Key, b: Key)
    requires a != b
    ensures var link := Link([a, b], 0, 0);
      && Possible({a, b}, {a}, link) && Newly({a}, link) == []
      && Skipped({a}, link) == [a] && Recorded({a}, link) == {}
  {
    PlanOfTwo(a, b);
  }

  /**
   A chain that succeeds and runs `a` twice: the first operation finishes `a` and fails, the retry is cut short
   by a restart before it has copied anything, and the retry of the retry finds nothing to skip.
   */
  lemma CanSucceedTwice(a: Key, b: Key) returns (links: seq<Link>)
    requires a != b
    ensures Chain({a, b}, links) && EndsInSuccess({a, b}, links) && !NoRestart({a, b}, links)
    ensures Successes({a, b}, links) == [a, a, b]
  {
    var scope, first, second, third := {a, b}, Link([a, b], 0, 1), Link([a, b], 0, 0), Link([a, b], 0, 2);
    NothingToSkip(a, b, 1);
    Extended(scope, [], first);
    links := [] + [first];
    assert [a, b][..1] == [a];
    NothingCopied(a, b);
    Extended(scope, links, second);
    links := links + [second];
    NothingToSkip(a, b, 2);
    Extended(scope, links, third);
    links := links + [third];
  }

  // ----- What a chain records, against the dependency graph -----

  /** The components of a list of keys. */
  function Names(keys: seq<Key>): (r: seq<Id>)
    ensures |r| == |keys|
    ensures forall i :: 0 <= i < |keys| ==> r[i] == keys[i].0
  {
    if keys == [] then [] else [keys[0].0] + Names(keys[1..])
  }

  /** All keys carry one operation. */
  ghost predicate SameOperation(keys: set<Key>, op: Operation) {
    forall key :: key in keys ==> key.1 == op
  }

  /** The components a set of keys with operation `op` stands for. */
  function NamesOf(keys: set<Key>): set<Id> {
    set key | key in keys :: key.0
  }

  lemma {:induction false} FilterNames(keys: seq<Key>, keep: set<Key>, ids: set<Id>)
    requires forall key :: key in keys ==> (key in keep <==> key.0 in ids)
    ensures Names(Filter(keys, keep)) == Filter(Names(keys), ids)
  {
    if keys != [] {
      FilterNames(keys[1..], keep, ids);
      var rest := Filter(keys[1..], keep);
      assert Names([keys[0]] + rest) == [keys[0].0] + Names(rest);
      assert Names(keys)[1..] == Names(keys[1..]);
    }
  }

  lemma NamesAgree(scope: set<Key>, op: Operation, done: set<Key>, key: Key)
    requires SameOperation(scope, op) && done <= scope && key in scope
    ensures key in done <==> key.0 in NamesOf(done)
  {
    if key.0 in NamesOf(done) {
      var other :| other in done && other.0 == key.0;
      assert other == key;
    }
  }

  lemma NamesOfElems(keys: seq<Key>)
    ensures NamesOf(Elems(keys)) == Elems(Names(keys))
  {
    forall id | id in Elems(Names(keys))
      ensures id in NamesOf(Elems(keys))
    {
      var i :| 0 <= i < |keys| && Names(keys)[i] == id;
      assert keys[i] in Elems(keys);
    }
    forall id | id in NamesOf(Elems(keys))
      ensures id in Elems(Names(keys))
    {
      var key :| key in Elems(keys) && key.0 == id;
      var i :| 0 <= i < |keys| && keys[i] == key;
      assert Names(keys)[i] == id;
    }
  }

  /** Skipping keys is skipping their components. */
  lemma SplitNames(scope: set<Key>, op: Operation, done: set<Key>, link: Link)
    requires SameOperation(scope, op) && done <= scope && Elems(link.plan) == scope
    ensures var order, ids := Names(link.plan), NamesOf(done);
      && Names(Skipped(done, link)) == Filter(order, ids)
      && Names(Remaining(done, link)) == Filter(order, Elems(order) - ids)
  {
    var order, ids := Names(link.plan), NamesOf(done);
    NamesOfElems(link.plan);
    forall key | key in link.plan
      ensures key in done <==> key.0 in ids
      ensures key in Elems(link.plan) && key.0 in Elems(order)
    {
      assert key in Elems(link.plan);
      NamesAgree(scope, op, done, key);
    }
    FilterNames(link.plan, done, ids);
    FilterNames(link.plan, Elems(link.plan) - done, Elems(order) - ids);
  }

  lemma NamesOfPrefix(keys: seq<Key>, n: nat)
    requires n <= |keys|
    ensures NamesOf(Elems(keys[..n])) == Elems(Names(keys)[..n])
  {
    NamesOfElems(keys[..n]);
    assert Names(keys[..n]) == Names(keys)[..n];
  }

  lemma NamesOfUnion(a: set<Key>, b: set<Key>)
    ensures NamesOf(a + b) == NamesOf(a) + NamesOf(b)
  {
  }

  /** The record of one operation, read as components. */
  lemma RecordedNames(scope: set<Key>, op: Operation, done: set<Key>, link: Link)
    requires SameOperation(scope, op) && done <= scope && Possible(scope, done, link)
    ensures var order, ids := Names(link.plan), NamesOf(done);
      && |Filter(order, ids)| == |Skipped(done, link)|
      && |Filter(order, Elems(order) - ids)| == |Remaining(done, link)|
      && NamesOf(Recorded(done, link)) == RecordedIds(order, ids, link.resumed, link.published)
  {
    SplitNames(scope, op, done, link);
    NamesOfPrefix(Skipped(done, link), link.resumed);
    NamesOfPrefix(Remaining(done, link), link.published);
    NamesOfUnion(Elems(Skipped(done, link)[..link.resumed]), Elems(Newly(done, link)));
  }

  /**
   However often a starting plan is retried, restarted and reordered, what the last operation records is
   dependency-closed, so the next retry may skip it whatever valid order it computes.
   */
  lemma {:induction false} ChainStaysClosed(g: Deps, scope: set<Key>, op: Operation, links: seq<Link>)
    requires Chain(scope, links) && SameOperation(scope, op)
    requires forall link :: link in links ==> Order(g, Names(link.plan), NamesOf(scope))
    ensures Closed(g, NamesOf(Complete(scope, links)))
    ensures forall order :: Order(g, order, NamesOf(scope)) ==>
      Order(g, Regrouped(order, NamesOf(Complete(scope, links))), NamesOf(scope))
    decreases |links|
  {
    if links != [] {
      var init, last := links[..|links| - 1], links[|links| - 1];
      ChainStaysClosed(g, scope, op, init);
      CompleteHasSucceeded(scope, init);
      var done := Complete(scope, init);
      NamesOfElems(last.plan);
      RecordedNames(scope, op, done, last);
      RecordIsClosed(g, Names(last.plan), NamesOf(done), last.resumed, last.published);
    }
    CompleteHasSucceeded(scope, links);
    forall order | Order(g, order, NamesOf(scope))
      ensures Order(g, Regrouped(order, NamesOf(Complete(scope, links))), NamesOf(scope))
    {
      ResumeKeepsOrder(g, order, NamesOf(scope), NamesOf(Complete(scope, links)));
    }
  }

  /** The same for suspends: what the last operation records contains the consumers of its members. */
  lemma {:induction false} ChainStaysConsumerClosed(g: Deps, scope: set<Key>, op: Operation, links: seq<Link>)
    requires Chain(scope, links) && SameOperation(scope, op)
    requires forall link :: link in links ==> ConsumersFirst(g, Names(link.plan))
    ensures HoldsConsumers(g, NamesOf(Complete(scope, links)))
    ensures forall order :: ConsumersFirst(g, order) && Elems(order) == NamesOf(scope) ==>
      ConsumersFirst(g, Regrouped(order, NamesOf(Complete(scope, links))))
    decreases |links|
  {
    if links != [] {
      var init, last := links[..|links| - 1], links[|links| - 1];
      ChainStaysConsumerClosed(g, scope, op, init);
      CompleteHasSucceeded(scope, init);
      var done := Complete(scope, init);
      NamesOfElems(last.plan);
      RecordedNames(scope, op, done, last);
      RecordIsConsumerClosed(g, Names(last.plan), NamesOf(done), last.resumed, last.published);
    }
    CompleteHasSucceeded(scope, links);
    forall order | ConsumersFirst(g, order) && Elems(order) == NamesOf(scope)
      ensures ConsumersFirst(g, Regrouped(order, NamesOf(Complete(scope, links))))
    {
      ResumeKeepsConsumersFirst(g, order, NamesOf(Complete(scope, links)));
    }
  }
}
