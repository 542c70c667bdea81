/**
 Whole runs of the heartbeat store: any sequence of starts and updates, by any writers, with retention deleting
 records in between.
 */
module HeartbeatRuns {
  import opened Sequences
  import opened Heartbeat

  /** The records, and every writer id ever issued; an id is never issued twice. */
  datatype Store = Store(records: Records, issued: set<Writer>)

  /** The calls that change the store. */
  datatype Action =
    | Start(issue: nat, milestone: string, policy: Policy, writer: Writer, now: int)
    | Update(issue: nat, writer: Writer, generation: int, change: Change, now: int)

  ghost predicate Enabled(s: Store, a: Action) {
    match a
    case Start(issue, milestone, policy, writer, _) => ValidStart(issue, milestone, policy) && writer !in s.issued
    case Update(issue, writer, generation, change, now) =>
      Updated(Lookup(s.records, issue), writer, generation, change, now).Ok?
  }

  /** The record an action writes. */
  ghost function Written(s: Store, a: Action): Record
    requires Enabled(s, a)
  {
    match a
    case Start(issue, milestone, policy, writer, now) =>
      Started(Lookup(s.records, issue), issue, milestone, policy, writer, now)
    case Update(issue, writer, generation, change, now) =>
      Updated(Lookup(s.records, issue), writer, generation, change, now).record
  }

  ghost function Perform(s: Store, a: Action, limits: Limits): Store
    requires Enabled(s, a)
  {
    Store(Retained(s.records[PathOf(a.issue) := Written(s, a)], limits, a.now),
          if a.Start? then s.issued + {a.writer} else s.issued)
  }

  ghost predicate Behaviour(s: Store, acts: seq<Action>, limits: Limits)
    decreases |acts|, 0
  {
    acts == []
    || (Behaviour(s, acts[..|acts| - 1], limits) && Enabled(Reached(s, acts[..|acts| - 1], limits), acts[|acts| - 1]))
  }

  ghost function Reached(s: Store, acts: seq<Action>, limits: Limits): Store
    requires Behaviour(s, acts, limits)
    decreases |acts|, 1
  {
    if acts == [] then s else Perform(Reached(s, acts[..|acts| - 1], limits), acts[|acts| - 1], limits)
  }

  ghost predicate Sound(s: Store) {
    forall p :: p in s.records ==> s.records[p].writer in s.issued
  }

  /** What one action does to the record of one issue: nothing, removal, or a write of its own. */
  lemma StepAt(s: Store, a: Action, limits: Limits, issue: nat)
    requires Enabled(s, a)
    ensures var t := Perform(s, a, limits);
      && s.issued <= t.issued
      && (PathOf(issue) in t.records ==>
            t.records[PathOf(issue)] == if a.issue == issue then Written(s, a)
                                        else if PathOf(issue) in s.records then s.records[PathOf(issue)]
                                        else t.records[PathOf(issue)])
      && (PathOf(issue) in t.records && a.issue != issue ==> PathOf(issue) in s.records)
  {
    if a.issue != issue && PathOf(issue) == PathOf(a.issue) {
      PathsAreDistinct(issue, a.issue);
    }
  }

  lemma {:induction false} SoundHolds(s: Store, acts: seq<Action>, limits: Limits)
    requires Sound(s) && Behaviour(s, acts, limits)
    ensures Sound(Reached(s, acts, limits))
    ensures s.issued <= Reached(s, acts, limits).issued
    decreases |acts|
  {
    if acts != [] {
      SoundHolds(s, acts[..|acts| - 1], limits);
    }
  }

  /** After a start, the record of the issue never again belongs to a writer issued before it. */
  lemma {:induction false} Fenced(s: Store, acts: seq<Action>, limits: Limits, n: nat)
    requires Sound(s) && Behaviour(s, acts, limits) && n < |acts| && acts[n].Start?
    ensures Behaviour(s, acts[..n], limits)
    ensures Reached(s, acts[..n], limits).issued <= Reached(s, acts, limits).issued
    ensures var path := PathOf(acts[n].issue);
      var t := Reached(s, acts, limits);
      path in t.records ==> t.records[path].writer !in Reached(s, acts[..n], limits).issued
    decreases |acts|
  {
    var init, last := acts[..|acts| - 1], acts[|acts| - 1];
    StepAt(Reached(s, init, limits), last, limits, acts[n].issue);
    if n < |init| {
      assert init[..n] == acts[..n];
      Fenced(s, init, limits, n);
    } else {
      assert acts[..n] == init;
    }
  }

  /**
   Once a start has issued a new lease, no update by any earlier writer succeeds again, whatever generation it
   claims and whatever was deleted in between.
   */
  lemma EarlierWritersAreFenced(s: Store, acts: seq<Action>, limits: Limits, n: nat, update: Action)
    requires Sound(s) && Behaviour(s, acts, limits) && n < |acts| && acts[n].Start?
    requires update.Update? && update.issue == acts[n].issue
    requires Behaviour(s, acts[..n], limits) && update.writer in Reached(s, acts[..n], limits).issued
    ensures !Enabled(Reached(s, acts, limits), update)
  {
    Fenced(s, acts, limits, n);
  }

  /** `b` is `a`, or a later revision of the same lease: terminal records have none, phases never go back. */
  ghost predicate Advanced(a: Record, b: Record) {
    && a.writer == b.writer && a.generation == b.generation && a.startedAt == b.startedAt
    && a.milestone == b.milestone && a.policy == b.policy
    && (a == b || (b.revision > a.revision && Position(b.phase) >= Position(a.phase) && !Terminal(a.phase)))
  }

  lemma UpdateAdvances(r: Record, writer: Writer, generation: int, change: Change, now: int)
    requires Updated(Some(r), writer, generation, change, now).Ok?
    ensures Advanced(r, Updated(Some(r), writer, generation, change, now).record)
  {
  }

  /** Within a lease: the revision strictly increases, the phase never goes back, terminal records are final. */
  lemma {:induction false} LeaseAdvances(s: Store, acts: seq<Action>, limits: Limits, n: nat, issue: nat)
    requires Sound(s) && Behaviour(s, acts, limits) && n <= |acts| && Behaviour(s, acts[..n], limits)
    requires PathOf(issue) in Reached(s, acts[..n], limits).records
    ensures var a := Reached(s, acts[..n], limits).records[PathOf(issue)];
      var t := Reached(s, acts, limits);
      PathOf(issue) in t.records && t.records[PathOf(issue)].writer == a.writer ==>
        Advanced(a, t.records[PathOf(issue)])
    ensures Reached(s, acts[..n], limits).issued <= Reached(s, acts, limits).issued
    decreases |acts|
  {
    if n == |acts| {
      assert acts[..n] == acts;
    } else {
      var init, last := acts[..|acts| - 1], acts[|acts| - 1];
      assert init[..n] == acts[..n];
      LeaseAdvances(s, init, limits, n, issue);
      var before := Reached(s, init, limits);
      StepAt(before, last, limits, issue);
      SoundHolds(s, acts[..n], limits);
      if last.Update? && last.issue == issue {
        UpdateAdvances(before.records[PathOf(issue)], last.writer, last.generation, last.change, last.now);
      }
    }
  }

  /** The record of `issue` is there from step `n` on. */
  ghost predicate Survived(s: Store, acts: seq<Action>, limits: Limits, n: nat, issue: nat)
    requires Behaviour(s, acts, limits)
    decreases |acts|
  {
    && PathOf(issue) in Reached(s, acts, limits).records
    && (n < |acts| ==> Survived(s, acts[..|acts| - 1], limits, n, issue))
  }

  /** `b` is of the same lease as `a`, or of one with a greater generation. */
  ghost predicate NotEarlier(a: Record, b: Record) {
    a.generation < b.generation || (a.generation == b.generation && a.writer == b.writer)
  }

  lemma StepNotEarlier(s: Store, a: Action, limits: Limits, issue: nat)
    requires Enabled(s, a) && PathOf(issue) in s.records && PathOf(issue) in Perform(s, a, limits).records
    ensures NotEarlier(s.records[PathOf(issue)], Perform(s, a, limits).records[PathOf(issue)])
  {
    StepAt(s, a, limits, issue);
  }

  /** While the record survives, every new lease has a greater generation. */
  lemma {:induction false} GenerationRises(s: Store, acts: seq<Action>, limits: Limits, n: nat, issue: nat)
    requires Behaviour(s, acts, limits) && n <= |acts| && Survived(s, acts, limits, n, issue)
    ensures Behaviour(s, acts[..n], limits) && PathOf(issue) in Reached(s, acts[..n], limits).records
    ensures NotEarlier(Reached(s, acts[..n], limits).records[PathOf(issue)],
                       Reached(s, acts, limits).records[PathOf(issue)])
    decreases |acts|
  {
    if n == |acts| {
      assert acts[..n] == acts;
    } else {
      var init, last := acts[..|acts| - 1], acts[|acts| - 1];
      assert init[..n] == acts[..n];
      GenerationRises(s, init, limits, n, issue);
      StepNotEarlier(Reached(s, init, limits), last, limits, issue);
    }
  }

  /** No start of `issue` in the run after step `n`. */
  ghost predicate NoStartSince(acts: seq<Action>, n: nat, issue: nat) {
    forall m :: n < m < |acts| ==> !(acts[m].Start? && acts[m].issue == issue)
  }

  /** One step that is not a start of `issue` leaves the generation of its record alone. */
  lemma GenerationStays(s: Store, a: Action, limits: Limits, issue: nat)
    requires Enabled(s, a) && !(a.Start? && a.issue == issue)
    ensures PathOf(issue) in Perform(s, a, limits).records ==>
      && PathOf(issue) in s.records
      && Perform(s, a, limits).records[PathOf(issue)].generation == s.records[PathOf(issue)].generation
  {
    StepAt(s, a, limits, issue);
    if a.Update? && a.issue == issue && PathOf(issue) in s.records {
      UpdateAdvances(s.records[PathOf(issue)], a.writer, a.generation, a.change, a.now);
    }
  }

  /** Until the issue is started again its record, if it is there, carries the generation of its last start. */
  lemma {:induction false} GenerationIsLast(s: Store, acts: seq<Action>, limits: Limits, n: nat)
    requires Behaviour(s, acts, limits) && n < |acts| && acts[n].Start? && NoStartSince(acts, n, acts[n].issue)
    ensures Behaviour(s, acts[..n], limits) && Enabled(Reached(s, acts[..n], limits), acts[n])
    ensures var path, t := PathOf(acts[n].issue), Reached(s, acts, limits);
      path in t.records ==> t.records[path].generation == Written(Reached(s, acts[..n], limits), acts[n]).generation
    decreases |acts|
  {
    var init, last := acts[..|acts| - 1], acts[|acts| - 1];
    if n < |init| {
      assert init[..n] == acts[..n];
      GenerationIsLast(s, init, limits, n);
      GenerationStays(Reached(s, init, limits), last, limits, acts[n].issue);
    } else {
      assert acts[..n] == init;
      StepAt(Reached(s, init, limits), last, limits, acts[n].issue);
    }
  }

  /** A new runner invocation raises the issue's generation exactly when the record of the last one is still there. */
  lemma NextGenerationRisesIff(s: Store, acts: seq<Action>, limits: Limits, n: nat, next: Action)
    requires Behaviour(s, acts, limits) && n < |acts| && acts[n].Start? && NoStartSince(acts, n, acts[n].issue)
    requires next.Start? && next.issue == acts[n].issue && Enabled(Reached(s, acts, limits), next)
    ensures Behaviour(s, acts[..n], limits) && Enabled(Reached(s, acts[..n], limits), acts[n])
    ensures Written(Reached(s, acts, limits), next).generation
            > Written(Reached(s, acts[..n], limits), acts[n]).generation
            <==> PathOf(next.issue) in Reached(s, acts, limits).records
  {
    GenerationIsLast(s, acts, limits, n);
  }

  /** With room for one record, retention leaves only the one written last. */
  lemma OnlyNewest(records: Records, limits: Limits, now: int, p: Path)
    requires limits.maxRecords == 1 && p in records && !Terminal(records[p].phase)
    requires forall q :: q in records && q != p ==> records[q].lastActivityAt < records[p].lastActivityAt
    ensures Retained(records, limits, now) == map[p := records[p]]
  {
    AheadOrders(records, p, p, p);
    assert AheadOf(records, records.Keys, p) == {};
    forall q | q in records && q != p
      ensures !Survives(records, limits, now, q)
    {
      assert p in AheadOf(records, records.Keys, q);
    }
  }

  /** The record of a start at second `at`. */
  function RecordAt(issue: nat, milestone: string, policy: Policy, writer: Writer, at: int): Record {
    Started(None, issue, milestone, policy, writer, at * 1_000_000)
  }

  /** Starting an issue when the store holds at most one older record of another issue. */
  lemma StartAlone(s: Store, start: Action, limits: Limits, at: int)
    requires start.Start? && start.now == at * 1_000_000 && Enabled(s, start) && limits.maxRecords == 1
    requires PathOf(start.issue) !in s.records
    requires forall q :: q in s.records ==> s.records[q].lastActivityAt < at
    ensures var r := RecordAt(start.issue, start.milestone, start.policy, start.writer, at);
      && Written(s, start) == r && r.generation == 1
      && Perform(s, start, limits) == Store(map[PathOf(start.issue) := r], s.issued + {start.writer})
  {
    OnlyNewest(s.records[PathOf(start.issue) := Written(s, start)], limits, start.now, PathOf(start.issue));
  }

  /** The run one such start longer. */
  lemma RunStartAlone(s: Store, acts: seq<Action>, start: Action, limits: Limits, at: int)
    requires Behaviour(s, acts, limits) && Enabled(Reached(s, acts, limits), start) && limits.maxRecords == 1
    requires start.Start? && start.now == at * 1_000_000
    requires var t := Reached(s, acts, limits);
      PathOf(start.issue) !in t.records && forall q :: q in t.records ==> t.records[q].lastActivityAt < at
    ensures Behaviour(s, acts + [start], limits)
    ensures Written(Reached(s, acts, limits), start).generation == 1
    ensures var r := RecordAt(start.issue, start.milestone, start.policy, start.writer, at);
      Reached(s, acts + [start], limits)
      == Store(map[PathOf(start.issue) := r], Reached(s, acts, limits).issued + {start.writer})
  {
    assert (acts + [start])[..|acts|] == acts;
    StartAlone(Reached(s, acts, limits), start, limits, at);
  }

  /**
   A run in which the generation does not rise: with room for one record, one issue is started, a start of another
   takes its place, and the next start of the first is generation 1 again.
   */
  lemma GenerationCanRepeat(s: Store, first: Action, second: Action, next: Action, limits: Limits)
      returns (acts: seq<Action>)
    requires s.records == map[] && limits.maxRecords == 1
    requires first.Start? && second.Start? && next.Start? && first.issue == next.issue != second.issue
    requires first.writer != second.writer && first.writer != next.writer && second.writer != next.writer
    requires first.now == 0 && second.now == 1_000_000 && next.now == 2_000_000
    requires Enabled(s, first) && Enabled(s, second) && Enabled(s, next)
    ensures acts == [first, second] && Behaviour(s, acts, limits) && Enabled(Reached(s, acts, limits), next)
    ensures Written(s, first).generation == 1 == Written(Reached(s, acts, limits), next).generation
  {
    if PathOf(first.issue) == PathOf(second.issue) {
      PathsAreDistinct(first.issue, second.issue);
    }
    acts := [];
    RunStartAlone(s, acts, first, limits, 0);
    acts := acts + [first];
    RunStartAlone(s, acts, second, limits, 1);
    acts := acts + [second];
    StartAlone(Reached(s, acts, limits), next, limits, 2);
  }
}
