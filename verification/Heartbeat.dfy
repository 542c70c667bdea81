/**
 The issue runner's heartbeat records (manager/runner_heartbeat.py): a lease per issue with a fresh writer id and
 a generation, updates fenced by both, and bounded retention after every write. Clock readings are microseconds;
 stored times are whole seconds.
 */
module Heartbeat {
  import opened Sequences
  import Decimal

  datatype Phase =
    | Preparing | Inspecting | Planning | Implementing | Testing | Validating | Scanning | Committing | Pushing
    | CreatingPr | WaitingForCi | WaitingForApproval
    | Completed | Failed

  predicate Terminal(p: Phase) {
    p.Completed? || p.Failed?
  }

  /** The position in the list of working phases; both terminal phases come after all of them. */
  function Position(p: Phase): nat {
    match p
    case Preparing => 0
    case Inspecting => 1
    case Planning => 2
    case Implementing => 3
    case Testing => 4
    case Validating => 5
    case Scanning => 6
    case Committing => 7
    case Pushing => 8
    case CreatingPr => 9
    case WaitingForCi => 10
    case WaitingForApproval => 11
    case _ => 12
  }

  /** The working phases, first to last. */
  const WORK: seq<Phase> := [
    Preparing, Inspecting, Planning, Implementing, Testing, Validating, Scanning, Committing, Pushing,
    CreatingPr, WaitingForCi, WaitingForApproval
  ]

  /** Both are working phases, and `to` is not listed before `from`. */
  ghost predicate NotBefore(to: Phase, from: Phase) {
    exists i, j :: 0 <= i <= j < |WORK| && WORK[i] == from && WORK[j] == to
  }

  lemma PhaseAt(p: Phase, i: nat)
    requires i < |WORK|
    ensures WORK[i] == p <==> !Terminal(p) && Position(p) == i
  {
  }

  lemma NotBeforeIff(to: Phase, from: Phase)
    requires !Terminal(to) && !Terminal(from)
    ensures NotBefore(to, from) <==> Position(from) <= Position(to)
  {
    PhaseAt(from, Position(from));
    PhaseAt(to, Position(to));
    if i, j :| 0 <= i <= j < |WORK| && WORK[i] == from && WORK[j] == to {
      PhaseAt(from, i);
      PhaseAt(to, j);
    }
  }

  datatype Validation = NotStarted | Running | Passed | ValidationFailed

  datatype Health = Active | HealthCompleted | HealthFailed

  type Writer = string

  datatype Policy = Policy(generation: int, digest: string)

  datatype Record = Record(
    issue: int, milestone: string, policy: Policy, writer: Writer, generation: nat, revision: nat,
    phase: Phase, phaseStartedAt: int, startedAt: int, elapsed: nat, lastActivityAt: int, health: Health,
    changedFiles: nat, validation: Validation)

  datatype Error = InvalidIdentity | InvalidPolicy | InvalidCount | Missing | StaleWriter | IsTerminal | StalePhase

  datatype Result = Ok(record: Record) | Err(error: Error)

  /** What an update may set; `None` leaves the field. */
  datatype Change = Change(phase: Option<Phase>, changedFiles: Option<int>, validation: Option<Validation>)

  type Path = string

  /** `issue-{issue}.json` */
  function PathOf(issue: nat): Path {
    "issue-" + (Decimal.Print(issue) + ".json")
  }

  lemma PathsAreDistinct(m: nat, n: nat)
    requires PathOf(m) == PathOf(n)
    ensures m == n
  {
    var a, b := Decimal.Print(m) + ".json", Decimal.Print(n) + ".json";
    assert PathOf(m)[6..] == a && PathOf(n)[6..] == b;
    assert Decimal.Print(m) == a[..|a| - 5];
    Decimal.PrintInjective(m, n);
  }

  function Seconds(now: int): int {
    now / 1_000_000
  }

  predicate IsHex(s: string) {
    |s| == 64 && forall c :: c in s ==> '0' <= c <= '9' || 'a' <= c <= 'f'
  }

  const MICROSECONDS := 1_000_000

  /** The clock shows `now` within the second `t`. */
  ghost predicate IsSecond(t: int, now: int) {
    t * MICROSECONDS <= now < (t + 1) * MICROSECONDS
  }

  ghost predicate IsDigit16(c: char) {
    c in {'0', '1', '2', '3', '4', '5', '6', '7', '8', '9', 'a', 'b', 'c', 'd', 'e', 'f'}
  }

  ghost predicate OnlyDigits16(s: string) {
    forall i :: 0 <= i < |s| ==> IsDigit16(s[i])
  }

  lemma HexMeans(s: string)
    ensures IsHex(s) <==> |s| == 64 && OnlyDigits16(s)
  {
    forall i | 0 <= i < |s|
      ensures s[i] in s && (IsDigit16(s[i]) <==> '0' <= s[i] <= '9' || 'a' <= s[i] <= 'f')
    {
    }
  }

  function Started(previous: Option<Record>, issue: int, milestone: string, policy: Policy, writer: Writer,
                   now: int): Record {
    Record(issue, milestone, policy, writer, if previous.Some? then previous.value.generation + 1 else 1, 1,
           Preparing, Seconds(now), Seconds(now), 0, Seconds(now), Active, 0, NotStarted)
  }

  /** Whole seconds since the start, never negative. */
  function Elapsed(startedAt: int, now: int): nat {
    if now < startedAt * 1_000_000 then 0 else (now - startedAt * 1_000_000) / 1_000_000
  }

  function Changed(r: Record, change: Change, now: int): Record
    requires change.changedFiles.Some? ==> change.changedFiles.value >= 0
  {
    var moved := change.phase.Some? && change.phase.value != r.phase;
    var phase := if moved then change.phase.value else r.phase;
    r.(phase := phase,
       phaseStartedAt := if moved then Seconds(now) else r.phaseStartedAt,
       changedFiles := if change.changedFiles.Some? then change.changedFiles.value else r.changedFiles,
       validation := if change.validation.Some? then change.validation.value else r.validation,
       revision := r.revision + 1,
       lastActivityAt := Seconds(now),
       elapsed := Elapsed(r.startedAt, now),
       health := if phase.Completed? then HealthCompleted else if phase.Failed? then HealthFailed else Active)
  }

  predicate Regresses(from: Phase, to: Phase) {
    to != from && !Terminal(to) && Position(to) < Position(from)
  }

  function Updated(current: Option<Record>, writer: Writer, generation: int, change: Change, now: int): Result {
    if change.changedFiles.Some? && change.changedFiles.value < 0 then Err(InvalidCount)
    else if current.None? then Err(Missing)
    else if current.value.writer != writer || current.value.generation != generation then Err(StaleWriter)
    else if Terminal(current.value.phase) then Err(IsTerminal)
    else if change.phase.Some? && Regresses(current.value.phase, change.phase.value) then Err(StalePhase)
    else Ok(Changed(current.value, change, now))
  }

  ghost function Given<T>(asked: Option<T>, current: T): T {
    if asked.Some? then asked.value else current
  }

  /** What a call may write over `r`: progress, stamped with the current second, under the same lease. */
  ghost predicate Progress(r: Record, change: Change, now: int, to: Record) {
    && to.issue == r.issue && to.milestone == r.milestone && to.policy == r.policy
    && to.writer == r.writer && to.generation == r.generation && to.startedAt == r.startedAt
    && to.revision == r.revision + 1
    && to.phase == Given(change.phase, r.phase)
    && (if to.phase == r.phase then to.phaseStartedAt == r.phaseStartedAt else IsSecond(to.phaseStartedAt, now))
    && to.changedFiles == Given(change.changedFiles, r.changedFiles)
    && to.validation == Given(change.validation, r.validation)
    && IsSecond(to.lastActivityAt, now)
    && (if now < r.startedAt * MICROSECONDS then to.elapsed == 0 else IsSecond(r.startedAt + to.elapsed, now))
    && (to.phase == Completed <==> to.health == HealthCompleted)
    && (to.phase == Failed <==> to.health == HealthFailed)
  }

  lemma ChangedIsProgress(r: Record, change: Change, now: int)
    requires change.changedFiles.Some? ==> change.changedFiles.value >= 0
    ensures Progress(r, change, now, Changed(r, change, now))
  {
  }

  /** A phase may be asked for when it is terminal or not listed before the current one. */
  ghost predicate MayMove(change: Change, from: Phase) {
    change.phase.Some? && change.phase.value !in {Completed, Failed} ==> NotBefore(change.phase.value, from)
  }

  lemma MayMoveIff(change: Change, from: Phase)
    requires !Terminal(from)
    ensures MayMove(change, from) <==> !(change.phase.Some? && Regresses(from, change.phase.value))
  {
    if change.phase.Some? && !Terminal(change.phase.value) {
      NotBeforeIff(change.phase.value, from);
    }
  }

  /** The first record of a lease, over the one before it. */
  ghost predicate FreshLease(previous: Option<Record>, r: Record, now: int) {
    && IsSecond(r.startedAt, now) && r.phaseStartedAt == r.lastActivityAt == r.startedAt && r.elapsed == 0
    && r.revision == 1 && r.phase == Preparing && r.health == Active
    && r.changedFiles == 0 && r.validation == NotStarted
    && r.generation == if previous.Some? then previous.value.generation + 1 else 1
  }

  // ----- Retention -----

  datatype Limits = Limits(maxTerminal: nat, maxRecords: nat, maxAgeSeconds: nat)

  type Records = map<Path, Record>

  /** The order of strings. */
  predicate LexLess(a: string, b: string) {
    b != "" && (a == "" || a[0] < b[0] || (a[0] == b[0] && LexLess(a[1..], b[1..])))
  }

  lemma {:induction false} LexTotal(a: string, b: string)
    ensures a == b || LexLess(a, b) || LexLess(b, a)
  {
    if a != "" && b != "" && a[0] == b[0] {
      LexTotal(a[1..], b[1..]);
      assert a[1..] == b[1..] ==> a == [a[0]] + a[1..] == [b[0]] + b[1..] == b;
    }
  }

  lemma {:induction false} LexTransitive(a: string, b: string, c: string)
    requires LexLess(a, b) && LexLess(b, c)
    ensures LexLess(a, c)
  {
    if a != "" && a[0] == b[0] == c[0] {
      LexTransitive(a[1..], b[1..], c[1..]);
    }
  }

  lemma {:induction false} LexIrreflexive(a: string)
    ensures !LexLess(a, a)
  {
    if a != "" {
      LexIrreflexive(a[1..]);
    }
  }

  /** `p` comes before `q` in a list of (last activity, path) pairs sorted downwards. */
  predicate Ahead(records: Records, p: Path, q: Path)
    requires p in records && q in records
  {
    || records[p].lastActivityAt > records[q].lastActivityAt
    || (records[p].lastActivityAt == records[q].lastActivityAt && LexLess(q, p))
  }

  lemma AheadOrders(records: Records, p: Path, q: Path, r: Path)
    requires p in records && q in records && r in records
    ensures !Ahead(records, p, p)
    ensures p != q ==> Ahead(records, p, q) || Ahead(records, q, p)
    ensures Ahead(records, p, q) && Ahead(records, q, r) ==> Ahead(records, p, r)
  {
    LexIrreflexive(p);
    LexTotal(p, q);
    if LexLess(r, q) && LexLess(q, p) {
      LexTransitive(r, q, p);
    }
  }

  /** Those of `among` that come before `p`. */
  function AheadOf(records: Records, among: set<Path>, p: Path): set<Path>
    requires among <= records.Keys && p in records
  {
    set q | q in among && Ahead(records, q, p)
  }

  function Rank(records: Records, among: set<Path>, p: Path): nat
    requires among <= records.Keys && p in records
  {
    |AheadOf(records, among, p)|
  }

  function TerminalPaths(records: Records): (r: set<Path>)
    ensures r <= records.Keys
  {
    set p | p in records && Terminal(records[p].phase)
  }

  predicate Old(r: Record, limits: Limits, now: int) {
    now - r.lastActivityAt * 1_000_000 > limits.maxAgeSeconds * 1_000_000
  }

  /** Which records a cleanup leaves. */
  predicate Survives(records: Records, limits: Limits, now: int, p: Path)
    requires p in records
  {
    && Rank(records, records.Keys, p) < limits.maxRecords
    && (Terminal(records[p].phase) ==>
          Rank(records, TerminalPaths(records), p) < limits.maxTerminal && !Old(records[p], limits, now))
  }

  function Retained(records: Records, limits: Limits, now: int): Records {
    map p | p in records && Survives(records, limits, now, p) :: records[p]
  }

  /** The paths of `among`, sorted downwards. */
  ghost predicate SortedDown(records: Records, among: set<Path>, s: seq<Path>)
    requires among <= records.Keys
  {
    && Elems(s) == among
    && (forall i :: 0 <= i < |s| ==> s[i] in records)
    && (forall i, j :: 0 <= i < j < |s| ==> Ahead(records, s[i], s[j]))
  }

  lemma InsertedElems(s: seq<Path>, p: Path, i: nat)
    requires i <= |s|
    ensures Elems(s[..i] + [p] + s[i..]) == Elems(s) + {p}
  {
    assert s == s[..i] + s[i..];
    assert forall x :: x in s[..i] + [p] + s[i..] <==> x in s || x == p;
  }

  lemma InsertedSorted(records: Records, s: seq<Path>, p: Path, i: nat)
    requires Elems(s) <= records.Keys && SortedDown(records, Elems(s), s) && p in records && i <= |s|
    requires forall k :: 0 <= k < i ==> Ahead(records, s[k], p)
    requires forall k :: i <= k < |s| ==> Ahead(records, p, s[k])
    ensures var r := s[..i] + [p] + s[i..];
      && (forall k :: 0 <= k < |r| ==> r[k] in records)
      && (forall k, m :: 0 <= k < m < |r| ==> Ahead(records, r[k], r[m]))
  {
    var r := s[..i] + [p] + s[i..];
    forall k | 0 <= k < |r|
      ensures r[k] == if k < i then s[k] else if k == i then p else s[k - 1]
    {
    }
  }

  method Insert(records: Records, s: seq<Path>, p: Path) returns (r: seq<Path>)
    requires Elems(s) <= records.Keys && SortedDown(records, Elems(s), s) && p in records && p !in s
    ensures Elems(r) == Elems(s) + {p} && SortedDown(records, Elems(r), r)
  {
    var i := 0;
    while i < |s| && Ahead(records, s[i], p)
      invariant i <= |s|
      invariant forall k :: 0 <= k < i ==> Ahead(records, s[k], p)
    {
      i := i + 1;
    }
    forall k | i <= k < |s|
      ensures Ahead(records, p, s[k])
    {
      AheadOrders(records, p, s[i], s[k]);
    }
    r := s[..i] + [p] + s[i..];
    InsertedElems(s, p, i);
    InsertedSorted(records, s, p, i);
  }

  /** `sort(reverse=True)` on the (last activity, path) pairs. */
  method SortDown(records: Records, among: set<Path>) returns (s: seq<Path>)
    requires among <= records.Keys
    ensures SortedDown(records, among, s)
  {
    s := [];
    var left := among;
    while left != {}
      invariant left <= among && Elems(s) == among - left
      invariant SortedDown(records, Elems(s), s)
    {
      var p :| p in left;
      s := Insert(records, s, p);
      left := left - {p};
    }
  }

  /** The index in the sorted list is the number of records ahead. */
  lemma IndexIsRank(records: Records, among: set<Path>, s: seq<Path>, k: nat)
    requires among <= records.Keys && SortedDown(records, among, s) && k < |s|
    ensures Rank(records, among, s[k]) == k
  {
    var front := s[..k];
    forall i, j | 0 <= i < j < |s|
      ensures s[i] != s[j]
    {
      AheadOrders(records, s[i], s[i], s[i]);
    }
    ElemsCardinality(front);
    forall q
      ensures q in Elems(front) <==> q in AheadOf(records, among, s[k])
    {
      if q in AheadOf(records, among, s[k]) {
        var i :| 0 <= i < |s| && s[i] == q;
        AheadOrders(records, q, s[k], q);
        assert i < k;
        assert front[i] == q;
      }
    }
    assert Elems(front) == AheadOf(records, among, s[k]);
  }

  /** The terminal records a cleanup removes for their own sake. */
  function Expired(records: Records, limits: Limits, now: int): (r: set<Path>)
    ensures r <= TerminalPaths(records)
  {
    set p | p in TerminalPaths(records)
      && (Rank(records, TerminalPaths(records), p) >= limits.maxTerminal || Old(records[p], limits, now))
  }

  /** The index in the sorted list of terminal records decides which of them expire. */
  lemma ExpiredByIndex(records: Records, terminal: seq<Path>, limits: Limits, now: int)
    requires SortedDown(records, TerminalPaths(records), terminal)
    ensures Expired(records, limits, now) <= Elems(terminal)
    ensures forall k :: 0 <= k < |terminal| ==>
      (terminal[k] in Expired(records, limits, now)
       <==> k >= limits.maxTerminal || Old(records[terminal[k]], limits, now))
  {
    forall k | 0 <= k < |terminal|
      ensures terminal[k] in Expired(records, limits, now)
              <==> k >= limits.maxTerminal || Old(records[terminal[k]], limits, now)
    {
      assert terminal[k] in Elems(terminal);
      IndexIsRank(records, TerminalPaths(records), terminal, k);
    }
  }

  /** The first loop: one pass over the sorted terminal records. */
  method ExpireTerminal(records: Records, terminal: seq<Path>, limits: Limits, now: int, ghost expired: set<Path>)
    returns (kept: Records)
    requires forall k :: 0 <= k < |terminal| ==> terminal[k] in records
    requires forall k :: 0 <= k < |terminal| ==>
      (terminal[k] in expired <==> k >= limits.maxTerminal || Old(records[terminal[k]], limits, now))
    requires expired <= Elems(terminal)
    ensures kept == records - expired
  {
    kept := records;
    for index := 0 to |terminal|
      invariant forall p :: p in kept ==> p in records && kept[p] == records[p]
      invariant forall p :: p in records && p !in kept ==> p in expired
      invariant forall k :: 0 <= k < index && terminal[k] in kept ==> terminal[k] !in expired
    {
      if index >= limits.maxTerminal || Old(records[terminal[index]], limits, now) {
        kept := kept - {terminal[index]};
      }
    }
    forall p | p in expired
      ensures p !in kept
    {
      assert p in Elems(terminal);
      var k :| 0 <= k < |terminal| && terminal[k] == p;
    }
  }

  /** `_cleanup_unlocked`: two lists sorted once, then files removed. */
  method Cleanup(records: Records, limits: Limits, now: int) returns (kept: Records)
    ensures kept == Retained(records, limits, now)
  {
    var terminal := SortDown(records, TerminalPaths(records));
    var all := SortDown(records, records.Keys);
    ExpiredByIndex(records, terminal, limits, now);
    kept := ExpireTerminal(records, terminal, limits, now, Expired(records, limits, now));
    BeyondIsTail(records, all, limits);
    kept := RemoveFrom(kept, all, limits.maxRecords, Beyond(records, limits));
    SurvivorsAre(records, limits, now);
  }

  lemma SurvivorsAre(records: Records, limits: Limits, now: int)
    ensures Retained(records, limits, now) == records - Expired(records, limits, now) - Beyond(records, limits)
  {
  }

  /** The records past the first `maxRecords`. */
  function Beyond(records: Records, limits: Limits): (r: set<Path>)
    ensures r <= records.Keys
  {
    set p | p in records && Rank(records, records.Keys, p) >= limits.maxRecords
  }

  lemma BeyondIsTail(records: Records, all: seq<Path>, limits: Limits)
    requires SortedDown(records, records.Keys, all)
    ensures forall k :: 0 <= k < |all| ==> (all[k] in Beyond(records, limits) <==> k >= limits.maxRecords)
  {
    forall k | 0 <= k < |all|
      ensures Rank(records, records.Keys, all[k]) == k
    {
      IndexIsRank(records, records.Keys, all, k);
    }
  }

  /** Removes what `s` lists from position `from` on. */
  method RemoveFrom(start: Records, s: seq<Path>, from: nat, ghost tail: set<Path>) returns (kept: Records)
    requires forall k :: 0 <= k < |s| ==> (s[k] in tail <==> k >= from)
    requires start.Keys <= Elems(s)
    ensures kept == start - tail
  {
    kept := start;
    for i := from to if from <= |s| then |s| else from
      invariant forall p :: p in kept ==> p in start && kept[p] == start[p]
      invariant forall p :: p in start && p !in kept ==> p in tail
      invariant forall k :: from <= k < i && k < |s| ==> s[k] !in kept
    {
      kept := kept - {s[i]};
    }
    forall p | p in start && p in tail
      ensures p !in kept
    {
      assert p in Elems(s);
      var k :| 0 <= k < |s| && s[k] == p;
    }
  }

  /** The first `m` of `among`. */
  function Front(records: Records, among: set<Path>, m: nat): set<Path>
    requires among <= records.Keys
  {
    set p | p in among && Rank(records, among, p) < m
  }

  /** Two paths are never equally far back. */
  lemma SameRank(records: Records, among: set<Path>, p: Path, q: Path)
    requires among <= records.Keys && p in among && q in among && Rank(records, among, p) == Rank(records, among, q)
    ensures p == q
  {
    AheadOrders(records, p, q, p);
    if p != q {
      var a, b := if Ahead(records, p, q) then p else q, if Ahead(records, p, q) then q else p;
      forall x | x in AheadOf(records, among, a)
        ensures x in AheadOf(records, among, b)
      {
        AheadOrders(records, x, a, b);
      }
      AheadOrders(records, a, a, a);
      assert a in AheadOf(records, among, b) && a !in AheadOf(records, among, a);
      SubsetCardinality(AheadOf(records, among, a), AheadOf(records, among, b));
    }
  }

  /** One place further back there is at most one more record. */
  lemma FrontGrows(records: Records, among: set<Path>, m: nat)
    requires among <= records.Keys
    ensures |Front(records, among, m + 1)| <= |Front(records, among, m)| + 1
  {
    var high, low := Front(records, among, m + 1), Front(records, among, m);
    assert low <= high && high == low + (high - low);
    if p :| p in high - low {
      forall q | q in high - low
        ensures q == p
      {
        SameRank(records, among, p, q);
      }
      assert high - low == {p};
    }
  }

  lemma {:induction false} FrontIsSmall(records: Records, among: set<Path>, m: nat)
    requires among <= records.Keys
    ensures |Front(records, among, m)| <= m
  {
    if m == 0 {
      assert Front(records, among, m) == {};
    } else {
      FrontIsSmall(records, among, m - 1);
      FrontGrows(records, among, m - 1);
    }
  }

  /**
   After a cleanup: the bounds hold, no terminal record is too old, survivors are as they were, a record of running
   work was removed only behind `maxRecords` others, and a terminal one for its age or behind too many others.
   */
  lemma RetentionBounds(records: Records, limits: Limits, now: int)
    ensures var kept := Retained(records, limits, now);
      && |kept| <= limits.maxRecords
      && |TerminalPaths(kept)| <= limits.maxTerminal
      && (forall p :: p in kept ==> p in records && kept[p] == records[p])
      && (forall p :: p in kept && Terminal(kept[p].phase) ==>
            now <= (kept[p].lastActivityAt + limits.maxAgeSeconds) * MICROSECONDS)
      && (forall p :: p in records && p !in kept && !Terminal(records[p].phase) ==>
            Rank(records, records.Keys, p) >= limits.maxRecords)
      && (forall p :: p in records && p !in kept ==>
            || Rank(records, records.Keys, p) >= limits.maxRecords
            || (Terminal(records[p].phase)
                && (|| Rank(records, TerminalPaths(records), p) >= limits.maxTerminal
                    || now > (records[p].lastActivityAt + limits.maxAgeSeconds) * MICROSECONDS)))
  {
    var kept := Retained(records, limits, now);
    FrontIsSmall(records, records.Keys, limits.maxRecords);
    SubsetCardinality(kept.Keys, Front(records, records.Keys, limits.maxRecords));
    assert |kept| == |kept.Keys|;
    FrontIsSmall(records, TerminalPaths(records), limits.maxTerminal);
    SubsetCardinality(TerminalPaths(kept), Front(records, TerminalPaths(records), limits.maxTerminal));
  }

  // ----- The store -----

  predicate ValidStart(issue: nat, milestone: string, policy: Policy) {
    issue >= 1 && 1 <= |milestone| <= 200 && policy.generation >= 0 && IsHex(policy.digest)
  }

  function Lookup(records: Records, issue: nat): Option<Record> {
    if PathOf(issue) in records then Some(records[PathOf(issue)]) else None
  }

  /** `HeartbeatStore`; its file lock makes each method one step. */
  class HeartbeatStore {
    const limits: Limits
    var records: Records
    ghost var issued: set<Writer>

    constructor (limits: Limits)
      ensures this.limits == limits && records == map[] && issued == {}
    {
      this.limits, records, issued := limits, map[], {};
    }

    method Start(issue: nat, milestone: string, policy: Policy, writer: Writer, now: int) returns (r: Result)
      requires writer !in issued
      modifies this
      ensures r.Ok? <==> ValidStart(issue, milestone, policy)
      ensures r.Ok? <==>
        && issue >= 1 && 1 <= |milestone| <= 200 && policy.generation >= 0
        && |policy.digest| == 64 && OnlyDigits16(policy.digest)
      ensures r.Ok? ==>
        && r.record == Started(Lookup(old(records), issue), issue, milestone, policy, writer, now)
        && r.record.issue == issue && r.record.milestone == milestone && r.record.policy == policy
        && r.record.writer == writer && FreshLease(Lookup(old(records), issue), r.record, now)
        && records == Retained(old(records)[PathOf(issue) := r.record], limits, now)
        && issued == old(issued) + {writer}
      ensures r.Err? ==> records == old(records) && issued == old(issued)
    {
      HexMeans(policy.digest);
      if issue < 1 || milestone == "" || |milestone| > 200 {
        return Err(InvalidIdentity);
      }
      if policy.generation < 0 || !IsHex(policy.digest) {
        return Err(InvalidPolicy);
      }
      var document := Started(Lookup(records, issue), issue, milestone, policy, writer, now);
      var written := records[PathOf(issue) := document];
      records := Cleanup(written, limits, now);
      issued := issued + {writer};
      r := Ok(document);
    }

    method Update(issue: nat, writer: Writer, generation: int, change: Change, now: int) returns (r: Result)
      modifies this
      ensures r == Updated(Lookup(old(records), issue), writer, generation, change, now)
      ensures r.Ok? <==>
        && (change.changedFiles.Some? ==> change.changedFiles.value >= 0)
        && PathOf(issue) in old(records)
        && var current := old(records)[PathOf(issue)];
        && current.writer == writer && current.generation == generation
        && current.phase !in {Completed, Failed}
        && MayMove(change, current.phase)
      ensures r.Ok? ==> Progress(old(records)[PathOf(issue)], change, now, r.record)
      ensures r.Ok? ==> records == Retained(old(records)[PathOf(issue) := r.record], limits, now)
      ensures r.Err? ==> records == old(records)
      ensures issued == old(issued)
    {
      if change.changedFiles.Some? && change.changedFiles.value < 0 {
        return Err(InvalidCount);
      }
      var found := Lookup(records, issue);
      if found.None? {
        return Err(Missing);
      }
      var current := found.value;
      if current.writer != writer || current.generation != generation {
        return Err(StaleWriter);
      }
      if Terminal(current.phase) {
        return Err(IsTerminal);
      }
      MayMoveIff(change, current.phase);
      if change.phase.Some? && change.phase.value != current.phase
         && !Terminal(change.phase.value) && Position(change.phase.value) < Position(current.phase) {
        return Err(StalePhase);
      }
      ChangedIsProgress(current, change, now);
      var document := Changed(current, change, now);
      var written := records[PathOf(issue) := document];
      records := Cleanup(written, limits, now);
      r := Ok(document);
    }
  }
}
