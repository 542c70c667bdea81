/**
 Which milestone lists the supervisor can walk to the end: the event that records a move has a unique fingerprint,
 and two different moves may share one.
 */
module Rollover {
  import opened Sequences
  import opened Supervisor

  const SEPARATOR := ":advanced:"

  // ----- When two moves share a fingerprint -----

  lemma FingerprintText(a: string, b: string)
    ensures MilestoneFingerprint(a, b) == "milestone:" + (a + (SEPARATOR + b))
  {
  }

  /** The fingerprints are equal exactly when what follows their common front is. */
  lemma SameFingerprint(a: string, b: string, c: string, d: string)
    ensures MilestoneFingerprint(a, b) == MilestoneFingerprint(c, d)
            <==> a + (SEPARATOR + b) == c + (SEPARATOR + d)
  {
    FingerprintText(a, b);
    FingerprintText(c, d);
    var front, x, y := "milestone:", a + (SEPARATOR + b), c + (SEPARATOR + d);
    assert (front + x)[|front|..] == x && (front + y)[|front|..] == y;
  }

  /** Two separators in one text overlap in a colon or not at all. */
  lemma Overlap(a: string, b: string, c: string, d: string)
    requires a + (SEPARATOR + b) == c + (SEPARATOR + d) && |a| < |c|
    ensures |a| + 9 <= |c|
  {
    var text := a + (SEPARATOR + b);
    assert text[|c|] == ':';
    assert forall k :: 0 <= k < |SEPARATOR| ==> text[|a| + k] == SEPARATOR[k];
    assert forall k :: 0 < k < 9 ==> SEPARATOR[k] != ':';
  }

  /** The title `c` holds `a` and a separator, whose last colon may be the one behind `c`. */
  predicate Covers(a: string, c: string) {
    a + SEPARATOR <= c + ":"
  }

  lemma CoversFront(a: string, c: string, d: string)
    requires Covers(a, c)
    ensures a + SEPARATOR <= c + (SEPARATOR + d)
  {
    var x, y := c + ":", c + (SEPARATOR + d);
    assert forall i :: 0 <= i < |x| ==> x[i] == y[i];
  }

  /** With `a` the shorter one, the moves a -> b and c -> d share a fingerprint exactly when these titles say so. */
  lemma SharedIff(a: string, b: string, c: string, d: string)
    requires |a| < |c|
    ensures MilestoneFingerprint(a, b) == MilestoneFingerprint(c, d)
            <==> Covers(a, c) && b == (c + (SEPARATOR + d))[|a| + |SEPARATOR|..]
  {
    SameFingerprint(a, b, c, d);
    var x, y := a + (SEPARATOR + b), c + (SEPARATOR + d);
    if x == y {
      Overlap(a, b, c, d);
      var short, long := a + SEPARATOR, c + ":";
      assert forall i :: 0 <= i < |short| ==> short[i] == x[i];
      assert forall i :: 0 <= i < |long| ==> long[i] == y[i];
      assert x[|short|..] == b;
    }
    if Covers(a, c) && b == y[|a| + |SEPARATOR|..] {
      CoversFront(a, c, d);
      assert y == y[..|a| + |SEPARATOR|] + y[|a| + |SEPARATOR|..];
      assert a + SEPARATOR == y[..|a| + |SEPARATOR|];
      Associative(a, SEPARATOR, b);
    }
  }

  /** Moves out of titles of one length have different fingerprints when they differ. */
  lemma SameLength(a: string, b: string, c: string, d: string)
    requires |a| == |c| && MilestoneFingerprint(a, b) == MilestoneFingerprint(c, d)
    ensures a == c && b == d
  {
    SameFingerprint(a, b, c, d);
    var x, y := a + (SEPARATOR + b), c + (SEPARATOR + d);
    assert a == x[..|a|] && c == y[..|c|];
    assert b == x[|a| + |SEPARATOR|..] && d == y[|c| + |SEPARATOR|..];
  }

  /** Some moves out of `a` and out of the longer `c` share a fingerprint exactly when `c` covers `a`. */
  lemma ClashIff(a: string, c: string)
    requires |a| < |c|
    ensures (exists b, d :: MilestoneFingerprint(a, b) == MilestoneFingerprint(c, d)) <==> Covers(a, c)
  {
    if Covers(a, c) {
      CoversFront(a, c, "");
      var b := (c + (SEPARATOR + ""))[|a| + |SEPARATOR|..];
      SharedIff(a, b, c, "");
    }
    if b, d :| MilestoneFingerprint(a, b) == MilestoneFingerprint(c, d) {
      SharedIff(a, b, c, d);
    }
  }

  /** The move c -> d can be mistaken for a -> b, out of the shorter title. */
  predicate Hides(a: string, b: string, c: string, d: string) {
    |a| < |c| && Covers(a, c) && b == (c + (SEPARATOR + d))[|a| + |SEPARATOR|..]
  }

  /** Moves out of different titles share a fingerprint exactly when one hides the other. */
  lemma HidesIff(a: string, b: string, c: string, d: string)
    requires a != c
    ensures MilestoneFingerprint(a, b) == MilestoneFingerprint(c, d) <==> Hides(a, b, c, d) || Hides(c, d, a, b)
  {
    if |a| < |c| {
      SharedIff(a, b, c, d);
    } else if |c| < |a| {
      SharedIff(c, d, a, b);
    } else if MilestoneFingerprint(a, b) == MilestoneFingerprint(c, d) {
      SameLength(a, b, c, d);
    }
  }

  // ----- Lists -----

  /** The fingerprint of the move from position `k` of the list. */
  function EdgePrint(c: Config, k: nat): string
    requires k + 1 < |c.authorized|
  {
    MilestoneFingerprint(c.authorized[k], c.authorized[k + 1])
  }

  /** The move from position `j` can be mistaken for the one from position `i`. */
  ghost predicate InTheWay(c: Config, i: nat, j: nat) {
    && i + 1 < |c.authorized| && j + 1 < |c.authorized|
    && Hides(c.authorized[i], c.authorized[i + 1], c.authorized[j], c.authorized[j + 1])
  }

  /** No move between the positions `from` and `to` of the list hides another: a condition on the titles alone. */
  ghost predicate Clear(c: Config, from: nat, to: nat) {
    forall i: nat, j: nat :: from <= i < to && from <= j < to && i != j ==> !InTheWay(c, i, j)
  }

  lemma EdgeIff(c: Config, i: nat, j: nat)
    requires WellFormed(c) && i != j && i + 1 < |c.authorized| && j + 1 < |c.authorized|
    ensures EdgePrint(c, i) == EdgePrint(c, j) <==> InTheWay(c, i, j) || InTheWay(c, j, i)
  {
    HidesIff(c.authorized[i], c.authorized[i + 1], c.authorized[j], c.authorized[j + 1]);
  }

  lemma DifferentIsClear(c: Config, from: nat, to: nat)
    requires WellFormed(c) && to < |c.authorized|
    requires forall i: nat, j: nat :: from <= i < j < to ==> EdgePrint(c, i) != EdgePrint(c, j)
    ensures Clear(c, from, to)
  {
    forall i: nat, j: nat | from <= i < to && from <= j < to && i != j
      ensures !InTheWay(c, i, j)
    {
      EdgeIff(c, i, j);
    }
  }

  /** `:advanced` stands at position `k` of the title. */
  ghost predicate HoldsAt(title: string, k: nat) {
    k + 9 <= |title| && title[k..k + 9] == SEPARATOR[..9]
  }

  lemma CoveredHolds(a: string, title: string)
    ensures Covers(a, title) ==> HoldsAt(title, |a|)
  {
    var text := a + SEPARATOR;
    if Covers(a, title) {
      assert forall k :: 0 <= k < |text| ==> text[k] == (title + ":")[k];
      assert forall k :: 0 <= k < 9 ==> title[|a| + k] == text[|a| + k] == SEPARATOR[k];
    }
  }

  /** Titles without the front of the separator are never in each other's way. */
  lemma PlainTitlesAreClear(c: Config, from: nat, to: nat)
    requires forall title, k: nat :: title in c.authorized ==> !HoldsAt(title, k)
    ensures Clear(c, from, to)
  {
    forall i: nat, j: nat | i < |c.authorized| && j < |c.authorized|
      ensures !Covers(c.authorized[i], c.authorized[j])
    {
      CoveredHolds(c.authorized[i], c.authorized[j]);
    }
  }

  // ----- When the next move can be made -----

  ghost predicate OnCourse(s: System, c: Config, start: nat) {
    WellFormed(c) && OnTrack(s, c, start) && ChecksHold(s, c, start)
  }

  /** The event of the next move is taken. */
  ghost predicate Blocked(s: System, c: Config, start: nat)
    requires OnTrack(s, c, start)
  {
    start + |s.moves| + 1 < |c.authorized| && EdgePrint(c, start + |s.moves|) in s.events
  }

  lemma CourseStep(s: System, a: Action, c: Config, start: nat)
    requires OnCourse(s, c, start) && Enabled(s, a, c)
    ensures OnCourse(Perform(s, a, c), c, start)
  {
    MilestoneStep(s, a, c, start);
    ChecksStep(s, a, c, start);
  }

  /** Whatever a process does, a blocked milestone does not move. */
  lemma BlockedStep(s: System, a: Action, c: Config, start: nat)
    requires OnCourse(s, c, start) && Blocked(s, c, start) && Enabled(s, a, c)
    ensures Perform(s, a, c).moves == s.moves && s.events <= Perform(s, a, c).events
  {
    PositionUnique(c.authorized, start + |s.moves|);
  }

  /** It never moves again. */
  lemma {:induction false} BlockedForGood(s: System, acts: seq<Action>, c: Config, start: nat)
    requires OnCourse(s, c, start) && Blocked(s, c, start) && Behaviour(s, acts, c)
    ensures Reached(s, acts, c).moves == s.moves
    ensures OnCourse(Reached(s, acts, c), c, start) && Blocked(Reached(s, acts, c), c, start)
    decreases |acts|
  {
    if acts != [] {
      var init, last := acts[..|acts| - 1], acts[|acts| - 1];
      BlockedForGood(s, init, c, start);
      CourseStep(Reached(s, init, c), last, c, start);
      BlockedStep(Reached(s, init, c), last, c, start);
    }
  }

  lemma Extend(s: System, acts: seq<Action>, a: Action, c: Config) returns (longer: seq<Action>)
    requires Behaviour(s, acts, c) && Enabled(Reached(s, acts, c), a, c)
    ensures longer == acts + [a] && Behaviour(s, longer, c)
    ensures Reached(s, longer, c) == Perform(Reached(s, acts, c), a, c)
  {
    longer := acts + [a];
    assert longer[..|longer| - 1] == acts;
  }

  /** `t` is `s` one move further, its processes as they were. */
  ghost predicate MovedOn(s: System, t: System, c: Config, k: nat)
    requires k + 1 < |c.authorized|
  {
    && t.moves == s.moves + [(c.authorized[k], c.authorized[k + 1])]
    && t.events == s.events + {EdgePrint(c, k)}
    && t.threads == s.threads && Active(t, c) == c.authorized[k + 1] && Get(t.settings, Paused, "") != "true"
  }

  /** Automation is resumed, and a process reads the active milestone, verifies the next one and moves on. */
  lemma MoveOn(s: System, acts: seq<Action>, c: Config, tid: Tid, k: nat) returns (longer: seq<Action>)
    requires WellFormed(c) && Behaviour(s, acts, c) && k + 1 < |c.authorized|
    requires var t := Reached(s, acts, c);
      tid !in t.threads && Active(t, c) == c.authorized[k] && EdgePrint(c, k) !in t.events
    ensures Behaviour(s, longer, c) && MovedOn(Reached(s, acts, c), Reached(s, longer, c), c, k)
  {
    PositionUnique(c.authorized, k);
    longer := Extend(s, acts, SetPaused(false), c);
    longer := Extend(s, longer, CheckFrom(tid, c.authorized[k], c.authorized[k + 1]), c);
    longer := Extend(s, longer, CheckNext(tid), c);
    longer := Extend(s, longer, Advance(tid), c);
  }

  lemma {:induction false} FreshTid(taken: set<Tid>) returns (tid: Tid)
    ensures forall t :: t in taken ==> t < tid
    decreases |taken|
  {
    if taken == {} {
      tid := 0;
    } else {
      var t :| t in taken;
      var above := FreshTid(taken - {t});
      assert taken == (taken - {t}) + {t};
      tid := if t < above then above else t + 1;
    }
  }

  /** From a state on course, the milestone can still move exactly when no event has its next move's fingerprint. */
  lemma CanMoveIff(s: System, c: Config, start: nat)
    requires OnCourse(s, c, start) && start + |s.moves| + 1 < |c.authorized|
    ensures (exists acts :: Behaviour(s, acts, c) && Reached(s, acts, c).moves != s.moves)
            <==> EdgePrint(c, start + |s.moves|) !in s.events
  {
    var k := start + |s.moves|;
    if EdgePrint(c, k) in s.events {
      forall acts | Behaviour(s, acts, c)
        ensures Reached(s, acts, c).moves == s.moves
      {
        BlockedForGood(s, acts, c, start);
      }
    } else {
      var tid := FreshTid(s.threads.Keys);
      var acts := MoveOn(s, [], c, tid, k);
      assert |Reached(s, acts, c).moves| == |s.moves| + 1;
    }
  }

  /**
   In every reachable state the approved move to the next milestone of the list can be made, by some process at some
   time, exactly when no earlier event has its fingerprint; otherwise it is refused for good.
   */
  lemma NextMoveIff(s: System, before: seq<Action>, c: Config, to: string)
    requires WellFormed(c) && Initial(s, c) && Behaviour(s, before, c)
    requires var t := Reached(s, before, c); Active(t, c) in c.authorized && NextOf(c, Active(t, c)) == Some(to)
    ensures var t := Reached(s, before, c);
      (exists acts :: Behaviour(t, acts, c) && Reached(t, acts, c).moves != t.moves)
      <==> MilestoneFingerprint(Active(t, c), to) !in t.events
  {
    var t, start := Reached(s, before, c), PositionIn(c.authorized, Active(s, c));
    MilestoneHolds(s, before, c);
    PositionUnique(c.authorized, start + |t.moves|);
    CanMoveIff(t, c, start);
  }

  // ----- Which lists can be walked to the end -----

  /** Every move made is in the events, under a fingerprint of its own. */
  ghost predicate MovesRecorded(s: System) {
    && (forall i :: 0 <= i < |s.moves| ==> MilestoneFingerprint(s.moves[i].0, s.moves[i].1) in s.events)
    && (forall i, j :: 0 <= i < j < |s.moves| ==>
          MilestoneFingerprint(s.moves[i].0, s.moves[i].1) != MilestoneFingerprint(s.moves[j].0, s.moves[j].1))
  }

  lemma RecordedStep(s: System, a: Action, c: Config)
    requires MovesRecorded(s) && Enabled(s, a, c)
    ensures MovesRecorded(Perform(s, a, c))
  {
  }

  lemma {:induction false} RecordedHolds(s: System, acts: seq<Action>, c: Config)
    requires Initial(s, c) && Behaviour(s, acts, c)
    ensures MovesRecorded(Reached(s, acts, c))
    decreases |acts|
  {
    if acts != [] {
      RecordedHolds(s, acts[..|acts| - 1], c);
      RecordedStep(Reached(s, acts[..|acts| - 1], c), acts[|acts| - 1], c);
    }
  }

  /** A fresh start: nothing in the events names a move of the list. */
  ghost predicate Unwalked(s: System, c: Config, start: nat) {
    && start < |c.authorized| && Active(s, c) == c.authorized[start]
    && forall k :: start <= k && k + 1 < |c.authorized| ==> EdgePrint(c, k) !in s.events
  }

  function Prints(c: Config, from: nat, to: nat): set<string>
    requires to < |c.authorized|
  {
    set k | from <= k < to :: EdgePrint(c, k)
  }

  lemma LastPrintIsNew(s: System, c: Config, start: nat, end: nat)
    requires WellFormed(c) && Unwalked(s, c, start) && start < end < |c.authorized| && Clear(c, start, end)
    ensures EdgePrint(c, end - 1) !in s.events + Prints(c, start, end - 1)
  {
    forall k: nat | start <= k < end - 1
      ensures EdgePrint(c, k) != EdgePrint(c, end - 1)
    {
      EdgeIff(c, k, end - 1);
    }
  }

  /** A list that is clear up to `end` is walked up to there. */
  lemma {:induction false} Walk(s: System, c: Config, start: nat, end: nat) returns (acts: seq<Action>)
    requires WellFormed(c) && Initial(s, c) && Unwalked(s, c, start) && start <= end < |c.authorized|
    requires Clear(c, start, end)
    ensures Behaviour(s, acts, c)
    ensures var t := Reached(s, acts, c);
      && Active(t, c) == c.authorized[end] && |t.moves| == end - start && t.threads == map[]
      && t.events == s.events + Prints(c, start, end)
      && (start < end ==> Get(t.settings, Paused, "") != "true")
    decreases end
  {
    if start == end {
      acts := [];
    } else {
      acts := Walk(s, c, start, end - 1);
      LastPrintIsNew(s, c, start, end);
      assert Prints(c, start, end) == Prints(c, start, end - 1) + {EdgePrint(c, end - 1)};
      acts := MoveOn(s, acts, c, 0, end - 1);
    }
  }

  /**
   As far as its own moves are concerned, a list can be walked to the end, by some interleaving of processes,
   exactly when no move of it hides another.
   */
  lemma WalkIff(s: System, c: Config, start: nat)
    requires WellFormed(c) && Initial(s, c) && Unwalked(s, c, start)
    ensures var end := |c.authorized| - 1;
      (exists acts :: Behaviour(s, acts, c) && Active(Reached(s, acts, c), c) == c.authorized[end])
      <==> Clear(c, start, end)
  {
    var end := |c.authorized| - 1;
    if acts :| Behaviour(s, acts, c) && Active(Reached(s, acts, c), c) == c.authorized[end] {
      WalkedIsClear(s, acts, c, start);
    }
    if Clear(c, start, end) {
      var acts := Walk(s, c, start, end);
    }
  }

  lemma WalkedIsClear(s: System, acts: seq<Action>, c: Config, start: nat)
    requires WellFormed(c) && Initial(s, c) && Unwalked(s, c, start) && Behaviour(s, acts, c)
    requires Active(Reached(s, acts, c), c) == c.authorized[|c.authorized| - 1]
    ensures Clear(c, start, |c.authorized| - 1)
  {
    var end, t := |c.authorized| - 1, Reached(s, acts, c);
    PositionUnique(c.authorized, start);
    MilestoneHolds(s, acts, c);
    assert start + |t.moves| == end;
    RecordedHolds(s, acts, c);
    forall i: nat, j: nat | start <= i < j < end
      ensures EdgePrint(c, i) != EdgePrint(c, j)
    {
      assert t.moves[i - start] == (c.authorized[i], c.authorized[i + 1]);
      assert t.moves[j - start] == (c.authorized[j], c.authorized[j + 1]);
    }
    DifferentIsClear(c, start, end);
  }

  /** What the first two moves of the list below do, and the third. */
  lemma StickyList(c: Config)
    requires c.authorized == ["a", "b:advanced:c", "a:advanced:b", "c"] && c.milestone == "a"
    ensures WellFormed(c) && Clear(c, 0, 2) && EdgePrint(c, 0) == EdgePrint(c, 2)
  {
    var second, third := "b:advanced:c", "a:advanced:b";
    assert |second| == 12 && |third| == 12 && second[0] != third[0];
    assert NoDup(c.authorized);
    assert ("a" + SEPARATOR)[0] != (second + ":")[0];
    assert !Covers("a", second);
    assert !InTheWay(c, 0, 1) && !InTheWay(c, 1, 0);
    MilestoneFingerprintsClash("a", "b", "c");
    assert second == "b" + ":advanced:" + "c" && third == "a" + ":advanced:" + "b";
  }

  /**
   A list that cannot: its first and third moves share a fingerprint, so that after two moves no process can ever
   make the third, paused or not.
   */
  lemma RolloverCanStick(s: System, c: Config) returns (acts: seq<Action>)
    requires c.authorized == ["a", "b:advanced:c", "a:advanced:b", "c"] && c.milestone == "a"
    requires Initial(s, c) && Unwalked(s, c, 0)
    ensures WellFormed(c) && Behaviour(s, acts, c)
    ensures var t := Reached(s, acts, c);
      && Active(t, c) == "a:advanced:b" && NextOf(c, Active(t, c)) == Some("c")
      && Get(t.settings, Paused, "") != "true"
      && forall more :: Behaviour(t, more, c) ==> Reached(t, more, c).moves == t.moves && |t.moves| == 2
  {
    StickyList(c);
    PositionUnique(c.authorized, 0);
    PositionUnique(c.authorized, 2);
    acts := Walk(s, c, 0, 2);
    var t := Reached(s, acts, c);
    MilestoneHolds(s, acts, c);
    assert EdgePrint(c, 0) in Prints(c, 0, 2);
    forall more | Behaviour(t, more, c)
      ensures Reached(t, more, c).moves == t.moves
    {
      BlockedForGood(t, more, c, 0);
    }
  }
}
