/**
 The supervisor's queue slot and its active milestone (supervisor/fortify_supervisor.py), shared by processes that
 read settings one at a time and write in immediate transactions.
 */
module Supervisor {
  import opened Sequences
  import Decimal

  /** The settings the queue and the rollover use. */
  datatype Key = CurrentIssue | CurrentIssueTitle | ActiveMilestone | Paused | OtherSetting(name: string)

  type Settings = map<Key, string>

  function Get(settings: Settings, key: Key, fallback: string): string {
    if key in settings then settings[key] else fallback
  }

  function IssueFingerprint(issue: nat, milestone: string): string {
    "issue:" + (Decimal.Print(issue) + (":selected:" + milestone))
  }

  function MilestoneFingerprint(from: string, to: string): string {
    "milestone:" + from + ":advanced:" + to
  }

  function UntilColon(s: string): string {
    if s == "" || s[0] == ':' then "" else [s[0]] + UntilColon(s[1..])
  }

  lemma {:induction false} UntilFirstColon(a: string, x: string)
    requires ':' !in a
    ensures UntilColon(a + (":" + x)) == a
  {
    if a != "" {
      assert (a + (":" + x))[1..] == a[1..] + (":" + x);
      UntilFirstColon(a[1..], x);
      assert a == [a[0]] + a[1..];
    }
  }

  /** What can be read back from a selection's fingerprint. */
  lemma FingerprintParts(issue: nat, milestone: string)
    ensures var s, n := IssueFingerprint(issue, milestone), |Decimal.Print(issue)|;
      && |s| >= 16 + n && UntilColon(s[6..]) == Decimal.Print(issue) && s[16 + n..] == milestone
  {
    var digits := Decimal.Print(issue);
    var rest := "selected:" + milestone;
    assert ":selected:" + milestone == ":" + rest;
    assert IssueFingerprint(issue, milestone)[6..] == digits + (":" + rest);
    assert forall c :: c in digits ==> Decimal.IsDigit(c);
    UntilFirstColon(digits, rest);
  }

  /** The fingerprint of a selection names the issue and the milestone, whatever the milestone's title holds. */
  lemma IssueFingerprintInjective(i: nat, m: string, j: nat, n: string)
    requires IssueFingerprint(i, m) == IssueFingerprint(j, n)
    ensures i == j && m == n
  {
    FingerprintParts(i, m);
    FingerprintParts(j, n);
    Decimal.PrintInjective(i, j);
  }

  /** A move's fingerprint need not name the move, when a title holds the separator. */
  lemma MilestoneFingerprintsClash(a: string, b: string, c: string)
    ensures MilestoneFingerprint(a, b + ":advanced:" + c) == MilestoneFingerprint(a + ":advanced:" + b, c)
  {
    assert "milestone:" + a + ":advanced:" + (b + ":advanced:" + c)
        == "milestone:" + (a + ":advanced:" + b) + ":advanced:" + c;
  }

  function Clip(title: string): string {
    if |title| > 200 then title[..200] else title
  }

  predicate CanClaim(settings: Settings, events: set<string>, issue: nat, milestone: string) {
    Get(settings, CurrentIssue, "") == "" && IssueFingerprint(issue, milestone) !in events
  }

  predicate CanAdvance(settings: Settings, events: set<string>, expected: string, following: string, initial: string) {
    && Get(settings, ActiveMilestone, initial) == expected
    && Get(settings, Paused, "") != "true"
    && MilestoneFingerprint(expected, following) !in events
  }

  /** `Store`, as far as its two transactions go: a failed insertion of an event undoes the settings. */
  class Store {
    var settings: Settings
    var events: set<string>

    constructor ()
      ensures settings == map[] && events == {}
    {
      settings, events := map[], {};
    }

    method Insert(fingerprint: string) returns (inserted: bool)
      modifies this`events
      ensures inserted <==> fingerprint !in old(events)
      ensures events == old(events) + {fingerprint}
    {
      inserted := fingerprint !in events;
      events := events + {fingerprint};
    }

    method ClaimIssue(issue: nat, title: string, milestone: string) returns (claimed: bool)
      modifies this
      ensures claimed <==> CanClaim(old(settings), old(events), issue, milestone)
      ensures claimed ==>
        && settings == old(settings)[CurrentIssue := Decimal.Print(issue)][CurrentIssueTitle := Clip(title)]
        && events == old(events) + {IssueFingerprint(issue, milestone)}
      ensures !claimed ==> settings == old(settings) && events == old(events)
    {
      var current := Get(settings, CurrentIssue, "");
      if current != "" {
        return false;
      }
      var before := settings;
      settings := settings[CurrentIssue := Decimal.Print(issue)];
      settings := settings[CurrentIssueTitle := Clip(title)];
      claimed := Insert(IssueFingerprint(issue, milestone));
      if !claimed {
        settings := before;
      }
    }

    method AdvanceMilestone(expected: string, following: string, initial: string) returns (advanced: bool)
      modifies this
      ensures advanced <==> CanAdvance(old(settings), old(events), expected, following, initial)
      ensures advanced ==>
        && settings == old(settings)[ActiveMilestone := following]
        && events == old(events) + {MilestoneFingerprint(expected, following)}
      ensures !advanced ==> settings == old(settings) && events == old(events)
    {
      var active := Get(settings, ActiveMilestone, initial);
      if active != expected || (Paused in settings && settings[Paused] == "true") {
        return false;
      }
      var before := settings;
      settings := settings[ActiveMilestone := following];
      advanced := Insert(MilestoneFingerprint(expected, following));
      if !advanced {
        settings := before;
      }
    }
  }

  // ----- Processes -----

  type Tid = nat

  /** What a process has established before its next step; `since` is how many facts there were then. */
  datatype Pc =
    | Clearing(issue: nat, since: nat)
    | FromChecked(from: string, to: string)
    | Verified(from: string, to: string)

  datatype Fact = Claimed(issue: nat, milestone: string) | Cleared

  datatype System = System(
    settings: Settings, events: set<string>, threads: map<Tid, Pc>, facts: seq<Fact>, moves: seq<(string, string)>)

  /** The authorized milestones, in order, and the one to start from. */
  datatype Config = Config(authorized: seq<string>, milestone: string)

  ghost predicate WellFormed(c: Config) {
    NoDup(c.authorized) && c.milestone in c.authorized
  }

  function Active(s: System, c: Config): string {
    Get(s.settings, ActiveMilestone, c.milestone)
  }

  function PositionIn(list: seq<string>, m: string): (k: nat)
    requires m in list
    ensures k < |list| && list[k] == m
  {
    if list[0] == m then 0 else 1 + PositionIn(list[1..], m)
  }

  /** `next_milestone`, from a given one. */
  function NextOf(c: Config, m: string): Option<string>
    requires m in c.authorized
  {
    var position := PositionIn(c.authorized, m);
    if position + 1 < |c.authorized| then Some(c.authorized[position + 1]) else None
  }

  datatype Action =
    | Claim(issue: nat, title: string, milestone: string)
    | CheckCurrent(tid: Tid, issue: nat)
    | Clear(tid: Tid)
    | CheckFrom(tid: Tid, from: string, to: string)
    | CheckNext(tid: Tid)
    | Advance(tid: Tid)
    | SetPaused(paused: bool)
    | SetOther(name: string, value: string)
    | OtherEvent(fingerprint: string)
    | GiveUp(tid: Tid)

  ghost predicate Enabled(s: System, a: Action, c: Config) {
    match a
    case Claim(issue, _, milestone) => CanClaim(s.settings, s.events, issue, milestone)
    case CheckCurrent(tid, issue) => tid !in s.threads && Get(s.settings, CurrentIssue, "") == Decimal.Print(issue)
    case Clear(tid) => tid in s.threads && s.threads[tid].Clearing?
    case CheckFrom(tid, from, _) => tid !in s.threads && from == Active(s, c) && from in c.authorized
    case CheckNext(tid) =>
      && tid in s.threads && s.threads[tid].FromChecked? && Active(s, c) in c.authorized
      && NextOf(c, Active(s, c)) == Some(s.threads[tid].to)
    case Advance(tid) =>
      && tid in s.threads && s.threads[tid].Verified?
      && CanAdvance(s.settings, s.events, s.threads[tid].from, s.threads[tid].to, c.milestone)
    case GiveUp(tid) => tid in s.threads
    case _ => true
  }

  ghost function Perform(s: System, a: Action, c: Config): System
    requires Enabled(s, a, c)
  {
    match a
    case Claim(issue, title, milestone) =>
      s.(settings := s.settings[CurrentIssue := Decimal.Print(issue)][CurrentIssueTitle := Clip(title)],
         events := s.events + {IssueFingerprint(issue, milestone)}, facts := s.facts + [Claimed(issue, milestone)])
    case CheckCurrent(tid, issue) => s.(threads := s.threads[tid := Clearing(issue, |s.facts|)])
    case Clear(tid) =>
      s.(settings := s.settings[CurrentIssue := ""], threads := s.threads - {tid}, facts := s.facts + [Cleared])
    case CheckFrom(tid, from, to) => s.(threads := s.threads[tid := FromChecked(from, to)])
    case CheckNext(tid) => s.(threads := s.threads[tid := Verified(s.threads[tid].from, s.threads[tid].to)])
    case Advance(tid) =>
      var pc := s.threads[tid];
      s.(settings := s.settings[ActiveMilestone := pc.to], events := s.events + {MilestoneFingerprint(pc.from, pc.to)},
         threads := s.threads - {tid}, moves := s.moves + [(pc.from, pc.to)])
    case SetPaused(paused) => s.(settings := s.settings[Paused := if paused then "true" else "false"])
    case SetOther(name, value) => s.(settings := s.settings[OtherSetting(name) := value])
    case OtherEvent(fingerprint) => s.(events := s.events + {fingerprint})
    case GiveUp(tid) => s.(threads := s.threads - {tid})
  }

  ghost predicate Initial(s: System, c: Config) {
    s.threads == map[] && s.facts == [] && s.moves == [] && Active(s, c) in c.authorized
  }

  ghost predicate Behaviour(s: System, acts: seq<Action>, c: Config)
    decreases |acts|, 0
  {
    acts == []
    || (Behaviour(s, acts[..|acts| - 1], c) && Enabled(Reached(s, acts[..|acts| - 1], c), acts[|acts| - 1], c))
  }

  ghost function Reached(s: System, acts: seq<Action>, c: Config): System
    requires Behaviour(s, acts, c)
    decreases |acts|, 1
  {
    if acts == [] then s else Perform(Reached(s, acts[..|acts| - 1], c), acts[|acts| - 1], c)
  }

  // ----- The queue slot -----

  ghost predicate ClearedBetween(facts: seq<Fact>, i: nat, j: nat)
    requires j <= |facts|
  {
    exists k :: i < k < j && facts[k].Cleared?
  }

  ghost predicate ClaimsInv(s: System) {
    && (forall i :: 0 <= i < |s.facts| && s.facts[i].Claimed? ==>
          && IssueFingerprint(s.facts[i].issue, s.facts[i].milestone) in s.events
          && (ClearedBetween(s.facts, i, |s.facts|)
              || Get(s.settings, CurrentIssue, "") == Decimal.Print(s.facts[i].issue)))
    && (forall i, j :: 0 <= i < j < |s.facts| && s.facts[i].Claimed? && s.facts[j].Claimed? ==>
          s.facts[i] != s.facts[j] && ClearedBetween(s.facts, i, j))
  }

  lemma ClearedExtend(facts: seq<Fact>, f: Fact, i: nat, j: nat)
    requires j <= |facts| && ClearedBetween(facts, i, j)
    ensures ClearedBetween(facts + [f], i, j) && ClearedBetween(facts + [f], i, |facts| + 1)
  {
    var k :| i < k < j && facts[k].Cleared?;
    assert (facts + [f])[k] == facts[k];
  }

  /** Appending a fact leaves what was between earlier ones. */
  lemma FactsExtend(s: System, t: System, f: Fact)
    requires ClaimsInv(s) && t.facts == s.facts + [f] && s.events <= t.events
    ensures forall i, j :: 0 <= i < j < |s.facts| && s.facts[i].Claimed? && s.facts[j].Claimed? ==>
      t.facts[i] != t.facts[j] && ClearedBetween(t.facts, i, j)
    ensures forall i :: 0 <= i < |s.facts| && s.facts[i].Claimed? ==>
      IssueFingerprint(t.facts[i].issue, t.facts[i].milestone) in t.events
  {
    forall i, j | 0 <= i < j < |s.facts| && s.facts[i].Claimed? && s.facts[j].Claimed?
      ensures ClearedBetween(t.facts, i, j)
    {
      ClearedExtend(s.facts, f, i, j);
    }
  }

  lemma ClaimStep(s: System, a: Action, c: Config)
    requires ClaimsInv(s) && Enabled(s, a, c) && a.Claim?
    ensures ClaimsInv(Perform(s, a, c))
  {
    var t := Perform(s, a, c);
    var f := Claimed(a.issue, a.milestone);
    FactsExtend(s, t, f);
    forall i | 0 <= i < |s.facts| && s.facts[i].Claimed?
      ensures s.facts[i] != f && ClearedBetween(t.facts, i, |s.facts|) && ClearedBetween(t.facts, i, |t.facts|)
    {
      ClearedExtend(s.facts, f, i, |s.facts|);
    }
  }

  lemma ClearStep(s: System, a: Action, c: Config)
    requires ClaimsInv(s) && Enabled(s, a, c) && a.Clear?
    ensures ClaimsInv(Perform(s, a, c))
  {
    var t := Perform(s, a, c);
    FactsExtend(s, t, Cleared);
    forall i | 0 <= i < |s.facts|
      ensures ClearedBetween(t.facts, i, |t.facts|)
    {
      assert t.facts[|s.facts|] == Cleared;
    }
  }

  lemma {:induction false} ClaimsHold(s: System, acts: seq<Action>, c: Config)
    requires Initial(s, c) && Behaviour(s, acts, c)
    ensures ClaimsInv(Reached(s, acts, c))
    decreases |acts|
  {
    if acts != [] {
      var init, last := acts[..|acts| - 1], acts[|acts| - 1];
      ClaimsHold(s, init, c);
      if last.Claim? {
        ClaimStep(Reached(s, init, c), last, c);
      } else if last.Clear? {
        ClearStep(Reached(s, init, c), last, c);
      }
    }
  }

  /**
   However processes interleave, no issue of a milestone is claimed twice, and between two claims the slot
   was cleared.
   */
  lemma ClaimedOnce(s: System, acts: seq<Action>, c: Config, i: nat, j: nat)
    requires Initial(s, c) && Behaviour(s, acts, c)
    requires i < j < |Reached(s, acts, c).facts|
    requires Reached(s, acts, c).facts[i].Claimed? && Reached(s, acts, c).facts[j].Claimed?
    ensures Reached(s, acts, c).facts[i] != Reached(s, acts, c).facts[j]
    ensures exists k :: i < k < j && Reached(s, acts, c).facts[k].Cleared?
  {
    ClaimsHold(s, acts, c);
    assert ClearedBetween(Reached(s, acts, c).facts, i, j);
  }

  /** The slot still holds the issue that was seen in it, unless it was cleared since. */
  ghost predicate SlotSeen(s: System, pc: Pc)
    requires pc.Clearing?
  {
    && pc.since <= |s.facts|
    && (|| Get(s.settings, CurrentIssue, "") == Decimal.Print(pc.issue)
        || exists k :: pc.since <= k < |s.facts| && s.facts[k].Cleared?)
  }

  ghost predicate SlotsSeen(s: System) {
    forall t :: t in s.threads && s.threads[t].Clearing? ==> SlotSeen(s, s.threads[t])
  }

  lemma SlotSeenStep(s: System, a: Action, c: Config, pc: Pc)
    requires Enabled(s, a, c) && pc.Clearing? && SlotSeen(s, pc)
    ensures SlotSeen(Perform(s, a, c), pc)
  {
    var t := Perform(s, a, c);
    assert forall k :: 0 <= k < |s.facts| ==> t.facts[k] == s.facts[k];
    if a.Clear? {
      assert t.facts[|s.facts|] == Cleared;
    }
  }

  lemma SlotsSeenStep(s: System, a: Action, c: Config)
    requires Enabled(s, a, c) && SlotsSeen(s)
    ensures SlotsSeen(Perform(s, a, c))
  {
    var t := Perform(s, a, c);
    forall tid | tid in t.threads && t.threads[tid].Clearing?
      ensures SlotSeen(t, t.threads[tid])
    {
      if tid in s.threads && t.threads[tid] == s.threads[tid] {
        SlotSeenStep(s, a, c, s.threads[tid]);
      }
    }
  }

  /** A process about to clear the slot finds in it the issue it saw there, unless another one cleared it since. */
  lemma {:induction false} ClearsWhatItSaw(s: System, acts: seq<Action>, c: Config)
    requires Initial(s, c) && Behaviour(s, acts, c)
    ensures SlotsSeen(Reached(s, acts, c))
    decreases |acts|
  {
    if acts != [] {
      ClearsWhatItSaw(s, acts[..|acts| - 1], c);
      SlotsSeenStep(Reached(s, acts[..|acts| - 1], c), acts[|acts| - 1], c);
    }
  }

  // ----- The active milestone -----

  /**
   The moves made are the edges of the list from `start` on, each once, and the active milestone is where they lead.
   */
  ghost predicate OnTrack(s: System, c: Config, start: nat) {
    && start + |s.moves| < |c.authorized| && Active(s, c) == c.authorized[start + |s.moves|]
    && (forall k :: 0 <= k < |s.moves| ==> s.moves[k] == (c.authorized[start + k], c.authorized[start + k + 1]))
  }

  /** A process that read the active milestone before it moved on can no longer move it. */
  ghost predicate ChecksHold(s: System, c: Config, start: nat) {
    forall t :: t in s.threads ==>
      match s.threads[t]
      case Clearing(_, _) => true
      case FromChecked(from, _) => from in c.authorized && PositionIn(c.authorized, from) <= start + |s.moves|
      case Verified(from, to) =>
        && from in c.authorized
        && (PositionIn(c.authorized, from) < start + |s.moves|
            || (PositionIn(c.authorized, from) == start + |s.moves| && NextOf(c, from) == Some(to)))
  }

  lemma PositionUnique(list: seq<string>, k: nat)
    requires NoDup(list) && k < |list|
    ensures list[k] in list && PositionIn(list, list[k]) == k
  {
    var p := PositionIn(list, list[k]);
    assert list[p] == list[k];
  }

  /** One step leaves the active milestone, or, while not paused, moves it to the next one of the list. */
  lemma MilestoneStep(s: System, a: Action, c: Config, start: nat)
    requires WellFormed(c) && OnTrack(s, c, start) && ChecksHold(s, c, start) && Enabled(s, a, c)
    ensures OnTrack(Perform(s, a, c), c, start)
    ensures Perform(s, a, c).moves != s.moves ==> a.Advance? && Get(s.settings, Paused, "") != "true"
  {
    if a.Advance? {
      PositionUnique(c.authorized, start + |s.moves|);
    }
  }

  lemma ChecksStep(s: System, a: Action, c: Config, start: nat)
    requires WellFormed(c) && OnTrack(s, c, start) && ChecksHold(s, c, start) && Enabled(s, a, c)
    ensures ChecksHold(Perform(s, a, c), c, start)
  {
    PositionUnique(c.authorized, start + |s.moves|);
  }

  lemma {:induction false} MilestoneHolds(s: System, acts: seq<Action>, c: Config)
    requires WellFormed(c) && Initial(s, c) && Behaviour(s, acts, c)
    ensures OnTrack(Reached(s, acts, c), c, PositionIn(c.authorized, Active(s, c)))
    ensures ChecksHold(Reached(s, acts, c), c, PositionIn(c.authorized, Active(s, c)))
    decreases |acts|
  {
    var start := PositionIn(c.authorized, Active(s, c));
    if acts != [] {
      var init, last := acts[..|acts| - 1], acts[|acts| - 1];
      MilestoneHolds(s, init, c);
      MilestoneStep(Reached(s, init, c), last, c, start);
      ChecksStep(Reached(s, init, c), last, c, start);
    }
  }

  /**
   The active milestone is always authorized, and the moves ever made are exactly the edges of the authorized list
   from where it started to where it is: one position at a time, none skipped, none repeated.
   */
  lemma MovesForward(s: System, acts: seq<Action>, c: Config)
    requires WellFormed(c) && Initial(s, c) && Behaviour(s, acts, c)
    ensures var t := Reached(s, acts, c);
      var start := PositionIn(c.authorized, Active(s, c));
      && Active(t, c) in c.authorized && PositionIn(c.authorized, Active(t, c)) == start + |t.moves|
      && (forall k :: 0 <= k < |t.moves| ==> t.moves[k] == (c.authorized[start + k], c.authorized[start + k + 1]))
      && NoDup(t.moves)
  {
    MilestoneHolds(s, acts, c);
    var t := Reached(s, acts, c);
    var start := PositionIn(c.authorized, Active(s, c));
    PositionUnique(c.authorized, start + |t.moves|);
    forall i, j | 0 <= i < j < |t.moves|
      ensures t.moves[i] != t.moves[j]
    {
      assert c.authorized[start + i] != c.authorized[start + j];
    }
  }

  /** While automation is paused, no step of any process moves the milestone. */
  lemma PausedHolds(s: System, acts: seq<Action>, c: Config, a: Action)
    requires WellFormed(c) && Initial(s, c) && Behaviour(s, acts, c) && Enabled(Reached(s, acts, c), a, c)
    requires Get(Reached(s, acts, c).settings, Paused, "") == "true"
    ensures Active(Perform(Reached(s, acts, c), a, c), c) == Active(Reached(s, acts, c), c)
    ensures Perform(Reached(s, acts, c), a, c).moves == Reached(s, acts, c).moves
  {
  }
}
