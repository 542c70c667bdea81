/**
 Profile upgrades (manager/profile_upgrade.py): a forward mutation loop over the
 dependency order with a reverse rollback, and single-use plans. The adapter may
 fail with or without having taken effect.
 */
module ProfileUpgrade {
  import opened Sequences
  import opened Graph

  type Version = string
  type Profile = map<Id, Version>
  type OpId = string

  datatype RecoveryClass = Reversible | CompensatingAction | RestoreRequired | Irreversible

  datatype Step = Step(component: Id, recovery: RecoveryClass)

  datatype Plan = Plan(source: Profile, target: Profile, components: seq<Id>, steps: seq<Step>)

  datatype Outcome = Queued | Running | Succeeded | Cancelled | TimedOut | Failed

  datatype Recovery = NotRequired | RestoreFirst | CompensateByHand | RolledBack

  datatype Document = Document(state: Outcome, current: Option<Id>, completed: seq<Id>, recovery: Recovery)

  /** Both profiles give a version to every component of the order. */
  ghost predicate Defined(order: seq<Id>, p: Profile) {
    Elems(order) <= p.Keys
  }

  /** Both profiles give the component a version, and not the same. */
  predicate Differs(c: Id, source: Profile, target: Profile) {
    c in source && c in target && source[c] != target[c]
  }

  /** The components whose version changes, in dependency order. */
  function Changed(order: seq<Id>, source: Profile, target: Profile): (r: seq<Id>)
    ensures forall c :: c in r <==> c in order && Differs(c, source, target)
  {
    if order == [] then []
    else
      var init, last := order[..|order| - 1], order[|order| - 1];
      assert order == init + [last];
      Changed(init, source, target) + if Differs(last, source, target) then [last] else []
  }

  /** The steps of a plan: the whole order, with each component's declared recovery class. */
  function Steps(order: seq<Id>, migrations: map<Id, RecoveryClass>): (r: seq<Step>)
    ensures |r| == |order|
    ensures forall i :: 0 <= i < |order| ==>
      r[i] == Step(order[i], if order[i] in migrations then migrations[order[i]] else Reversible)
  {
    seq(|order|, i requires 0 <= i < |order| =>
      Step(order[i], if order[i] in migrations then migrations[order[i]] else Reversible))
  }

  /** `plan`, once its observations are accepted: nothing to do when no version changes. */
  function MakePlan(order: seq<Id>, source: Profile, target: Profile, migrations: map<Id, RecoveryClass>): Option<Plan>
    requires Elems(order) <= source.Keys && Elems(order) <= target.Keys
  {
    var changed := Changed(order, source, target);
    if changed == [] then None else Some(Plan(source, target, changed, Steps(order, migrations)))
  }

  function Order(plan: Plan): (r: seq<Id>)
    ensures |r| == |plan.steps|
    ensures forall i :: 0 <= i < |r| ==> r[i] == plan.steps[i].component
  {
    seq(|plan.steps|, i requires 0 <= i < |plan.steps| => plan.steps[i].component)
  }

  /** A plan as `plan` builds it. */
  ghost predicate WellMade(plan: Plan) {
    && NoDup(Order(plan))
    && Defined(Order(plan), plan.source) && Defined(Order(plan), plan.target)
    && plan.components == Changed(Order(plan), plan.source, plan.target)
  }

  lemma StepsListOrder(plan: Plan, order: seq<Id>, migrations: map<Id, RecoveryClass>)
    requires plan.steps == Steps(order, migrations)
    ensures Order(plan) == order
  {
  }

  lemma NothingChangedIff(order: seq<Id>, source: Profile, target: Profile)
    requires Defined(order, source) && Defined(order, target)
    ensures Changed(order, source, target) == [] <==> forall c :: c in order ==> source[c] == target[c]
  {
    var changed := Changed(order, source, target);
    assert forall c :: c in order ==> c in Elems(order);
    if changed == [] {
      assert forall c :: c in order ==> c !in changed;
    } else {
      assert changed[0] in changed;
    }
  }

  lemma MakePlanIsWellMade(order: seq<Id>, source: Profile, target: Profile, migrations: map<Id, RecoveryClass>)
    requires NoDup(order) && Defined(order, source) && Defined(order, target)
    ensures var made := MakePlan(order, source, target, migrations);
      && (made.None? <==> forall c :: c in order ==> source[c] == target[c])
      && (made.Some? ==>
            && WellMade(made.value) && Order(made.value) == order
            && made.value.source == source && made.value.target == target
            && (forall c :: c in made.value.components <==> c in order && source[c] != target[c])
            && (forall i :: 0 <= i < |order| ==>
                  made.value.steps[i].recovery
                  == if order[i] in migrations then migrations[order[i]] else Reversible))
  {
    NothingChangedIff(order, source, target);
    var made := MakePlan(order, source, target, migrations);
    if made.Some? {
      StepsListOrder(made.value, order, migrations);
    }
  }

  /** The versions of the plan's components are those of `p`. */
  ghost predicate Matches(plan: Plan, versions: Profile, p: Profile) {
    forall c :: c in Order(plan) ==> c in versions && c in p && versions[c] == p[c]
  }

  /** The changed components among the first `k` steps: the upgrades a run that far has called. */
  function ChangedUpTo(plan: Plan, k: nat): seq<Id>
    requires k <= |plan.steps|
  {
    if k == 0 then []
    else
      ChangedUpTo(plan, k - 1)
      + if plan.steps[k - 1].component in plan.components then [plan.steps[k - 1].component] else []
  }

  /** The recovery class of each component, later steps overriding earlier ones. */
  function Classes(steps: seq<Step>): map<Id, RecoveryClass> {
    if steps == [] then map[]
    else
      var last := steps[|steps| - 1];
      Classes(steps[..|steps| - 1])[last.component := last.recovery]
  }

  predicate NeedsRestore(plan: Plan, c: Id) {
    var classes := Classes(plan.steps);
    c in classes && (classes[c] == RestoreRequired || classes[c] == Irreversible)
  }

  lemma {:induction false} ClassesAre(steps: seq<Step>, k: nat)
    requires k < |steps| && forall i, j :: 0 <= i < j < |steps| ==> steps[i].component != steps[j].component
    ensures steps[k].component in Classes(steps) && Classes(steps)[steps[k].component] == steps[k].recovery
  {
    if k < |steps| - 1 {
      ClassesAre(steps[..|steps| - 1], k);
    }
  }

  /** Recovery treats a component of a made plan as the transition declares it. */
  lemma NeedsRestoreIff(order: seq<Id>, source: Profile, target: Profile, migrations: map<Id, RecoveryClass>, c: Id)
    requires NoDup(order) && Defined(order, source) && Defined(order, target) && c in order
    requires MakePlan(order, source, target, migrations).Some?
    ensures NeedsRestore(MakePlan(order, source, target, migrations).value, c)
            <==> c in migrations && migrations[c] in {RestoreRequired, Irreversible}
  {
    MakePlanIsWellMade(order, source, target, migrations);
    var plan := MakePlan(order, source, target, migrations).value;
    var k :| 0 <= k < |order| && order[k] == c;
    forall i, j | 0 <= i < j < |plan.steps|
      ensures plan.steps[i].component != plan.steps[j].component
    {
      assert Order(plan)[i] == plan.steps[i].component && Order(plan)[j] == plan.steps[j].component;
    }
    assert Order(plan)[k] == plan.steps[k].component;
    ClassesAre(plan.steps, k);
  }

  /** What stopped the forward loop. */
  datatype Trouble = CancelSeen | UpgradeRaised | DeadlineSeen | LayerRefused

  /** What a run did: its adapter calls, the components it verified, what stopped it, and whether a rollback failed. */
  datatype Trail = Trail(upgrades: seq<Id>, rollbacks: seq<Id>, verified: seq<Id>, trouble: Option<Trouble>,
                         rollbackFailed: bool)

  /** The platform during one run: its versions, and what the run did. */
  class Platform {
    var versions: Profile
    var trail: Trail

    constructor (versions: Profile)
      ensures this.versions == versions && trail == Trail([], [], [], None, false)
    {
      this.versions, trail := versions, Trail([], [], [], None, false);
    }

    /** `cancelled()`. */
    method CancelRequested() returns (seen: bool)
      modifies this`trail
      ensures trail == if seen then old(trail).(trouble := Some(CancelSeen)) else old(trail)
    {
      seen := *;
      if seen {
        trail := trail.(trouble := Some(CancelSeen));
      }
    }

    /** `self._monotonic() >= deadline`. */
    method DeadlinePassed() returns (passed: bool)
      modifies this`trail
      ensures trail == if passed then old(trail).(trouble := Some(DeadlineSeen)) else old(trail)
    {
      passed := *;
      if passed {
        trail := trail.(trouble := Some(DeadlineSeen));
      }
    }

    /** `verify_layer`, on the way forward: false and a raise end the run alike. */
    method VerifyLayer(c: Id) returns (healthy: bool)
      modifies this`trail
      ensures trail == if healthy then old(trail).(verified := old(trail).verified + [c])
                       else old(trail).(trouble := Some(LayerRefused))
    {
      healthy := *;
      trail := if healthy then trail.(verified := trail.verified + [c]) else trail.(trouble := Some(LayerRefused));
    }

    /** `adapter.upgrade`: on a raise the component may or may not have moved. */
    method Upgrade(c: Id, version: Version) returns (returned: bool)
      modifies this
      ensures trail == old(trail).(upgrades := old(trail).upgrades + [c],
                                   trouble := if returned then old(trail).trouble else Some(UpgradeRaised))
      ensures versions == old(versions)[c := version] || (!returned && versions == old(versions))
    {
      returned := *;
      var took: bool := *;
      if returned || took {
        versions := versions[c := version];
      }
      trail := trail.(upgrades := trail.upgrades + [c],
                      trouble := if returned then trail.trouble else Some(UpgradeRaised));
    }

    /** `adapter.rollback` and the verification of its layer. */
    method Rollback(c: Id, version: Version) returns (verified: bool)
      modifies this
      ensures trail == old(trail).(rollbacks := old(trail).rollbacks + [c],
                                   rollbackFailed := old(trail).rollbackFailed || !verified)
      ensures versions == old(versions)[c := version] || (!verified && versions == old(versions))
    {
      verified := *;
      var took: bool := *;
      if verified || took {
        versions := versions[c := version];
      }
      trail := trail.(rollbacks := trail.rollbacks + [c], rollbackFailed := trail.rollbackFailed || !verified);
    }
  }

  /** Nothing has been rolled back yet. */
  predicate Untouched(trail: Trail) {
    trail.rollbacks == [] && !trail.rollbackFailed
  }

  /** What recovery promises, given the components whose upgrade was called. */
  ghost predicate Recovered(plan: Plan, called: seq<Id>, hasRollback: bool, recovery: Recovery,
                            before: Profile, after: Profile, trail: Trail) {
    var blocked := exists c :: c in called && NeedsRestore(plan, c);
    && (recovery == NotRequired <==> called == [])
    && (recovery == RestoreFirst <==> blocked)
    && (recovery == RolledBack <==> called != [] && !blocked && hasRollback && !trail.rollbackFailed)
    && (called == [] || blocked || !hasRollback ==> Untouched(trail) && after == before)
    && trail.rollbacks <= Reverse(called)
    && (recovery == RolledBack ==> trail.rollbacks == Reverse(called) && Matches(plan, after, plan.source))
  }

  /** Outside `suspects` every component of the plan has its source version. */
  ghost predicate SourceOutside(plan: Plan, versions: Profile, suspects: seq<Id>) {
    forall c :: c in Order(plan) ==>
      c in versions && c in plan.source && (c !in suspects ==> versions[c] == plan.source[c])
  }

  /** Recovery leaves the forward part of the trail alone. */
  predicate Forward(a: Trail, b: Trail) {
    b == a.(rollbacks := b.rollbacks, rollbackFailed := b.rollbackFailed)
  }

  /** The rollback loop: reverse order, each rollback verified before the next. */
  method RollBackAll(plan: Plan, order: seq<Id>, platform: Platform) returns (restored: bool)
    requires WellMade(plan) && Untouched(platform.trail)
    requires forall c :: c in order ==> c in Order(plan)
    requires SourceOutside(plan, platform.versions, order)
    modifies platform
    ensures platform.trail.rollbacks <= order && (restored <==> !platform.trail.rollbackFailed)
    ensures Forward(old(platform.trail), platform.trail)
    ensures restored ==> platform.trail.rollbacks == order && Matches(plan, platform.versions, plan.source)
  {
    for j := 0 to |order|
      invariant platform.trail == old(platform.trail).(rollbacks := order[..j])
      invariant SourceOutside(plan, platform.versions, order[j..])
    {
      assert order[..j + 1] == order[..j] + [order[j]];
      assert order[j..] == [order[j]] + order[j + 1..];
      assert order[j] in Elems(Order(plan));
      var verified := platform.Rollback(order[j], plan.source[order[j]]);
      if !verified {
        return false;
      }
    }
    assert order[..|order|] == order && order[|order|..] == [];
    return true;
  }

  /** The components recovery has to suspect: an adapter error cannot prove that nothing was applied. */
  function Suspects(plan: Plan, current: Option<Id>, mutated: seq<Id>): seq<Id> {
    if current.Some? && current.value in plan.components && current.value !in mutated
    then mutated + [current.value] else mutated
  }

  /** `_recover`. */
  method Recover(plan: Plan, current: Option<Id>, mutated: seq<Id>, hasRollback: bool, platform: Platform)
    returns (recovery: Recovery)
    requires WellMade(plan) && Untouched(platform.trail)
    requires forall c :: c in Suspects(plan, current, mutated) ==> c in Order(plan)
    requires SourceOutside(plan, platform.versions, Suspects(plan, current, mutated))
    modifies platform
    ensures Forward(old(platform.trail), platform.trail)
    ensures Recovered(plan, Suspects(plan, current, mutated), hasRollback, recovery,
                      old(platform.versions), platform.versions, platform.trail)
  {
    var suspects := Suspects(plan, current, mutated);
    if suspects == [] {
      return NotRequired;
    }
    if exists i :: 0 <= i < |suspects| && NeedsRestore(plan, suspects[i]) {
      return RestoreFirst;
    }
    if !hasRollback {
      return CompensateByHand;
    }
    var restored := RollBackAll(plan, Reverse(suspects), platform);
    return if restored then RolledBack else CompensateByHand;
  }

  /** After `k` verified steps: the changed ones are on the target version, the rest still on the source. */
  ghost predicate Upgraded(plan: Plan, versions: Profile, k: nat)
    requires k <= |plan.steps|
  {
    forall i :: 0 <= i < |plan.steps| ==>
      var c := Order(plan)[i];
      c in versions && c in plan.source && c in plan.target
      && versions[c] == if i < k then plan.target[c] else plan.source[c]
  }

  /** The plan lists a component exactly when its version changes. */
  lemma ListedIffDiffers(plan: Plan, k: nat)
    requires WellMade(plan) && k < |plan.steps|
    ensures Order(plan)[k] == plan.steps[k].component
    ensures Order(plan)[k] in plan.components <==> Differs(Order(plan)[k], plan.source, plan.target)
  {
    assert Order(plan)[k] in Order(plan);
  }

  /** What has been called after `k` steps is the changed part of the first `k` components. */
  lemma {:induction false} ChangedUpToIs(plan: Plan, k: nat)
    requires WellMade(plan) && k <= |plan.steps|
    ensures ChangedUpTo(plan, k) == Changed(Order(plan)[..k], plan.source, plan.target)
  {
    if k > 0 {
      ChangedUpToIs(plan, k - 1);
      var before, c := Order(plan)[..k - 1], Order(plan)[k - 1];
      assert Order(plan)[..k] == before + [c];
      ListedIffDiffers(plan, k - 1);
      ChangedAppend(before, c, plan.source, plan.target);
    }
  }

  lemma ChangedUpToIsPrefix(plan: Plan, k: nat)
    requires WellMade(plan) && k <= |plan.steps|
    ensures forall c :: c in ChangedUpTo(plan, k) ==> c in Order(plan)[..k] && c in plan.components
    ensures forall c :: c in Order(plan)[..k] && c in plan.components ==> c in ChangedUpTo(plan, k)
    ensures k == |plan.steps| ==> ChangedUpTo(plan, k) == plan.components
  {
    ChangedUpToIs(plan, k);
    var o := Order(plan);
    assert o[..|o|] == o;
    assert forall c :: c in o[..k] ==> c in o;
  }

  lemma ChangedAppend(order: seq<Id>, c: Id, source: Profile, target: Profile)
    ensures Changed(order + [c], source, target) ==
      Changed(order, source, target) + if Differs(c, source, target) then [c] else []
  {
    assert (order + [c])[..|order|] == order;
  }

  /** The run stopped at step `k` of its plan: before it when cancelled, in it otherwise. */
  ghost predicate StoppedAt(plan: Plan, doc: Document, upgrades: seq<Id>, k: nat) {
    && k <= |plan.steps| && upgrades == ChangedUpTo(plan, k)
    && doc.current == (if k == 0 then None else Some(Order(plan)[k - 1]))
    && if doc.state == Cancelled then |doc.completed| == k else |doc.completed| + 1 == k
  }

  /** How a finished run left the platform. */
  ghost predicate RunMeans(plan: Plan, hasRollback: bool, doc: Document, before: Profile, after: Profile,
                           trail: Trail) {
    && (doc.state == Succeeded <==> trail.trouble == None)
    && (doc.state == Cancelled <==> trail.trouble == Some(CancelSeen))
    && (doc.state == TimedOut <==> trail.trouble == Some(DeadlineSeen))
    && (doc.state == Failed <==> trail.trouble in {Some(UpgradeRaised), Some(LayerRefused)})
    && doc.completed == trail.verified && trail.verified <= Order(plan)
    && if doc.state == Succeeded then
         && Matches(plan, after, plan.target) && doc.completed == Order(plan)
         && trail.upgrades == plan.components && Untouched(trail)
         && doc.current == None && doc.recovery == NotRequired
       else
         && (exists k: nat :: StoppedAt(plan, doc, trail.upgrades, k))
         && (doc.recovery == NotRequired ==> after == before)
         && exists middle :: Recovered(plan, trail.upgrades, hasRollback, doc.recovery, middle, after, trail)
  }

  /** Only the changed components among the verified steps have left their source version. */
  lemma UpgradedSource(plan: Plan, versions: Profile, k: nat)
    requires WellMade(plan) && k <= |plan.steps| && Upgraded(plan, versions, k)
    ensures SourceOutside(plan, versions, ChangedUpTo(plan, k))
  {
    ChangedUpToIsPrefix(plan, k);
    var o := Order(plan);
    forall c | c in o
      ensures c in versions && c in plan.source
      ensures c !in ChangedUpTo(plan, k) ==> versions[c] == plan.source[c]
    {
      var i :| 0 <= i < |o| && o[i] == c;
      if i < k {
        assert o[..k][i] == c;
      }
    }
  }

  /** At step `k` the recovery suspects are exactly the components whose upgrade was called. */
  lemma SuspectsAreCalled(plan: Plan, k: nat)
    requires WellMade(plan) && k < |plan.steps|
    ensures var c := Order(plan)[k];
      && Suspects(plan, Some(c), ChangedUpTo(plan, k)) == ChangedUpTo(plan, k + 1)
      && Suspects(plan, Some(c), ChangedUpTo(plan, k + 1)) == ChangedUpTo(plan, k + 1)
    ensures forall x :: x in ChangedUpTo(plan, k + 1) ==> x in Order(plan)
  {
    ChangedUpToIsPrefix(plan, k);
    ChangedUpToIsPrefix(plan, k + 1);
    var o := Order(plan);
    assert o[k] == plan.steps[k].component;
    assert o[k] !in o[..k];
    assert o[..k + 1][k] == o[k];
  }

  /** What the loop of `_run` keeps before step `k`. */
  ghost predicate Underway(plan: Plan, doc: Document, before: Profile, platform: Platform, k: nat)
    reads platform
    requires k <= |plan.steps|
  {
    && platform.trail == Trail(ChangedUpTo(plan, k), [], Order(plan)[..k], None, false)
    && Upgraded(plan, platform.versions, k)
    && (ChangedUpTo(plan, k) == [] ==> platform.versions == before)
    && doc == Document(Running, if k == 0 then None else Some(Order(plan)[k - 1]), Order(plan)[..k], NotRequired)
  }

  /** What made the run stop, as the state it ends in. */
  ghost predicate StopsAs(trouble: Option<Trouble>, state: Outcome) {
    match state
    case Cancelled => trouble == Some(CancelSeen)
    case TimedOut => trouble == Some(DeadlineSeen)
    case Failed => trouble == Some(UpgradeRaised) || trouble == Some(LayerRefused)
    case _ => false
  }

  /** Ends a run that will not succeed: recovery over what was called. */
  method Abort(plan: Plan, doc0: Document, state: Outcome, mutated: seq<Id>, hasRollback: bool,
               ghost before: Profile, ghost k: nat, platform: Platform)
    returns (doc: Document)
    requires WellMade(plan) && StopsAs(platform.trail.trouble, state)
    requires StoppedAt(plan, doc0.(state := state), platform.trail.upgrades, k)
    requires platform.trail.upgrades == Suspects(plan, doc0.current, mutated)
    requires doc0.completed == platform.trail.verified && platform.trail.verified <= Order(plan)
    requires Untouched(platform.trail) && SourceOutside(plan, platform.versions, platform.trail.upgrades)
    requires platform.trail.upgrades == [] ==> platform.versions == before
    modifies platform
    ensures RunMeans(plan, hasRollback, doc, before, platform.versions, platform.trail)
  {
    ChangedUpToIsPrefix(plan, k);
    forall c | c in ChangedUpTo(plan, k)
      ensures c in Order(plan)
    {
      assert c in Order(plan)[..k];
    }
    var recovery := Recover(plan, doc0.current, mutated, hasRollback, platform);
    doc := doc0.(state := state, recovery := recovery);
    assert StoppedAt(plan, doc, platform.trail.upgrades, k);
  }

  /** The mutation of step `k`, when its component changes version. */
  method Mutate(plan: Plan, mutated0: seq<Id>, k: nat, platform: Platform) returns (returned: bool, mutated: seq<Id>)
    requires WellMade(plan) && k < |plan.steps| && mutated0 == platform.trail.upgrades == ChangedUpTo(plan, k)
    requires Upgraded(plan, platform.versions, k)
    modifies platform
    ensures platform.trail == old(platform.trail).(upgrades := ChangedUpTo(plan, k + 1),
              trouble := if returned then old(platform.trail).trouble else Some(UpgradeRaised))
    ensures platform.trail.upgrades == [] ==> platform.versions == old(platform.versions)
    ensures returned ==> mutated == ChangedUpTo(plan, k + 1) && Upgraded(plan, platform.versions, k + 1)
    ensures !returned ==> mutated == mutated0 && SourceOutside(plan, platform.versions, platform.trail.upgrades)
  {
    var c := plan.steps[k].component;
    UpgradedSource(plan, platform.versions, k);
    assert Order(plan)[k] == c && c in Elems(Order(plan));
    returned, mutated := true, mutated0;
    if c in plan.components {
      returned := platform.Upgrade(c, plan.target[c]);
      if returned {
        mutated := mutated + [c];
      }
    }
    if returned {
      UpgradedNext(plan, platform.versions, k);
    }
  }

  /** What holds between the two halves of turn `k`: the component is on its version, not yet verified. */
  ghost predicate Mutated(plan: Plan, doc: Document, before: Profile, platform: Platform, k: nat)
    reads platform
    requires k < |plan.steps|
  {
    && platform.trail == Trail(ChangedUpTo(plan, k + 1), [], Order(plan)[..k], None, false)
    && Upgraded(plan, platform.versions, k + 1)
    && (platform.trail.upgrades == [] ==> platform.versions == before)
    && doc == Document(Running, Some(Order(plan)[k]), Order(plan)[..k], NotRequired)
  }

  lemma OneMore(plan: Plan, k: nat)
    requires k < |plan.steps|
    ensures Order(plan)[..k + 1] == Order(plan)[..k] + [Order(plan)[k]]
    ensures Order(plan)[..k] <= Order(plan) && Order(plan)[..k + 1] <= Order(plan)
  {
  }

  /** The second half of a turn: the deadline, then the health layer. */
  method CheckStep(plan: Plan, doc0: Document, mutated: seq<Id>, hasRollback: bool,
                   ghost before: Profile, k: nat, platform: Platform)
    returns (ended: bool, doc: Document)
    requires WellMade(plan) && k < |plan.steps| && Mutated(plan, doc0, before, platform, k)
    requires mutated == ChangedUpTo(plan, k + 1)
    modifies platform
    ensures !ended ==> Underway(plan, doc, before, platform, k + 1)
    ensures ended ==> RunMeans(plan, hasRollback, doc, before, platform.versions, platform.trail)
  {
    SuspectsAreCalled(plan, k);
    UpgradedSource(plan, platform.versions, k + 1);
    OneMore(plan, k);
    var expired := platform.DeadlinePassed();
    if expired {
      doc := Abort(plan, doc0, TimedOut, mutated, hasRollback, before, k + 1, platform);
      return true, doc;
    }
    var healthy := platform.VerifyLayer(plan.steps[k].component);
    if !healthy {
      doc := Abort(plan, doc0, Failed, mutated, hasRollback, before, k + 1, platform);
      return true, doc;
    }
    return false, doc0.(completed := doc0.completed + [plan.steps[k].component]);
  }

  /** An upgrade call that raised ends the run at its step. */
  method AbortMutation(plan: Plan, doc0: Document, mutated: seq<Id>, hasRollback: bool,
                       ghost before: Profile, ghost k: nat, platform: Platform)
    returns (doc: Document)
    requires WellMade(plan) && k < |plan.steps| && mutated == ChangedUpTo(plan, k)
    requires doc0 == Document(Running, Some(Order(plan)[k]), Order(plan)[..k], NotRequired)
    requires platform.trail == Trail(ChangedUpTo(plan, k + 1), [], Order(plan)[..k], Some(UpgradeRaised), false)
    requires SourceOutside(plan, platform.versions, platform.trail.upgrades)
    requires platform.trail.upgrades == [] ==> platform.versions == before
    modifies platform
    ensures RunMeans(plan, hasRollback, doc, before, platform.versions, platform.trail)
  {
    SuspectsAreCalled(plan, k);
    OneMore(plan, k);
    assert StoppedAt(plan, doc0.(state := Failed), platform.trail.upgrades, k + 1);
    doc := Abort(plan, doc0, Failed, mutated, hasRollback, before, k + 1, platform);
  }

  /** The first half of a turn: mutate if the version changes. */
  method MutateStep(plan: Plan, doc0: Document, mutated0: seq<Id>, hasRollback: bool,
                    ghost before: Profile, k: nat, platform: Platform)
    returns (ended: bool, doc: Document, mutated: seq<Id>)
    requires WellMade(plan) && k < |plan.steps| && Underway(plan, doc0, before, platform, k)
    requires mutated0 == ChangedUpTo(plan, k)
    modifies platform
    ensures !ended ==> Mutated(plan, doc, before, platform, k) && mutated == ChangedUpTo(plan, k + 1)
    ensures ended ==> RunMeans(plan, hasRollback, doc, before, platform.versions, platform.trail)
  {
    doc := doc0.(current := Some(plan.steps[k].component));
    var returned;
    returned, mutated := Mutate(plan, mutated0, k, platform);
    ended := !returned;
    if ended {
      doc := AbortMutation(plan, doc, mutated, hasRollback, before, k, platform);
    }
  }

  /** One turn of the loop of `_run`: mutate if the version changes, then check. */
  method RunStep(plan: Plan, doc0: Document, mutated0: seq<Id>, hasRollback: bool,
                 ghost before: Profile, k: nat, platform: Platform)
    returns (ended: bool, doc: Document, mutated: seq<Id>)
    requires WellMade(plan) && k < |plan.steps| && Underway(plan, doc0, before, platform, k)
    requires mutated0 == ChangedUpTo(plan, k)
    modifies platform
    ensures !ended ==> Underway(plan, doc, before, platform, k + 1) && mutated == ChangedUpTo(plan, k + 1)
    ensures ended ==> RunMeans(plan, hasRollback, doc, before, platform.versions, platform.trail)
  {
    ended, doc, mutated := MutateStep(plan, doc0, mutated0, hasRollback, before, k, platform);
    if ended {
      return;
    }
    ended, doc := CheckStep(plan, doc, mutated, hasRollback, before, k, platform);
  }

  lemma EverythingUpgraded(plan: Plan, versions: Profile)
    requires WellMade(plan) && Upgraded(plan, versions, |plan.steps|)
    ensures Matches(plan, versions, plan.target)
    ensures ChangedUpTo(plan, |plan.steps|) == plan.components && Order(plan)[..|plan.steps|] == Order(plan)
  {
    ChangedUpToIsPrefix(plan, |plan.steps|);
    assert Order(plan)[..|plan.steps|] == Order(plan);
  }

  lemma CancelledBetweenSteps(plan: Plan, doc: Document, before: Profile, platform: Platform, k: nat)
    requires WellMade(plan) && k < |plan.steps| && Underway(plan, doc, before, platform, k)
    ensures SourceOutside(plan, platform.versions, ChangedUpTo(plan, k))
    ensures Suspects(plan, doc.current, ChangedUpTo(plan, k)) == ChangedUpTo(plan, k)
    ensures StoppedAt(plan, doc.(state := Cancelled), ChangedUpTo(plan, k), k)
  {
    UpgradedSource(plan, platform.versions, k);
    if k > 0 {
      SuspectsAreCalled(plan, k - 1);
    }
  }

  /** Before the first turn. */
  lemma UnderwayFirst(plan: Plan, doc: Document, platform: Platform)
    requires WellMade(plan) && Matches(plan, platform.versions, plan.source)
    requires platform.trail == Trail([], [], [], None, false) && doc == Document(Running, None, [], NotRequired)
    ensures Underway(plan, doc, platform.versions, platform, 0)
  {
    NothingUpgraded(plan, platform.versions);
  }

  /** After the last turn. */
  lemma SuccessMeans(plan: Plan, hasRollback: bool, doc: Document, before: Profile, platform: Platform)
    requires WellMade(plan) && Underway(plan, doc, before, platform, |plan.steps|)
    ensures RunMeans(plan, hasRollback, doc.(state := Succeeded, current := None), before, platform.versions,
                     platform.trail)
  {
    EverythingUpgraded(plan, platform.versions);
  }

  lemma NothingUpgraded(plan: Plan, versions: Profile)
    requires WellMade(plan) && Matches(plan, versions, plan.source)
    ensures Upgraded(plan, versions, 0) && Order(plan)[..0] == []
  {
    forall i | 0 <= i < |plan.steps|
      ensures Order(plan)[i] in Order(plan) && Order(plan)[i] in Elems(Order(plan))
    {
    }
  }

  lemma UpgradedNext(plan: Plan, versions: Profile, k: nat)
    requires WellMade(plan) && k < |plan.steps|
    requires var c := Order(plan)[k]; c in versions && c in plan.target && versions[c] == plan.target[c]
    requires forall i :: 0 <= i < |plan.steps| && i != k ==>
      var c := Order(plan)[i];
      c in versions && c in plan.source && c in plan.target
      && versions[c] == if i < k then plan.target[c] else plan.source[c]
    ensures Upgraded(plan, versions, k + 1)
  {
    assert Order(plan)[k] in Elems(Order(plan));
  }

  /** The boundary between two steps, then the step. */
  method Turn(plan: Plan, doc0: Document, mutated0: seq<Id>, hasRollback: bool,
              ghost before: Profile, k: nat, platform: Platform)
    returns (ended: bool, doc: Document, mutated: seq<Id>)
    requires WellMade(plan) && k < |plan.steps| && Underway(plan, doc0, before, platform, k)
    requires mutated0 == ChangedUpTo(plan, k)
    modifies platform
    ensures !ended ==> Underway(plan, doc, before, platform, k + 1) && mutated == ChangedUpTo(plan, k + 1)
    ensures ended ==> RunMeans(plan, hasRollback, doc, before, platform.versions, platform.trail)
  {
    CancelledBetweenSteps(plan, doc0, before, platform, k);
    OneMore(plan, k);
    var cancelled := platform.CancelRequested();
    if cancelled {
      ended, mutated := true, mutated0;
      doc := Abort(plan, doc0, Cancelled, mutated, hasRollback, before, k, platform);
    } else {
      ended, doc, mutated := RunStep(plan, doc0, mutated0, hasRollback, before, k, platform);
    }
  }

  /**
   `_run`: success puts every component on its target version; otherwise recovery decides, rolling back
   in exact reverse order of the upgrades called, and only when none of them needs a restore.
   */
  method Run(plan: Plan, hasRollback: bool, platform: Platform) returns (doc: Document)
    requires WellMade(plan) && Matches(plan, platform.versions, plan.source)
    requires platform.trail == Trail([], [], [], None, false)
    modifies platform
    ensures RunMeans(plan, hasRollback, doc, old(platform.versions), platform.versions, platform.trail)
  {
    ghost var before := platform.versions;
    doc := Document(Running, None, [], NotRequired);
    var mutated: seq<Id> := [];
    UnderwayFirst(plan, doc, platform);
    for k := 0 to |plan.steps|
      invariant Underway(plan, doc, before, platform, k) && mutated == ChangedUpTo(plan, k)
    {
      var ended;
      ended, doc, mutated := Turn(plan, doc, mutated, hasRollback, before, k, platform);
      if ended {
        return;
      }
    }
    SuccessMeans(plan, hasRollback, doc, before, platform);
    doc := doc.(state := Succeeded, current := None);
  }

  // ----- Terminal states determine versions -----

  lemma CalledAreOrdered(plan: Plan, doc: Document, upgrades: seq<Id>)
    requires WellMade(plan) && exists k: nat :: StoppedAt(plan, doc, upgrades, k)
    ensures forall c :: c in upgrades ==> c in Order(plan)
  {
    var k: nat :| StoppedAt(plan, doc, upgrades, k);
    ChangedUpToIsPrefix(plan, k);
    assert forall c :: c in Order(plan)[..k] ==> c in Order(plan);
  }

  /**
   Of a made plan: when a run did not succeed, recovery asks for a restore exactly when an upgrade was called for a
   component whose migration is declared as needing one, and then nothing is rolled back.
   */
  lemma DeclaredRestoreIff(order: seq<Id>, source: Profile, target: Profile, migrations: map<Id, RecoveryClass>,
                           hasRollback: bool, doc: Document, before: Profile, after: Profile, trail: Trail)
    requires NoDup(order) && Defined(order, source) && Defined(order, target)
    requires MakePlan(order, source, target, migrations).Some?
    requires RunMeans(MakePlan(order, source, target, migrations).value, hasRollback, doc, before, after, trail)
    requires doc.state != Succeeded
    ensures doc.recovery == RestoreFirst <==>
      exists c :: c in trail.upgrades && c in migrations && migrations[c] in {RestoreRequired, Irreversible}
    ensures doc.recovery == RestoreFirst ==> trail.rollbacks == []
    ensures doc.recovery == RolledBack <==>
      && trail.upgrades != [] && hasRollback && !trail.rollbackFailed
      && forall c :: c in trail.upgrades && c in migrations ==> migrations[c] in {Reversible, CompensatingAction}
  {
    var plan := MakePlan(order, source, target, migrations).value;
    MakePlanIsWellMade(order, source, target, migrations);
    CalledAreOrdered(plan, doc, trail.upgrades);
    forall c | c in trail.upgrades
      ensures NeedsRestore(plan, c) <==> c in migrations && migrations[c] in {RestoreRequired, Irreversible}
    {
      NeedsRestoreIff(order, source, target, migrations, c);
    }
    var middle :| Recovered(plan, trail.upgrades, hasRollback, doc.recovery, middle, after, trail);
    DeclaredOutcome(plan, migrations, hasRollback, doc.recovery, middle, after, trail);
  }

  lemma DeclaredOutcome(plan: Plan, migrations: map<Id, RecoveryClass>, hasRollback: bool, recovery: Recovery,
                        before: Profile, after: Profile, trail: Trail)
    requires Recovered(plan, trail.upgrades, hasRollback, recovery, before, after, trail)
    requires forall c :: c in trail.upgrades ==>
      (NeedsRestore(plan, c) <==> c in migrations && migrations[c] in {RestoreRequired, Irreversible})
    ensures recovery == RestoreFirst <==>
      exists c :: c in trail.upgrades && c in migrations && migrations[c] in {RestoreRequired, Irreversible}
    ensures recovery == RestoreFirst ==> trail.rollbacks == []
    ensures recovery == RolledBack <==>
      && trail.upgrades != [] && hasRollback && !trail.rollbackFailed
      && forall c :: c in trail.upgrades && c in migrations ==> migrations[c] in {Reversible, CompensatingAction}
  {
    forall c | c in trail.upgrades && c in migrations
      ensures NeedsRestore(plan, c) <==> migrations[c] !in {Reversible, CompensatingAction}
    {
      match migrations[c]
      case Reversible =>
      case CompensatingAction =>
      case RestoreRequired =>
      case Irreversible =>
    }
  }

  /** A run that did not succeed and reports a rollback has every component back on its source version. */
  lemma RolledBackMeansSource(plan: Plan, hasRollback: bool, doc: Document, before: Profile, after: Profile,
                              trail: Trail)
    requires RunMeans(plan, hasRollback, doc, before, after, trail)
    requires doc.state != Succeeded && doc.recovery == RolledBack
    ensures Matches(plan, after, plan.source) && trail.rollbacks == Reverse(trail.upgrades)
    ensures forall c :: c in trail.upgrades ==> !NeedsRestore(plan, c)
  {
    var middle :| Recovered(plan, trail.upgrades, hasRollback, doc.recovery, middle, after, trail);
  }

  /** A run that did not succeed and reports nothing to recover never called an upgrade. */
  lemma NotRequiredMeansUntouched(plan: Plan, hasRollback: bool, doc: Document, before: Profile, after: Profile,
                                  trail: Trail)
    requires RunMeans(plan, hasRollback, doc, before, after, trail)
    requires doc.state != Succeeded && doc.recovery == NotRequired
    ensures trail.upgrades == [] && trail.rollbacks == [] && after == before
  {
    var middle :| Recovered(plan, trail.upgrades, hasRollback, doc.recovery, middle, after, trail);
  }

  /** Nothing is rolled back when any component that may have been mutated needs a restore. */
  lemma RestoreBlocksRollback(plan: Plan, hasRollback: bool, doc: Document, before: Profile, after: Profile,
                              trail: Trail, c: Id)
    requires RunMeans(plan, hasRollback, doc, before, after, trail)
    requires doc.state != Succeeded && c in trail.upgrades && NeedsRestore(plan, c)
    ensures trail.rollbacks == [] && doc.recovery == RestoreFirst
  {
    var middle :| Recovered(plan, trail.upgrades, hasRollback, doc.recovery, middle, after, trail);
  }
}
