/**
 Single-use approvals (manager/authorization.py): the policy decisions, and the
 ledger with its compare-and-set transition. A plan digest is modelled by the
 plan itself, so equal digests mean equal plans.
 */
module Authorization {
  import opened Sequences
  import opened Graph
  import opened ComponentRegistry

  type ApprovalId = string
  type Time = int

  datatype Source = LocalCli | Web | Telegram

  datatype Identity = Identity(actor: string, source: Source, session: string, authenticatedAt: Time)

  datatype Risk = Routine | DisruptiveRisk | HighRisk

  datatype Plan = Plan(operation: Operation, targets: seq<Id>, currentState: map<Id, string>)

  /** RISK_BY_OPERATION. */
  function RiskOf(op: Operation): Risk {
    match op
    case Install => Routine
    case Configure => Routine
    case Start => Routine
    case Stop => DisruptiveRisk
    case Restart => DisruptiveRisk
    case Upgrade => HighRisk
    case Uninstall => HighRisk
    case DeleteData => HighRisk
  }

  datatype State = Pending | Approved | Consumed | Revoked

  datatype Approval = Approval(
    state: State, actor: string, source: Source, session: string, risk: Risk, digest: Plan,
    createdAt: Time, expiresAt: Time,
    decidedAt: Option<Time>, consumedAt: Option<Time>, revokedAt: Option<Time>)

  datatype Row = Row(state: State, payload: Approval)

  datatype Reason =
    | NotPending | NotApproved | Expired | IdentityMismatch | SourceMismatch | PlanChanged
    | WeakSource | StaleAuthentication | ConfirmationMismatch

  const HIGH_RISK_CONFIRMATION := "AUTHORIZE HIGH-RISK OPERATION"

  /** `request`: a fresh pending record. */
  function NewApproval(plan: Plan, identity: Identity, now: Time, ttl: Time): Approval {
    Approval(Pending, identity.actor, identity.source, identity.session, RiskOf(plan.operation), plan,
             now, now + ttl, None, None, None)
  }

  /** `_decision_reason`. */
  function DecisionReason(doc: Approval, identity: Identity, now: Time, confirmation: Option<string>,
                          maxAge: Time): Option<Reason> {
    if doc.state != Pending then Some(NotPending)
    else if now >= doc.expiresAt then Some(Expired)
    else if doc.actor != identity.actor || doc.session != identity.session then Some(IdentityMismatch)
    else if doc.risk == HighRisk && identity.source == Telegram then Some(WeakSource)
    else if doc.risk == HighRisk && now - identity.authenticatedAt > maxAge then Some(StaleAuthentication)
    else if doc.risk == HighRisk && confirmation != Some(HIGH_RISK_CONFIRMATION) then Some(ConfirmationMismatch)
    else None
  }

  /** `_consumption_reason`. */
  function ConsumptionReason(doc: Approval, plan: Plan, identity: Identity, now: Time): Option<Reason> {
    if doc.state != Approved then Some(NotApproved)
    else if now >= doc.expiresAt then Some(Expired)
    else if doc.actor != identity.actor || doc.session != identity.session then Some(IdentityMismatch)
    else if doc.source != identity.source then Some(SourceMismatch)
    else if doc.digest != plan then Some(PlanChanged)
    else None
  }

  // ----- What the policy decides -----

  /** An operation that takes something down or replaces it: no such operation is admitted without an approval. */
  predicate NeedsApproval(op: Operation) {
    op !in {Install, Configure, Start}
  }

  /** Who approves may be known over a weak channel only for what can be undone by starting things again. */
  predicate NeedsStrongDecision(op: Operation) {
    op in {Upgrade, Uninstall, DeleteData}
  }

  lemma RisksMean(op: Operation)
    ensures RiskOf(op) != Routine <==> NeedsApproval(op)
    ensures RiskOf(op) == HighRisk <==> NeedsStrongDecision(op)
  {
  }

  /** The record was requested for this plan by this identity at this time. */
  ghost predicate RequestedAs(doc: Approval, plan: Plan, identity: Identity, now: Time, ttl: Time) {
    && doc.digest == plan && (doc.risk == HighRisk <==> NeedsStrongDecision(plan.operation))
    && doc.actor == identity.actor && doc.session == identity.session && doc.source == identity.source
    && doc.createdAt == now && doc.expiresAt == now + ttl
  }

  /** The record is still open, and it is its own actor who decides, in the session that asked. */
  ghost predicate OpenTo(doc: Approval, identity: Identity, now: Time) {
    doc.state == Pending && now < doc.expiresAt && doc.actor == identity.actor && doc.session == identity.session
  }

  /** A high-risk decision comes from the console or the web, freshly authenticated and spelled out. */
  ghost predicate StrongDecision(identity: Identity, now: Time, confirmation: Option<string>, maxAge: Time) {
    && identity.source in {LocalCli, Web}
    && now <= identity.authenticatedAt + maxAge
    && confirmation == Some("AUTHORIZE HIGH-RISK OPERATION")
  }

  ghost predicate MayApprove(doc: Approval, identity: Identity, now: Time, confirmation: Option<string>, maxAge: Time) {
    && OpenTo(doc, identity, now)
    && (doc.risk == HighRisk ==> StrongDecision(identity, now, confirmation, maxAge))
  }

  lemma MayApproveIff(doc: Approval, identity: Identity, now: Time, confirmation: Option<string>, maxAge: Time)
    ensures DecisionReason(doc, identity, now, confirmation, maxAge).None?
            <==> MayApprove(doc, identity, now, confirmation, maxAge)
  {
  }

  /** The record approves this very plan, over this very state, for this identity, and has not run out. */
  ghost predicate Covers(doc: Approval, plan: Plan, identity: Identity, now: Time) {
    && doc.state == Approved && now < doc.expiresAt
    && doc.digest == plan
    && doc.actor == identity.actor && doc.session == identity.session && doc.source == identity.source
  }

  lemma CoversIff(doc: Approval, plan: Plan, identity: Identity, now: Time)
    ensures ConsumptionReason(doc, plan, identity, now).None? <==> Covers(doc, plan, identity, now)
  {
  }

  // ----- The ledger -----

  /** What no transition may touch. */
  ghost predicate SameGrant(a: Approval, b: Approval) {
    && a.actor == b.actor && a.source == b.source && a.session == b.session
    && a.risk == b.risk && a.digest == b.digest
    && a.createdAt == b.createdAt && a.expiresAt == b.expiresAt
  }

  /** The edges of the approval graph. */
  predicate Edge(a: State, b: State) {
    || (a == Pending && (b == Approved || b == Revoked))
    || (a == Approved && (b == Consumed || b == Revoked))
  }

  /** Position along the graph; every edge moves forward. */
  function Rank(s: State): nat {
    match s
    case Pending => 0
    case Approved => 1
    case Consumed => 2
    case Revoked => 2
  }

  function ApproveDoc(doc: Approval, now: Time): Approval {
    doc.(state := Approved, decidedAt := Some(now))
  }

  function RevokeDoc(doc: Approval, now: Time): Approval {
    doc.(state := Revoked, revokedAt := Some(now))
  }

  function ConsumeDoc(doc: Approval, now: Time): Approval {
    doc.(state := Consumed, consumedAt := Some(now))
  }

  datatype Result = Accepted | NotFound | Denied(reason: Reason) | NotRevocable | ApprovalRequired | StateUnavailable

  /** A record that authorizes the plan, as things stand. */
  ghost predicate Authorizes(rows: map<ApprovalId, Row>, id: Option<ApprovalId>, plan: Plan, identity: Identity,
                             now: Time) {
    id.Some? && id.value in rows && Covers(rows[id.value].payload, plan, identity, now)
  }

  /** The ledger after the record is consumed. */
  function Consume(rows: map<ApprovalId, Row>, id: ApprovalId, at: Time): map<ApprovalId, Row>
    requires id in rows
  {
    rows[id := Row(Consumed, rows[id].payload.(state := Consumed, consumedAt := Some(at)))]
  }

  /** The ledger and the service over it, as one thread sees them when it is not interrupted. */
  class Ledger {
    var rows: map<ApprovalId, Row>

    constructor ()
      ensures rows == map[]
    {
      rows := map[];
    }

    /** The state column mirrors the payload. */
    ghost predicate Valid()
      reads this
    {
      forall id :: id in rows ==> rows[id].state == rows[id].payload.state
    }

    /** `insert`. */
    method Insert(id: ApprovalId, doc: Approval)
      requires Valid() && id !in rows
      modifies this
      ensures Valid() && rows == old(rows)[id := Row(doc.state, doc)]
    {
      rows := rows[id := Row(doc.state, doc)];
    }

    /** `request`: one pending record for the plan, bound to who asked. */
    method Request(id: ApprovalId, plan: Plan, identity: Identity, now: Time, ttl: Time)
      requires Valid() && id !in rows
      modifies this
      ensures Valid() && rows.Keys == old(rows).Keys + {id}
      ensures RequestedAs(rows[id].payload, plan, identity, now, ttl) && rows[id].payload.state == Pending
      ensures forall j :: j in old(rows) ==> rows[j] == old(rows)[j]
    {
      RisksMean(plan.operation);
      Insert(id, NewApproval(plan, identity, now, ttl));
    }

    /** `transition`: the only way a row changes; it succeeds exactly when the stored state is the expected one. */
    method Transition(id: ApprovalId, expected: State, state: State, doc: Approval) returns (changed: bool)
      requires Valid() && doc.state == state
      modifies this
      ensures Valid()
      ensures changed <==> id in old(rows) && old(rows)[id].state == expected
      ensures rows == if changed then old(rows)[id := Row(state, doc)] else old(rows)
    {
      if id in rows && rows[id].state == expected {
        rows := rows[id := Row(state, doc)];
        return true;
      }
      return false;
    }

    /** `approve`. */
    method Approve(id: ApprovalId, identity: Identity, now: Time, confirmation: Option<string>, maxAge: Time)
      returns (res: Result)
      requires Valid()
      modifies this
      ensures Valid()
      ensures res == Accepted <==>
        id in old(rows) && MayApprove(old(rows)[id].payload, identity, now, confirmation, maxAge)
      ensures res == Accepted ==>
        && old(rows)[id].state == Pending && rows.Keys == old(rows).Keys
        && rows[id].payload == old(rows)[id].payload.(state := Approved, decidedAt := Some(now))
        && forall j :: j in rows && j != id ==> rows[j] == old(rows)[j]
      ensures res != Accepted ==> rows == old(rows)
    {
      if id !in rows {
        return NotFound;
      }
      var doc := rows[id].payload;
      MayApproveIff(doc, identity, now, confirmation, maxAge);
      var reason := DecisionReason(doc, identity, now, confirmation, maxAge);
      if reason.Some? {
        return Denied(reason.value);
      }
      var changed := Transition(id, Pending, Approved, ApproveDoc(doc, now));
      return if changed then Accepted else Denied(NotPending);
    }

    /** `revoke`: by its own actor, while pending or approved. */
    method Revoke(id: ApprovalId, identity: Identity, now: Time) returns (res: Result)
      requires Valid()
      modifies this
      ensures Valid()
      ensures res == Accepted <==>
        id in old(rows) && old(rows)[id].payload.actor == identity.actor && old(rows)[id].state in {Pending, Approved}
      ensures res == Accepted ==>
        && rows.Keys == old(rows).Keys
        && rows[id].payload == old(rows)[id].payload.(state := Revoked, revokedAt := Some(now))
        && forall j :: j in rows && j != id ==> rows[j] == old(rows)[j]
      ensures res != Accepted ==> rows == old(rows)
    {
      if id !in rows {
        return NotFound;
      }
      var doc := rows[id].payload;
      if doc.actor != identity.actor {
        return Denied(IdentityMismatch);
      }
      if doc.state != Pending && doc.state != Approved {
        return NotRevocable;
      }
      var changed := Transition(id, doc.state, Revoked, RevokeDoc(doc, now));
      return if changed then Accepted else NotRevocable;
    }

    /**
     `authorize`: routine plans pass without an approval; any other consumes one that matches the state observed now,
     unless that state is unavailable (`None`). The clock is read twice.
     */
    method Authorize(plan: Plan, identity: Identity, id: Option<ApprovalId>, current: Option<map<Id, string>>,
                     now: Time, consumedAt: Time)
      returns (res: Result)
      requires Valid()
      modifies this
      ensures Valid()
      ensures res == Accepted <==>
        || !NeedsApproval(plan.operation)
        || (current.Some? && Authorizes(old(rows), id, plan.(currentState := current.value), identity, now))
      ensures res == Accepted && NeedsApproval(plan.operation) ==>
        old(rows)[id.value].state == Approved && rows == Consume(old(rows), id.value, consumedAt)
      ensures res != Accepted || !NeedsApproval(plan.operation) ==> rows == old(rows)
    {
      RisksMean(plan.operation);
      if RiskOf(plan.operation) == Routine {
        return Accepted;
      }
      if id.None? {
        return ApprovalRequired;
      }
      if id.value !in rows {
        return NotFound;
      }
      var doc := rows[id.value].payload;
      if current.None? {
        return StateUnavailable;
      }
      CoversIff(doc, plan.(currentState := current.value), identity, now);
      var reason := ConsumptionReason(doc, plan.(currentState := current.value), identity, now);
      if reason.Some? {
        return Denied(reason.value);
      }
      var changed := Transition(id.value, Approved, Consumed, ConsumeDoc(doc, consumedAt));
      return if changed then Accepted else Denied(NotApproved);
    }
  }
}
