/** Single-use upgrade plans: `submit` consumes the plan row by compare-and-set before it creates the operation. */
module UpgradePlans {
  type PlanId = string
  type OpId = string
  type Tid = nat

  /** The state column of a plan row: null until consumed; a cancellation or a restart may rewrite it later. */
  datatype Row = Unconsumed | Consumed | Cancelling | Interrupted

  /** `winners`: submissions that consumed a plan and have not created its operation yet. */
  datatype Service = Service(rows: map<PlanId, Row>, winners: map<Tid, PlanId>, operations: map<OpId, PlanId>)

  datatype Action =
    | Publish(plan: PlanId)
    | Consume(tid: Tid, plan: PlanId)
    | Create(tid: Tid, op: OpId)
    | CancelRow(plan: PlanId)
    | Restart

  ghost predicate Enabled(s: Service, a: Action) {
    match a
    case Publish(plan) => plan !in s.rows
    case Consume(tid, plan) => tid !in s.winners
    case Create(tid, op) => tid in s.winners && op !in s.operations
    case CancelRow(plan) => plan in s.rows && !s.rows[plan].Unconsumed?
    case Restart => true
  }

  /** `consume_plan`: succeeds only on a row whose state is still null. */
  ghost function Perform(s: Service, a: Action): Service
    requires Enabled(s, a)
  {
    match a
    case Publish(plan) => s.(rows := s.rows[plan := Unconsumed])
    case Consume(tid, plan) =>
      if plan in s.rows && s.rows[plan].Unconsumed?
      then s.(rows := s.rows[plan := Consumed], winners := s.winners[tid := plan])
      else s
    case Create(tid, op) => s.(operations := s.operations[op := s.winners[tid]], winners := s.winners - {tid})
    case CancelRow(plan) => s.(rows := s.rows[plan := Cancelling])
    case Restart =>
      s.(rows := map p | p in s.rows :: if s.rows[p].Cancelling? then Interrupted else s.rows[p], winners := map[])
  }

  ghost predicate SingleUse(s: Service) {
    forall a, b :: a in s.operations && b in s.operations && s.operations[a] == s.operations[b] ==> a == b
  }

  ghost predicate Inv(s: Service) {
    && SingleUse(s)
    && (forall t, u :: t in s.winners && u in s.winners && s.winners[t] == s.winners[u] ==> t == u)
    && (forall t, a :: t in s.winners && a in s.operations ==> s.winners[t] != s.operations[a])
    && (forall t :: t in s.winners ==> s.winners[t] in s.rows && !s.rows[s.winners[t]].Unconsumed?)
    && (forall a :: a in s.operations ==> s.operations[a] in s.rows && !s.rows[s.operations[a]].Unconsumed?)
  }

  lemma InvStep(s: Service, a: Action)
    requires Inv(s) && Enabled(s, a)
    ensures Inv(Perform(s, a))
  {
  }

  /** What an action leaves of a submission that consumed its plan, and of an operation. */
  ghost predicate Keeps(s: Service, a: Action, t: Service) {
    && (forall op :: op in s.operations ==> op in t.operations && t.operations[op] == s.operations[op])
    && (forall tid :: tid in s.winners && !a.Restart? ==>
          if a.Create? && a.tid == tid then a.op in t.operations && t.operations[a.op] == s.winners[tid]
          else tid in t.winners && t.winners[tid] == s.winners[tid])
    && (forall op :: op in t.operations && op !in s.operations ==>
          a.Create? && a.tid in s.winners && t.operations[op] == s.winners[a.tid])
  }

  /**
   A plan row is consumed by exactly one submission and never becomes free again; a restart leaves no cancellation
   pending and touches nothing else. Operations stay, and each is created by the submission that consumed its plan.
   */
  lemma RowsMove(s: Service, a: Action, plan: PlanId)
    requires Inv(s) && Enabled(s, a) && plan in s.rows
    ensures var t := Perform(s, a);
      && Keeps(s, a, t) && plan in t.rows
      && (t.rows[plan] == Unconsumed ==> s.rows[plan] == Unconsumed)
      && (s.rows[plan] == Unconsumed != t.rows[plan] ==>
            a.Consume? && a.plan == plan && t.rows[plan] == Consumed
            && t.winners == s.winners[a.tid := plan] && a.tid !in s.winners)
      && (a.Restart? ==> t.rows[plan] == if s.rows[plan] == Cancelling then Interrupted else s.rows[plan])
  {
  }

  ghost predicate Behaviour(s: Service, acts: seq<Action>)
    decreases |acts|, 0
  {
    acts == [] || (Behaviour(s, acts[..|acts| - 1]) && Enabled(Reached(s, acts[..|acts| - 1]), acts[|acts| - 1]))
  }

  ghost function Reached(s: Service, acts: seq<Action>): Service
    requires Behaviour(s, acts)
    decreases |acts|, 1
  {
    if acts == [] then s else Perform(Reached(s, acts[..|acts| - 1]), acts[|acts| - 1])
  }

  lemma {:induction false} InvHolds(s: Service, acts: seq<Action>)
    requires Inv(s) && Behaviour(s, acts)
    ensures Inv(Reached(s, acts))
    decreases |acts|
  {
    if acts != [] {
      InvHolds(s, acts[..|acts| - 1]);
      InvStep(Reached(s, acts[..|acts| - 1]), acts[|acts| - 1]);
    }
  }

  /** However submissions, cancellations and restarts interleave, a plan yields at most one operation. */
  lemma AtMostOneOperation(acts: seq<Action>)
    requires Behaviour(Service(map[], map[], map[]), acts)
    ensures SingleUse(Reached(Service(map[], map[], map[]), acts))
  {
    InvHolds(Service(map[], map[], map[]), acts);
  }
}
