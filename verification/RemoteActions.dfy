/**
 Approvals, opaque remote tokens and operation creation together, under any
 interleaving (manager/authorization.py, manager/remote_actions.py and the
 submission path of manager/operation_engine.py). Each read and each
 compare-and-set is one atomic action; a thread may fail between any two.
 */
module RemoteActions {
  import opened Sequences
  import A = Authorization

  type Token = string
  type Tid = nat
  type OpId = string

  datatype Kind = ApproveAction | RejectAction | OtherAction

  datatype TokenState = TokenPending | Executing | TokenConsumed | TokenExpired

  datatype TokenRow = TokenRow(state: TokenState, actor: string, session: string, kind: Kind,
                               reference: A.ApprovalId, expiresAt: A.Time)

  datatype BeginError = InvalidOrExpired | WrongIdentity | AlreadyUsed

  datatype BeginResult = Begun(kind: Kind, reference: A.ApprovalId) | Refused(error: BeginError)

  /** The row `token` names; an empty or overlong token names none. */
  predicate Known(tokens: map<Token, TokenRow>, token: Token) {
    0 < |token| <= 48 && token in tokens
  }

  /** The one situation in which an execution may start. */
  predicate CanBegin(tokens: map<Token, TokenRow>, token: Token, who: A.Identity, now: A.Time) {
    && Known(tokens, token)
    && tokens[token].actor == who.actor && tokens[token].session == who.session
    && tokens[token].state.TokenPending? && now < tokens[token].expiresAt
  }

  /** `RemoteActionStore`; its lock makes each method one step of the machine below. */
  class TokenStore {
    var tokens: map<Token, TokenRow>

    constructor ()
      ensures tokens == map[]
    {
      tokens := map[];
    }

    method Issue(token: Token, who: A.Identity, kind: Kind, reference: A.ApprovalId, expiresAt: A.Time)
      requires token !in tokens
      modifies this
      ensures tokens == old(tokens)[token := TokenRow(TokenPending, who.actor, who.session, kind, reference, expiresAt)]
    {
      tokens := tokens[token := TokenRow(TokenPending, who.actor, who.session, kind, reference, expiresAt)];
    }

    /** Starts an execution exactly when it may start; a refusal changes at most an overdue token's state. */
    method Begin(token: Token, who: A.Identity, now: A.Time) returns (r: BeginResult)
      modifies this
      ensures r.Begun? <==> CanBegin(old(tokens), token, who, now)
      ensures r.Begun? <==>
        && 1 <= |token| <= 48 && token in old(tokens)
        && old(tokens)[token].actor == who.actor && old(tokens)[token].session == who.session
        && old(tokens)[token].state.TokenPending? && now < old(tokens)[token].expiresAt
      ensures r.Begun? ==>
        && r == Begun(old(tokens)[token].kind, old(tokens)[token].reference)
        && tokens == old(tokens)[token := old(tokens)[token].(state := Executing)]
        && (forall w: A.Identity, t: A.Time :: !CanBegin(tokens, token, w, t))
      ensures r == Refused(WrongIdentity) <==>
        Known(old(tokens), token)
        && (old(tokens)[token].actor != who.actor || old(tokens)[token].session != who.session)
      ensures r == Refused(AlreadyUsed) <==>
        && Known(old(tokens), token) && old(tokens)[token].actor == who.actor
        && old(tokens)[token].session == who.session && !old(tokens)[token].state.TokenPending?
      ensures r.Refused? ==>
        if r.error.InvalidOrExpired? && Known(old(tokens), token)
        then && old(tokens)[token].state.TokenPending? && now >= old(tokens)[token].expiresAt
             && tokens == old(tokens)[token := old(tokens)[token].(state := TokenExpired)]
        else tokens == old(tokens)
    {
      if !Known(tokens, token) {
        return Refused(InvalidOrExpired);
      }
      var row := tokens[token];
      if row.actor != who.actor || row.session != who.session {
        return Refused(WrongIdentity);
      }
      if row.state != TokenPending {
        return Refused(AlreadyUsed);
      }
      if now >= row.expiresAt {
        tokens := tokens[token := row.(state := TokenExpired)];
        return Refused(InvalidOrExpired);
      }
      tokens := tokens[token := row.(state := Executing)];
      r := Begun(row.kind, row.reference);
    }

    /** Settles an execution in flight; a token in any other state is left alone. */
    method Finish(token: Token, retryable: bool)
      modifies this
      ensures token in old(tokens) && old(tokens)[token].state.Executing? ==>
        tokens == old(tokens)[token := old(tokens)[token].(state := if retryable then TokenPending else TokenConsumed)]
      ensures !(token in old(tokens) && old(tokens)[token].state.Executing?) ==> tokens == old(tokens)
    {
      if token in tokens && tokens[token].state == Executing {
        tokens := tokens[token := tokens[token].(state := if retryable then TokenPending else TokenConsumed)];
      }
    }
  }

  /** A decision computed from a read, to be written if the stored state is still `seen.state`. */
  datatype Intent = Intent(id: A.ApprovalId, seen: A.Approval, next: A.Approval, who: A.Identity, at: A.Time,
                           plan: A.Plan)

  datatype Pc = Idle | Holding(intent: Intent) | Cleared(id: A.ApprovalId, plan: A.Plan)

  /** A created operation: the approval it used and the plan it executes. */
  datatype Created = Created(approval: A.ApprovalId, plan: A.Plan)

  /** What an approval was requested for, by whom and when. */
  datatype Grant = Grant(plan: A.Plan, who: A.Identity, now: A.Time, ttl: A.Time)

  /** `token` is present when the thread executes a remote action. */
  datatype Thread = Thread(token: Option<Token>, pc: Pc)

  /** Successful transitions, in order. */
  datatype Fact =
    | Decided(id: A.ApprovalId, who: A.Identity, at: A.Time)
    | Used(id: A.ApprovalId, who: A.Identity, at: A.Time)
    | Withdrawn(id: A.ApprovalId, who: A.Identity, at: A.Time)

  /** `requests` is the history of requests; no code reads it. */
  datatype System = System(
    rows: map<A.ApprovalId, A.Row>, tokens: map<Token, TokenRow>, threads: map<Tid, Thread>,
    operations: map<OpId, Created>, facts: seq<Fact>, requests: map<A.ApprovalId, Grant>)

  datatype Action =
    | Request(id: A.ApprovalId, plan: A.Plan, who: A.Identity, now: A.Time, ttl: A.Time)
    | Issue(token: Token, row: TokenRow)
    | Spawn(tid: Tid)
    | Begin(tid: Tid, token: Token, who: A.Identity, now: A.Time)
    | ReadToApprove(tid: Tid, id: A.ApprovalId, who: A.Identity, now: A.Time, confirmation: Option<string>,
                    maxAge: A.Time)
    | ReadToRevoke(tid: Tid, id: A.ApprovalId, who: A.Identity, now: A.Time)
    | ReadToAuthorize(tid: Tid, id: A.ApprovalId, plan: A.Plan, who: A.Identity, now: A.Time, at: A.Time)
    | Swap(tid: Tid)
    | Create(tid: Tid, op: OpId)
    | GiveUp(tid: Tid)
    | Finish(tid: Tid, retryable: bool)
    | Expire(token: Token, now: A.Time)
    | Crash

  ghost predicate IdleThread(s: System, tid: Tid) {
    tid in s.threads && s.threads[tid].pc.Idle?
  }

  ghost predicate Enabled(s: System, a: Action) {
    match a
    case Request(id, _, _, _, _) => id !in s.rows
    case Issue(token, row) => token !in s.tokens && row.state.TokenPending?
    case Spawn(tid) => tid !in s.threads
    case Begin(tid, token, who, now) =>
      tid !in s.threads && CanBegin(s.tokens, token, who, now)
    case ReadToApprove(tid, id, who, now, confirmation, maxAge) =>
      && IdleThread(s, tid) && id in s.rows
      && A.DecisionReason(s.rows[id].payload, who, now, confirmation, maxAge).None?
    case ReadToRevoke(tid, id, who, now) =>
      && IdleThread(s, tid) && id in s.rows
      && s.rows[id].payload.actor == who.actor && s.rows[id].payload.state in {A.Pending, A.Approved}
    case ReadToAuthorize(tid, id, plan, who, now, _) =>
      && IdleThread(s, tid) && id in s.rows
      && A.ConsumptionReason(s.rows[id].payload, plan, who, now).None?
    case Swap(tid) => tid in s.threads && s.threads[tid].pc.Holding?
    case Create(tid, op) => tid in s.threads && s.threads[tid].pc.Cleared? && op !in s.operations
    case GiveUp(tid) => tid in s.threads
    case Finish(tid, _) => tid in s.threads && s.threads[tid].token.Some? && s.threads[tid].pc.Idle?
    case Expire(token, now) =>
      token in s.tokens && s.tokens[token].state.TokenPending? && now >= s.tokens[token].expiresAt
    case Crash => true
  }

  ghost function SetPc(s: System, tid: Tid, pc: Pc): System
    requires tid in s.threads
  {
    s.(threads := s.threads[tid := s.threads[tid].(pc := pc)])
  }

  /** The fact a successful swap establishes. */
  function FactOf(intent: Intent): Fact {
    match intent.next.state
    case Approved => Decided(intent.id, intent.who, intent.at)
    case Consumed => Used(intent.id, intent.who, intent.at)
    case _ => Withdrawn(intent.id, intent.who, intent.at)
  }

  /** `ApprovalStore.transition`, and what its caller does next. */
  ghost function DoSwap(s: System, tid: Tid): System
    requires tid in s.threads && s.threads[tid].pc.Holding?
  {
    var intent := s.threads[tid].pc.intent;
    if intent.id in s.rows && s.rows[intent.id].state == intent.seen.state then
      SetPc(s, tid, if intent.next.state == A.Consumed then Cleared(intent.id, intent.plan) else Idle)
        .(rows := s.rows[intent.id := A.Row(intent.next.state, intent.next)], facts := s.facts + [FactOf(intent)])
    else SetPc(s, tid, Idle)
  }

  ghost function Perform(s: System, a: Action): System
    requires Enabled(s, a)
  {
    match a
    case Request(id, plan, who, now, ttl) =>
      s.(rows := s.rows[id := A.Row(A.Pending, A.NewApproval(plan, who, now, ttl))],
         requests := s.requests[id := Grant(plan, who, now, ttl)])
    case Issue(token, row) => s.(tokens := s.tokens[token := row])
    case Spawn(tid) => s.(threads := s.threads[tid := Thread(None, Idle)])
    case Begin(tid, token, who, now) =>
      s.(tokens := s.tokens[token := s.tokens[token].(state := Executing)],
         threads := s.threads[tid := Thread(Some(token), Idle)])
    case ReadToApprove(tid, id, who, now, _, _) =>
      var doc := s.rows[id].payload;
      SetPc(s, tid, Holding(Intent(id, doc, A.ApproveDoc(doc, now), who, now, doc.digest)))
    case ReadToRevoke(tid, id, who, now) =>
      var doc := s.rows[id].payload;
      SetPc(s, tid, Holding(Intent(id, doc, A.RevokeDoc(doc, now), who, now, doc.digest)))
    case ReadToAuthorize(tid, id, plan, who, _, at) =>
      SetPc(s, tid, Holding(Intent(id, s.rows[id].payload, A.ConsumeDoc(s.rows[id].payload, at), who, at, plan)))
    case Swap(tid) => DoSwap(s, tid)
    case Create(tid, op) =>
      var pc := s.threads[tid].pc;
      SetPc(s, tid, Idle).(operations := s.operations[op := Created(pc.id, pc.plan)])
    case GiveUp(tid) =>
      if s.threads[tid].token.Some? then SetPc(s, tid, Idle) else s.(threads := s.threads - {tid})
    case Finish(tid, retryable) =>
      var token := s.threads[tid].token.value;
      s.(tokens := if token in s.tokens && s.tokens[token].state.Executing?
                   then s.tokens[token := s.tokens[token].(state := if retryable then TokenPending else TokenConsumed)]
                   else s.tokens,
         threads := s.threads - {tid})
    case Expire(token, now) => s.(tokens := s.tokens[token := s.tokens[token].(state := TokenExpired)])
    case Crash => s.(threads := map[])
  }

  ghost predicate Initial(s: System) {
    s == System(map[], map[], map[], map[], [], map[])
  }

  ghost predicate Behaviour(s: System, acts: seq<Action>)
    decreases |acts|, 0
  {
    acts == [] || (Behaviour(s, acts[..|acts| - 1]) && Enabled(Reached(s, acts[..|acts| - 1]), acts[|acts| - 1]))
  }

  ghost function Reached(s: System, acts: seq<Action>): System
    requires Behaviour(s, acts)
    decreases |acts|, 1
  {
    if acts == [] then s else Perform(Reached(s, acts[..|acts| - 1]), acts[|acts| - 1])
  }

  // ----- The ledger -----

  /** What a compare-and-set in flight was computed from. */
  ghost predicate IntentFits(rows: map<A.ApprovalId, A.Row>, intent: Intent) {
    && intent.id in rows
    && A.Edge(intent.seen.state, intent.next.state)
    && A.SameGrant(intent.seen, intent.next)
    && (intent.next.state == A.Approved ==>
          && intent.next == A.ApproveDoc(intent.seen, intent.at)
          && intent.seen.actor == intent.who.actor && intent.seen.session == intent.who.session
          && intent.at < intent.seen.expiresAt
          && (intent.seen.risk == A.HighRisk ==> intent.who.source in {A.LocalCli, A.Web}))
    && (intent.next.state == A.Consumed ==>
          && intent.next == A.ConsumeDoc(intent.seen, intent.at)
          && intent.seen.actor == intent.who.actor && intent.seen.session == intent.who.session
          && intent.seen.source == intent.who.source && intent.plan == intent.seen.digest)
    && (intent.next.state == A.Revoked ==>
          intent.next == A.RevokeDoc(intent.seen, intent.at) && intent.seen.actor == intent.who.actor)
    // Nobody returns to a state that was left, so an unchanged state means an unchanged record.
    && (rows[intent.id].payload == intent.seen || A.Rank(rows[intent.id].state) > A.Rank(intent.seen.state))
  }

  /** The state column mirrors the payload. */
  ghost predicate Mirrored(s: System) {
    forall id :: id in s.rows ==> s.rows[id].state == s.rows[id].payload.state
  }

  ghost predicate IntentsFit(s: System) {
    forall t :: t in s.threads && s.threads[t].pc.Holding? ==> IntentFits(s.rows, s.threads[t].pc.intent)
  }

  ghost predicate LedgerInv(s: System) {
    Mirrored(s) && IntentsFit(s)
  }

  lemma MirroredStep(s: System, a: Action)
    requires LedgerInv(s) && Enabled(s, a)
    ensures Mirrored(Perform(s, a))
  {
  }

  /** A decision just computed fits the record it was computed from. */
  lemma ReadFits(s: System, a: Action)
    requires LedgerInv(s) && Enabled(s, a) && (a.ReadToApprove? || a.ReadToRevoke? || a.ReadToAuthorize?)
    ensures Perform(s, a).threads[a.tid].pc.Holding?
    ensures IntentFits(Perform(s, a).rows, Perform(s, a).threads[a.tid].pc.intent)
  {
  }

  /** A record that moves on leaves the decisions computed from it fitting, or overtaken. */
  lemma FitsOn(before: map<A.ApprovalId, A.Row>, after: map<A.ApprovalId, A.Row>, intent: Intent)
    requires IntentFits(before, intent) && intent.id in after
    requires after[intent.id] == before[intent.id]
             || A.Rank(after[intent.id].state) > A.Rank(before[intent.id].state)
    requires before[intent.id].state == before[intent.id].payload.state
    ensures IntentFits(after, intent)
  {
  }

  /** Any other action starts no decision. */
  lemma NoNewIntent(s: System, a: Action, tid: Tid)
    requires Enabled(s, a) && tid in Perform(s, a).threads && Perform(s, a).threads[tid].pc.Holding?
    requires !((a.ReadToApprove? || a.ReadToRevoke? || a.ReadToAuthorize?) && a.tid == tid)
    ensures tid in s.threads && s.threads[tid].pc == Perform(s, a).threads[tid].pc
  {
  }

  lemma IntentsStep(s: System, a: Action)
    requires LedgerInv(s) && Enabled(s, a)
    ensures IntentsFit(Perform(s, a))
  {
    var t := Perform(s, a);
    forall tid | tid in t.threads && t.threads[tid].pc.Holding?
      ensures IntentFits(t.rows, t.threads[tid].pc.intent)
    {
      if (a.ReadToApprove? || a.ReadToRevoke? || a.ReadToAuthorize?) && a.tid == tid {
        ReadFits(s, a);
      } else {
        NoNewIntent(s, a, tid);
        LedgerMoves(s, a, s.threads[tid].pc.intent.id);
        FitsOn(s.rows, t.rows, s.threads[tid].pc.intent);
      }
    }
  }

  lemma LedgerStep(s: System, a: Action)
    requires LedgerInv(s) && Enabled(s, a)
    ensures LedgerInv(Perform(s, a))
  {
    MirroredStep(s, a);
    IntentsStep(s, a);
  }

  /** How one action may change the ledger: along an edge, with the grant untouched. */
  lemma LedgerMoves(s: System, a: Action, id: A.ApprovalId)
    requires LedgerInv(s) && Enabled(s, a) && id in s.rows
    ensures var t := Perform(s, a);
      && id in t.rows
      && (t.rows[id] == s.rows[id]
          || (A.Edge(s.rows[id].state, t.rows[id].state) && A.SameGrant(s.rows[id].payload, t.rows[id].payload)))
  {
  }

  lemma {:induction false} LedgerHolds(s: System, acts: seq<Action>)
    requires Initial(s) && Behaviour(s, acts)
    ensures LedgerInv(Reached(s, acts))
    decreases |acts|
  {
    if acts != [] {
      LedgerHolds(s, acts[..|acts| - 1]);
      LedgerStep(Reached(s, acts[..|acts| - 1]), acts[|acts| - 1]);
    }
  }

  // ----- Facts: every use follows a decision by the same actor and session -----

  /** A decision on `id` is on record among the first `k` facts, by the record's own actor and session. */
  ghost predicate DecidedBefore(facts: seq<Fact>, k: nat, id: A.ApprovalId, doc: A.Approval)
    requires k <= |facts|
  {
    exists i :: 0 <= i < k && DecisionAt(facts[i], id, doc)
  }

  ghost predicate DecisionAt(f: Fact, id: A.ApprovalId, doc: A.Approval) {
    && f.Decided? && f.id == id
    && f.who.actor == doc.actor && f.who.session == doc.session
    && doc.decidedAt == Some(f.at) && f.at < doc.expiresAt
    && (doc.risk == A.HighRisk ==> f.who.source in {A.LocalCli, A.Web})
  }

  /** Every recorded use is of a consumed approval, by its own actor and session, after a decision on it. */
  ghost predicate UseJustified(s: System, i: nat)
    requires i < |s.facts|
  {
    var f := s.facts[i];
    && f.id in s.rows && s.rows[f.id].state == A.Consumed
    && f.who.actor == s.rows[f.id].payload.actor && f.who.session == s.rows[f.id].payload.session
    && DecidedBefore(s.facts, i, f.id, s.rows[f.id].payload)
  }

  ghost predicate UsesInv(s: System) {
    && (forall i :: 0 <= i < |s.facts| && s.facts[i].Used? ==> UseJustified(s, i))
    && (forall i, j :: 0 <= i < j < |s.facts| && s.facts[i].Used? && s.facts[j].Used? ==>
          s.facts[i].id != s.facts[j].id)
  }

  /** The state column never runs ahead of the record of decisions. */
  ghost predicate DecisionsInv(s: System) {
    forall id :: id in s.rows && s.rows[id].state in {A.Approved, A.Consumed} ==>
      DecidedBefore(s.facts, |s.facts|, id, s.rows[id].payload)
  }

  ghost predicate FactsInv(s: System) {
    UsesInv(s) && DecisionsInv(s)
  }

  lemma DecidedExtend(facts: seq<Fact>, f: Fact, k: nat, id: A.ApprovalId, doc: A.Approval)
    requires k <= |facts| && DecidedBefore(facts, k, id, doc)
    ensures DecidedBefore(facts + [f], k, id, doc) && DecidedBefore(facts + [f], |facts| + 1, id, doc)
  {
    var i :| 0 <= i < k && DecisionAt(facts[i], id, doc);
    assert DecisionAt((facts + [f])[i], id, doc);
  }

  /** A successful swap, as a change of the ledger alone. */
  ghost predicate Swapped(s: System, t: System, intent: Intent) {
    && IntentFits(s.rows, intent) && s.rows[intent.id].payload == intent.seen
    && s.rows[intent.id].state == intent.seen.state
    && t.rows == s.rows[intent.id := A.Row(intent.next.state, intent.next)]
    && t.facts == s.facts + [FactOf(intent)]
  }

  lemma SwapDecisions(s: System, t: System, intent: Intent)
    requires FactsInv(s) && Swapped(s, t, intent)
    ensures DecisionsInv(t)
  {
    var n := |s.facts|;
    forall id | id in t.rows && t.rows[id].state in {A.Approved, A.Consumed}
      ensures DecidedBefore(t.facts, |t.facts|, id, t.rows[id].payload)
    {
      if id != intent.id {
        DecidedExtend(s.facts, FactOf(intent), n, id, s.rows[id].payload);
      } else if intent.next.state == A.Approved {
        assert DecisionAt(t.facts[n], id, intent.next);
      } else {
        SwapUses(s, t, intent);
      }
    }
  }

  /** A use is swapped in from an approved record, so its decision is already recorded. */
  lemma SwapUses(s: System, t: System, intent: Intent)
    requires FactsInv(s) && Swapped(s, t, intent) && intent.next.state == A.Consumed
    ensures DecidedBefore(t.facts, |s.facts|, intent.id, intent.next)
    ensures DecidedBefore(t.facts, |t.facts|, intent.id, intent.next)
  {
    var k :| 0 <= k < |s.facts| && DecisionAt(s.facts[k], intent.id, intent.seen);
    assert DecisionAt(t.facts[k], intent.id, intent.next);
  }

  lemma SwapFacts(s: System, t: System, intent: Intent)
    requires FactsInv(s) && Swapped(s, t, intent)
    ensures FactsInv(t)
  {
    SwapDecisions(s, t, intent);
    var n := |s.facts|;
    forall i | 0 <= i < |t.facts| && t.facts[i].Used?
      ensures UseJustified(t, i)
      ensures i < n ==> t.facts[i].id != intent.id
    {
      if i < n {
        assert UseJustified(s, i);
        assert s.facts[i].id != intent.id;
        DecidedExtend(s.facts, FactOf(intent), i, s.facts[i].id, s.rows[s.facts[i].id].payload);
      } else {
        SwapUses(s, t, intent);
      }
    }
  }

  /** An action that records nothing and only adds pending approvals keeps the invariant. */
  lemma QuietFacts(s: System, t: System)
    requires FactsInv(s) && t.facts == s.facts
    requires forall id :: id in s.rows ==> id in t.rows && t.rows[id] == s.rows[id]
    requires forall id :: id in t.rows && id !in s.rows ==> t.rows[id].state == A.Pending
    ensures FactsInv(t)
  {
    forall i | 0 <= i < |t.facts| && t.facts[i].Used?
      ensures UseJustified(t, i)
    {
      assert UseJustified(s, i);
    }
  }

  lemma FactsStep(s: System, a: Action)
    requires LedgerInv(s) && FactsInv(s) && Enabled(s, a)
    ensures FactsInv(Perform(s, a))
  {
    if a.Swap? {
      var intent := s.threads[a.tid].pc.intent;
      if intent.id in s.rows && s.rows[intent.id].state == intent.seen.state {
        assert Swapped(s, Perform(s, a), intent);
        SwapFacts(s, Perform(s, a), intent);
      }
    } else {
      QuietFacts(s, Perform(s, a));
    }
  }

  lemma {:induction false} FactsHold(s: System, acts: seq<Action>)
    requires Initial(s) && Behaviour(s, acts)
    ensures FactsInv(Reached(s, acts))
    decreases |acts|
  {
    if acts != [] {
      FactsHold(s, acts[..|acts| - 1]);
      LedgerHolds(s, acts[..|acts| - 1]);
      FactsStep(Reached(s, acts[..|acts| - 1]), acts[|acts| - 1]);
    }
  }

  /**
   However reads, checks and compare-and-sets interleave, an approval is used at most once, and only after
   a decision on it by the same actor in the same session, whose time the consumed record still carries.
   */
  lemma UsedOnce(s: System, acts: seq<Action>, j: nat)
    requires Initial(s) && Behaviour(s, acts) && j < |Reached(s, acts).facts|
    requires Reached(s, acts).facts[j].Used?
    ensures var t := Reached(s, acts);
      var used := t.facts[j];
      && (forall i :: 0 <= i < |t.facts| && i != j && t.facts[i].Used? ==> t.facts[i].id != used.id)
      && used.id in t.rows && t.rows[used.id].state == A.Consumed
      && exists i :: 0 <= i < j && t.facts[i].Decided? && t.facts[i].id == used.id
           && t.facts[i].who.actor == used.who.actor && t.facts[i].who.session == used.who.session
           && t.rows[used.id].payload.decidedAt == Some(t.facts[i].at)
           && t.facts[i].at < t.rows[used.id].payload.expiresAt
           && (t.rows[used.id].payload.risk == A.HighRisk ==> t.facts[i].who.source in {A.LocalCli, A.Web})
  {
    FactsHold(s, acts);
    var t := Reached(s, acts);
    assert UseJustified(t, j);
    var i :| 0 <= i < j && DecisionAt(t.facts[i], t.facts[j].id, t.rows[t.facts[j].id].payload);
  }

  /** The record was withdrawn by its own actor, at the time it carries. */
  ghost predicate WithdrawnAs(facts: seq<Fact>, id: A.ApprovalId, doc: A.Approval) {
    exists i :: 0 <= i < |facts| && facts[i].Withdrawn? && facts[i].id == id
      && facts[i].who.actor == doc.actor && doc.revokedAt == Some(facts[i].at)
  }

  ghost predicate WithdrawalsInv(s: System) {
    forall id :: id in s.rows && s.rows[id].state == A.Revoked ==> WithdrawnAs(s.facts, id, s.rows[id].payload)
  }

  lemma WithdrawnExtend(facts: seq<Fact>, f: Fact, id: A.ApprovalId, doc: A.Approval)
    requires WithdrawnAs(facts, id, doc)
    ensures WithdrawnAs(facts + [f], id, doc)
  {
    var i :| 0 <= i < |facts| && facts[i].Withdrawn? && facts[i].id == id
      && facts[i].who.actor == doc.actor && doc.revokedAt == Some(facts[i].at);
    assert (facts + [f])[i] == facts[i];
  }

  lemma SwapWithdrawals(s: System, t: System, intent: Intent)
    requires WithdrawalsInv(s) && Swapped(s, t, intent)
    ensures WithdrawalsInv(t)
  {
    forall id | id in t.rows && t.rows[id].state == A.Revoked
      ensures WithdrawnAs(t.facts, id, t.rows[id].payload)
    {
      if id != intent.id {
        WithdrawnExtend(s.facts, FactOf(intent), id, s.rows[id].payload);
      } else {
        assert t.facts[|s.facts|] == FactOf(intent);
      }
    }
  }

  lemma WithdrawalsStep(s: System, a: Action)
    requires LedgerInv(s) && WithdrawalsInv(s) && Enabled(s, a)
    ensures WithdrawalsInv(Perform(s, a))
  {
    if a.Swap? {
      var intent := s.threads[a.tid].pc.intent;
      if intent.id in s.rows && s.rows[intent.id].state == intent.seen.state {
        assert Swapped(s, Perform(s, a), intent);
        SwapWithdrawals(s, Perform(s, a), intent);
      }
    }
  }

  /** In every reachable state a revoked approval was withdrawn by its own actor. */
  lemma {:induction false} RevokedByOwnActor(s: System, acts: seq<Action>)
    requires Initial(s) && Behaviour(s, acts)
    ensures WithdrawalsInv(Reached(s, acts))
    decreases |acts|
  {
    if acts != [] {
      RevokedByOwnActor(s, acts[..|acts| - 1]);
      LedgerHolds(s, acts[..|acts| - 1]);
      WithdrawalsStep(Reached(s, acts[..|acts| - 1]), acts[|acts| - 1]);
    }
  }

  // ----- Operations and tokens -----

  /** The approval is consumed, and it was for this plan. */
  ghost predicate Backs(s: System, id: A.ApprovalId, plan: A.Plan) {
    id in s.rows && s.rows[id].state == A.Consumed && s.rows[id].payload.digest == plan
  }

  /** So are the approvals behind operations, and behind threads about to create one. */
  ghost predicate BackedInv(s: System) {
    && (forall a :: a in s.operations ==> Backs(s, s.operations[a].approval, s.operations[a].plan))
    && (forall t :: t in s.threads && s.threads[t].pc.Cleared? ==> Backs(s, s.threads[t].pc.id, s.threads[t].pc.plan))
  }

  /** Every record still is what it was requested as. */
  ghost predicate RequestsInv(s: System) {
    forall id :: id in s.rows ==>
      && id in s.requests
      && var g := s.requests[id];
         A.RequestedAs(s.rows[id].payload, g.plan, g.who, g.now, g.ttl)
  }

  lemma NewRequest(s: System, a: Action)
    requires Enabled(s, a) && a.Request?
    ensures var t := Perform(s, a);
      && a.id in t.rows && t.requests == s.requests[a.id := Grant(a.plan, a.who, a.now, a.ttl)]
      && A.RequestedAs(t.rows[a.id].payload, a.plan, a.who, a.now, a.ttl)
  {
    A.RisksMean(a.plan.operation);
  }

  /** No other action adds a record or a request. */
  lemma NoNewRow(s: System, a: Action, id: A.ApprovalId)
    requires LedgerInv(s) && Enabled(s, a) && !(a.Request? && a.id == id) && id in Perform(s, a).rows
    ensures id in s.rows
    ensures id in s.requests ==> id in Perform(s, a).requests && Perform(s, a).requests[id] == s.requests[id]
  {
    if a.Swap? {
      assert IntentFits(s.rows, s.threads[a.tid].pc.intent);
    }
  }

  lemma RequestsStep(s: System, a: Action)
    requires LedgerInv(s) && RequestsInv(s) && Enabled(s, a)
    ensures RequestsInv(Perform(s, a))
  {
    var t := Perform(s, a);
    forall id | id in t.rows
      ensures id in t.requests
      ensures A.RequestedAs(t.rows[id].payload, t.requests[id].plan, t.requests[id].who, t.requests[id].now,
                            t.requests[id].ttl)
    {
      if a.Request? && a.id == id {
        NewRequest(s, a);
      } else {
        NoNewRow(s, a, id);
        LedgerMoves(s, a, id);
      }
    }
  }

  lemma {:induction false} RequestsHold(s: System, acts: seq<Action>)
    requires Initial(s) && Behaviour(s, acts)
    ensures RequestsInv(Reached(s, acts))
    decreases |acts|
  {
    if acts != [] {
      RequestsHold(s, acts[..|acts| - 1]);
      LedgerHolds(s, acts[..|acts| - 1]);
      RequestsStep(Reached(s, acts[..|acts| - 1]), acts[|acts| - 1]);
    }
  }

  /** No approval is behind two of them. */
  ghost predicate DistinctInv(s: System) {
    && (forall a, b :: a in s.operations && b in s.operations ==>
          s.operations[a].approval == s.operations[b].approval ==> a == b)
    && (forall t, a :: t in s.threads && s.threads[t].pc.Cleared? && a in s.operations ==>
          s.threads[t].pc.id != s.operations[a].approval)
    && (forall t, u :: t in s.threads && u in s.threads && t != u ==>
          s.threads[t].pc.Cleared? && s.threads[u].pc.Cleared? ==>
          s.threads[t].pc.id != s.threads[u].pc.id)
  }

  ghost predicate OperationsInv(s: System) {
    BackedInv(s) && DistinctInv(s)
  }

  lemma BacksOn(s: System, a: Action, id: A.ApprovalId, plan: A.Plan)
    requires LedgerInv(s) && Enabled(s, a) && Backs(s, id, plan)
    ensures Backs(Perform(s, a), id, plan)
  {
    LedgerMoves(s, a, id);
  }

  /** A thread readied by a swap holds a consumed approval for its plan. */
  lemma NewlyCleared(s: System, a: Action, tid: Tid)
    requires LedgerInv(s) && Enabled(s, a) && tid in Perform(s, a).threads && Perform(s, a).threads[tid].pc.Cleared?
    requires !(tid in s.threads && s.threads[tid].pc == Perform(s, a).threads[tid].pc)
    ensures Backs(Perform(s, a), Perform(s, a).threads[tid].pc.id, Perform(s, a).threads[tid].pc.plan)
  {
    OnlySwapClears(s, a, tid);
    assert IntentFits(s.rows, s.threads[tid].pc.intent);
  }

  lemma OnlySwapClears(s: System, a: Action, tid: Tid)
    requires Enabled(s, a) && tid in Perform(s, a).threads && Perform(s, a).threads[tid].pc.Cleared?
    requires !(tid in s.threads && s.threads[tid].pc == Perform(s, a).threads[tid].pc)
    ensures a == Swap(tid) && Perform(s, a) == DoSwap(s, tid)
  {
  }

  /** An operation appears with the approval and plan of the thread that creates it. */
  lemma NewOperation(s: System, a: Action, op: OpId)
    requires Enabled(s, a) && op in Perform(s, a).operations && op !in s.operations
    ensures a.Create? && a.op == op && s.threads[a.tid].pc.Cleared?
    ensures Perform(s, a).operations[op] == Created(s.threads[a.tid].pc.id, s.threads[a.tid].pc.plan)
  {
  }

  lemma OldOperation(s: System, a: Action, op: OpId)
    requires Enabled(s, a) && op in s.operations
    ensures op in Perform(s, a).operations && Perform(s, a).operations[op] == s.operations[op]
  {
  }

  lemma BackedStep(s: System, a: Action)
    requires LedgerInv(s) && BackedInv(s) && Enabled(s, a)
    ensures BackedInv(Perform(s, a))
  {
    var t := Perform(s, a);
    forall op | op in t.operations
      ensures Backs(t, t.operations[op].approval, t.operations[op].plan)
    {
      if op in s.operations {
        OldOperation(s, a, op);
      } else {
        NewOperation(s, a, op);
      }
      BacksOn(s, a, t.operations[op].approval, t.operations[op].plan);
    }
    forall tid | tid in t.threads && t.threads[tid].pc.Cleared?
      ensures Backs(t, t.threads[tid].pc.id, t.threads[tid].pc.plan)
    {
      if tid in s.threads && s.threads[tid].pc == t.threads[tid].pc {
        BacksOn(s, a, t.threads[tid].pc.id, t.threads[tid].pc.plan);
      } else {
        NewlyCleared(s, a, tid);
      }
    }
  }

  /** Nothing new claims an approval. */
  ghost predicate NoNewClaim(s: System, t: System) {
    && t.operations == s.operations
    && (forall u :: u in t.threads && t.threads[u].pc.Cleared? ==> u in s.threads && s.threads[u].pc == t.threads[u].pc)
  }

  lemma NoNewClaimDistinct(s: System, t: System)
    requires DistinctInv(s) && NoNewClaim(s, t)
    ensures DistinctInv(t)
  {
  }

  /** Only a swap to consumed, of an approval that was not consumed, readies a thread to create. */
  lemma SwapDistinct(s: System, tid: Tid)
    requires LedgerInv(s) && OperationsInv(s) && tid in s.threads && s.threads[tid].pc.Holding?
    ensures DistinctInv(DoSwap(s, tid))
  {
    var intent := s.threads[tid].pc.intent;
    assert IntentFits(s.rows, intent);
    if s.rows[intent.id].state != intent.seen.state || intent.next.state != A.Consumed {
      NoNewClaimDistinct(s, DoSwap(s, tid));
    } else {
      assert s.rows[intent.id].state != A.Consumed;
    }
  }

  /** Creating hands the thread's claim over to the operation. */
  lemma CreateDistinct(s: System, a: Action)
    requires DistinctInv(s) && a.Create? && Enabled(s, a)
    ensures DistinctInv(Perform(s, a))
  {
  }

  /** Every other action claims nothing. */
  lemma QuietClaims(s: System, a: Action)
    requires Enabled(s, a) && !a.Swap? && !a.Create?
    ensures NoNewClaim(s, Perform(s, a))
  {
  }

  lemma DistinctStep(s: System, a: Action)
    requires LedgerInv(s) && OperationsInv(s) && Enabled(s, a)
    ensures DistinctInv(Perform(s, a))
  {
    match a
    case Swap(tid) => SwapDistinct(s, tid);
    case Create(_, _) => CreateDistinct(s, a);
    case _ =>
      QuietClaims(s, a);
      NoNewClaimDistinct(s, Perform(s, a));
  }

  lemma OperationsStep(s: System, a: Action)
    requires LedgerInv(s) && OperationsInv(s) && Enabled(s, a)
    ensures OperationsInv(Perform(s, a))
  {
    BackedStep(s, a);
    DistinctStep(s, a);
  }

  lemma {:induction false} OperationsHold(s: System, acts: seq<Action>)
    requires Initial(s) && Behaviour(s, acts)
    ensures OperationsInv(Reached(s, acts))
    decreases |acts|
  {
    if acts != [] {
      OperationsHold(s, acts[..|acts| - 1]);
      LedgerHolds(s, acts[..|acts| - 1]);
      OperationsStep(Reached(s, acts[..|acts| - 1]), acts[|acts| - 1]);
    }
  }

  /**
   A remote plan creates at most one operation; the approval that did is consumed, hence not revoked, and the
   operation executes the plan the approval was requested for.
   */
  lemma RemotePlanOnce(s: System, acts: seq<Action>, a: OpId)
    requires Initial(s) && Behaviour(s, acts) && a in Reached(s, acts).operations
    ensures var t := Reached(s, acts);
      var created := t.operations[a];
      && (forall b :: b in t.operations && t.operations[b].approval == created.approval ==> b == a)
      && created.approval in t.rows && t.rows[created.approval].state == A.Consumed
      && created.approval in t.requests && created.plan == t.requests[created.approval].plan
  {
    OperationsHold(s, acts);
    RequestsHold(s, acts);
  }

  /** A thread executing a remote action holds its token. */
  ghost predicate TokensHeld(s: System) {
    forall t :: t in s.threads && s.threads[t].token.Some? ==>
      s.threads[t].token.value in s.tokens && s.tokens[s.threads[t].token.value].state.Executing?
  }

  /** It holds it alone. */
  ghost predicate TokensApart(s: System) {
    forall t, u :: t in s.threads && u in s.threads && t != u && s.threads[t].token.Some? ==>
      s.threads[t].token != s.threads[u].token
  }

  ghost predicate TokensInv(s: System) {
    TokensHeld(s) && TokensApart(s)
  }

  lemma HeldStep(s: System, a: Action)
    requires TokensInv(s) && Enabled(s, a)
    ensures TokensHeld(Perform(s, a))
  {
  }

  lemma ApartStep(s: System, a: Action)
    requires TokensInv(s) && Enabled(s, a)
    ensures TokensApart(Perform(s, a))
  {
  }

  lemma TokensStep(s: System, a: Action)
    requires TokensInv(s) && Enabled(s, a)
    ensures TokensInv(Perform(s, a))
  {
    HeldStep(s, a);
    ApartStep(s, a);
  }

  lemma {:induction false} TokensHold(s: System, acts: seq<Action>)
    requires Initial(s) && Behaviour(s, acts)
    ensures TokensInv(Reached(s, acts))
    decreases |acts|
  {
    if acts != [] {
      TokensHold(s, acts[..|acts| - 1]);
      TokensStep(Reached(s, acts[..|acts| - 1]), acts[|acts| - 1]);
    }
  }

  /** At most one execution is in flight per token. */
  lemma OneExecutionPerToken(s: System, acts: seq<Action>, t: Tid, u: Tid)
    requires Initial(s) && Behaviour(s, acts)
    requires t in Reached(s, acts).threads && u in Reached(s, acts).threads
    requires Reached(s, acts).threads[t].token.Some?
    requires Reached(s, acts).threads[t].token == Reached(s, acts).threads[u].token
    ensures t == u
  {
    TokensHold(s, acts);
  }

  /** An action that ends the execution `tid` holds a token for. */
  ghost predicate Ends(a: Action, tid: Tid) {
    a.Crash? || (a.Finish? && a.tid == tid)
  }

  /** A thread that executes a remote action does so until it finishes or the process ends. */
  lemma ExecutionStays(s: System, a: Action, tid: Tid)
    requires Enabled(s, a) && tid in s.threads && s.threads[tid].token.Some? && !Ends(a, tid)
    ensures tid in Perform(s, a).threads && Perform(s, a).threads[tid].token == s.threads[tid].token
  {
  }

  /**
   A token keeps whom and what it is for. It starts executing only by a begin, and stops only by the finish of the
   thread that holds it, to be used up unless that finish allows another try; it expires only when overdue.
   */
  lemma TokenMoves(s: System, a: Action, token: Token)
    requires TokensInv(s) && Enabled(s, a) && token in s.tokens
    ensures var t := Perform(s, a);
      && token in t.tokens && t.tokens[token] == s.tokens[token].(state := t.tokens[token].state)
      && match (s.tokens[token].state, t.tokens[token].state)
         case (TokenPending, Executing) =>
           a.Begin? && a.token == token && a.tid in t.threads && t.threads[a.tid].token == Some(token)
         case (TokenPending, TokenExpired) => a.Expire? && a.now >= s.tokens[token].expiresAt
         case (Executing, Executing) => !(a.Finish? && s.threads[a.tid].token == Some(token))
         case (Executing, TokenPending) => a.Finish? && s.threads[a.tid].token == Some(token) && a.retryable
         case (Executing, TokenConsumed) => a.Finish? && s.threads[a.tid].token == Some(token) && !a.retryable
         case (was, now) => was == now
  {
  }

  /** What stays once reached: consumed tokens, and consumed or revoked approvals with their records. */
  ghost predicate Settled(s: System, t: System) {
    && (forall k :: k in s.tokens && s.tokens[k].state.TokenConsumed? ==> k in t.tokens && t.tokens[k] == s.tokens[k])
    && (forall id :: id in s.rows && s.rows[id].state in {A.Consumed, A.Revoked} ==>
          id in t.rows && t.rows[id] == s.rows[id])
    && (forall a :: a in s.operations ==> a in t.operations && t.operations[a] == s.operations[a])
  }

  lemma SettledStep(s: System, a: Action)
    requires LedgerInv(s) && Enabled(s, a)
    ensures Settled(s, Perform(s, a))
  {
  }

  /**
   After a non-retryable finish a token never begins again, and a plan that created an operation is never
   revoked afterwards nor one that was revoked used: what is settled at some point of a run stays so.
   */
  lemma {:induction false} SettledForGood(s: System, acts: seq<Action>, n: nat)
    requires Initial(s) && Behaviour(s, acts) && n <= |acts|
    ensures Behaviour(s, acts[..n])
    ensures Settled(Reached(s, acts[..n]), Reached(s, acts))
    decreases |acts|
  {
    if n == |acts| {
      assert acts[..n] == acts;
    } else {
      var init := acts[..|acts| - 1];
      assert init[..n] == acts[..n];
      SettledForGood(s, init, n);
      LedgerHolds(s, init);
      SettledStep(Reached(s, init), acts[|acts| - 1]);
    }
  }

  /** A consumed token cannot begin. */
  lemma ConsumedTokenIsDead(s: System, acts: seq<Action>, n: nat, token: Token, tid: Tid, who: A.Identity, now: A.Time)
    requires Initial(s) && Behaviour(s, acts) && n <= |acts| && Behaviour(s, acts[..n])
    requires token in Reached(s, acts[..n]).tokens && Reached(s, acts[..n]).tokens[token].state.TokenConsumed?
    ensures !Enabled(Reached(s, acts), Begin(tid, token, who, now))
  {
    SettledForGood(s, acts, n);
  }

  /** The whole ledger, between two points of a run: forward along the graph, with every grant untouched. */
  lemma {:induction false} GrantsNeverChange(s: System, acts: seq<Action>, n: nat, id: A.ApprovalId)
    requires Initial(s) && Behaviour(s, acts) && n <= |acts| && Behaviour(s, acts[..n])
    requires id in Reached(s, acts[..n]).rows
    ensures var a, b := Reached(s, acts[..n]), Reached(s, acts);
      && id in b.rows && b.rows[id].state == b.rows[id].payload.state
      && A.SameGrant(a.rows[id].payload, b.rows[id].payload)
      && (a.rows[id] == b.rows[id] || A.Rank(a.rows[id].state) < A.Rank(b.rows[id].state))
    decreases |acts|
  {
    LedgerHolds(s, acts);
    if n == |acts| {
      assert acts[..n] == acts;
    } else {
      var init := acts[..|acts| - 1];
      assert init[..n] == acts[..n];
      GrantsNeverChange(s, init, n, id);
      LedgerHolds(s, init);
      LedgerMoves(Reached(s, init), acts[|acts| - 1], id);
    }
  }

  // ----- A whole run -----

  lemma Extend(s: System, acts: seq<Action>, a: Action) returns (longer: seq<Action>)
    requires Behaviour(s, acts) && Enabled(Reached(s, acts), a)
    ensures longer == acts + [a] && Behaviour(s, longer) && Reached(s, longer) == Perform(Reached(s, acts), a)
  {
    longer := acts + [a];
    assert longer[..|longer| - 1] == acts;
  }

  /** Nothing has happened but one request, one token and the begin of one execution. */
  lemma BeginRun(id: A.ApprovalId, plan: A.Plan, who: A.Identity, now: A.Time, ttl: A.Time, token: Token, tid: Tid)
    returns (s: System, acts: seq<Action>, t: System)
    requires 1 <= |token| <= 48 && ttl > 0
    ensures Initial(s) && Behaviour(s, acts) && t == Reached(s, acts)
    ensures t.rows == map[id := A.Row(A.Pending, A.NewApproval(plan, who, now, ttl))]
    ensures t.threads == map[tid := Thread(Some(token), Idle)] && t.operations == map[]
    ensures t.tokens.Keys == {token} && t.tokens[token].state.Executing?
  {
    s := System(map[], map[], map[], map[], [], map[]);
    var row := TokenRow(TokenPending, who.actor, who.session, ApproveAction, id, now + ttl);
    acts := Extend(s, [], Request(id, plan, who, now, ttl));
    acts := Extend(s, acts, Issue(token, row));
    acts := Extend(s, acts, Begin(tid, token, who, now));
    t := Reached(s, acts);
  }

  /** A thread alone with an approval and a token in use. */
  ghost predicate AtWork(s: System, tid: Tid, token: Token, pc: Pc, row: map<A.ApprovalId, A.Row>) {
    && s.rows == row && s.threads == map[tid := Thread(Some(token), pc)]
    && s.tokens.Keys == {token} && s.tokens[token].state.Executing? && s.operations == map[]
  }

  lemma DecideRun(s: System, acts: seq<Action>, id: A.ApprovalId, doc: A.Approval, who: A.Identity, now: A.Time,
                  token: Token, tid: Tid)
    returns (longer: seq<Action>)
    requires Behaviour(s, acts)
    requires AtWork(Reached(s, acts), tid, token, Idle, map[id := A.Row(A.Pending, doc)])
    requires A.MayApprove(doc, who, now, Some("AUTHORIZE HIGH-RISK OPERATION"), now - who.authenticatedAt)
    ensures Behaviour(s, longer)
    ensures AtWork(Reached(s, longer), tid, token, Idle, map[id := A.Row(A.Approved, A.ApproveDoc(doc, now))])
  {
    var confirmation, maxAge := Some("AUTHORIZE HIGH-RISK OPERATION"), now - who.authenticatedAt;
    A.MayApproveIff(doc, who, now, confirmation, maxAge);
    longer := Extend(s, acts, ReadToApprove(tid, id, who, now, confirmation, maxAge));
    longer := Extend(s, longer, Swap(tid));
  }

  lemma UseRun(s: System, acts: seq<Action>, id: A.ApprovalId, doc: A.Approval, who: A.Identity, now: A.Time,
               token: Token, tid: Tid)
    returns (longer: seq<Action>)
    requires Behaviour(s, acts)
    requires AtWork(Reached(s, acts), tid, token, Idle, map[id := A.Row(A.Approved, doc)])
    requires A.Covers(doc, doc.digest, who, now)
    ensures Behaviour(s, longer)
    ensures AtWork(Reached(s, longer), tid, token, Cleared(id, doc.digest),
                   map[id := A.Row(A.Consumed, A.ConsumeDoc(doc, now))])
  {
    A.CoversIff(doc, doc.digest, who, now);
    longer := Extend(s, acts, ReadToAuthorize(tid, id, doc.digest, who, now, now));
    longer := Extend(s, longer, Swap(tid));
  }

  /**
   Whatever somebody may ask for and may decide can be carried out: requested, decided and used through one remote
   action, which is then used up, it becomes one operation that executes exactly this plan.
   */
  lemma PlanCanRun(id: A.ApprovalId, plan: A.Plan, who: A.Identity, now: A.Time, ttl: A.Time, token: Token, tid: Tid,
                   op: OpId)
    returns (s: System, acts: seq<Action>)
    requires 1 <= |token| <= 48 && ttl > 0
    requires A.NeedsStrongDecision(plan.operation) ==> who.source in {A.LocalCli, A.Web}
    ensures Initial(s) && Behaviour(s, acts)
    ensures var t := Reached(s, acts);
      && t.operations == map[op := Created(id, plan)] && t.threads == map[]
      && token in t.tokens && t.tokens[token].state.TokenConsumed?
  {
    A.RisksMean(plan.operation);
    var doc := A.NewApproval(plan, who, now, ttl);
    var t;
    s, acts, t := BeginRun(id, plan, who, now, ttl, token, tid);
    acts := DecideRun(s, acts, id, doc, who, now, token, tid);
    acts := UseRun(s, acts, id, A.ApproveDoc(doc, now), who, now, token, tid);
    acts := Extend(s, acts, Create(tid, op));
    acts := Extend(s, acts, Finish(tid, false));
  }
}
