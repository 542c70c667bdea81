/**
 Dependency-aware health evaluation (manager/health.py): subjects are evaluated
 in dependency order over a growing result map, a check whose dependency blocks
 is not probed, and each unhealthy subject names root causes.
 */
module Health {
  import opened Sequences
  import opened Graph
  import opened ComponentRegistry

  datatype State =
    | Healthy | Starting | Degraded | Blocked | Misconfigured
    | Stopped | Unreachable | Unhealthy | Unknown | Stale

  datatype Layer =
    | Infrastructure | Workload | Storage | InternalService | Dependency
    | Application | Functional | IngressRouting | Tls | ExternalReachability

  datatype ProbeType =
    | WorkloadReady | PersistentVolume | NativeReadiness | DatabaseQuery | Https
    | Tcp | ApplicationReady | DependencyConnectivity | Configuration | Registration

  /** `_component_layer`. */
  function ComponentLayer(t: ProbeType): Layer {
    match t
    case WorkloadReady => Workload
    case PersistentVolume => Storage
    case NativeReadiness => Application
    case DatabaseQuery => Application
    case Https => InternalService
    case Tcp => Functional
    case ApplicationReady => Application
    case DependencyConnectivity => InternalService
    case Configuration => Functional
    case Registration => Functional
  }

  datatype Check = Check(id: string, layer: Layer, dependencies: seq<Id>)

  datatype Subject = Subject(id: Id, dependencies: seq<Id>, checks: seq<Check>)

  /** One piece of evidence; `derived` evidence was not directly observed. */
  datatype Entry = Entry(id: string, layer: Layer, state: State, required: bool, derived: bool, blockedBy: seq<Id>)

  /** A root cause: a check of a subject, or the bare name of a dependency without one of its own. */
  datatype Root = CheckRoot(subject: Id, check: string) | BareRoot(dependency: Id)

  datatype Item = Item(id: Id, state: State, directState: State, evidence: seq<Entry>,
                       rootCauses: seq<Root>, blockedBy: Option<Id>)

  type Results = map<Id, Item>

  /** The states external route and TLS evidence is mapped to. */
  type ExternalState = s: State | s in {Healthy, Degraded, Unreachable, Unknown, Stale} witness Healthy

  /** Evidence about a subject's external route, reported elsewhere. */
  datatype External = External(route: ExternalState, tls: Option<ExternalState>)

  /** `_BLOCKING_STATES`. */
  predicate Blocking(s: State) {
    s != Healthy && s != Degraded
  }

  const PRECEDENCE: seq<State> :=
    [Unhealthy, Misconfigured, Stopped, Unreachable, Unknown, Stale, Starting, Degraded]

  predicate Seen(evidence: seq<Entry>, s: State) {
    exists i :: 0 <= i < |evidence| && evidence[i].state == s
  }

  /** The first state of `candidates` that the evidence shows. */
  function FirstSeen(evidence: seq<Entry>, candidates: seq<State>): State {
    if candidates == [] then Healthy
    else if Seen(evidence, candidates[0]) then candidates[0]
    else FirstSeen(evidence, candidates[1..])
  }

  /** `_rank_state`. */
  function RankState(evidence: seq<Entry>): State {
    FirstSeen(evidence, PRECEDENCE)
  }

  function Select(evidence: seq<Entry>, keep: Entry -> bool): (r: seq<Entry>)
    ensures forall e :: e in r <==> e in evidence && keep(e)
  {
    if evidence == [] then []
    else (if keep(evidence[0]) then [evidence[0]] else []) + Select(evidence[1..], keep)
  }

  /** State of one health domain; a domain without evidence never blocks. */
  function DomainState(evidence: seq<Entry>, layers: set<Layer>): State {
    RankState(Select(evidence, (e: Entry) => e.layer in layers))
  }

  const INFRASTRUCTURE: set<Id> := {"microk8s-node", "storage", "dns", "ingress", "tls"}

  /** `_dependency_blocks`. */
  predicate DependencyBlocks(dependency: Id, results: Results) {
    if dependency !in results then true
    else
      var item := results[dependency];
      if dependency in INFRASTRUCTURE then Blocking(item.state)
      else
        || Blocking(DomainState(item.evidence, {Workload}))
        || Blocking(DomainState(item.evidence, {Storage}))
        || Blocking(DomainState(item.evidence, {InternalService, Dependency}))
        || Blocking(DomainState(item.evidence, {Application, Functional}))
  }

  function Blockers(dependencies: seq<Id>, results: Results): (r: seq<Id>)
    ensures forall d :: d in r <==> d in dependencies && DependencyBlocks(d, results)
  {
    if dependencies == [] then []
    else
      (if DependencyBlocks(dependencies[0], results) then [dependencies[0]] else [])
      + Blockers(dependencies[1..], results)
  }

  /** All blockers of a subject's checks, check by check. */
  function AllBlockers(checks: seq<Check>, results: Results): (r: seq<Id>)
    ensures forall d :: d in r <==> exists c :: c in checks && d in Blockers(c.dependencies, results)
  {
    if checks == [] then []
    else Blockers(checks[0].dependencies, results) + AllBlockers(checks[1..], results)
  }

  /** `_unavailable_evidence`. */
  function UnavailableEntry(c: Check, results: Results): Entry {
    Entry(c.id, c.layer, Unknown, true, true, Blockers(c.dependencies, results))
  }

  /** One derived entry for each check that is blocked, in order. */
  function UnavailableEvidence(checks: seq<Check>, results: Results): (r: seq<Entry>)
    ensures forall e :: e in r <==>
      exists c :: c in checks && Blockers(c.dependencies, results) != [] && e == UnavailableEntry(c, results)
    ensures forall e, d :: e in r && d in e.blockedBy ==> d in AllBlockers(checks, results)
  {
    if checks == [] then []
    else
      assert checks == [checks[0]] + checks[1..];
      (if Blockers(checks[0].dependencies, results) == [] then [] else [UnavailableEntry(checks[0], results)])
      + UnavailableEvidence(checks[1..], results)
  }

  /** A check is either probed or has a derived entry; the first blocker is that of the first derived entry. */
  lemma {:induction false} UnavailableMeans(checks: seq<Check>, results: Results)
    ensures var r := UnavailableEvidence(checks, results);
      && |r| + |Runnable(checks, results)| == |checks|
      && (r == [] <==> AllBlockers(checks, results) == [])
      && (r != [] ==> r[0].blockedBy != [] && r[0].blockedBy[0] == AllBlockers(checks, results)[0])
  {
    if checks != [] {
      UnavailableMeans(checks[1..], results);
    }
  }

  /** `_external_evidence`. */
  function ExternalEvidence(external: map<Id, External>, subject: Id): (r: seq<Entry>)
    ensures forall e :: e in r ==>
      e.required && e.derived && e.blockedBy == [] && (e.layer == ExternalReachability || e.layer == Tls)
    ensures forall e :: e in r ==> e.state != Blocked
  {
    if subject !in external then []
    else
      [Entry("external-route", ExternalReachability, external[subject].route, true, true, [])]
      + match external[subject].tls
        case None => []
        case Some(s) => [Entry("tls", Tls, s, true, true, [])]
  }

  /** The required, directly observed, unhealthy checks among the evidence. */
  function LocalRoots(subject: Id, evidence: seq<Entry>): (r: seq<Root>)
    ensures forall root :: root in r <==> exists e :: e in evidence && Culprit(e) && root == CheckRoot(subject, e.id)
  {
    if evidence == [] then []
    else
      assert evidence == [evidence[0]] + evidence[1..];
      (if Culprit(evidence[0]) then [CheckRoot(subject, evidence[0].id)] else []) + LocalRoots(subject, evidence[1..])
  }

  predicate Culprit(e: Entry) {
    e.required && !e.derived && e.state != Healthy
  }

  /** What a blocked dependency contributes: its own first root cause, else its bare name. */
  function RootOf(dependency: Id, results: Results): Root {
    if dependency in results && results[dependency].rootCauses != [] then results[dependency].rootCauses[0]
    else BareRoot(dependency)
  }

  function DependencyRoots(blocked: seq<Id>, results: Results): (r: seq<Root>)
    ensures |r| == |blocked| && forall i :: 0 <= i < |r| ==> r[i] == RootOf(blocked[i], results)
  {
    seq(|blocked|, i requires 0 <= i < |blocked| => RootOf(blocked[i], results))
  }

  /** `_evaluate`. */
  function Evaluate(subject: Subject, evidence: seq<Entry>, results: Results, blocked: seq<Id>): Item {
    var required := Select(evidence, (e: Entry) => e.required);
    var directState := RankState(Select(required, (e: Entry) => !e.derived));
    var accessState :=
      RankState(Select(required, (e: Entry) => e.layer in {IngressRouting, Tls, ExternalReachability}));
    var state :=
      if directState != Healthy then directState
      else if blocked != [] then Blocked
      else if accessState != Healthy then Degraded
      else if exists i :: 0 <= i < |evidence| && evidence[i].state != Healthy then Degraded
      else Healthy;
    var roots := Distinct(DependencyRoots(blocked, results) + LocalRoots(subject.id, required));
    Item(subject.id, state, directState, evidence, roots, if blocked == [] then None else Some(blocked[0]))
  }

  // ----- Every blocking dependency has a root cause -----

  /** How the evidence of an item relates to what blocked it. */
  ghost predicate EvidenceFits(evidence: seq<Entry>, blocked: seq<Id>) {
    && (forall e :: e in evidence ==> e.required && e.state != Blocked)
    && (forall e :: e in evidence && e.derived ==>
          e.layer == ExternalReachability || e.layer == Tls || e.blockedBy != [])
    && (forall e :: e in evidence && e.blockedBy != [] ==> e.state == Unknown)
    && (forall e, d :: e in evidence && d in e.blockedBy ==> d in blocked)
  }

  lemma {:induction false} FirstSeenIsFirst(evidence: seq<Entry>, candidates: seq<State>) returns (k: nat)
    requires Healthy !in candidates
    ensures k <= |candidates|
    ensures forall j :: 0 <= j < k ==> !Seen(evidence, candidates[j])
    ensures k < |candidates| ==> Seen(evidence, candidates[k]) && FirstSeen(evidence, candidates) == candidates[k]
    ensures k == |candidates| ==> FirstSeen(evidence, candidates) == Healthy
  {
    if candidates == [] || Seen(evidence, candidates[0]) {
      k := 0;
    } else {
      assert candidates == [candidates[0]] + candidates[1..];
      k := FirstSeenIsFirst(evidence, candidates[1..]);
      k := k + 1;
    }
  }

  /** How urgent a state is: a smaller number goes before a larger one. */
  function Urgency(s: State): nat {
    match s
    case Unhealthy => 0
    case Misconfigured => 1
    case Stopped => 2
    case Unreachable => 3
    case Unknown => 4
    case Stale => 5
    case Starting => 6
    case Degraded => 7
    case Healthy => 8
    case Blocked => 8
  }

  /** `s` is shown by an entry, unless it is healthy, and no entry shows a more urgent state. */
  ghost predicate Worst(evidence: seq<Entry>, s: State) {
    && (s == Healthy || exists e :: e in evidence && e.state == s)
    && forall e :: e in evidence ==> Urgency(s) <= Urgency(e.state)
  }

  lemma PrecedenceAt(s: State)
    requires s != Healthy && s != Blocked
    ensures PRECEDENCE[Urgency(s)] == s
  {
  }

  /** The ranked state is the most urgent state that the entries show. */
  lemma RankStateMeans(evidence: seq<Entry>)
    requires forall e :: e in evidence ==> e.state != Blocked
    ensures Worst(evidence, RankState(evidence))
    ensures RankState(evidence) == Healthy <==> forall e :: e in evidence ==> e.state == Healthy
  {
    var k := FirstSeenIsFirst(evidence, PRECEDENCE);
    forall e | e in evidence
      ensures Urgency(RankState(evidence)) <= Urgency(e.state)
    {
      if e.state != Healthy {
        PrecedenceAt(e.state);
        assert Seen(evidence, PRECEDENCE[Urgency(e.state)]);
        if k == |PRECEDENCE| {
          assert false;
        } else {
          PrecedenceAt(PRECEDENCE[k]);
        }
      }
    }
    if k < |PRECEDENCE| {
      var i :| 0 <= i < |evidence| && evidence[i].state == RankState(evidence);
      assert evidence[i] in evidence && evidence[i].state != Healthy;
    }
  }

  lemma {:induction false} NoCulpritNoRoots(subject: Id, evidence: seq<Entry>)
    requires forall e :: e in evidence ==> !Culprit(e)
    ensures LocalRoots(subject, evidence) == []
  {
    if evidence != [] {
      assert evidence[0] in evidence;
      NoCulpritNoRoots(subject, evidence[1..]);
    }
  }

  /** The direct state is the most urgent one that a required, directly observed entry shows. */
  ghost predicate DirectFits(item: Item) {
    && (item.directState == Healthy || exists e :: e in item.evidence && Culprit(e) && e.state == item.directState)
    && forall e :: e in item.evidence && Culprit(e) ==> Urgency(item.directState) <= Urgency(e.state)
  }

  /** The directly observed entries among the required ones are ranked. */
  lemma DirectMeans(subject: Subject, evidence: seq<Entry>, results: Results, blocked: seq<Id>)
    requires forall e :: e in evidence ==> e.state != Blocked
    ensures DirectFits(Evaluate(subject, evidence, results, blocked))
  {
    var required := Select(evidence, (e: Entry) => e.required);
    var direct := Select(required, (e: Entry) => !e.derived);
    RankStateMeans(direct);
    forall e | e in evidence && Culprit(e)
      ensures Urgency(RankState(direct)) <= Urgency(e.state)
    {
      assert e in direct;
    }
    if RankState(direct) != Healthy {
      var e :| e in direct && e.state == RankState(direct);
      assert e in required && e in evidence && Culprit(e);
    }
  }

  lemma NoRootsIff(subject: Subject, evidence: seq<Entry>, results: Results, blocked: seq<Id>)
    ensures Evaluate(subject, evidence, results, blocked).rootCauses == [] <==>
      blocked == [] && forall e :: e in evidence ==> !Culprit(e)
  {
    var required := Select(evidence, (e: Entry) => e.required);
    var local := LocalRoots(subject.id, required);
    DistinctFacts(DependencyRoots(blocked, results) + local);
    if e :| e in evidence && Culprit(e) {
      assert e in required && CheckRoot(subject.id, e.id) in local;
    } else {
      NoCulpritNoRoots(subject.id, required);
    }
  }

  lemma DirectHealthyIff(item: Item)
    requires DirectFits(item) && forall e :: e in item.evidence ==> e.state != Blocked
    ensures item.directState == Healthy <==> forall e :: e in item.evidence ==> !Culprit(e)
  {
  }

  /** An item has no root cause exactly when nothing observed directly is wrong and nothing blocks it. */
  lemma RootsMean(subject: Subject, evidence: seq<Entry>, results: Results, blocked: seq<Id>)
    requires EvidenceFits(evidence, blocked)
    ensures var item := Evaluate(subject, evidence, results, blocked);
      && (item.rootCauses == [] <==> item.directState == Healthy && item.blockedBy == None)
      && (item.directState == Healthy <==> forall e :: e in evidence ==> !Culprit(e))
  {
    DirectMeans(subject, evidence, results, blocked);
    DirectHealthyIff(Evaluate(subject, evidence, results, blocked));
    NoRootsIff(subject, evidence, results, blocked);
  }

  /** A blocking domain holds an entry that is not healthy. */
  lemma DomainCulprit(evidence: seq<Entry>, layers: set<Layer>) returns (e: Entry)
    requires forall x :: x in evidence ==> x.state != Blocked
    requires Blocking(DomainState(evidence, layers))
    ensures e in evidence && e.layer in layers && e.state != Healthy
  {
    var entries := Select(evidence, (x: Entry) => x.layer in layers);
    RankStateMeans(entries);
    var i :| 0 <= i < |entries| && entries[i].state == RankState(entries);
    e := entries[i];
    assert e in entries;
  }

  /** The unhealthy entry behind a component that blocks, outside the access layers. */
  lemma ComponentCulprit(dependency: Id, results: Results) returns (e: Entry)
    requires dependency in results && dependency !in INFRASTRUCTURE && DependencyBlocks(dependency, results)
    requires forall x :: x in results[dependency].evidence ==> x.state != Blocked
    ensures e in results[dependency].evidence && e.state != Healthy
    ensures e.layer != ExternalReachability && e.layer != Tls
  {
    var evidence := results[dependency].evidence;
    if Blocking(DomainState(evidence, {Workload})) {
      e := DomainCulprit(evidence, {Workload});
    } else if Blocking(DomainState(evidence, {Storage})) {
      e := DomainCulprit(evidence, {Storage});
    } else if Blocking(DomainState(evidence, {InternalService, Dependency})) {
      e := DomainCulprit(evidence, {InternalService, Dependency});
    } else {
      e := DomainCulprit(evidence, {Application, Functional});
    }
  }

  /** An item that would block a consumer names a root cause, so the bare-name fallback is never needed. */
  lemma BlockingHasRoot(subject: Subject, evidence: seq<Entry>, results: Results, blocked: seq<Id>, later: Results)
    requires EvidenceFits(evidence, blocked)
    requires subject.id in later && later[subject.id] == Evaluate(subject, evidence, results, blocked)
    requires DependencyBlocks(subject.id, later)
    ensures later[subject.id].rootCauses != []
  {
    RootsMean(subject, evidence, results, blocked);
    if subject.id !in INFRASTRUCTURE {
      assert later[subject.id].evidence == evidence;
      var e := ComponentCulprit(subject.id, later);
      assert e in evidence;
      if e.derived {
        assert e.blockedBy != [];
        assert e.blockedBy[0] in e.blockedBy;
        assert e.blockedBy[0] in blocked;
      } else {
        assert Culprit(e);
      }
    }
  }

  // ----- Subjects -----

  /** A check as the registry declares it. */
  datatype Declared = Declared(id: string, probe: ProbeType, required: bool)

  /** `_component_check_dependencies`. */
  function CheckDependencies(layer: Layer, dependencies: seq<Id>): seq<Id> {
    if layer == Workload then ["microk8s-node"]
    else if layer == Storage then ["microk8s-node", "storage"]
    else Distinct(["microk8s-node", "dns"] + dependencies)
  }

  /** The required checks of a component. */
  function ComponentChecks(declared: seq<Declared>, dependencies: seq<Id>): (r: seq<Check>)
    ensures forall c :: c in r ==> c.dependencies == CheckDependencies(c.layer, dependencies)
  {
    if declared == [] then []
    else
      var layer := ComponentLayer(declared[0].probe);
      (if declared[0].required then [Check(declared[0].id, layer, CheckDependencies(layer, dependencies))] else [])
      + ComponentChecks(declared[1..], dependencies)
  }

  function StorageDependency(checks: seq<Check>): seq<Id> {
    if exists i :: 0 <= i < |checks| && checks[i].layer == Storage then ["storage"] else []
  }

  function ComponentSubject(id: Id, dependencies: seq<Id>, declared: seq<Declared>): Subject {
    var checks := ComponentChecks(declared, dependencies);
    Subject(id, Distinct(["microk8s-node", "dns"] + dependencies + StorageDependency(checks)), checks)
  }

  function InfrastructureSubject(id: Id, dependencies: seq<Id>, layer: Layer, check: string): Subject {
    Subject(id, dependencies, [Check(check, layer, dependencies)])
  }

  /** `_infrastructure_subjects`. */
  function InfrastructureSubjects(): seq<Subject> {
    [
      InfrastructureSubject("microk8s-node", [], Infrastructure, "node-ready"),
      InfrastructureSubject("storage", ["microk8s-node"], Storage, "storage-ready"),
      InfrastructureSubject("dns", ["microk8s-node"], InternalService, "dns-lookup"),
      InfrastructureSubject("ingress", ["microk8s-node"], IngressRouting, "ingress-ready"),
      InfrastructureSubject("tls", ["ingress"], Tls, "tls-valid")
    ]
  }

  function ComponentSubjects(g: Deps, order: seq<Id>, declared: map<Id, seq<Declared>>): (r: seq<Subject>)
    requires Elems(order) <= g.Keys
    ensures |r| == |order|
    ensures forall i :: 0 <= i < |order| ==>
      r[i] == ComponentSubject(order[i], g[order[i]], if order[i] in declared then declared[order[i]] else [])
  {
    seq(|order|, i requires 0 <= i < |order| =>
      assert order[i] in Elems(order);
      ComponentSubject(order[i], g[order[i]], if order[i] in declared then declared[order[i]] else []))
  }

  /** A check of the subject depends on `d`. */
  ghost predicate Needs(subject: Subject, d: Id) {
    exists c :: c in subject.checks && d in c.dependencies
  }

  /** Every dependency of a check is a declared dependency of its subject and is evaluated before it. */
  ghost predicate Foreseen(subjects: seq<Subject>) {
    forall i, d :: 0 <= i < |subjects| && Needs(subjects[i], d) ==>
      d in subjects[i].dependencies && Earlier(subjects, i, d)
  }

  ghost predicate Earlier(subjects: seq<Subject>, i: nat, d: Id) {
    exists j :: 0 <= j < i && j < |subjects| && subjects[j].id == d
  }

  lemma DistinctHas(s: seq<Id>, d: Id)
    ensures d in Distinct(s) <==> d in s
  {
    DistinctFacts(s);
    assert d in Elems(Distinct(s)) <==> d in Elems(s);
  }

  lemma CheckDependencyIsOne(layer: Layer, dependencies: seq<Id>, d: Id)
    requires d in CheckDependencies(layer, dependencies)
    ensures d in ["microk8s-node", "dns"] + dependencies || (layer == Storage && d == "storage")
  {
    DistinctHas(["microk8s-node", "dns"] + dependencies, d);
  }

  /** A check of a component depends only on infrastructure and on the component's own dependencies. */
  lemma CheckDependencyKnown(id: Id, dependencies: seq<Id>, declared: seq<Declared>, d: Id)
    requires Needs(ComponentSubject(id, dependencies, declared), d)
    ensures d in ComponentSubject(id, dependencies, declared).dependencies
    ensures d in dependencies || d in {"microk8s-node", "dns", "storage"}
  {
    var checks := ComponentChecks(declared, dependencies);
    var c :| c in checks && d in c.dependencies;
    CheckDependencyIsOne(c.layer, dependencies, d);
    var own := ["microk8s-node", "dns"] + dependencies;
    assert d in own + StorageDependency(checks);
    DistinctHas(own + StorageDependency(checks), d);
  }

  lemma InfrastructureForeseen(i: nat, d: Id)
    requires i < |InfrastructureSubjects()| && Needs(InfrastructureSubjects()[i], d)
    ensures d in InfrastructureSubjects()[i].dependencies && Earlier(InfrastructureSubjects(), i, d)
  {
    var infra := InfrastructureSubjects();
    assert infra[0].id == "microk8s-node" && infra[3].id == "ingress";
  }

  lemma ComponentForeseen(g: Deps, order: seq<Id>, declared: map<Id, seq<Declared>>, k: nat, d: Id)
    requires Order(g, order, g.Keys) && k < |order|
    requires Needs(ComponentSubjects(g, order, declared)[k], d)
    ensures d in ComponentSubjects(g, order, declared)[k].dependencies
    ensures || Earlier(InfrastructureSubjects(), |InfrastructureSubjects()|, d)
            || Earlier(ComponentSubjects(g, order, declared), k, d)
  {
    CheckDependencyKnown(order[k], g[order[k]], if order[k] in declared then declared[order[k]] else [], d);
    var infra, components := InfrastructureSubjects(), ComponentSubjects(g, order, declared);
    assert infra[0].id == "microk8s-node" && infra[1].id == "storage" && infra[2].id == "dns";
    if d in g[order[k]] {
      assert d in order[..k];
      var m :| 0 <= m < k && order[..k][m] == d;
      assert components[m].id == d;
    }
  }

  /** Subjects whose checks may also depend on all of `a`. */
  ghost predicate ForeseenAfter(a: seq<Subject>, b: seq<Subject>) {
    forall k, d :: 0 <= k < |b| && Needs(b[k], d) ==> KnownAt(a, b, k, d)
  }

  ghost predicate KnownAt(a: seq<Subject>, b: seq<Subject>, k: nat, d: Id)
    requires k < |b|
  {
    d in b[k].dependencies && (Earlier(a, |a|, d) || Earlier(b, k, d))
  }

  lemma ForeseenConcat(a: seq<Subject>, b: seq<Subject>)
    requires Foreseen(a) && ForeseenAfter(a, b)
    ensures Foreseen(a + b)
  {
    var s := a + b;
    forall i, d | 0 <= i < |s| && Needs(s[i], d)
      ensures d in s[i].dependencies && Earlier(s, i, d)
    {
      if i < |a| {
        assert Needs(a[i], d);
        var j :| 0 <= j < i && a[j].id == d;
        assert s[j].id == d;
      } else {
        var k := i - |a|;
        assert Needs(b[k], d) && KnownAt(a, b, k, d);
        if Earlier(b, k, d) {
          var j :| 0 <= j < k && b[j].id == d;
          assert s[|a| + j].id == d;
        } else {
          var j :| 0 <= j < |a| && a[j].id == d;
          assert s[j].id == d;
        }
      }
    }
  }

  lemma InfrastructureAllForeseen()
    ensures Foreseen(InfrastructureSubjects())
  {
    forall i, d | 0 <= i < |InfrastructureSubjects()| && Needs(InfrastructureSubjects()[i], d)
      ensures d in InfrastructureSubjects()[i].dependencies && Earlier(InfrastructureSubjects(), i, d)
    {
      InfrastructureForeseen(i, d);
    }
  }

  lemma ComponentsAllForeseen(g: Deps, order: seq<Id>, declared: map<Id, seq<Declared>>, components: seq<Subject>)
    requires Order(g, order, g.Keys) && components == ComponentSubjects(g, order, declared)
    ensures ForeseenAfter(InfrastructureSubjects(), components)
  {
    forall k, d | 0 <= k < |components| && Needs(components[k], d)
      ensures KnownAt(InfrastructureSubjects(), components, k, d)
    {
      ComponentForeseen(g, order, declared, k, d);
    }
  }

  /** `_subjects` lists dependencies before the subjects whose checks need them. */
  lemma SubjectsForeseen(g: Deps, order: seq<Id>, declared: map<Id, seq<Declared>>)
    requires Order(g, order, g.Keys)
    ensures Foreseen(InfrastructureSubjects() + ComponentSubjects(g, order, declared))
  {
    InfrastructureAllForeseen();
    ComponentsAllForeseen(g, order, declared, ComponentSubjects(g, order, declared));
    ForeseenConcat(InfrastructureSubjects(), ComponentSubjects(g, order, declared));
  }

  // ----- The evaluation loop -----

  /** Subject `j` is the last one called `d` before the subject at `i`. */
  ghost predicate Latest(subjects: seq<Subject>, i: nat, d: Id, j: nat)
    requires i <= |subjects|
  {
    j < i && subjects[j].id == d && forall k :: j < k < i ==> subjects[k].id != d
  }

  /** Subject `i` is held up by subject `j`: a declared dependency named by blocked evidence. */
  ghost predicate HeldUpBy(subjects: seq<Subject>, items: seq<Item>, i: nat, j: nat)
    requires |items| <= |subjects|
  {
    && j < i < |items|
    && subjects[j].id in subjects[i].dependencies
    && exists e :: e in items[i].evidence && subjects[j].id in e.blockedBy
  }

  /** `p` leads from subject `i` through dependencies that blocked checks to the check that `root` names. */
  ghost predicate Grounds(subjects: seq<Subject>, items: seq<Item>, i: nat, root: Root, p: seq<nat>)
    requires |items| <= |subjects|
  {
    && root.CheckRoot?
    && |p| > 0 && p[0] == i && p[|p| - 1] < |items|
    && (forall k :: 0 <= k < |p| - 1 ==> HeldUpBy(subjects, items, p[k], p[k + 1]))
    && subjects[p[|p| - 1]].id == root.subject
    && exists e :: e in items[p[|p| - 1]].evidence && Culprit(e) && e.id == root.check
  }

  ghost predicate Grounded(subjects: seq<Subject>, items: seq<Item>, i: nat, root: Root)
    requires |items| <= |subjects|
  {
    exists p :: Grounds(subjects, items, i, root, p)
  }

  lemma GroundsExtend(subjects: seq<Subject>, items: seq<Item>, item: Item, i: nat, root: Root)
    requires |items| < |subjects| && Grounded(subjects, items, i, root)
    ensures Grounded(subjects, items + [item], i, root)
  {
    var p :| Grounds(subjects, items, i, root, p);
    forall k | 0 <= k < |p| - 1
      ensures HeldUpBy(subjects, items + [item], p[k], p[k + 1])
    {
      assert HeldUpBy(subjects, items, p[k], p[k + 1]);
    }
    assert Grounds(subjects, items + [item], i, root, p);
  }

  lemma GroundsThrough(subjects: seq<Subject>, items: seq<Item>, i: nat, j: nat, root: Root)
    requires |items| <= |subjects| && HeldUpBy(subjects, items, i, j) && Grounded(subjects, items, j, root)
    ensures Grounded(subjects, items, i, root)
  {
    var p :| Grounds(subjects, items, j, root, p);
    var q := [i] + p;
    forall k | 0 <= k < |q| - 1
      ensures HeldUpBy(subjects, items, q[k], q[k + 1])
    {
      if k > 0 {
        assert HeldUpBy(subjects, items, p[k - 1], p[k]);
      }
    }
    assert Grounds(subjects, items, i, root, q);
  }

  /** The result map holds, for each identifier, the latest item with it; those that block name a root. */
  ghost predicate Indexed(subjects: seq<Subject>, items: seq<Item>, results: Results) {
    Points(subjects, items, results) && Rooted(results)
  }

  ghost predicate LatestOf(subjects: seq<Subject>, items: seq<Item>, results: Results, d: Id)
    requires |items| <= |subjects| && d in results
  {
    exists j: nat :: Latest(subjects, |items|, d, j) && items[j] == results[d]
  }

  ghost predicate AllGrounded(subjects: seq<Subject>, items: seq<Item>)
    requires |items| <= |subjects|
  {
    forall i, root :: 0 <= i < |items| && root in items[i].rootCauses ==> Grounded(subjects, items, i, root)
  }

  /** A probe answers anything but blocked; what it cannot observe is unknown or stale. */
  method Probe() returns (s: State)
    ensures s != Blocked
  {
    s := *;
    if s == Blocked {
      s := Unknown;
    }
  }

  /** The checks without a blocking dependency. */
  function Runnable(checks: seq<Check>, results: Results): (r: seq<Check>)
    ensures forall c :: c in r <==> c in checks && Blockers(c.dependencies, results) == []
  {
    if checks == [] then []
    else
      (if Blockers(checks[0].dependencies, results) == [] then [checks[0]] else []) + Runnable(checks[1..], results)
  }

  /** One directly observed entry for each of `runnable`, in order. */
  ghost predicate Observed(runnable: seq<Check>, evidence: seq<Entry>) {
    && |evidence| == |runnable|
    && forall i :: 0 <= i < |evidence| ==>
         && evidence[i] == Entry(runnable[i].id, runnable[i].layer, evidence[i].state, true, false, [])
         && evidence[i].state != Blocked
  }

  method ProbeAll(runnable: seq<Check>) returns (evidence: seq<Entry>)
    ensures Observed(runnable, evidence)
  {
    evidence := [];
    for i := 0 to |runnable|
      invariant Observed(runnable[..i], evidence)
    {
      var state := Probe();
      evidence := evidence + [Entry(runnable[i].id, runnable[i].layer, state, true, false, [])];
    }
    assert runnable[..|runnable|] == runnable;
  }

  /** The evidence the loop gathers for one subject. */
  ghost predicate Gathered(subject: Subject, results: Results, external: map<Id, External>, evidence: seq<Entry>) {
    exists direct :: Observed(Runnable(subject.checks, results), direct)
      && evidence == direct + UnavailableEvidence(subject.checks, results) + ExternalEvidence(external, subject.id)
  }

  lemma GatheredFits(subject: Subject, results: Results, external: map<Id, External>, evidence: seq<Entry>)
    requires Gathered(subject, results, external, evidence)
    ensures EvidenceFits(evidence, Distinct(AllBlockers(subject.checks, results)))
  {
    var direct :| Observed(Runnable(subject.checks, results), direct)
      && evidence == direct + UnavailableEvidence(subject.checks, results) + ExternalEvidence(external, subject.id);
    var blockers := AllBlockers(subject.checks, results);
    DistinctFacts(blockers);
    forall d | d in blockers
      ensures d in Distinct(blockers)
    {
      assert d in Elems(blockers);
    }
  }

  /** Every blocker shows up in the evidence of a check it blocks. */
  lemma {:induction false} BlockerShown(checks: seq<Check>, results: Results, d: Id) returns (e: Entry)
    requires d in AllBlockers(checks, results)
    ensures e in UnavailableEvidence(checks, results) && d in e.blockedBy
  {
    var blockers := Blockers(checks[0].dependencies, results);
    if d in blockers {
      e := Entry(checks[0].id, checks[0].layer, Unknown, true, true, blockers);
    } else {
      e := BlockerShown(checks[1..], results, d);
    }
  }

  /** A blocking dependency was evaluated earlier, holds the subject up and has a root cause of its own. */
  lemma BlockerGrounded(subjects: seq<Subject>, items: seq<Item>, results: Results, item: Item, d: Id)
    requires Foreseen(subjects) && |items| < |subjects|
    requires Indexed(subjects, items, results) && AllGrounded(subjects, items)
    requires d in AllBlockers(subjects[|items|].checks, results)
    requires exists e :: e in item.evidence && d in e.blockedBy
    ensures d in results && RootOf(d, results).CheckRoot?
    ensures Grounded(subjects, items + [item], |items|, RootOf(d, results))
  {
    var i := |items|;
    var c :| c in subjects[i].checks && d in Blockers(c.dependencies, results);
    assert Needs(subjects[i], d);
    assert Earlier(subjects, i, d) && DependencyBlocks(d, results);
    assert LatestOf(subjects, items, results, d);
    var j: nat :| Latest(subjects, i, d, j) && items[j] == results[d];
    var root := results[d].rootCauses[0];
    assert root in items[j].rootCauses;
    assert Grounded(subjects, items, j, root);
    GroundsExtend(subjects, items, item, j, root);
    assert HeldUpBy(subjects, items + [item], i, j);
    GroundsThrough(subjects, items + [item], i, j, root);
  }

  lemma LocalGrounded(subjects: seq<Subject>, items: seq<Item>, item: Item, root: Root)
    requires |items| < |subjects|
    requires root in LocalRoots(subjects[|items|].id, Select(item.evidence, (e: Entry) => e.required))
    ensures Grounded(subjects, items + [item], |items|, root)
  {
    var required := Select(item.evidence, (e: Entry) => e.required);
    var e :| e in required && Culprit(e) && root == CheckRoot(subjects[|items|].id, e.id);
    assert e in item.evidence;
    assert Grounds(subjects, items + [item], |items|, root, [|items|]);
  }

  /** Each root cause of a new item is grounded. */
  lemma RootGrounded(subjects: seq<Subject>, items: seq<Item>, results: Results,
                     external: map<Id, External>, evidence: seq<Entry>, root: Root)
    requires Foreseen(subjects) && |items| < |subjects|
    requires Indexed(subjects, items, results) && AllGrounded(subjects, items)
    requires Gathered(subjects[|items|], results, external, evidence)
    requires root in Judged(subjects[|items|], results, evidence).rootCauses
    ensures Grounded(subjects, items + [Judged(subjects[|items|], results, evidence)], |items|, root)
  {
    var subject := subjects[|items|];
    var blockers := AllBlockers(subject.checks, results);
    var blocked := Distinct(blockers);
    var item := Judged(subject, results, evidence);
    var local := LocalRoots(subject.id, Select(evidence, (e: Entry) => e.required));
    var all := DependencyRoots(blocked, results) + local;
    DistinctFacts(all);
    assert root in Elems(Distinct(all));
    if root in local {
      LocalGrounded(subjects, items, item, root);
    } else {
      var k :| 0 <= k < |blocked| && DependencyRoots(blocked, results)[k] == root;
      DistinctFacts(blockers);
      assert blocked[k] in Elems(Distinct(blockers));
      ShownInEvidence(subject, results, external, evidence, blocked[k]);
      BlockerGrounded(subjects, items, results, item, blocked[k]);
    }
  }

  /** The item a subject gets from its evidence. */
  function Judged(subject: Subject, results: Results, evidence: seq<Entry>): Item {
    Evaluate(subject, evidence, results, Distinct(AllBlockers(subject.checks, results)))
  }

  lemma AllGroundedNext(subjects: seq<Subject>, items: seq<Item>, item: Item)
    requires |items| < |subjects| && AllGrounded(subjects, items)
    requires forall root :: root in item.rootCauses ==> Grounded(subjects, items + [item], |items|, root)
    ensures AllGrounded(subjects, items + [item])
  {
    forall i, root | 0 <= i < |items| + 1 && root in (items + [item])[i].rootCauses
      ensures Grounded(subjects, items + [item], i, root)
    {
      if i < |items| {
        GroundsExtend(subjects, items, item, i, root);
      }
    }
  }

  /** One turn of the loop keeps every root cause grounded. */
  lemma EvaluateGrounded(subjects: seq<Subject>, items: seq<Item>, results: Results,
                         external: map<Id, External>, evidence: seq<Entry>)
    requires Foreseen(subjects) && |items| < |subjects|
    requires Indexed(subjects, items, results) && AllGrounded(subjects, items)
    requires Gathered(subjects[|items|], results, external, evidence)
    ensures AllGrounded(subjects, items + [Judged(subjects[|items|], results, evidence)])
  {
    var item := Judged(subjects[|items|], results, evidence);
    forall root | root in item.rootCauses
      ensures Grounded(subjects, items + [item], |items|, root)
    {
      RootGrounded(subjects, items, results, external, evidence, root);
    }
    AllGroundedNext(subjects, items, item);
  }

  lemma ShownInEvidence(subject: Subject, results: Results, external: map<Id, External>, evidence: seq<Entry>, d: Id)
    requires Gathered(subject, results, external, evidence) && d in AllBlockers(subject.checks, results)
    ensures exists e :: e in evidence && d in e.blockedBy
  {
    var e := BlockerShown(subject.checks, results, d);
    assert e in evidence;
  }

  /** The result map points at the latest item of each identifier. */
  ghost predicate Points(subjects: seq<Subject>, items: seq<Item>, results: Results) {
    && |items| <= |subjects|
    && (forall d :: d in results <==> Earlier(subjects, |items|, d))
    && (forall d :: d in results ==> LatestOf(subjects, items, results, d))
  }

  lemma PointsNext(subjects: seq<Subject>, items: seq<Item>, results: Results, item: Item)
    requires |items| < |subjects| && Points(subjects, items, results)
    ensures Points(subjects, items + [item], results[subjects[|items|].id := item])
  {
    var id := subjects[|items|].id;
    var later := results[id := item];
    forall d | d in later
      ensures LatestOf(subjects, items + [item], later, d) && Earlier(subjects, |items| + 1, d)
    {
      if d == id {
        assert Latest(subjects, |items| + 1, d, |items|) && (items + [item])[|items|] == later[d];
      } else {
        assert LatestOf(subjects, items, results, d);
        var j: nat :| Latest(subjects, |items|, d, j) && items[j] == results[d];
        assert Latest(subjects, |items| + 1, d, j) && (items + [item])[j] == later[d];
      }
    }
    forall d | Earlier(subjects, |items| + 1, d)
      ensures d in later
    {
      var j :| 0 <= j < |items| + 1 && subjects[j].id == d;
      assert j < |items| ==> Earlier(subjects, |items|, d);
    }
  }

  /** Every blocking entry of the result map names a root. */
  ghost predicate Rooted(results: Results) {
    forall d :: d in results && DependencyBlocks(d, results) ==> results[d].rootCauses != []
  }

  lemma RootedNext(subject: Subject, results: Results, external: map<Id, External>, evidence: seq<Entry>)
    requires Rooted(results) && Gathered(subject, results, external, evidence)
    ensures Rooted(results[subject.id := Judged(subject, results, evidence)])
  {
    var later := results[subject.id := Judged(subject, results, evidence)];
    GatheredFits(subject, results, external, evidence);
    forall d | d in later && DependencyBlocks(d, later)
      ensures later[d].rootCauses != []
    {
      if d == subject.id {
        BlockingHasRoot(subject, evidence, results, Distinct(AllBlockers(subject.checks, results)), later);
      } else {
        assert DependencyBlocks(d, results);
      }
    }
  }

  // ----- What an item says, read off its evidence and the items before it -----

  /** Something observed directly is wrong. */
  ghost predicate Wrong(item: Item) {
    exists e :: e in item.evidence && Culprit(e)
  }

  /** Some check could not be probed. */
  ghost predicate HeldUp(item: Item) {
    exists e :: e in item.evidence && e.blockedBy != []
  }

  /** A direct problem goes before a block, and a block before evidence from elsewhere. */
  ghost predicate StateFits(item: Item) {
    && (Wrong(item) ==> item.state == item.directState)
    && (item.state == Blocked <==> !Wrong(item) && HeldUp(item))
    && (item.state == Healthy <==> forall e :: e in item.evidence ==> e.state == Healthy)
    && (!Wrong(item) && !HeldUp(item) && item.state != Healthy ==> item.state == Degraded)
  }

  /** The item names the first dependency of the first check that was held up. */
  ghost predicate BlockerFits(item: Item) {
    && (item.blockedBy.Some? <==> HeldUp(item))
    && (item.blockedBy.Some? ==> FirstHeldUp(item.evidence, item.blockedBy.value))
  }

  /** `d` is the first name in the first entry that names one. */
  ghost predicate FirstHeldUp(evidence: seq<Entry>, d: Id) {
    exists k :: 0 <= k < |evidence| && evidence[k].blockedBy != [] && evidence[k].blockedBy[0] == d
      && forall j :: 0 <= j < k ==> evidence[j].blockedBy == []
  }

  /** `root` is the first root cause of the latest item of `d`. */
  ghost predicate HandedOn(subjects: seq<Subject>, before: seq<Item>, d: Id, root: Root)
    requires |before| <= |subjects|
  {
    exists j: nat :: Latest(subjects, |before|, d, j) && before[j].rootCauses != [] && root == before[j].rootCauses[0]
  }

  /** The root causes: one for each dependency that held a check up, and one for each culprit. */
  ghost predicate RootsFit(subjects: seq<Subject>, before: seq<Item>, item: Item)
    requires |before| <= |subjects|
  {
    && NoDup(item.rootCauses)
    && (forall e :: e in item.evidence && Culprit(e) ==> CheckRoot(item.id, e.id) in item.rootCauses)
    && (forall e, d :: e in item.evidence && d in e.blockedBy ==>
          exists root :: root in item.rootCauses && HandedOn(subjects, before, d, root))
    && (forall root :: root in item.rootCauses ==> Contributed(subjects, before, item, root))
    && (item.blockedBy.Some? ==>
          item.rootCauses != [] && HandedOn(subjects, before, item.blockedBy.value, item.rootCauses[0]))
    && (item.blockedBy == None && item.rootCauses != [] ==>
          exists k: nat :: FirstCulprit(item.evidence, k)
            && item.rootCauses[0] == CheckRoot(item.id, item.evidence[k].id))
  }

  /** `root` names a culprit, or was handed on by a dependency that held a check up. */
  ghost predicate Contributed(subjects: seq<Subject>, before: seq<Item>, item: Item, root: Root)
    requires |before| <= |subjects|
  {
    || (exists e :: e in item.evidence && Culprit(e) && root == CheckRoot(item.id, e.id))
    || (exists e, d :: e in item.evidence && d in e.blockedBy && HandedOn(subjects, before, d, root))
  }

  /**
   A dependency is down. For infrastructure: its state is neither healthy nor degraded. For a component: so is the
   state of an entry about its workload, its storage, its services or the application itself.
   */
  ghost predicate IsDown(d: Id, item: Item) {
    if d in {"microk8s-node", "storage", "dns", "ingress", "tls"} then item.state !in {Healthy, Degraded}
    else
      exists e :: e in item.evidence && e.state !in {Healthy, Degraded}
        && e.layer in {Workload, Storage, InternalService, Dependency, Application, Functional}
  }

  ghost predicate Down(subjects: seq<Subject>, before: seq<Item>, d: Id)
    requires |before| <= |subjects|
  {
    exists j: nat :: Latest(subjects, |before|, d, j) && IsDown(d, before[j])
  }

  /** `e` shows the check `c`: observed directly iff none of its dependencies is down. */
  ghost predicate Shows(subjects: seq<Subject>, before: seq<Item>, c: Check, e: Entry)
    requires |before| <= |subjects|
  {
    && e.id == c.id && e.layer == c.layer && e.required
    && (e.derived <==> exists d :: d in c.dependencies && Down(subjects, before, d))
    && (forall d :: d in e.blockedBy <==> d in c.dependencies && Down(subjects, before, d))
    && (e.derived ==> e.state == Unknown)
  }

  /** `e` is what is reported elsewhere about the subject's external route. */
  ghost predicate FromOutside(external: map<Id, External>, subject: Id, e: Entry) {
    && subject in external
    && (|| e == Entry("external-route", ExternalReachability, external[subject].route, true, true, [])
        || (external[subject].tls.Some? && e == Entry("tls", Tls, external[subject].tls.value, true, true, [])))
  }

  /** The evidence shows each check of the subject and what is reported elsewhere, and nothing else. */
  ghost predicate EvidenceMeans(subjects: seq<Subject>, before: seq<Item>, external: map<Id, External>,
                                evidence: seq<Entry>)
    requires |before| < |subjects|
  {
    var subject := subjects[|before|];
    && (forall c :: c in subject.checks ==> exists e :: e in evidence && Shows(subjects, before, c, e))
    && (forall e :: e in evidence ==>
          FromOutside(external, subject.id, e)
          || exists c :: c in subject.checks && Shows(subjects, before, c, e))
    && (forall e :: FromOutside(external, subject.id, e) ==> e in evidence)
    && |evidence| == |subject.checks| + Reports(external, subject.id)
    && (forall e :: e in evidence ==> e.state != Blocked)
  }

  /** How many entries are reported elsewhere. */
  function Reports(external: map<Id, External>, subject: Id): nat {
    if subject !in external then 0 else if external[subject].tls == None then 1 else 2
  }

  /** What the loop of `document` promises for the item after `before`. */
  ghost predicate ItemMeans(subjects: seq<Subject>, before: seq<Item>, external: map<Id, External>, item: Item)
    requires |before| < |subjects|
  {
    && item.id == subjects[|before|].id
    && EvidenceMeans(subjects, before, external, item.evidence)
    && DirectFits(item) && StateFits(item) && BlockerFits(item)
    && RootsFit(subjects, before, item)
  }

  ghost predicate AllMean(subjects: seq<Subject>, items: seq<Item>, external: map<Id, External>)
    requires |items| <= |subjects|
  {
    forall i :: 0 <= i < |items| ==> ItemMeans(subjects, items[..i], external, items[i])
  }

  lemma MeansAt(subjects: seq<Subject>, items: seq<Item>, external: map<Id, External>, i: nat, before: seq<Item>,
                item: Item)
    requires i < |items| <= |subjects| && before == items[..i] && item == items[i]
    requires ItemMeans(subjects, before, external, item)
    ensures ItemMeans(subjects, items[..i], external, items[i])
  {
  }

  lemma AllMeanNext(subjects: seq<Subject>, items: seq<Item>, external: map<Id, External>, item: Item)
    requires |items| < |subjects| && AllMean(subjects, items, external)
    requires ItemMeans(subjects, items, external, item)
    ensures AllMean(subjects, items + [item], external)
  {
    var later := items + [item];
    forall i | 0 <= i < |later|
      ensures ItemMeans(subjects, later[..i], external, later[i])
    {
      if i < |items| {
        assert later[..i] == items[..i];
        MeansAt(subjects, later, external, i, items[..i], items[i]);
      } else {
        assert later[..i] == items;
        MeansAt(subjects, later, external, i, items, item);
      }
    }
  }

  /** A ranked state blocks iff some entry's state is neither healthy nor degraded. */
  lemma RankBlocksIff(evidence: seq<Entry>)
    requires forall e :: e in evidence ==> e.state != Blocked
    ensures Blocking(RankState(evidence)) <==> exists e :: e in evidence && e.state !in {Healthy, Degraded}
  {
    RankStateMeans(evidence);
  }

  lemma DomainBlocksIff(evidence: seq<Entry>, layers: set<Layer>)
    requires forall e :: e in evidence ==> e.state != Blocked
    ensures Blocking(DomainState(evidence, layers)) <==>
      exists e :: e in evidence && e.layer in layers && e.state !in {Healthy, Degraded}
  {
    RankBlocksIff(Select(evidence, (e: Entry) => e.layer in layers));
  }

  lemma ComponentBlocksIff(evidence: seq<Entry>)
    requires forall e :: e in evidence ==> e.state != Blocked
    ensures (|| Blocking(DomainState(evidence, {Workload}))
             || Blocking(DomainState(evidence, {Storage}))
             || Blocking(DomainState(evidence, {InternalService, Dependency}))
             || Blocking(DomainState(evidence, {Application, Functional})))
      <==> exists e :: e in evidence && e.state !in {Healthy, Degraded}
             && e.layer in {Workload, Storage, InternalService, Dependency, Application, Functional}
  {
    DomainBlocksIff(evidence, {Workload});
    DomainBlocksIff(evidence, {Storage});
    DomainBlocksIff(evidence, {InternalService, Dependency});
    DomainBlocksIff(evidence, {Application, Functional});
  }

  lemma BlocksIffIsDown(results: Results, d: Id)
    requires d in results && forall e :: e in results[d].evidence ==> e.state != Blocked
    ensures DependencyBlocks(d, results) <==> IsDown(d, results[d])
  {
    if d !in INFRASTRUCTURE {
      ComponentBlocksIff(results[d].evidence);
    }
  }

  lemma NeverBlocked(subjects: seq<Subject>, items: seq<Item>, external: map<Id, External>, j: nat)
    requires j < |items| <= |subjects| && AllMean(subjects, items, external)
    ensures forall e :: e in items[j].evidence ==> e.state != Blocked
  {
    assert ItemMeans(subjects, items[..j], external, items[j]);
  }

  /** A dependency that was evaluated before blocks iff it is down. */
  lemma BlocksIffDown(subjects: seq<Subject>, before: seq<Item>, results: Results, external: map<Id, External>, d: Id)
    requires Points(subjects, before, results) && AllMean(subjects, before, external)
    requires Earlier(subjects, |before|, d)
    ensures DependencyBlocks(d, results) <==> Down(subjects, before, d)
  {
    assert LatestOf(subjects, before, results, d);
    var j: nat :| Latest(subjects, |before|, d, j) && before[j] == results[d];
    NeverBlocked(subjects, before, external, j);
    BlocksIffIsDown(results, d);
  }

  lemma EntryShows(subjects: seq<Subject>, before: seq<Item>, results: Results, external: map<Id, External>,
                   c: Check, e: Entry)
    requires Points(subjects, before, results) && AllMean(subjects, before, external)
    requires forall d :: d in c.dependencies ==> Earlier(subjects, |before|, d)
    requires e.id == c.id && e.layer == c.layer && e.required && e.blockedBy == Blockers(c.dependencies, results)
    requires (e.derived <==> e.blockedBy != []) && (e.derived ==> e.state == Unknown)
    ensures Shows(subjects, before, c, e)
  {
    forall d | d in c.dependencies
      ensures DependencyBlocks(d, results) <==> Down(subjects, before, d)
    {
      BlocksIffDown(subjects, before, results, external, d);
    }
    if e.blockedBy != [] {
      assert e.blockedBy[0] in e.blockedBy;
    }
  }

  /** The entries a check gets show it. */
  lemma CheckShown(subjects: seq<Subject>, before: seq<Item>, results: Results, external: map<Id, External>,
                   evidence: seq<Entry>, c: Check)
    requires Foreseen(subjects) && |before| < |subjects|
    requires Points(subjects, before, results) && AllMean(subjects, before, external)
    requires Gathered(subjects[|before|], results, external, evidence) && c in subjects[|before|].checks
    ensures exists e :: e in evidence && Shows(subjects, before, c, e)
  {
    var subject := subjects[|before|];
    var direct :| Observed(Runnable(subject.checks, results), direct)
      && evidence == direct + UnavailableEvidence(subject.checks, results) + ExternalEvidence(external, subject.id);
    CheckForeseen(subjects, |before|, c);
    if Blockers(c.dependencies, results) == [] {
      var k :| 0 <= k < |direct| && Runnable(subject.checks, results)[k] == c;
      EntryShows(subjects, before, results, external, c, direct[k]);
      assert direct[k] in evidence;
    } else {
      EntryShows(subjects, before, results, external, c, UnavailableEntry(c, results));
      assert UnavailableEntry(c, results) in UnavailableEvidence(subject.checks, results);
      assert UnavailableEntry(c, results) in evidence;
    }
  }

  lemma CheckForeseen(subjects: seq<Subject>, i: nat, c: Check)
    requires Foreseen(subjects) && i < |subjects| && c in subjects[i].checks
    ensures forall d :: d in c.dependencies ==> Earlier(subjects, i, d)
  {
    forall d | d in c.dependencies
      ensures Earlier(subjects, i, d)
    {
      assert Needs(subjects[i], d);
    }
  }

  /** A probed check, or one that was not, is shown by its entry. */
  lemma DirectShows(subjects: seq<Subject>, before: seq<Item>, results: Results, external: map<Id, External>,
                    direct: seq<Entry>, e: Entry)
    requires Foreseen(subjects) && |before| < |subjects|
    requires Points(subjects, before, results) && AllMean(subjects, before, external)
    requires Observed(Runnable(subjects[|before|].checks, results), direct) && e in direct
    ensures exists c :: c in subjects[|before|].checks && Shows(subjects, before, c, e)
  {
    var runnable := Runnable(subjects[|before|].checks, results);
    var k :| 0 <= k < |direct| && direct[k] == e;
    assert runnable[k] in runnable;
    CheckForeseen(subjects, |before|, runnable[k]);
    EntryShows(subjects, before, results, external, runnable[k], e);
  }

  lemma UnavailableShows(subjects: seq<Subject>, before: seq<Item>, results: Results, external: map<Id, External>,
                         e: Entry)
    requires Foreseen(subjects) && |before| < |subjects|
    requires Points(subjects, before, results) && AllMean(subjects, before, external)
    requires e in UnavailableEvidence(subjects[|before|].checks, results)
    ensures exists c :: c in subjects[|before|].checks && Shows(subjects, before, c, e)
  {
    var c :| c in subjects[|before|].checks
      && Blockers(c.dependencies, results) != [] && e == UnavailableEntry(c, results);
    CheckForeseen(subjects, |before|, c);
    EntryShows(subjects, before, results, external, c, e);
  }

  /** Every entry shows a check or comes from elsewhere. */
  lemma EntryMeans(subjects: seq<Subject>, before: seq<Item>, results: Results, external: map<Id, External>,
                   evidence: seq<Entry>, e: Entry)
    requires Foreseen(subjects) && |before| < |subjects|
    requires Points(subjects, before, results) && AllMean(subjects, before, external)
    requires Gathered(subjects[|before|], results, external, evidence) && e in evidence
    ensures FromOutside(external, subjects[|before|].id, e)
      || exists c :: c in subjects[|before|].checks && Shows(subjects, before, c, e)
  {
    var subject := subjects[|before|];
    var direct :| Observed(Runnable(subject.checks, results), direct)
      && evidence == direct + UnavailableEvidence(subject.checks, results) + ExternalEvidence(external, subject.id);
    if e in direct {
      DirectShows(subjects, before, results, external, direct, e);
    } else if e in UnavailableEvidence(subject.checks, results) {
      UnavailableShows(subjects, before, results, external, e);
    } else {
      assert e in ExternalEvidence(external, subject.id);
    }
  }

  /** The evidence gathered for a subject. */
  lemma GatheredMeans(subjects: seq<Subject>, before: seq<Item>, results: Results, external: map<Id, External>,
                      evidence: seq<Entry>)
    requires Foreseen(subjects) && |before| < |subjects|
    requires Points(subjects, before, results) && AllMean(subjects, before, external)
    requires Gathered(subjects[|before|], results, external, evidence)
    ensures EvidenceMeans(subjects, before, external, evidence)
  {
    forall c | c in subjects[|before|].checks
      ensures exists e :: e in evidence && Shows(subjects, before, c, e)
    {
      CheckShown(subjects, before, results, external, evidence, c);
    }
    forall e | e in evidence
      ensures FromOutside(external, subjects[|before|].id, e)
        || exists c :: c in subjects[|before|].checks && Shows(subjects, before, c, e)
    {
      EntryMeans(subjects, before, results, external, evidence, e);
    }
    GatheredFits(subjects[|before|], results, external, evidence);
    OutsideShown(subjects[|before|], results, external, evidence);
  }

  lemma OutsideShown(subject: Subject, results: Results, external: map<Id, External>, evidence: seq<Entry>)
    requires Gathered(subject, results, external, evidence)
    ensures forall e :: FromOutside(external, subject.id, e) ==> e in evidence
    ensures |evidence| == |subject.checks| + Reports(external, subject.id)
  {
    var outside := ExternalEvidence(external, subject.id);
    UnavailableMeans(subject.checks, results);
    forall e | FromOutside(external, subject.id, e)
      ensures e in evidence
    {
      if e == outside[0] {
        assert e in outside;
      } else {
        assert e == outside[1] && e in outside;
      }
    }
  }

  /** A derived problem alone leaves the subject blocked or degraded. */
  lemma DerivedMeans(subject: Subject, evidence: seq<Entry>, results: Results, blocked: seq<Id>)
    requires forall e :: e in evidence ==> e.state != Blocked
    ensures var item := Evaluate(subject, evidence, results, blocked);
      && (item.directState != Healthy ==> item.state == item.directState)
      && (item.directState == Healthy && blocked != [] ==> item.state == Blocked)
      && (item.directState == Healthy && blocked == [] ==>
            item.state == if forall e :: e in evidence ==> e.state == Healthy then Healthy else Degraded)
  {
    var required := Select(evidence, (e: Entry) => e.required);
    RankStateMeans(Select(required, (e: Entry) => e.layer in {IngressRouting, Tls, ExternalReachability}));
    if i :| 0 <= i < |evidence| && evidence[i].state != Healthy {
      assert evidence[i] in evidence;
    }
  }

  /** The states follow from the evidence. */
  lemma StatesMean(subject: Subject, evidence: seq<Entry>, results: Results, blocked: seq<Id>)
    requires EvidenceFits(evidence, blocked) && (blocked != [] <==> exists e :: e in evidence && e.blockedBy != [])
    ensures var item := Evaluate(subject, evidence, results, blocked);
      DirectFits(item) && StateFits(item)
  {
    DirectMeans(subject, evidence, results, blocked);
    DerivedMeans(subject, evidence, results, blocked);
  }

  lemma BlockedIff(subject: Subject, results: Results, external: map<Id, External>, evidence: seq<Entry>)
    requires Gathered(subject, results, external, evidence)
    ensures AllBlockers(subject.checks, results) != [] <==> exists e :: e in evidence && e.blockedBy != []
  {
    var unavailable := UnavailableEvidence(subject.checks, results);
    UnavailableMeans(subject.checks, results);
    if unavailable != [] {
      assert unavailable[0] in unavailable && unavailable[0] in evidence;
    } else {
      var direct :| Observed(Runnable(subject.checks, results), direct)
        && evidence == direct + unavailable + ExternalEvidence(external, subject.id);
      assert forall e :: e in direct ==> e.blockedBy == [];
      assert forall e :: e in evidence ==> e in direct || e in ExternalEvidence(external, subject.id);
    }
  }

  /** The first blocker is the first one named by the evidence. */
  lemma BlockerMeans(subject: Subject, results: Results, external: map<Id, External>, evidence: seq<Entry>)
    requires Gathered(subject, results, external, evidence)
    ensures BlockerFits(Judged(subject, results, evidence))
  {
    BlockedIff(subject, results, external, evidence);
    DistinctFacts(AllBlockers(subject.checks, results));
    if AllBlockers(subject.checks, results) == [] {
      assert Elems(Distinct(AllBlockers(subject.checks, results))) == {};
    } else {
      FirstBlocked(subject, results, external, evidence);
    }
  }

  lemma FirstBlocked(subject: Subject, results: Results, external: map<Id, External>, evidence: seq<Entry>)
    requires Gathered(subject, results, external, evidence) && AllBlockers(subject.checks, results) != []
    ensures FirstHeldUp(evidence, AllBlockers(subject.checks, results)[0])
  {
    var unavailable := UnavailableEvidence(subject.checks, results);
    UnavailableMeans(subject.checks, results);
    var direct :| Observed(Runnable(subject.checks, results), direct)
      && evidence == direct + unavailable + ExternalEvidence(external, subject.id);
    assert evidence[|direct|] == unavailable[0];
    forall j | 0 <= j < |direct|
      ensures evidence[j].blockedBy == []
    {
      assert evidence[j] == direct[j];
    }
  }

  lemma {:induction false} SelectAll(evidence: seq<Entry>)
    requires forall e :: e in evidence ==> e.required
    ensures Select(evidence, (e: Entry) => e.required) == evidence
  {
    if evidence != [] {
      assert evidence[0] in evidence;
      SelectAll(evidence[1..]);
    }
  }

  /** `k` is the place of the first culprit. */
  ghost predicate FirstCulprit(evidence: seq<Entry>, k: nat) {
    k < |evidence| && Culprit(evidence[k]) && forall j :: 0 <= j < k ==> !Culprit(evidence[j])
  }

  lemma {:induction false} LocalRootsFirst(subject: Id, evidence: seq<Entry>) returns (k: nat)
    requires LocalRoots(subject, evidence) != []
    ensures FirstCulprit(evidence, k) && LocalRoots(subject, evidence)[0] == CheckRoot(subject, evidence[k].id)
  {
    if Culprit(evidence[0]) {
      k := 0;
    } else {
      k := LocalRootsFirst(subject, evidence[1..]);
      k := k + 1;
    }
  }

  /** What a blocker contributes is the first root cause of its latest item. */
  lemma BlockerHands(subjects: seq<Subject>, before: seq<Item>, results: Results, d: Id)
    requires Foreseen(subjects) && |before| < |subjects| && Indexed(subjects, before, results)
    requires d in AllBlockers(subjects[|before|].checks, results)
    ensures HandedOn(subjects, before, d, RootOf(d, results))
  {
    var c :| c in subjects[|before|].checks && d in Blockers(c.dependencies, results);
    CheckForeseen(subjects, |before|, c);
    assert LatestOf(subjects, before, results, d);
  }

  lemma RootFrom(subjects: seq<Subject>, before: seq<Item>, results: Results, external: map<Id, External>,
                 evidence: seq<Entry>, root: Root)
    requires Foreseen(subjects) && |before| < |subjects| && Indexed(subjects, before, results)
    requires Gathered(subjects[|before|], results, external, evidence)
    requires root in Judged(subjects[|before|], results, evidence).rootCauses
    ensures Contributed(subjects, before, Judged(subjects[|before|], results, evidence), root)
  {
    var subject := subjects[|before|];
    var blockers := AllBlockers(subject.checks, results);
    var local := LocalRoots(subject.id, Select(evidence, (e: Entry) => e.required));
    var all := DependencyRoots(Distinct(blockers), results) + local;
    DistinctFacts(all);
    assert root in Elems(Distinct(all));
    if root !in local {
      var k :| 0 <= k < |Distinct(blockers)| && DependencyRoots(Distinct(blockers), results)[k] == root;
      DistinctFacts(blockers);
      assert Distinct(blockers)[k] in Elems(Distinct(blockers));
      ShownInEvidence(subject, results, external, evidence, Distinct(blockers)[k]);
      BlockerHands(subjects, before, results, Distinct(blockers)[k]);
    }
  }

  lemma CulpritNamed(subject: Subject, results: Results, evidence: seq<Entry>, e: Entry)
    requires e in evidence && Culprit(e)
    ensures CheckRoot(subject.id, e.id) in Judged(subject, results, evidence).rootCauses
  {
    var required := Select(evidence, (x: Entry) => x.required);
    var all := DependencyRoots(Distinct(AllBlockers(subject.checks, results)), results)
      + LocalRoots(subject.id, required);
    DistinctFacts(all);
    assert e in required && CheckRoot(subject.id, e.id) in LocalRoots(subject.id, required);
    assert CheckRoot(subject.id, e.id) in Elems(all);
  }

  lemma BlockerNamed(subject: Subject, results: Results, evidence: seq<Entry>, d: Id)
    requires d in AllBlockers(subject.checks, results)
    ensures RootOf(d, results) in Judged(subject, results, evidence).rootCauses
  {
    var blocked := Distinct(AllBlockers(subject.checks, results));
    DistinctFacts(AllBlockers(subject.checks, results));
    assert d in Elems(blocked);
    var k :| 0 <= k < |blocked| && blocked[k] == d;
    var roots := DependencyRoots(blocked, results);
    var all := roots + LocalRoots(subject.id, Select(evidence, (e: Entry) => e.required));
    DistinctFacts(all);
    assert roots[k] in all;
    assert roots[k] in Elems(all);
  }

  /** The first root cause is that of the first blocker. */
  lemma FirstRootBlocked(subject: Subject, results: Results, evidence: seq<Entry>)
    requires AllBlockers(subject.checks, results) != []
    ensures var item := Judged(subject, results, evidence);
      && item.blockedBy.Some? && item.rootCauses != []
      && item.rootCauses[0] == RootOf(item.blockedBy.value, results)
  {
    var roots := DependencyRoots(Distinct(AllBlockers(subject.checks, results)), results);
    var local := LocalRoots(subject.id, Select(evidence, (e: Entry) => e.required));
    DistinctFacts(AllBlockers(subject.checks, results));
    DistinctFacts(roots + local);
    assert (roots + local)[0] == roots[0];
  }

  /** Without a blocker it is that of the first culprit. */
  lemma FirstRootLocal(subject: Subject, results: Results, evidence: seq<Entry>)
    requires AllBlockers(subject.checks, results) == [] && forall e :: e in evidence ==> e.required
    ensures var item := Judged(subject, results, evidence);
      && item.blockedBy == None
      && (item.rootCauses != [] ==>
            exists k: nat :: FirstCulprit(evidence, k) && item.rootCauses[0] == CheckRoot(subject.id, evidence[k].id))
  {
    var local := LocalRoots(subject.id, evidence);
    SelectAll(evidence);
    DistinctFacts(local);
    assert [] + local == local;
    if local != [] {
      var k := LocalRootsFirst(subject.id, evidence);
    }
  }

  lemma RootsDistinct(subject: Subject, results: Results, evidence: seq<Entry>)
    ensures NoDup(Judged(subject, results, evidence).rootCauses)
  {
    var blocked := Distinct(AllBlockers(subject.checks, results));
    var local := LocalRoots(subject.id, Select(evidence, (e: Entry) => e.required));
    DistinctNoDup(DependencyRoots(blocked, results) + local);
  }

  lemma FirstRoot(subject: Subject, results: Results, external: map<Id, External>, evidence: seq<Entry>)
    requires Gathered(subject, results, external, evidence)
    ensures var item := Judged(subject, results, evidence);
      && (item.blockedBy.Some? ==>
            item.rootCauses != [] && item.rootCauses[0] == RootOf(item.blockedBy.value, results))
      && (item.blockedBy == None && item.rootCauses != [] ==>
            exists k: nat :: FirstCulprit(evidence, k) && item.rootCauses[0] == CheckRoot(subject.id, evidence[k].id))
  {
    if AllBlockers(subject.checks, results) == [] {
      GatheredFits(subject, results, external, evidence);
      FirstRootLocal(subject, results, evidence);
    } else {
      FirstRootBlocked(subject, results, evidence);
    }
  }

  lemma RootsGiven(subjects: seq<Subject>, before: seq<Item>, results: Results, external: map<Id, External>,
                   evidence: seq<Entry>)
    requires Foreseen(subjects) && |before| < |subjects| && Indexed(subjects, before, results)
    requires Gathered(subjects[|before|], results, external, evidence)
    ensures RootsFit(subjects, before, Judged(subjects[|before|], results, evidence))
  {
    var subject := subjects[|before|];
    var item := Judged(subject, results, evidence);
    var blockers := AllBlockers(subject.checks, results);
    FirstRoot(subject, results, external, evidence);
    RootsDistinct(subject, results, evidence);
    DistinctFacts(blockers);
    GatheredFits(subject, results, external, evidence);
    if item.blockedBy.Some? {
      assert item.blockedBy.value in Elems(Distinct(blockers));
      BlockerHands(subjects, before, results, item.blockedBy.value);
    }
    forall e | e in evidence && Culprit(e)
      ensures CheckRoot(item.id, e.id) in item.rootCauses
    {
      CulpritNamed(subject, results, evidence, e);
    }
    forall e, d | e in evidence && d in e.blockedBy
      ensures exists root :: root in item.rootCauses && HandedOn(subjects, before, d, root)
    {
      assert d in Elems(Distinct(blockers));
      BlockerNamed(subject, results, evidence, d);
      BlockerHands(subjects, before, results, d);
    }
    forall root | root in item.rootCauses
      ensures Contributed(subjects, before, item, root)
    {
      RootFrom(subjects, before, results, external, evidence, root);
    }
  }

  lemma EvaluateMeans(subjects: seq<Subject>, before: seq<Item>, results: Results, external: map<Id, External>,
                      evidence: seq<Entry>)
    requires Foreseen(subjects) && |before| < |subjects|
    requires Indexed(subjects, before, results) && AllMean(subjects, before, external)
    requires Gathered(subjects[|before|], results, external, evidence)
    ensures ItemMeans(subjects, before, external, Judged(subjects[|before|], results, evidence))
  {
    var subject := subjects[|before|];
    GatheredFits(subject, results, external, evidence);
    GatheredMeans(subjects, before, results, external, evidence);
    BlockedIff(subject, results, external, evidence);
    BlockerMeans(subject, results, external, evidence);
    DistinctFacts(AllBlockers(subject.checks, results));
    StatesMean(subject, evidence, results, Distinct(AllBlockers(subject.checks, results)));
    RootsGiven(subjects, before, results, external, evidence);
  }

  /** What the loop of `document` keeps: lookups succeed, items are judged, root causes are grounded. */
  ghost predicate Evaluated(subjects: seq<Subject>, items: seq<Item>, results: Results,
                            external: map<Id, External>) {
    && Indexed(subjects, items, results)
    && AllGrounded(subjects, items)
    && AllMean(subjects, items, external)
  }

  lemma EvaluateStep(subjects: seq<Subject>, items: seq<Item>, results: Results,
                     external: map<Id, External>, evidence: seq<Entry>)
    requires Foreseen(subjects) && |items| < |subjects| && Evaluated(subjects, items, results, external)
    requires Gathered(subjects[|items|], results, external, evidence)
    ensures var item := Judged(subjects[|items|], results, evidence);
      Evaluated(subjects, items + [item], results[subjects[|items|].id := item], external)
  {
    var item := Judged(subjects[|items|], results, evidence);
    EvaluateMeans(subjects, items, results, external, evidence);
    AllMeanNext(subjects, items, external, item);
    EvaluateGrounded(subjects, items, results, external, evidence);
    PointsNext(subjects, items, results, item);
    RootedNext(subjects[|items|], results, external, evidence);
  }
  /** Probe what can be probed and add the derived evidence. */
  method Gather(subject: Subject, results: Results, external: map<Id, External>) returns (evidence: seq<Entry>)
    ensures Gathered(subject, results, external, evidence)
  {
    var direct := ProbeAll(Runnable(subject.checks, results));
    evidence := direct + UnavailableEvidence(subject.checks, results) + ExternalEvidence(external, subject.id);
  }

  /** The loop of `document`: every looked-up dependency is known, and every root cause is grounded. */
  method Evaluations(subjects: seq<Subject>, external: map<Id, External>) returns (items: seq<Item>)
    requires Foreseen(subjects)
    ensures |items| == |subjects| && AllGrounded(subjects, items) && AllMean(subjects, items, external)
  {
    items := [];
    var results: Results := map[];
    for i := 0 to |subjects|
      invariant |items| == i && Evaluated(subjects, items, results, external)
    {
      var evidence := Gather(subjects[i], results, external);
      EvaluateStep(subjects, items, results, external, evidence);
      var item := Judged(subjects[i], results, evidence);
      items, results := items + [item], results[subjects[i].id := item];
    }
  }

  /** `_subjects` for a registry that has an order. */
  function SubjectsOf(g: Deps, order: seq<Id>, declared: map<Id, seq<Declared>>): seq<Subject>
    requires Elems(order) <= g.Keys
  {
    InfrastructureSubjects() + ComponentSubjects(g, order, declared)
  }

  /** `document`: infrastructure first, then the registry in dependency order; an unsound registry is a fault. */
  method Document(r: Registry, declared: map<Id, seq<Declared>>, external: map<Id, External>)
    returns (fault: bool, order: seq<Id>, items: seq<Item>)
    ensures fault <==> HasGap(r.deps, Elems(r.ids)) || Cyclic(r.deps, Closure(r.deps, Elems(r.ids)))
    ensures !fault ==> Order(r.deps, order, r.deps.Keys) && |items| == |SubjectsOf(r.deps, order, declared)|
    ensures !fault ==> AllGrounded(SubjectsOf(r.deps, order, declared), items)
    ensures !fault ==> AllMean(SubjectsOf(r.deps, order, declared), items, external)
  {
    var result := DependencyOrder(r, []);
    if !result.Ordered? {
      return true, [], [];
    }
    WholeOrder(r, result.order);
    order := result.order;
    SubjectsForeseen(r.deps, order, declared);
    items := Evaluations(SubjectsOf(r.deps, order, declared), external);
    fault := false;
  }

  /** The dependencies of a check of this kind that are down, for a component that depends on `own`. */
  ghost predicate Unprobed(subjects: seq<Subject>, before: seq<Item>, probe: ProbeType, own: seq<Id>)
    requires |before| <= |subjects|
  {
    || Down(subjects, before, "microk8s-node")
    || (probe == PersistentVolume && Down(subjects, before, "storage"))
    || (probe != PersistentVolume && probe != WorkloadReady
        && (Down(subjects, before, "dns") || exists d :: d in own && Down(subjects, before, d)))
  }

  lemma CheckDependenciesMean(probe: ProbeType, own: seq<Id>, subjects: seq<Subject>, before: seq<Item>)
    requires |before| <= |subjects|
    ensures (exists d :: d in CheckDependencies(ComponentLayer(probe), own) && Down(subjects, before, d))
      <==> Unprobed(subjects, before, probe, own)
  {
    var dependencies := CheckDependencies(ComponentLayer(probe), own);
    forall d
      ensures d in Distinct(["microk8s-node", "dns"] + own) <==> d == "microk8s-node" || d == "dns" || d in own
    {
      DistinctHas(["microk8s-node", "dns"] + own, d);
    }
  }

  function CheckOf(x: Declared, own: seq<Id>): Check {
    Check(x.id, ComponentLayer(x.probe), CheckDependencies(ComponentLayer(x.probe), own))
  }

  lemma ShowsUnprobed(subjects: seq<Subject>, before: seq<Item>, x: Declared, own: seq<Id>, e: Entry)
    requires |before| <= |subjects| && Shows(subjects, before, CheckOf(x, own), e)
    ensures e.derived <==> Unprobed(subjects, before, x.probe, own)
    ensures e.layer in {Workload, Storage, InternalService, Dependency, Application, Functional}
  {
    CheckDependenciesMean(x.probe, own, subjects, before);
  }

  lemma ShownAt(subjects: seq<Subject>, items: seq<Item>, external: map<Id, External>, i: nat, c: Check)
    returns (e: Entry)
    requires i < |items| <= |subjects| && AllMean(subjects, items, external) && c in subjects[i].checks
    ensures e in items[i].evidence && Shows(subjects, items[..i], c, e)
  {
    assert ItemMeans(subjects, items[..i], external, items[i]);
    e :| e in items[i].evidence && Shows(subjects, items[..i], c, e);
  }

  lemma {:induction false} DeclaredHasCheck(declared: seq<Declared>, own: seq<Id>, x: Declared)
    requires x in declared && x.required
    ensures CheckOf(x, own) in ComponentChecks(declared, own)
  {
    if x != declared[0] {
      DeclaredHasCheck(declared[1..], own, x);
    }
  }

  /**
   From the registry to the evidence: a required check of a component is observed directly unless the node is down,
   or, for a volume, storage; or, for any check but that of a workload or a volume, the cluster's name service or a
   component that this one depends on, is down. A check that shows worse than degraded takes its component down.
   */
  lemma DeclaredIsProbedIff(g: Deps, order: seq<Id>, declared: map<Id, seq<Declared>>, external: map<Id, External>,
                            items: seq<Item>, k: nat, x: Declared)
    requires Order(g, order, g.Keys) && k < |order| && order[k] in declared && x in declared[order[k]] && x.required
    requires |items| == |SubjectsOf(g, order, declared)| && AllMean(SubjectsOf(g, order, declared), items, external)
    ensures var subjects, i := SubjectsOf(g, order, declared), |InfrastructureSubjects()| + k;
      exists e :: e in items[i].evidence && e.id == x.id
        && (e.derived <==> Unprobed(subjects, items[..i], x.probe, g[order[k]]))
        && (order[k] !in INFRASTRUCTURE && e.state !in {Healthy, Degraded} ==> IsDown(order[k], items[i]))
  {
    var subjects, i := SubjectsOf(g, order, declared), |InfrastructureSubjects()| + k;
    DeclaredHasCheck(declared[order[k]], g[order[k]], x);
    assert subjects[i] == ComponentSubject(order[k], g[order[k]], declared[order[k]]);
    var e := ShownAt(subjects, items, external, i, CheckOf(x, g[order[k]]));
    ShowsUnprobed(subjects, items[..i], x, g[order[k]], e);
  }

  lemma WholeOrder(r: Registry, order: seq<Id>)
    requires !HasGap(r.deps, Elems(r.ids)) && Order(r.deps, order, Closure(r.deps, Elems(r.ids)))
    ensures Order(r.deps, order, r.deps.Keys)
  {
    ClosureIsLeast(r.deps, Elems(r.ids));
  }
}
