/** Offline acceptance of one admin operation: the transcript, snapshot and
    terminal checks of src/fault/admin_topology.rs, and what they add up to. */
module Evidence {
  import opened Basics
  import opened Receipts
  import opened TopologyProof
  import opened StatusProjection

  datatype Operation = Operation(
    attempt: Attempt, scenario: Scenario, operationId: string,
    targetId: Option<nat>, targetExpression: Option<string>,
    terminalState: Word, completed: bool, failed: bool, canceledOrStopped: bool,
    participants: seq<nat>, objects: Option<u64>, versions: Option<u64>, bytes: Option<u64>,
    requests: seq<Request>, before: Snapshot, after: Snapshot)

  const MAX_SNAPSHOT_AGE: int := 5000

  // --------------------------------------------------- request transcript

  predicate RequestInWindow(r: Request, w: Window) {
    && RequestValid(r)
    && w.Contains(r.startedAt) && w.Contains(r.observedAt)
    && CaptureWithin(r.target.endpoint, w)
    && (r.runtimeProbe.Some? ==>
          && w.Contains(r.runtimeProbe.value.startedAt) && w.Contains(r.runtimeProbe.value.observedAt)
          && CaptureWithin(r.runtimeProbe.value.target.endpoint, w))
  }

  /** Request a is observed before b even begins to identify its endpoint. */
  predicate Precedes(a: Request, b: Request) {
    a.observedAt < b.target.endpoint.clusterStartedAt
  }

  /** validate_request_timing: every request in the window, adjacent ones ordered. */
  predicate TimingValid(requests: seq<Request>, w: Window) {
    && requests != []
    && (forall r :: r in requests ==> RequestInWindow(r, w))
    && (forall i :: 0 <= i < |requests| - 1 ==> Precedes(requests[i], requests[i + 1]))
  }

  /** The loop of validate_request_timing followed by its adjacent-pair test. */
  method ValidateRequestTiming(requests: seq<Request>, w: Window) returns (ok: bool)
    ensures ok <==> TimingValid(requests, w)
  {
    if requests == [] { return false; }
    for i := 0 to |requests|
      invariant forall r :: r in requests[..i] ==> RequestInWindow(r, w)
    {
      if !RequestInWindow(requests[i], w) { return false; }
    }
    assert requests[..|requests|] == requests;
    return forall i :: 0 <= i < |requests| - 1 ==> Precedes(requests[i], requests[i + 1]);
  }

  /** Adjacent order is total order: every earlier request is finished before
      any later one begins. */
  lemma {:induction false} EarlierRequestsPrecede(requests: seq<Request>, w: Window, i: nat, j: nat)
    requires TimingValid(requests, w) && i < j < |requests|
    ensures Precedes(requests[i], requests[j]) && requests[i].observedAt < requests[j].startedAt
    decreases j
  {
    assert requests[j - 1] in requests && requests[j] in requests;
    assert RequestInWindow(requests[j - 1], w) && RequestInWindow(requests[j], w);
    assert Precedes(requests[j - 1], requests[j - 1 + 1]);
    if i < j - 1 {
      EarlierRequestsPrecede(requests, w, i, j - 1);
    }
  }

  predicate TargetsMatch(requests: seq<Request>, expected: Target) {
    forall r :: r in requests ==> SameRuntimeIdentity(expected, r.target)
  }

  predicate Allowlisted(requests: seq<Request>, scenario: Scenario, target: Option<nat>) {
    && Supported(scenario)
    && forall r :: r in requests ==>
         && (IsStart(scenario, r) || IsStatus(scenario, r) || IsRollback(scenario, r))
         && ExactQuery(r, scenario, target)
  }

  function StartIndex(requests: seq<Request>, scenario: Scenario): nat {
    FirstIndex(StartTest(scenario), requests)
  }

  /** validate_start_before_status */
  predicate StartBeforeStatus(requests: seq<Request>, scenario: Scenario, target: Option<nat>) {
    && Allowlisted(requests, scenario, target)
    && var start := StartIndex(requests, scenario);
    && start < |requests|
    && (forall i :: start < i < |requests| ==> !IsStart(scenario, requests[i]))
    && AfterLast(StatusTest(scenario), requests) > 0
    && forall i :: 0 <= i < |requests| && IsStatus(scenario, requests[i]) ==>
         i > start && requests[i].startedAt >= requests[start].observedAt
  }

  function StartOf(requests: seq<Request>, scenario: Scenario): Request
    requires StartIndex(requests, scenario) < |requests|
  {
    requests[StartIndex(requests, scenario)]
  }

  function TerminalOf(requests: seq<Request>, scenario: Scenario): Request
    requires AfterLast(StatusTest(scenario), requests) > 0
  {
    requests[AfterLast(StatusTest(scenario), requests) - 1]
  }

  /** Without a cancel or stop, the transcript is one start and then only statuses. */
  lemma TranscriptIsStartThenStatuses(requests: seq<Request>, scenario: Scenario, target: Option<nat>)
    requires StartBeforeStatus(requests, scenario, target)
    requires forall r :: r in requests ==> !IsCancelOrStop(r)
    ensures |requests| >= 2 && IsStart(scenario, requests[0])
    ensures forall i :: 1 <= i < |requests| ==> IsStatus(scenario, requests[i])
    ensures StartOf(requests, scenario) == requests[0]
    ensures TerminalOf(requests, scenario) == requests[|requests| - 1]
  {
    var start := StartIndex(requests, scenario);
    forall i | 0 <= i < |requests| ensures IsStart(scenario, requests[i]) || IsStatus(scenario, requests[i]) {
      assert requests[i] in requests;
    }
    var first := StartTest(scenario)(requests[0]);
    assert start == 0;
    var last := StatusTest(scenario)(requests[|requests| - 1]);
    assert AfterLast(StatusTest(scenario), requests) == |requests|;
  }

  // ------------------------------------------------------------ snapshots

  predicate TenantGetMatches(s: Snapshot, proof: Proof) {
    && s.tenantGet.namespace == proof.namespace && s.tenantGet.name == proof.tenant
    && s.tenantGet.uid == proof.attempt.tenantUid
    && s.tenantGet.body.TenantBody? && ReceiptMatchesProof(proof, s.tenantGet.body.tenant)
  }

  /** validate_admin_pre_start_snapshot */
  predicate PreStartSnapshotFresh(proof: Proof, s: Snapshot, evaluatedAt: u64) {
    && Satisfied(proof) && ListRequestValid(s)
    && s.attempt == proof.attempt && s.runtime == proof.runtime
    && TenantGetMatches(s, proof)
    && RuntimePoolsValid(proof.tenantPools, s.pools)
    && var capacity := TopologyCapacity(proof.targetId, s.pools, proof.workloadMax);
    && capacity.Fits? && capacity.targetExpression == proof.targetExpression
    && 0 <= evaluatedAt - s.observedAt <= MAX_SNAPSHOT_AGE
    && 0 <= evaluatedAt - s.tenantGet.observedAt <= MAX_SNAPSHOT_AGE
  }

  /** validate_pre_start_snapshot */
  predicate PreStartSnapshotValid(proof: Proof, s: Snapshot, requests: seq<Request>) {
    && TargetsMatch(requests, proof.runtime.target)
    && StartBeforeStatus(requests, proof.scenario, proof.targetId)
    && var start := StartOf(requests, proof.scenario);
    && PreStartSnapshotFresh(proof, s, start.startedAt)
    && start.runtimeProbe.Some?
    && s.runtime.observedAt < s.tenantGet.startedAt
    && s.tenantGet.observedAt < s.request.startedAt
    && s.request.observedAt < start.runtimeProbe.value.target.endpoint.clusterStartedAt
    && start.runtimeProbe.value.observedAt <= start.startedAt
    && s.tenantGet.observedAt < start.startedAt
    && start.startedAt - s.tenantGet.observedAt <= MAX_SNAPSHOT_AGE
    && start.startedAt - s.observedAt <= MAX_SNAPSHOT_AGE
  }

  /** validate_post_operation_snapshot */
  predicate PostSnapshotValid(proof: Proof, s: Snapshot, requests: seq<Request>) {
    && ListRequestValid(s)
    && SameRuntimeIdentity(proof.runtime.target, s.runtime.target)
    && TargetsMatch(requests, proof.runtime.target)
    && s.attempt == proof.attempt && TenantGetMatches(s, proof)
    && WireInvariants(s.pools)
    && StartBeforeStatus(requests, proof.scenario, proof.targetId)
    && TerminalOf(requests, proof.scenario).observedAt < s.runtime.target.endpoint.clusterStartedAt
    && s.runtime.target.endpoint.tenantObservedAt <= s.runtime.startedAt
    && s.runtime.observedAt < s.tenantGet.startedAt
    && s.tenantGet.observedAt < s.request.startedAt
    && s.observedAt >= s.request.startedAt
  }

  // ----------------------------------------------------- operation success

  /** validate_terminal_status_response */
  predicate TerminalResponseMatches(op: Operation) {
    && Supported(op.scenario)
    && AfterLast(StatusTest(op.scenario), op.requests) > 0
    && var body := Captured(TerminalOf(op.requests, op.scenario));
    match op.scenario
    case Decommission =>
      && body.Some? && body.value.DecommissionBody?
      && op.targetId.Some? && op.targetExpression.Some?
      && (match ProjectDecommission(body.value.decommission, op.targetId.value, op.targetExpression.value, op.operationId)
          case None => false
          case Some(p) =>
            && op.terminalState == p.state && op.completed == p.completed && op.failed == p.failed
            && op.canceledOrStopped == p.canceled && op.participants == [op.targetId.value]
            && op.objects == Some(p.objects) && op.versions.None? && op.bytes == Some(p.bytes))
    case Rebalance =>
      && StartIndex(op.requests, Rebalance) < |op.requests|
      && Captured(StartOf(op.requests, Rebalance)) == Some(RebalanceStartBody(op.operationId))
      && body.Some? && body.value.RebalanceBody?
      && body.value.rebalance.id == op.operationId
      && (match ProjectRebalance(body.value.rebalance, op.before.pools, exists r :: r in op.requests && IsCancelOrStop(r))
          case None => false
          case Some(p) =>
            && op.terminalState == p.state && op.completed == p.completed && op.failed == p.failed
            && op.canceledOrStopped == p.stopped && op.participants == p.participants
            && op.objects == Some(p.objects) && op.versions == Some(p.versions) && op.bytes == Some(p.bytes))
    case OtherScenario(_) => false
  }

  predicate BeforeSnapshotInWindow(op: Operation, w: Window, startedAt: u64) {
    && ListRequestValid(op.before) && TimingValid([op.before.request], w)
    && op.before.attempt == op.attempt
    && w.Contains(op.before.runtime.startedAt) && w.Contains(op.before.runtime.observedAt)
    && w.Contains(op.before.tenantGet.startedAt) && w.Contains(op.before.tenantGet.observedAt)
    && op.before.runtime.observedAt < op.before.tenantGet.startedAt
    && op.before.tenantGet.observedAt < op.before.request.startedAt
    && op.before.request.observedAt < startedAt
    && startedAt - op.before.tenantGet.observedAt <= MAX_SNAPSHOT_AGE
    && startedAt - op.before.observedAt <= MAX_SNAPSHOT_AGE
    && WireInvariants(op.before.pools)
  }

  predicate AfterSnapshotInWindow(op: Operation, w: Window, terminalAt: u64) {
    && ListRequestValid(op.after) && TimingValid([op.after.request], w)
    && op.after.attempt == op.attempt
    && CaptureWithin(op.after.runtime.target.endpoint, w)
    && w.Contains(op.after.runtime.startedAt) && w.Contains(op.after.runtime.observedAt)
    && w.Contains(op.after.tenantGet.startedAt) && w.Contains(op.after.tenantGet.observedAt)
    && terminalAt < op.after.runtime.target.endpoint.clusterStartedAt
    && op.after.runtime.observedAt < op.after.tenantGet.startedAt
    && op.after.tenantGet.observedAt < op.after.request.startedAt
    && WireInvariants(op.after.pools)
  }

  predicate Positive(n: Option<u64>) {
    n.Some? && n.value > 0
  }

  /** pool_is_decommissioned_target */
  predicate IsDecommissionedTarget(p: AdminPool, operationId: string, objects: Option<u64>, bytes: Option<u64>) {
    && p.status.Decommissioned? && p.decommissionStatus.Complete?
    && (p.rebalanceStatus.NoWord? || p.rebalanceStatus.Completed?)
    && p.decommission.Some?
    && var d := p.decommission.value;
    && d.complete && !d.failed && !d.canceled && !d.queued && d.unresolvedEntries == 0
    && d.objectsFailed == 0 && d.bytesFailed == 0
    && Present(d.startTime) && operationId == OperationId(p.id, d.startTime.value)
    && objects == Some(d.objects) && bytes == Some(d.bytes)
  }

  predicate SamePool(a: AdminPool, b: AdminPool) {
    a.id == b.id && a.expression == b.expression
  }

  predicate DecommissionPoolsAccepted(op: Operation, target: nat, expression: string) {
    var before, after := op.before.pools, op.after.pools;
    && op.participants == [target] && op.versions.None? && (Positive(op.objects) || Positive(op.bytes))
    && (exists r :: r in op.requests && IsStart(Decommission, r) && ExactQuery(r, Decommission, Some(target)))
    && (exists r :: r in op.requests && IsStatus(Decommission, r) && ExactQuery(r, Decommission, Some(target)))
    && (exists p :: p in before && p.id == target && p.expression == expression)
    && ((forall p :: p in after ==> p.id != target)
        || exists p :: p in after && p.id == target && p.expression == expression
             && IsDecommissionedTarget(p, op.operationId, op.objects, op.bytes))
    && (forall a :: a in after ==> exists b :: b in before && SamePool(b, a))
    && (forall b :: b in before && b.id != target ==> exists a :: a in after && SamePool(a, b))
    && (forall p :: p in after && p.id != target ==> PoolIsIdle(p))
  }

  predicate RebalancePoolsAccepted(op: Operation) {
    var before, after := op.before.pools, op.after.pools;
    && op.targetId.None? && op.targetExpression.None?
    && op.participants != [] && (Positive(op.objects) || Positive(op.versions) || Positive(op.bytes))
    && |Elements(op.participants)| == |op.participants|
    && (forall id :: id in op.participants ==> exists p :: p in before && p.id == id)
    && (exists r :: r in op.requests && IsStart(Rebalance, r) && ExactQuery(r, Rebalance, None))
    && (exists r :: r in op.requests && IsStatus(Rebalance, r) && ExactQuery(r, Rebalance, None))
    && |before| == |after|
    && (forall b :: b in before ==> exists a :: a in after && SamePool(a, b))
    && (forall p :: p in after ==> PoolIsIdle(p))
  }

  /** The transcript, with the one snapshot before its start and the other after its terminal status. */
  predicate SnapshotsPlaced(op: Operation, w: Window) {
    && StartBeforeStatus(op.requests, op.scenario, op.targetId)
    && BeforeSnapshotInWindow(op, w, StartOf(op.requests, op.scenario).startedAt)
    && AfterSnapshotInWindow(op, w, TerminalOf(op.requests, op.scenario).observedAt)
  }

  predicate PoolsAccepted(op: Operation) {
    match op.scenario
    case Decommission =>
      && op.targetId.Some? && op.targetExpression.Some? && op.targetExpression.value != ""
      && DecommissionPoolsAccepted(op, op.targetId.value, op.targetExpression.value)
    case Rebalance => RebalancePoolsAccepted(op)
    case OtherScenario(_) => false
  }

  /** AdminOperationEvidence::require_success */
  predicate Succeeded(op: Operation, w: Window) {
    && w.Valid() && AttemptValid(op.attempt) && CaseMatches(op.scenario, op.attempt.caseName)
    && !IsBlank(op.operationId) && op.completed
    && op.terminalState == (if op.scenario.Decommission? then Complete else Completed)
    && !op.failed && !op.canceledOrStopped
    && (forall r :: r in op.requests ==> !IsCancelOrStop(r) && Successful(r.status))
    && SameRuntimeIdentity(op.before.runtime.target, op.after.runtime.target)
    && TargetsMatch(op.requests, op.before.runtime.target)
    && TimingValid(op.requests, w)
    && SnapshotsPlaced(op, w)
    && TerminalResponseMatches(op)
    && PoolsAccepted(op)
  }

  /** validate_admin_topology_artifacts */
  predicate ArtifactsAccepted(scenario: Scenario, expected: Attempt, w: Window, proof: Proof, op: Operation) {
    && w.Valid() && Supported(scenario) && AttemptValid(expected) && CaseMatches(scenario, expected.caseName)
    && proof.scenario == scenario && op.scenario == scenario
    && proof.attempt == expected && op.attempt == expected
    && proof.runtime == op.before.runtime
    && SameRuntimeIdentity(proof.runtime.target, op.after.runtime.target)
    && TargetsMatch(op.requests, proof.runtime.target)
    && Satisfied(proof) && Succeeded(op, w)
    && PreStartSnapshotValid(proof, op.before, op.requests)
    && PostSnapshotValid(proof, op.after, op.requests)
    && (scenario.Decommission? ==> op.targetId == proof.targetId && op.targetExpression == proof.targetExpression)
  }

  // ------------------------------------------------------- one chronology

  /** An observation: when its capture began and when its answer was seen. */
  datatype Event = Event(began: u64, observed: u64)

  function RequestEvent(r: Request): Event {
    Event(r.target.endpoint.clusterStartedAt, r.observedAt)
  }

  function Opening(s: Snapshot): seq<Event> {
    [Event(s.runtime.startedAt, s.runtime.observedAt), Event(s.tenantGet.startedAt, s.tenantGet.observedAt),
     Event(s.request.startedAt, s.request.observedAt)]
  }

  function Closing(s: Snapshot): seq<Event> {
    [Event(s.runtime.target.endpoint.clusterStartedAt, s.runtime.observedAt),
     Event(s.tenantGet.startedAt, s.tenantGet.observedAt), Event(s.request.startedAt, s.request.observedAt)]
  }

  /** Every observation of the attempt, in the order the evidence lists them. */
  function Timeline(op: Operation): seq<Event> {
    Opening(op.before) + Map(RequestEvent, op.requests) + Closing(op.after)
  }

  ghost predicate TotallyOrdered(events: seq<Event>, w: Window) {
    && (forall i :: 0 <= i < |events| ==>
          && events[i].began <= events[i].observed
          && w.Contains(events[i].began) && w.Contains(events[i].observed))
    && (forall i, j :: 0 <= i < j < |events| ==> events[i].observed < events[j].began)
  }

  lemma {:induction false} AdjacentOrderIsTotal(events: seq<Event>, w: Window)
    requires forall i :: 0 <= i < |events| ==>
               events[i].began <= events[i].observed && w.Contains(events[i].began) && w.Contains(events[i].observed)
    requires forall i :: 0 <= i < |events| - 1 ==> events[i].observed < events[i + 1].began
    ensures TotallyOrdered(events, w)
  {
    forall i, j | 0 <= i < j < |events| ensures events[i].observed < events[j].began {
      EarlierEventFirst(events, i, j);
    }
  }

  lemma {:induction false} EarlierEventFirst(events: seq<Event>, i: nat, j: nat)
    requires i < j < |events|
    requires forall k :: 0 <= k < |events| ==> events[k].began <= events[k].observed
    requires forall k :: 0 <= k < |events| - 1 ==> events[k].observed < events[k + 1].began
    ensures events[i].observed < events[j].began
    decreases j
  {
    assert events[j - 1].observed < events[j - 1 + 1].began;
    if i < j - 1 {
      EarlierEventFirst(events, i, j - 1);
    }
  }

  lemma OpeningIsOrdered(op: Operation, w: Window, startedAt: u64)
    requires BeforeSnapshotInWindow(op, w, startedAt)
    ensures TotallyOrdered(Opening(op.before), w)
  {
    hide WireInvariants, IsBlank, EndpointValid, SameRuntimeIdentity, EndpointForTenant, Captured, CaptureWithin, TotallyOrdered;
    assert RequestInWindow(op.before.request, w) by {
      assert op.before.request in [op.before.request];
    }
    AdjacentOrderIsTotal(Opening(op.before), w);
  }

  lemma ClosingIsOrdered(op: Operation, w: Window, terminalAt: u64)
    requires AfterSnapshotInWindow(op, w, terminalAt)
    ensures TotallyOrdered(Closing(op.after), w) && terminalAt < Closing(op.after)[0].began
  {
    hide WireInvariants, IsBlank, SameRuntimeIdentity, EndpointForTenant, Captured, TotallyOrdered;
    assert RequestInWindow(op.after.request, w) by {
      assert op.after.request in [op.after.request];
    }
    AdjacentOrderIsTotal(Closing(op.after), w);
  }

  lemma TranscriptIsOrdered(requests: seq<Request>, w: Window)
    requires TimingValid(requests, w)
    ensures TotallyOrdered(Map(RequestEvent, requests), w)
  {
    var events := Map(RequestEvent, requests);
    forall i | 0 <= i < |events|
      ensures events[i].began <= events[i].observed && w.Contains(events[i].began) && w.Contains(events[i].observed)
    {
      assert requests[i] in requests;
      assert RequestInWindow(requests[i], w);
    }
    forall i | 0 <= i < |events| - 1 ensures events[i].observed < events[i + 1].began {
      assert Precedes(requests[i], requests[i + 1]);
    }
    AdjacentOrderIsTotal(events, w);
  }

  lemma OrderedConcat(a: seq<Event>, b: seq<Event>, w: Window)
    requires a != [] && b != [] && TotallyOrdered(a, w) && TotallyOrdered(b, w)
    requires a[|a| - 1].observed < b[0].began
    ensures TotallyOrdered(a + b, w)
  {
    var c := a + b;
    forall i | 0 <= i < |c| - 1 ensures c[i].observed < c[i + 1].began {
      if i + 1 < |a| {
        assert a[i].observed < a[i + 1].began;
      } else if i >= |a| {
        assert b[i - |a|].observed < b[i - |a| + 1].began;
      }
    }
    AdjacentOrderIsTotal(c, w);
  }

  lemma TimedTranscriptIsNotEmpty(requests: seq<Request>, w: Window)
    requires TimingValid(requests, w)
    ensures requests != []
  {
  }

  lemma TimelineIsOrdered(op: Operation, w: Window)
    requires TimingValid(op.requests, w)
    requires BeforeSnapshotInWindow(op, w, op.requests[0].startedAt)
    requires AfterSnapshotInWindow(op, w, op.requests[|op.requests| - 1].observedAt)
    requires op.before.request.observedAt < op.requests[0].target.endpoint.clusterStartedAt
    ensures TotallyOrdered(Timeline(op), w)
  {
    hide TotallyOrdered, TimingValid, BeforeSnapshotInWindow, AfterSnapshotInWindow;
    TimedTranscriptIsNotEmpty(op.requests, w);
    OpeningIsOrdered(op, w, op.requests[0].startedAt);
    ClosingIsOrdered(op, w, op.requests[|op.requests| - 1].observedAt);
    TranscriptIsOrdered(op.requests, w);
    OrderedConcat(Opening(op.before), Map(RequestEvent, op.requests), w);
    OrderedConcat(Opening(op.before) + Map(RequestEvent, op.requests), Closing(op.after), w);
  }

  /** The start request's own runtime probe follows the pre-start pools/list. */
  lemma StartFollowsPoolsList(proof: Proof, s: Snapshot, requests: seq<Request>, w: Window)
    requires PreStartSnapshotValid(proof, s, requests) && TimingValid(requests, w)
    ensures var start := StartOf(requests, proof.scenario);
            && start.runtimeProbe.Some? && start.runtimeProbe.value.target == start.target
            && s.request.observedAt < start.target.endpoint.clusterStartedAt
  {
    var start := StartOf(requests, proof.scenario);
    assert start in requests;
    assert RequestInWindow(start, w);
  }

  /** Accepted artifacts describe one run in one order: probe, Tenant GET,
      pools/list, start, statuses, then the three closing captures, with every
      observation finished before the next begins and all inside the window. */
  lemma AcceptedArtifactsHaveOneChronology(scenario: Scenario, expected: Attempt, w: Window, proof: Proof, op: Operation)
    requires ArtifactsAccepted(scenario, expected, w, proof, op)
    ensures |op.requests| >= 2 && IsStart(scenario, op.requests[0])
    ensures forall i :: 1 <= i < |op.requests| ==> IsStatus(scenario, op.requests[i])
    ensures TotallyOrdered(Timeline(op), w)
    ensures 0 < op.requests[0].startedAt - op.before.tenantGet.observedAt <= MAX_SNAPSHOT_AGE
    ensures 0 < op.requests[0].startedAt - op.before.request.observedAt <= MAX_SNAPSHOT_AGE
    ensures op.requests[0].runtimeProbe.Some? && op.requests[0].runtimeProbe.value.target == op.requests[0].target
  {
    hide Satisfied, TerminalResponseMatches, PoolsAccepted, PostSnapshotValid, TimingValid, TotallyOrdered, TargetsMatch, SameRuntimeIdentity;
    hide BeforeSnapshotInWindow, AfterSnapshotInWindow, StartBeforeStatus, IsBlank, PreStartSnapshotValid, Timeline;
    TranscriptIsStartThenStatuses(op.requests, scenario, op.targetId);
    StartFollowsPoolsList(proof, op.before, op.requests, w);
    SnapshotAge(op, w, op.requests[0].startedAt);
    TimelineIsOrdered(op, w);
  }

  lemma SnapshotAge(op: Operation, w: Window, startedAt: u64)
    requires BeforeSnapshotInWindow(op, w, startedAt)
    ensures 0 < startedAt - op.before.tenantGet.observedAt <= MAX_SNAPSHOT_AGE
    ensures 0 < startedAt - op.before.request.observedAt <= MAX_SNAPSHOT_AGE
  {
    hide WireInvariants, IsBlank, EndpointValid, SameRuntimeIdentity, EndpointForTenant, Captured, TimingValid;
  }

  // ------------------------------------------------- pool identity conserved

  function Identity(p: AdminPool): (nat, string) {
    (p.id, p.expression)
  }

  function Identities(pools: seq<AdminPool>): set<(nat, string)> {
    Elements(Map(Identity, pools))
  }

  lemma InIdentities(pools: seq<AdminPool>, id: (nat, string))
    ensures id in Identities(pools) <==> exists p :: p in pools && Identity(p) == id
  {
    if p :| p in pools && Identity(p) == id {
      var i :| 0 <= i < |pools| && pools[i] == p;
      assert Map(Identity, pools)[i] == id;
    }
    if id in Identities(pools) {
      var i :| 0 <= i < |pools| && Map(Identity, pools)[i] == id;
      assert pools[i] in pools;
    }
  }

  /** after is before, or before without the target. */
  ghost predicate LosesAtMost(target: (nat, string), before: set<(nat, string)>, after: set<(nat, string)>) {
    target in before && after == (if target in after then before else before - {target})
  }

  lemma OnlyTheTargetMayLeave(before: seq<AdminPool>, after: seq<AdminPool>, target: nat, expression: string)
    requires forall x, y :: x in before && y in before && x.id == y.id ==> x == y
    requires exists p :: p in before && p.id == target && p.expression == expression
    requires forall a :: a in after ==> exists b :: b in before && SamePool(b, a)
    requires forall b :: b in before && b.id != target ==> exists a :: a in after && SamePool(a, b)
    ensures LosesAtMost((target, expression), Identities(before), Identities(after))
  {
    var t := (target, expression);
    InIdentities(before, t);
    assert t in Identities(before) by {
      var p :| p in before && p.id == target && p.expression == expression;
      assert Identity(p) == t;
    }
    forall id | id in Identities(after) ensures id in Identities(before) {
      InIdentities(after, id);
      InIdentities(before, id);
      var a :| a in after && Identity(a) == id;
      var b :| b in before && SamePool(b, a);
      assert Identity(b) == id;
    }
    forall id | id in Identities(before) && id != t ensures id in Identities(after) {
      InIdentities(before, id);
      InIdentities(after, id);
      var b :| b in before && Identity(b) == id;
      var a :| a in after && SamePool(a, b);
      assert Identity(a) == id;
    }
  }

  lemma RetainedTargetIsThisOperation(op: Operation, target: nat, expression: string)
    requires DecommissionPoolsAccepted(op, target, expression)
    requires WireInvariants(op.after.pools)
    ensures forall p :: p in op.after.pools && p.id == target ==>
              p.expression == expression && CarriesOperation(p, op)
  {
    hide WireInvariants, PoolIsIdle, IsBlank, SamePool;
    UniqueIds(op.after.pools);
  }

  /** The pool shows the clean end of exactly this operation, in the fields it reports. */
  ghost predicate CarriesOperation(p: AdminPool, op: Operation) {
    && p.status == Decommissioned && p.decommissionStatus == Complete
    && (p.rebalanceStatus == NoWord || p.rebalanceStatus == Completed)
    && p.decommission.Some? && p.decommission.value.startTime.Some?
    && var d := p.decommission.value;
    && op.operationId == "decommission:" + Decimal(p.id) + ":" + d.startTime.value && !IsBlank(d.startTime.value)
    && op.objects == Some(d.objects) && op.bytes == Some(d.bytes)
    && d.complete && !d.failed && !d.canceled && !d.queued && d.unresolvedEntries == 0
    && d.objectsFailed == 0 && d.bytesFailed == 0
  }

  /** After a successful decommission the (id, cmdline) set is the set before,
      or that set without the target; survivors are idle, and a target that is
      still listed carries exactly this operation's identity and counters. */
  lemma DecommissionConservesPools(op: Operation, w: Window)
    requires Succeeded(op, w) && op.scenario.Decommission?
    ensures LosesAtMost((op.targetId.value, op.targetExpression.value), Identities(op.before.pools), Identities(op.after.pools))
    ensures forall p :: p in op.after.pools && p.id != op.targetId.value ==>
              && (p.status == Active || p.status == Ready) && p.decommissionStatus == NoWord && p.decommission == None
              && (p.rebalanceStatus == NoWord || p.rebalanceStatus == Completed)
    ensures forall p :: p in op.after.pools && p.id == op.targetId.value ==>
              && p.expression == op.targetExpression.value
              && p.status == Decommissioned && p.decommissionStatus == Complete
              && (p.rebalanceStatus == NoWord || p.rebalanceStatus == Completed)
              && p.decommission.Some? && p.decommission.value.startTime.Some?
              && op.operationId == "decommission:" + Decimal(p.id) + ":" + p.decommission.value.startTime.value
              && op.objects == Some(p.decommission.value.objects) && op.bytes == Some(p.decommission.value.bytes)
              && p.decommission.value.complete && !p.decommission.value.failed && !p.decommission.value.canceled
              && !p.decommission.value.queued && p.decommission.value.unresolvedEntries == 0
              && p.decommission.value.objectsFailed == 0 && p.decommission.value.bytesFailed == 0
              && !IsBlank(p.decommission.value.startTime.value)
  {
    hide TerminalResponseMatches, TimingValid, TargetsMatch, SameRuntimeIdentity, ListRequestValid, WireInvariants, StartBeforeStatus;
    hide LosesAtMost, IsBlank, PoolIsIdle, IsDecommissionedTarget, SamePool, CaptureWithin, Identities;
    UniqueIds(op.before.pools);
    OnlyTheTargetMayLeave(op.before.pools, op.after.pools, op.targetId.value, op.targetExpression.value);
    RetainedTargetIsThisOperation(op, op.targetId.value, op.targetExpression.value);
    IdleReads(op.after.pools, op.targetId);
  }

  /** Idle, in the fields a pool reports. */
  lemma IdleReads(pools: seq<AdminPool>, spared: Option<nat>)
    requires forall p :: p in pools && Some(p.id) != spared ==> PoolIsIdle(p)
    ensures forall p :: p in pools && Some(p.id) != spared ==>
              && (p.status == Active || p.status == Ready) && p.decommissionStatus == NoWord && p.decommission == None
              && (p.rebalanceStatus == NoWord || p.rebalanceStatus == Completed)
  {
  }

  /** A target still listed after the operation that is another operation's, that
      moved something else, or that does not show a clean end, is refused. */
  lemma StrangeTargetIsRefused(op: Operation, w: Window, p: AdminPool)
    requires op.scenario.Decommission? && p in op.after.pools && op.targetId == Some(p.id)
    requires || op.targetExpression != Some(p.expression) || p.decommission.None? || p.decommission.value.startTime.None?
             || op.operationId != "decommission:" + Decimal(p.id) + ":" + p.decommission.value.startTime.value
             || op.objects != Some(p.decommission.value.objects) || op.bytes != Some(p.decommission.value.bytes)
             || !p.decommission.value.complete || p.decommission.value.failed || p.decommission.value.canceled
             || p.decommission.value.queued || p.decommission.value.unresolvedEntries > 0
             || p.decommission.value.objectsFailed > 0 || p.decommission.value.bytesFailed > 0
             || p.status != Decommissioned || p.decommissionStatus != Complete
             || (p.rebalanceStatus != NoWord && p.rebalanceStatus != Completed)
    ensures !Succeeded(op, w)
  {
    hide Succeeded, LosesAtMost, Identities;
    if Succeeded(op, w) {
      SuccessIsOfOneScenario(op, w);
      DecommissionConservesPools(op, w);
    }
  }

  /** So is a pool that is busy when the operation is said to be over. */
  lemma BusyPoolIsRefused(op: Operation, w: Window, p: AdminPool)
    requires p in op.after.pools && (op.scenario.Decommission? ==> op.targetId != Some(p.id))
    requires || (p.status != Active && p.status != Ready) || p.decommissionStatus != NoWord || p.decommission.Some?
             || (p.rebalanceStatus != NoWord && p.rebalanceStatus != Completed)
    ensures !Succeeded(op, w)
  {
    hide Succeeded;
    if Succeeded(op, w) {
      SuccessIsOfOneScenario(op, w);
      if op.scenario.Decommission? {
        DecommissionConservesPools(op, w);
      } else {
        RebalanceConservesPools(op, w);
      }
    }
  }

  lemma SuccessIsOfOneScenario(op: Operation, w: Window)
    requires Succeeded(op, w)
    ensures op.scenario.Decommission? || op.scenario.Rebalance?
    ensures op.scenario.Decommission? ==> op.targetId.Some? && op.targetExpression.Some?
  {
    hide TerminalResponseMatches, TimingValid, TargetsMatch, SameRuntimeIdentity, SnapshotsPlaced, DecommissionPoolsAccepted, RebalancePoolsAccepted;
  }

  /** The pools part of a successful decommission, exactly: the one participant
      moved something, nothing but the target was lost, what is still listed of it
      is this operation's clean end, and every other pool is idle. */
  lemma DecommissionPoolsAcceptedIff(op: Operation, target: nat, expression: string)
    requires WireInvariants(op.before.pools) && WireInvariants(op.after.pools)
    ensures DecommissionPoolsAccepted(op, target, expression) <==>
              && op.participants == [target] && op.versions == None
              && ((op.objects.Some? && op.objects.value > 0) || (op.bytes.Some? && op.bytes.value > 0))
              && (exists r :: r in op.requests && r.verb == Post && r.path == PoolsDecommission && AsksFor(r, target))
              && (exists r :: r in op.requests && r.verb == Get && r.path == DecommissionStatus && AsksFor(r, target))
              && LosesAtMost((target, expression), Identities(op.before.pools), Identities(op.after.pools))
              && (forall p :: p in op.after.pools ==>
                    if p.id == target then CarriesOperation(p, op)
                    else && (p.status == Active || p.status == Ready) && p.decommissionStatus == NoWord && p.decommission == None
                         && (p.rebalanceStatus == NoWord || p.rebalanceStatus == Completed))
  {
    hide WireInvariants, LosesAtMost, Identities, CarriesOperation, IsDecommissionedTarget, SamePool;
    var before, after := op.before.pools, op.after.pools;
    UniqueIds(before);
    if DecommissionPoolsAccepted(op, target, expression) {
      OnlyTheTargetMayLeave(before, after, target, expression);
      RetainedTargetIsThisOperation(op, target, expression);
    }
    if LosesAtMost((target, expression), Identities(before), Identities(after)) {
      LossReads(before, after, target, expression);
    }
    forall p ensures CarriesOperation(p, op) <==> IsDecommissionedTarget(p, op.operationId, op.objects, op.bytes) {
      CleanEndReads(p, op);
    }
  }

  /** The request's query names this pool by id and nothing else. */
  ghost predicate AsksFor(r: Request, target: nat) {
    r.query == map["pool" := Decimal(target), "by-id" := "true"]
  }

  lemma CleanEndReads(p: AdminPool, op: Operation)
    ensures CarriesOperation(p, op) <==> IsDecommissionedTarget(p, op.operationId, op.objects, op.bytes)
  {
    hide IsBlank;
  }

  /** Losing at most the target, pool by pool. */
  lemma LossReads(before: seq<AdminPool>, after: seq<AdminPool>, target: nat, expression: string)
    requires LosesAtMost((target, expression), Identities(before), Identities(after))
    requires forall x, y :: x in before && y in before && x.id == y.id ==> x == y
    ensures exists p :: p in before && p.id == target && p.expression == expression
    ensures forall a :: a in after ==> exists b :: b in before && SamePool(b, a)
    ensures forall b :: b in before && b.id != target ==> exists a :: a in after && SamePool(a, b)
    ensures forall a :: a in after && a.id == target ==> a.expression == expression
  {
    hide Identities;
    InIdentities(before, (target, expression));
    forall a | a in after ensures exists b :: b in before && SamePool(b, a) {
      InIdentities(after, Identity(a));
      InIdentities(before, Identity(a));
      assert Identity(a) in Identities(after);
    }
    forall b | b in before && b.id != target ensures exists a :: a in after && SamePool(a, b) {
      InIdentities(before, Identity(b));
      InIdentities(after, Identity(b));
      assert Identity(b) in Identities(before);
    }
  }

  lemma UniqueIds(pools: seq<AdminPool>)
    requires WireInvariants(pools)
    ensures forall x, y :: x in pools && y in pools && x.id == y.id ==> x == y
  {
    FullCardinalityIffDistinct(Map(PoolId, pools));
    SameIdSamePool(pools);
  }

  /** After a successful rebalance the (id, cmdline) sets are equal and every pool is idle. */
  lemma RebalanceConservesPools(op: Operation, w: Window)
    requires Succeeded(op, w) && op.scenario.Rebalance?
    ensures Identities(op.before.pools) == Identities(op.after.pools)
    ensures forall p :: p in op.after.pools ==>
              && (p.status == Active || p.status == Ready) && p.decommissionStatus == NoWord && p.decommission == None
              && (p.rebalanceStatus == NoWord || p.rebalanceStatus == Completed)
  {
    hide TerminalResponseMatches, TimingValid, TargetsMatch, SameRuntimeIdentity, ListRequestValid, WireInvariants, StartBeforeStatus;
    hide IsBlank, PoolIsIdle, CaptureWithin, Identities;
    RebalancePoolsConserved(op);
    IdleReads(op.after.pools, None);
  }

  lemma RebalancePoolsConserved(op: Operation)
    requires RebalancePoolsAccepted(op)
    requires WireInvariants(op.before.pools) && WireInvariants(op.after.pools)
    ensures Identities(op.before.pools) == Identities(op.after.pools)
  {
    hide WireInvariants, PoolIsIdle, IsStart, IsStatus, ExactQuery, Identities, Elements, Positive;
    var before, after := op.before.pools, op.after.pools;
    IdentityCount(before);
    IdentityCount(after);
    forall id | id in Identities(before) ensures id in Identities(after) {
      InIdentities(before, id);
      InIdentities(after, id);
      var b :| b in before && Identity(b) == id;
      var a :| a in after && SamePool(a, b);
      assert Identity(a) == id;
    }
    SameSizeSubsetIsEqual(Identities(before), Identities(after));
  }

  /** The pools part of a successful rebalance, exactly. */
  lemma RebalancePoolsAcceptedIff(op: Operation)
    requires WireInvariants(op.before.pools) && WireInvariants(op.after.pools)
    ensures RebalancePoolsAccepted(op) <==>
              && op.targetId == None && op.targetExpression == None
              && (|| (op.objects.Some? && op.objects.value > 0) || (op.versions.Some? && op.versions.value > 0)
                  || (op.bytes.Some? && op.bytes.value > 0))
              && op.participants != [] && Distinct(op.participants)
              && (forall id :: id in op.participants ==> exists p :: p in op.before.pools && p.id == id)
              && (exists r :: r in op.requests && r.verb == Post && r.path == RebalanceStart && r.query == map[])
              && (exists r :: r in op.requests && r.verb == Get && r.path == RebalanceStatusPath && r.query == map[])
              && Identities(op.before.pools) == Identities(op.after.pools)
              && (forall p :: p in op.after.pools ==>
                    && (p.status == Active || p.status == Ready) && p.decommissionStatus == NoWord && p.decommission == None
                    && (p.rebalanceStatus == NoWord || p.rebalanceStatus == Completed))
  {
    hide WireInvariants, Identities, SamePool, Elements;
    FullCardinalityIffDistinct(op.participants);
    if RebalancePoolsAccepted(op) {
      RebalancePoolsConserved(op);
    }
    if Identities(op.before.pools) == Identities(op.after.pools) {
      SameIdentitiesRead(op.before.pools, op.after.pools);
    }
  }

  lemma SameIdentitiesRead(before: seq<AdminPool>, after: seq<AdminPool>)
    requires WireInvariants(before) && WireInvariants(after) && Identities(before) == Identities(after)
    ensures |before| == |after| && forall b :: b in before ==> exists a :: a in after && SamePool(a, b)
  {
    hide WireInvariants, Identities;
    IdentityCount(before);
    IdentityCount(after);
    forall b | b in before ensures exists a :: a in after && SamePool(a, b) {
      InIdentities(before, Identity(b));
      InIdentities(after, Identity(b));
      assert Identity(b) in Identities(before);
    }
  }

  lemma IdentityCount(pools: seq<AdminPool>)
    requires WireInvariants(pools)
    ensures |Identities(pools)| == |pools|
  {
    FullCardinalityIffDistinct(Map(PoolId, pools));
    var ids := Map(Identity, pools);
    forall i, j | 0 <= i < j < |ids| ensures ids[i] != ids[j] {
      assert Map(PoolId, pools)[i] != Map(PoolId, pools)[j];
    }
    FullCardinalityIffDistinct(ids);
  }
}
