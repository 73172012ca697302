/** What accepted artifacts say, in the fields of the receipts themselves: every
    request, both snapshots and the terminal answer of an operation that passes
    the offline checks of src/fault/admin_topology.rs. */
module Acceptance {
  import opened Basics
  import opened Receipts
  import opened TopologyProof
  import opened StatusProjection
  import opened Evidence
  import opened Preflight

  // ------------------------------------------------------ the operation

  /** A successful operation is named, of its scenario's own case, and says of
      itself that it completed and neither failed nor was stopped. */
  lemma SuccessReads(op: Operation, w: Window)
    requires Succeeded(op, w)
    ensures 0 < w.startedAt <= w.evaluatedAt && !IsBlank(op.operationId)
    ensures !IsBlank(op.attempt.runId) && !IsBlank(op.attempt.tenantUid)
    ensures op.scenario.Decommission? || op.scenario.Rebalance?
    ensures op.attempt.caseName == (if op.scenario.Decommission? then "fault" + "_admin_decommission_preserves_object_model"
                                    else "fault" + "_admin_rebalance_preserves_object_model")
    ensures op.completed && !op.failed && !op.canceledOrStopped
    ensures op.terminalState == if op.scenario.Decommission? then Complete else Completed
    ensures op.targetId.Some? == op.targetExpression.Some? == op.scenario.Decommission?
  {
    hide SameRuntimeIdentity, TargetsMatch, TimingValid, SnapshotsPlaced, TerminalResponseMatches, IsBlank, CaseMatches;
    hide DecommissionPoolsAccepted;
    CaseReads(op.scenario, op.attempt.caseName);
  }

  // ------------------------------------------------------- its requests

  function StartPath(scenario: Scenario): Path {
    if scenario.Decommission? then PoolsDecommission else RebalanceStart
  }

  function StatusPath(scenario: Scenario): Path {
    if scenario.Decommission? then DecommissionStatus else RebalanceStatusPath
  }

  function RollbackPath(scenario: Scenario): Path {
    if scenario.Decommission? then PoolsCancel else RebalanceStop
  }

  ghost predicate QueryIs(scenario: Scenario, target: Option<nat>, r: Request) {
    if scenario.Decommission? then target.Some? && r.query == map["pool" := Decimal(target.value), "by-id" := "true"] else r.query == map[]
  }

  /** The k-th request is the one start, every other one a status sent after the
      answer to it or a cancel or stop, all with the scenario's query. */
  ghost predicate StartsAt(requests: seq<Request>, scenario: Scenario, target: Option<nat>, k: nat) {
    && k < |requests| && requests[k].verb == Post && requests[k].path == StartPath(scenario)
    && (forall i :: 0 <= i < |requests| ==>
          && QueryIs(scenario, target, requests[i])
          && (|| i == k
              || (requests[i].verb == Get && requests[i].path == StatusPath(scenario) && i > k && requests[i].startedAt >= requests[k].observedAt)
              || (requests[i].verb == Post && requests[i].path == RollbackPath(scenario))))
    && (exists i :: 0 <= i < |requests| && requests[i].verb == Get && requests[i].path == StatusPath(scenario))
  }

  /** The transcript check, with or without a cancel or stop in it. */
  lemma TranscriptAcceptedIff(requests: seq<Request>, scenario: Scenario, target: Option<nat>)
    ensures StartBeforeStatus(requests, scenario, target) <==>
              (scenario.Decommission? || scenario.Rebalance?) && exists k: nat :: StartsAt(requests, scenario, target, k)
  {
    hide QueryIs, ExactQuery;
    if scenario.Decommission? || scenario.Rebalance? {
      forall r ensures ExactQuery(r, scenario, target) <==> QueryIs(scenario, target, r) {
        QueryReads(scenario, target, r);
      }
      if StartBeforeStatus(requests, scenario, target) {
        TranscriptStartsAt(requests, scenario, target);
      }
      forall k: nat | StartsAt(requests, scenario, target, k) ensures StartBeforeStatus(requests, scenario, target) {
        StartingAtIsAccepted(requests, scenario, target, k);
      }
    }
  }

  lemma QueryReads(scenario: Scenario, target: Option<nat>, r: Request)
    requires scenario.Decommission? || scenario.Rebalance?
    ensures ExactQuery(r, scenario, target) <==> QueryIs(scenario, target, r)
  {
  }

  lemma TranscriptStartsAt(requests: seq<Request>, scenario: Scenario, target: Option<nat>)
    requires StartBeforeStatus(requests, scenario, target)
    requires forall r :: ExactQuery(r, scenario, target) <==> QueryIs(scenario, target, r)
    ensures StartsAt(requests, scenario, target, StartIndex(requests, scenario))
  {
    hide QueryIs, ExactQuery;
    var k := StartIndex(requests, scenario);
    assert StartTest(scenario)(requests[k]);
    forall i | 0 <= i < |requests|
      ensures QueryIs(scenario, target, requests[i])
      ensures || i == k
              || (requests[i].verb == Get && requests[i].path == StatusPath(scenario) && i > k && requests[i].startedAt >= requests[k].observedAt)
              || (requests[i].verb == Post && requests[i].path == RollbackPath(scenario))
    {
      assert requests[i] in requests;
      var isStart := StartTest(scenario)(requests[i]);
    }
    var last := AfterLast(StatusTest(scenario), requests) - 1;
    assert StatusTest(scenario)(requests[last]);
  }

  lemma StartingAtIsAccepted(requests: seq<Request>, scenario: Scenario, target: Option<nat>, k: nat)
    requires StartsAt(requests, scenario, target, k) && (scenario.Decommission? || scenario.Rebalance?)
    requires forall r :: ExactQuery(r, scenario, target) <==> QueryIs(scenario, target, r)
    ensures StartBeforeStatus(requests, scenario, target)
  {
    hide QueryIs, ExactQuery;
    assert StartTest(scenario)(requests[k]);
    assert StartIndex(requests, scenario) == k by {
      var first := StartIndex(requests, scenario);
      assert StartTest(scenario)(requests[first]);
    }
    var i :| 0 <= i < |requests| && requests[i].verb == Get && requests[i].path == StatusPath(scenario);
    assert StatusTest(scenario)(requests[i]);
  }

  /** The transcript of a successful operation: one POST of the start, then GETs of
      the status, each with exactly the scenario's query and answered with a 2xx. */
  lemma SuccessfulTranscriptReads(op: Operation, w: Window)
    requires Succeeded(op, w)
    ensures |op.requests| >= 2
    ensures op.requests[0].verb == Post && op.requests[0].path == StartPath(op.scenario)
    ensures forall i :: 1 <= i < |op.requests| ==> op.requests[i].verb == Get && op.requests[i].path == StatusPath(op.scenario)
    ensures forall r :: r in op.requests ==>
              && 200 <= r.status <= 299
              && (op.scenario.Decommission? ==> op.targetId.Some? && r.query == map["pool" := Decimal(op.targetId.value), "by-id" := "true"])
              && (op.scenario.Rebalance? ==> r.query == map[])
  {
    hide TargetsMatch, TimingValid, BeforeSnapshotInWindow, AfterSnapshotInWindow, TerminalResponseMatches, IsBlank, PoolsAccepted, SameRuntimeIdentity;
    TranscriptIsStartThenStatuses(op.requests, op.scenario, op.targetId);
  }

  /** Every request lies in the window, from its endpoint capture to its answer,
      and its own runtime probe, which the start must have, in between. */
  lemma SuccessfulRequestIsTimely(op: Operation, w: Window, r: Request)
    requires Succeeded(op, w) && r in op.requests
    ensures w.startedAt <= r.target.endpoint.clusterStartedAt && r.observedAt <= w.evaluatedAt
    ensures Nondecreasing(CaptureTimes(r.target.endpoint) + [r.startedAt, r.observedAt]) && r.target.endpoint.portForwardStartedAt > 0
    ensures r.verb == Post ==> r.runtimeProbe.Some?
    ensures r.runtimeProbe.Some? ==>
              && var probe := r.runtimeProbe.value;
              && probe.target == r.target && 200 <= probe.status <= 299 && probe.body == InfoBody(r.target.deploymentId)
              && Nondecreasing(CaptureTimes(r.target.endpoint) + [probe.startedAt, probe.observedAt, r.startedAt, r.observedAt])
    ensures r.sha == if r.body.None? then None else Some(Digest(r.body.value))
  {
    hide Succeeded, RequestValid, BindingValid, EndpointValid, Nondecreasing;
    SuccessIsTimed(op, w);
    assert RequestInWindow(r, w);
    RequestReads(r);
    EndpointReads(r.target.endpoint);
    if r.runtimeProbe.Some? {
      BindingReads(r.runtimeProbe.value);
    }
  }

  lemma SuccessIsTimed(op: Operation, w: Window)
    requires Succeeded(op, w)
    ensures TimingValid(op.requests, w) && TargetsMatch(op.requests, op.before.runtime.target) && SnapshotsPlaced(op, w)
    ensures SameRuntimeIdentity(op.before.runtime.target, op.after.runtime.target)
  {
    hide TimingValid, TargetsMatch, SnapshotsPlaced, SameRuntimeIdentity, TerminalResponseMatches, PoolsAccepted, IsBlank;
  }

  /** All of it is one runtime: the requests and the later snapshot name the
      endpoint, the Tenant spec and the deployment of the earlier snapshot. */
  lemma SuccessIsOfOneRuntime(op: Operation, w: Window)
    requires Succeeded(op, w)
    ensures forall target: Target :: target == op.after.runtime.target || (exists r :: r in op.requests && r.target == target) ==>
              && target.endpoint.identity == op.before.runtime.target.endpoint.identity
              && target.deploymentId == op.before.runtime.target.deploymentId
              && target.endpoint.tenantBody.TenantBody? && op.before.runtime.target.endpoint.tenantBody.TenantBody?
              && target.endpoint.tenantBody.tenant.spec == op.before.runtime.target.endpoint.tenantBody.tenant.spec
              && target.endpoint.identity.remotePort == 9000
  {
    hide Succeeded, TimingValid, SnapshotsPlaced, SameRuntimeIdentity, EndpointValid;
    SuccessIsTimed(op, w);
    forall target: Target | target == op.after.runtime.target || (exists r :: r in op.requests && r.target == target)
      ensures SameRuntimeIdentity(op.before.runtime.target, target)
      ensures target.endpoint.tenantBody.TenantBody? && op.before.runtime.target.endpoint.tenantBody.TenantBody?
      ensures target.endpoint.identity == op.before.runtime.target.endpoint.identity
      ensures target.deploymentId == op.before.runtime.target.deploymentId
      ensures target.endpoint.tenantBody.tenant.spec == op.before.runtime.target.endpoint.tenantBody.tenant.spec
      ensures target.endpoint.identity.remotePort == 9000
    {
      RuntimeReads(op.before.runtime.target, target);
      EndpointReads(target.endpoint);
    }
  }

  // ------------------------------------------------------ its snapshots

  /** Both snapshots are of this attempt, each the captured answer of a pools/list
      that followed its own probe and Tenant GET, with pools that are told apart
      and whose sizes add up. */
  lemma SuccessfulSnapshotReads(op: Operation, w: Window, s: Snapshot)
    requires Succeeded(op, w) && (s == op.before || s == op.after)
    ensures s.attempt == op.attempt && s.attempt.tenantUid == s.tenantGet.uid
    ensures w.startedAt <= s.runtime.startedAt <= s.runtime.observedAt < s.tenantGet.startedAt <= s.tenantGet.observedAt
    ensures s.tenantGet.observedAt < s.request.startedAt <= s.request.observedAt == s.observedAt <= w.evaluatedAt
    ensures s.request.verb == Get && s.request.path == PoolsList && s.request.query == map[] && 200 <= s.request.status <= 299
    ensures s.request.body == Some(PoolsBody(s.pools)) && s.request.sha == Some(Digest(PoolsBody(s.pools)))
    ensures s.pools != [] && forall i, j :: 0 <= i < j < |s.pools| ==>
              s.pools[i].id != s.pools[j].id && Trim(s.pools[i].expression) != Trim(s.pools[j].expression)
    ensures forall p :: p in s.pools ==>
              Trim(p.expression) != "" && p.currentSize + p.usedSize == p.totalSize > 0 && RatioIsRight(p)
  {
    hide Succeeded, ListRequestValid, WireInvariants, RatioIsRight, StartBeforeStatus, Trim;
    SuccessIsTimed(op, w);
    SnapshotsAreOrdered(op, w);
    ListReads(s);
    WiresRead(s.pools);
  }

  lemma SnapshotsAreOrdered(op: Operation, w: Window)
    requires SnapshotsPlaced(op, w)
    ensures forall s :: s == op.before || s == op.after ==>
              && ListRequestValid(s) && WireInvariants(s.pools) && s.attempt == op.attempt
              && w.startedAt <= s.runtime.startedAt <= s.runtime.observedAt < s.tenantGet.startedAt <= s.tenantGet.observedAt
              && s.tenantGet.observedAt < s.request.startedAt <= s.request.observedAt <= w.evaluatedAt
  {
    hide WireInvariants, IsBlank, EndpointValid, SameRuntimeIdentity, EndpointForTenant, Captured, StartBeforeStatus, CaptureWithin;
    assert RequestInWindow(op.before.request, w) by { assert op.before.request in [op.before.request]; }
    assert RequestInWindow(op.after.request, w) by { assert op.after.request in [op.after.request]; }
  }

  // ------------------------------------------------ its terminal answer

  /** A successful decommission is what its last answer says: the target, complete
      and decommissioned, with nothing failed, canceled or left over, and the
      identity and counters of the operation are the answer's. */
  lemma SuccessfulDecommissionReads(op: Operation, w: Window)
    requires Succeeded(op, w) && op.scenario.Decommission?
    ensures op.requests != [] && op.targetId.Some?
    ensures var last := op.requests[|op.requests| - 1];
            && last.body.Some? && last.body.value.DecommissionBody? && last.sha == Some(Digest(last.body.value))
            && var s := last.body.value.decommission;
            && Some(s.id) == op.targetId && Some(s.expression) == op.targetExpression
            && s.status == Complete && s.poolStatus == Decommissioned && s.decommission.Some?
            && var d := s.decommission.value;
            && d.complete && !d.queued && !d.failed && !d.canceled && d.objectsFailed == 0 && d.bytesFailed == 0 && d.unresolvedEntries == 0
            && d.startTime.Some? && op.operationId == "decommission:" + Decimal(s.id) + ":" + d.startTime.value
            && op.objects == Some(d.objects) && op.bytes == Some(d.bytes) && op.versions == None && (d.objects > 0 || d.bytes > 0)
            && op.participants == [s.id]
  {
    hide Succeeded, TerminalResponseMatches, StartBeforeStatus, IsBlank, ProjectDecommission;
    SuccessfulTerminal(op, w);
    SuccessReads(op, w);
    TerminalDecommissionReads(op);
  }

  lemma SuccessfulTerminal(op: Operation, w: Window)
    requires Succeeded(op, w)
    ensures TerminalResponseMatches(op) && StartBeforeStatus(op.requests, op.scenario, op.targetId)
    ensures |op.requests| >= 2 && StartOf(op.requests, op.scenario) == op.requests[0]
    ensures TerminalOf(op.requests, op.scenario) == op.requests[|op.requests| - 1]
  {
    hide TargetsMatch, TimingValid, BeforeSnapshotInWindow, AfterSnapshotInWindow, TerminalResponseMatches, IsBlank, PoolsAccepted, SameRuntimeIdentity;
    hide StartBeforeStatus;
    TranscriptIsStartThenStatuses(op.requests, op.scenario, op.targetId);
  }

  lemma TerminalDecommissionReads(op: Operation)
    requires TerminalResponseMatches(op) && op.scenario.Decommission?
    ensures op.targetId.Some? && AfterLast(StatusTest(Decommission), op.requests) > 0
    ensures var last := TerminalOf(op.requests, Decommission);
            && last.body.Some? && last.body.value.DecommissionBody? && last.sha == Some(Digest(last.body.value))
            && var s := last.body.value.decommission;
            && Some(s.id) == op.targetId && Some(s.expression) == op.targetExpression && op.terminalState == s.status && s.decommission.Some?
            && var d := s.decommission.value;
            && (op.failed <==> d.failed || d.objectsFailed > 0 || d.bytesFailed > 0 || s.status == Failed)
            && (op.canceledOrStopped <==> d.canceled || s.status == Canceled)
            && (op.completed <==> s.status == Complete && s.poolStatus == Decommissioned && (d.objects > 0 || d.bytes > 0))
            && (s.status == Complete ==>
                  && d.complete && !d.queued && d.unresolvedEntries == 0
                  && d.startTime.Some? && op.operationId == "decommission:" + Decimal(s.id) + ":" + d.startTime.value)
            && op.objects == Some(d.objects) && op.bytes == Some(d.bytes) && op.versions == None && op.participants == [s.id]
  {
    hide ProjectDecommission, AfterLast, IsBlank;
    var s := TerminalOf(op.requests, Decommission).body.value.decommission;
    DecommissionProjectionReads(s, op.targetId.value, op.targetExpression.value, op.operationId);
  }

  /** A successful rebalance is the one its start answer named, and what its last
      answer says: every mover completed, nothing failed, warned or stopped, and
      the counters are the sums over the movers. */
  lemma SuccessfulRebalanceReads(op: Operation, w: Window)
    requires Succeeded(op, w) && op.scenario.Rebalance?
    ensures |op.requests| >= 2
    ensures op.requests[0].body == Some(RebalanceStartBody(op.operationId)) && op.requests[0].sha == Some(Digest(RebalanceStartBody(op.operationId)))
    ensures var last := op.requests[|op.requests| - 1];
            && last.body.Some? && last.body.value.RebalanceBody? && last.sha == Some(Digest(last.body.value))
            && var s := last.body.value.rebalance;
            && s.id == op.operationId && CleanRebalance(s)
            && op.objects == Some(SumBy(Objects, s.pools)) && op.versions == Some(SumBy(Versions, s.pools)) && op.bytes == Some(SumBy(Bytes, s.pools))
            && (forall id :: id in op.participants <==> exists x :: x in s.pools && x.id == id && x.progress.Some?)
            && |s.pools| == |op.before.pools| && (forall p :: p in op.before.pools ==> exists x :: x in s.pools && x.id == p.id)
  {
    hide Succeeded, TerminalResponseMatches, StartBeforeStatus, IsBlank, SumBy, CleanRebalance;
    SuccessfulTerminal(op, w);
    SuccessReads(op, w);
    TerminalRebalanceReads(op);
  }

  /** Something moved, every pool has completed or stands idle outside the rebalance, and no field shows a failure or a stop. */
  ghost predicate CleanRebalance(s: RebalanceStatus) {
    && (forall x :: x in s.pools ==>
          && (x.status == Completed || (x.progress.None? && x.status == NoWord)) && !x.stopping
          && (x.lastError.Some? ==> x.lastError.value == "") && (x.lastWarning.Some? ==> x.lastWarning.value == "")
          && x.warningCount == 0 && x.warningEntries == 0)
    && (exists x :: x in s.pools && x.progress.Some?
          && (x.progress.value.objects > 0 || x.progress.value.versions > 0 || x.progress.value.bytes > 0))
    && s.failedPeers == [] && s.reloadFailedPeers == [] && s.stoppedAt == None && !s.pendingTerminalReload
  }

  lemma TerminalRebalanceReads(op: Operation)
    requires TerminalResponseMatches(op) && op.scenario.Rebalance?
    ensures StartIndex(op.requests, Rebalance) < |op.requests| && AfterLast(StatusTest(Rebalance), op.requests) > 0
    ensures StartOf(op.requests, Rebalance).body == Some(RebalanceStartBody(op.operationId))
    ensures StartOf(op.requests, Rebalance).sha == Some(Digest(RebalanceStartBody(op.operationId)))
    ensures var last := TerminalOf(op.requests, Rebalance);
            && last.body.Some? && last.body.value.RebalanceBody? && last.sha == Some(Digest(last.body.value))
            && var s := last.body.value.rebalance;
            && s.id == op.operationId && (op.completed ==> CleanRebalance(s))
            && op.objects == Some(SumBy(Objects, s.pools)) && op.versions == Some(SumBy(Versions, s.pools)) && op.bytes == Some(SumBy(Bytes, s.pools))
            && (forall id :: id in op.participants <==> exists x :: x in s.pools && x.id == id && x.progress.Some?)
            && |s.pools| == |op.before.pools| && (forall p :: p in op.before.pools ==> exists x :: x in s.pools && x.id == p.id)
  {
    hide ProjectRebalance, AfterLast, FirstIndex, SumBy, CleanRebalance;
    var s := TerminalOf(op.requests, Rebalance).body.value.rebalance;
    var stop := exists r :: r in op.requests && IsCancelOrStop(r);
    RebalanceCompletionReads(s, op.before.pools, stop);
    RebalanceIsProjectedWhen(s, op.before.pools, stop);
    if op.completed {
      CompletedIsClean(s, op.before.pools, stop);
    }
  }

  lemma CompletedIsClean(s: RebalanceStatus, pools: seq<AdminPool>, controlRequested: bool)
    requires ProjectRebalance(s, pools, controlRequested).Some? && ProjectRebalance(s, pools, controlRequested).value.completed
    ensures CleanRebalance(s) && !controlRequested
  {
    hide ProjectRebalance;
    RebalanceFailureReads(s, pools, controlRequested);
    RebalanceCompletionReads(s, pools, controlRequested);
  }

  // ----------------------------------------- its snapshots and the proof

  /** A Tenant GET of the proof's own Tenant, whose declared pools still bind to the pools the proof lists. */
  ghost predicate TenantUnchanged(g: TenantGet, proof: Proof) {
    && g.body.TenantBody? && proof.tenantPools != []
    && g.namespace == proof.namespace && g.name == proof.tenant && g.uid == proof.attempt.tenantUid
    && g.body.tenant.name == proof.tenant && g.body.tenant.namespace == proof.namespace && g.body.tenant.uid == proof.attempt.tenantUid
    && (forall t :: t in proof.tenantPools ==> t.clusterDomain == proof.tenantPools[0].clusterDomain)
    && BindPools(g.body.tenant, proof.tenantPools[0].clusterDomain, proof.runtimePools) == Some(proof.tenantPools)
  }

  lemma TenantMatchReads(s: Snapshot, proof: Proof)
    requires TenantGetMatches(s, proof)
    ensures TenantUnchanged(s.tenantGet, proof)
  {
    hide BindPools;
    var domains := Map(DomainOf, proof.tenantPools);
    assert domains[0] in Elements(domains);
    forall t | t in proof.tenantPools ensures t.clusterDomain == proof.tenantPools[0].clusterDomain {
      var i :| 0 <= i < |proof.tenantPools| && proof.tenantPools[i] == t;
      assert domains[i] in Elements(domains);
      OnlyMember(Elements(domains), domains[0], domains[i]);
    }
  }

  lemma OnlyMember<T>(s: set<T>, a: T, b: T)
    requires |s| == 1 && a in s && b in s
    ensures a == b
  {
    assert |s - {a}| == 0;
    assert b !in s - {a};
  }

  /** The snapshot a start relies on: of this proof and this attempt, of an idle
      cluster with room for the operation, and at most five seconds old. */
  lemma FreshSnapshotReads(proof: Proof, s: Snapshot, evaluatedAt: u64)
    requires PreStartSnapshotFresh(proof, s, evaluatedAt)
    ensures Satisfied(proof) && ListRequestValid(s) && s.attempt == proof.attempt && s.runtime == proof.runtime && TenantUnchanged(s.tenantGet, proof)
    ensures 0 <= evaluatedAt - s.observedAt <= 5000 && 0 <= evaluatedAt - s.tenantGet.observedAt <= 5000
    ensures |s.pools| == 2 && forall p :: p in s.pools ==>
              && (p.status == Active || p.status == Ready) && p.decommissionStatus == NoWord && p.decommission == None
              && (p.rebalanceStatus == NoWord || p.rebalanceStatus == Completed)
    ensures forall t :: t in proof.tenantPools ==> exists p :: p in s.pools && p.id == t.runtimePoolId && Trim(p.expression) == t.expectedEndpointSet
    ensures var fit := TopologyCapacity(proof.targetId, s.pools, proof.workloadMax); fit.Fits? && fit.targetExpression == proof.targetExpression
  {
    hide Satisfied, ListRequestValid, TenantUnchanged, ReceiptMatchesProof, TopologyCapacity, RatioIsRight, Trim, WireInvariants, TenantPoolComplete;
    TenantMatchReads(s, proof);
    ValidPoolsRead(proof.tenantPools, s.pools);
    forall t | t in proof.tenantPools ensures exists p :: p in s.pools && p.id == t.runtimePoolId && Trim(p.expression) == t.expectedEndpointSet {
      var p :| p in s.pools && Binds(t, p);
    }
  }

  /** It is read in order before the start: probe, Tenant GET, pools/list, and only
      then the capture, the probe and the start request itself. */
  lemma PreStartReads(proof: Proof, s: Snapshot, requests: seq<Request>)
    requires PreStartSnapshotValid(proof, s, requests)
    ensures StartIndex(requests, proof.scenario) < |requests|
    ensures var start := StartOf(requests, proof.scenario);
            && PreStartSnapshotFresh(proof, s, start.startedAt) && start.runtimeProbe.Some?
            && s.runtime.observedAt < s.tenantGet.startedAt && s.tenantGet.observedAt < s.request.startedAt
            && s.request.observedAt < start.runtimeProbe.value.target.endpoint.clusterStartedAt
            && start.runtimeProbe.value.observedAt <= start.startedAt
            && s.tenantGet.observedAt < start.startedAt
    ensures TargetsMatch(requests, proof.runtime.target) && StartBeforeStatus(requests, proof.scenario, proof.targetId)
  {
    hide PreStartSnapshotFresh, StartBeforeStatus, TargetsMatch;
    TranscriptHasEnds(requests, proof.scenario, proof.targetId);
  }

  /** The later snapshot is read after the terminal answer, in order, of the same
      runtime, attempt and Tenant. */
  lemma PostReads(proof: Proof, s: Snapshot, requests: seq<Request>)
    requires PostSnapshotValid(proof, s, requests)
    ensures AfterLast(StatusTest(proof.scenario), requests) > 0
    ensures TerminalOf(requests, proof.scenario).observedAt < s.runtime.target.endpoint.clusterStartedAt <= s.runtime.startedAt
    ensures s.runtime.startedAt <= s.runtime.observedAt < s.tenantGet.startedAt <= s.tenantGet.observedAt < s.request.startedAt
    ensures s.request.startedAt <= s.request.observedAt == s.observedAt
    ensures s.attempt == proof.attempt && SameRuntimeIdentity(proof.runtime.target, s.runtime.target) && TenantUnchanged(s.tenantGet, proof)
    ensures ListRequestValid(s) && WireInvariants(s.pools)
    ensures TargetsMatch(requests, proof.runtime.target) && StartBeforeStatus(requests, proof.scenario, proof.targetId)
  {
    hide StartBeforeStatus, TargetsMatch, ListRequestValid, WireInvariants, SameRuntimeIdentity, TenantGetMatches, TenantUnchanged;
    hide TenantGetValid, BindingValid, RequestValid, AfterLast;
    TranscriptHasEnds(requests, proof.scenario, proof.targetId);
    TenantMatchReads(s, proof);
    ListReads(s);
    TenantGetReads(s.tenantGet);
    BindingReads(s.runtime);
    RequestReads(s.request);
    EndpointReads(s.runtime.target.endpoint);
    BindingIsOrdered(s.runtime);
    RequestIsOrdered(s.request);
  }

  lemma TranscriptHasEnds(requests: seq<Request>, scenario: Scenario, target: Option<nat>)
    requires StartBeforeStatus(requests, scenario, target)
    ensures StartIndex(requests, scenario) < |requests| && AfterLast(StatusTest(scenario), requests) > 0
  {
  }

  lemma BindingIsOrdered(b: RuntimeBinding)
    requires BindingValid(b)
    ensures b.target.endpoint.clusterStartedAt <= b.startedAt <= b.observedAt
  {
    hide IsBlank;
  }

  lemma RequestIsOrdered(r: Request)
    requires RequestValid(r)
    ensures r.startedAt <= r.observedAt
  {
    hide IsBlank, EndpointValid, BindingValid;
  }

  /** Accepted artifacts are of one attempt, and their proof is no one's word: it
      is what building anew from the captured Tenant and the listed pools yields. */
  lemma AcceptedArtifactsRead(scenario: Scenario, expected: Attempt, w: Window, proof: Proof, op: Operation)
    requires ArtifactsAccepted(scenario, expected, w, proof, op)
    ensures Succeeded(op, w) && op.scenario == scenario && op.attempt == expected
    ensures proof.scenario == scenario && proof.attempt == expected && proof.runtime == op.before.runtime
    ensures proof.tenantPools != [] && proof.runtime.target.endpoint.tenantBody.TenantBody?
    ensures Build(scenario, proof.runtime.target.endpoint.tenantBody.tenant, proof.runtimePools, ContextOf(proof)) == Some(proof)
    ensures PreStartSnapshotValid(proof, op.before, op.requests) && PostSnapshotValid(proof, op.after, op.requests)
    ensures scenario.Decommission? ==> op.targetId == proof.targetId && op.targetExpression == proof.targetExpression
  {
    hide Succeeded, Satisfied, PreStartSnapshotValid, PostSnapshotValid, TargetsMatch, SameRuntimeIdentity, IsBlank, Build;
    SatisfiedIffRebuilt(proof);
  }
}
