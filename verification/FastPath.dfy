/** An operation that ends before it is seen running is let through only when
    its receipts prove the overlap and every request carries the very endpoint
    capture of the topology proof (verify_completed_overlap_inner in
    src/fault/admin_decommission.rs and src/fault/admin_rebalance.rs).  A driver
    captures the endpoint anew for every request, so this never happens. */
module FastPath {
  import opened Basics
  import opened Receipts
  import opened TopologyProof
  import opened StatusProjection
  import opened History
  import opened Evidence
  import opened Builders
  import opened Overlap

  /** The receipts and the proof pass verify_completed_overlap_inner. */
  predicate FastPathAccepts(proof: Proof, scenario: Scenario, operationId: string, requests: seq<Request>,
                            progress: seq<Sample>, w: WorkloadReceipt) {
    && Satisfied(proof)
    && (scenario.Decommission? ==> proof.targetId.Some? && proof.targetExpression.Some?)
    && (forall q :: q in requests ==> q.target == proof.runtime.target && Successful(q.status))
    && FromReceipts(proof.attempt, operationId, if scenario.Decommission? then proof.targetExpression else None,
                    scenario, requests, progress, w).Some?
  }

  lemma FastPathFrom(proof: Proof, operationId: string, requests: seq<Request>, progress: seq<Sample>, w: WorkloadReceipt)
    requires Satisfied(proof) && proof.targetId.Some? && proof.targetExpression.Some?
    requires forall q :: q in requests ==> q.target == proof.runtime.target && Successful(q.status)
    requires FromReceipts(proof.attempt, operationId, proof.targetExpression, Decommission, requests, progress, w).Some?
    ensures FastPathAccepts(proof, Decommission, operationId, requests, progress, w)
  {
    hide Satisfied, FromReceipts, OverlapValid, Successful;
  }

  lemma FastPathHasAStart(proof: Proof, scenario: Scenario, operationId: string, requests: seq<Request>,
                          progress: seq<Sample>, w: WorkloadReceipt)
    requires FastPathAccepts(proof, scenario, operationId, requests, progress, w)
    ensures StartIndex(requests, scenario) < |requests| && AfterLast(StatusTest(scenario), requests) > 0
    ensures StartOf(requests, scenario) in requests && StartOf(requests, scenario).target == proof.runtime.target
  {
    hide Satisfied, OverlapValid, FirstIndex, AfterLast, DerivedEvidence, OverlappingStatusIds;
  }

  /** What the path demands: a satisfied proof, every request answered with a 2xx
      through the proof's own capture, and receipts that prove the overlap. */
  lemma FastPathReads(proof: Proof, scenario: Scenario, operationId: string, requests: seq<Request>,
                      progress: seq<Sample>, w: WorkloadReceipt)
    ensures FastPathAccepts(proof, scenario, operationId, requests, progress, w) <==>
              && Satisfied(proof) && (scenario.Decommission? ==> proof.targetId.Some? && proof.targetExpression.Some?)
              && (forall q :: q in requests ==> q.target == proof.runtime.target && 200 <= q.status <= 299)
              && ProvesOverlap(proof.attempt, operationId, if scenario.Decommission? then proof.targetExpression else None,
                               scenario, requests, progress, w)
  {
    hide Satisfied, FromReceipts, OverlapValid, ProvesOverlap;
    EvidenceIsBuiltIffProven(proof.attempt, operationId, if scenario.Decommission? then proof.targetExpression else None,
                             scenario, requests, progress, w);
  }

  // ------------------------------------------------ the exact condition

  predicate CapturedTogether(a: Endpoint, b: Endpoint) {
    && a.portForwardStartedAt == b.portForwardStartedAt
    && a.clusterStartedAt == b.clusterStartedAt && a.clusterObservedAt == b.clusterObservedAt
    && a.serviceStartedAt == b.serviceStartedAt && a.serviceObservedAt == b.serviceObservedAt
    && a.tenantStartedAt == b.tenantStartedAt && a.tenantObservedAt == b.tenantObservedAt
    && a.tenantBody == b.tenantBody
  }

  /** Of two targets with one runtime identity, the test for equality asks only
      whether they are one capture. */
  lemma SameTargetIffOneCapture(a: Target, b: Target)
    requires SameRuntimeIdentity(a, b)
    ensures a == b <==> CapturedTogether(a.endpoint, b.endpoint)
  {
    hide IsBlank;
  }

  /** Of receipts that prove the overlap, from one runtime, the path lets through
      exactly those whose every request is the proof's own capture. */
  lemma FastPathIffOneCapture(proof: Proof, scenario: Scenario, operationId: string, requests: seq<Request>,
                              progress: seq<Sample>, w: WorkloadReceipt)
    requires Satisfied(proof) && (scenario.Decommission? ==> proof.targetId.Some? && proof.targetExpression.Some?)
    requires forall q :: q in requests ==> SameRuntimeIdentity(proof.runtime.target, q.target) && Successful(q.status)
    requires ProvesOverlap(proof.attempt, operationId, if scenario.Decommission? then proof.targetExpression else None,
                           scenario, requests, progress, w)
    ensures FastPathAccepts(proof, scenario, operationId, requests, progress, w) <==>
            forall q :: q in requests ==> CapturedTogether(proof.runtime.target.endpoint, q.target.endpoint)
  {
    hide Satisfied, SameRuntimeIdentity, ProvesOverlap, FromReceipts, OverlapValid, CapturedTogether, Successful;
    EvidenceIsBuiltIffProven(proof.attempt, operationId, if scenario.Decommission? then proof.targetExpression else None,
                             scenario, requests, progress, w);
    forall q | q in requests
      ensures proof.runtime.target == q.target <==> CapturedTogether(proof.runtime.target.endpoint, q.target.endpoint)
    {
      SameTargetIffOneCapture(proof.runtime.target, q.target);
    }
  }

  /** The receipts of a snapshot, from the runtime probe to pools/list, in the order they are made. */
  predicate SnapshotInOrder(proof: Proof, s: Snapshot) {
    && BindingValid(proof.runtime) && s.runtime == proof.runtime
    && s.runtime.observedAt <= s.tenantGet.startedAt <= s.tenantGet.observedAt
    && s.tenantGet.observedAt < s.request.startedAt <= s.request.observedAt
  }

  lemma FreshSnapshotIsInOrder(proof: Proof, s: Snapshot, now: u64)
    requires PreStartSnapshotFresh(proof, s, now) && s.runtime.observedAt <= s.tenantGet.startedAt
    ensures SnapshotInOrder(proof, s)
  {
    hide RuntimePoolsValid, TopologyCapacity, TenantGetMatches, ReceiptMatchesProof, IsBlank, SameRuntimeIdentity, EndpointForTenant, EndpointValid, PlannedTarget;
  }

  /** Captured after the snapshot, a request never carries the proof's capture. */
  lemma LaterCaptureDiffers(proof: Proof, s: Snapshot, r: Request)
    requires SnapshotInOrder(proof, s) && s.request.observedAt <= r.target.endpoint.clusterStartedAt
    ensures proof.runtime.target.endpoint.clusterStartedAt < r.target.endpoint.clusterStartedAt
    ensures r.target != proof.runtime.target
  {
    hide IsBlank;
  }

  /** So a fast-completed operation is refused, unless the start was captured
      before the pools/list receipt that it followed: the wall clock stepped back. */
  lemma FastPathNeedsAnEarlierCapture(proof: Proof, s: Snapshot, scenario: Scenario, operationId: string,
                                      requests: seq<Request>, progress: seq<Sample>, w: WorkloadReceipt)
    requires SnapshotInOrder(proof, s)
    requires FastPathAccepts(proof, scenario, operationId, requests, progress, w)
    ensures StartIndex(requests, scenario) < |requests|
    ensures StartOf(requests, scenario).target.endpoint.clusterStartedAt == proof.runtime.target.endpoint.clusterStartedAt
    ensures StartOf(requests, scenario).target.endpoint.clusterStartedAt < s.request.observedAt
  {
    hide FastPathAccepts, SnapshotInOrder, FirstIndex;
    FastPathHasAStart(proof, scenario, operationId, requests, progress, w);
    var start := StartOf(requests, scenario);
    if s.request.observedAt <= start.target.endpoint.clusterStartedAt {
      LaterCaptureDiffers(proof, s, start);
    }
  }

  // ------------------------------------------- and it would lead nowhere

  /** The pre-start check already excludes the proof's own capture from the start. */
  lemma PreStartCheckExcludesTheProofsCapture(proof: Proof, s: Snapshot, requests: seq<Request>)
    requires PreStartSnapshotValid(proof, s, requests) && RequestValid(StartOf(requests, proof.scenario))
    ensures StartOf(requests, proof.scenario).target != proof.runtime.target
  {
    hide RuntimePoolsValid, TopologyCapacity, TenantGetMatches, IsBlank, SameRuntimeIdentity, StartBeforeStatus, PlannedTarget, ReceiptMatchesProof;
  }

  /** No fast-path transcript is ever built into an operation. */
  lemma FastPathIsNeverBuilt(proof: Proof, operationId: string, requests: seq<Request>, progress: seq<Sample>, w: WorkloadReceipt,
                             before: Snapshot, after: Snapshot, d: DecommissionPoolStatus, r: RebalanceStatus, startId: string)
    requires FastPathAccepts(proof, proof.scenario, operationId, requests, progress, w)
    requires forall q :: q in requests ==> RequestValid(q)
    ensures FromDecommission(proof, before, d, requests, after).None?
    ensures FromRebalance(proof, before, startId, r, requests, after).None?
  {
    hide FastPathAccepts, PreStartSnapshotValid, PostSnapshotValid, Satisfied, RequestValid, FirstIndex, CoversPools, Totals;
    FastPathHasAStart(proof, proof.scenario, operationId, requests, progress, w);
    if PreStartSnapshotValid(proof, before, requests) {
      PreStartCheckExcludesTheProofsCapture(proof, before, requests);
    }
  }

  /** Requests that all carry one and the same endpoint capture cannot be timed
      in order unless there is only one: each must be captured after its predecessor. */
  lemma SharedCaptureTimesOneRequest(requests: seq<Request>, target: Target, w: Window)
    requires TimingValid(requests, w) && forall q :: q in requests ==> q.target == target
    ensures |requests| == 1
  {
    hide EndpointValid, CaptureWithin;
    if |requests| > 1 {
      assert requests[0] in requests && requests[1] in requests;
      assert RequestInWindow(requests[0], w) && Precedes(requests[0], requests[1]);
      CaptureEndsAfterItBegins(requests[0], w);
    }
  }

  lemma CaptureEndsAfterItBegins(r: Request, w: Window)
    requires RequestInWindow(r, w)
    ensures r.target.endpoint.clusterStartedAt <= r.observedAt
  {
  }

  /** An operation proven by the fast-completion path, which demands that every
      request carry exactly the capture of the proof, is refused by the success
      check on the same transcript, whatever the window. */
  lemma FastPathNeverVerifies(e: OverlapEvidence, scenario: Scenario, requests: seq<Request>, progress: seq<Sample>,
                              history: seq<Record>, target: Target, w: Window, op: Operation)
    requires OverlapValid(e, scenario, requests, progress, history)
    requires forall q :: q in requests ==> q.target == target
    requires op.requests == requests
    ensures !TimingValid(requests, w) && !Succeeded(op, w)
  {
    hide HistoryValid, TimingValid, ReceiptsBound, OneSuccessfulRun, OverlappingStatusIds;
    StartIsNotStatus(requests, scenario);
    if TimingValid(requests, w) {
      SharedCaptureTimesOneRequest(requests, target, w);
    }
  }

  lemma StartIsNotStatus(requests: seq<Request>, scenario: Scenario)
    requires StartIndex(requests, scenario) < |requests| && AfterLast(StatusTest(scenario), requests) > 0
    ensures |requests| > 1
  {
    assert StartTest(scenario)(StartOf(requests, scenario)) && StatusTest(scenario)(TerminalOf(requests, scenario));
  }
}
