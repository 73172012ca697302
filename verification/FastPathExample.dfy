/** A live decommission that ends at its first status, beside a workload: its
    receipts prove the overlap, and the fast-completion path refuses it. */
module FastPathExample {
  import opened Basics
  import opened Receipts
  import opened TopologyProof
  import opened StatusProjection
  import opened Evidence
  import opened Overlap
  import opened Polling
  import opened FastPath
  import opened ExampleCluster
  import Run = DecommissionExample
  import Work = OverlapExample

  const PROGRESS := [Run.SAMPLE]

  lemma ReceiptsAreBound()
    ensures OneSuccessfulRun(Run.ATTEMPT, Run.ID, PROGRESS) && ReceiptsBound(Decommission, Run.REQUESTS, PROGRESS)
  {
    hide Polled, ReceiptsBound, IsStatus, RequestAt, OperationId, AttemptOf;
    Run.RunIsPolled();
    Run.StartIsNoStatus();
  }

  lemma TerminalIsBeside()
    ensures Run.TERMINAL in Run.REQUESTS && StatusBeside(Decommission, Run.TERMINAL, 10, 40)
  {
    hide Cmdline, Decimal;
  }

  lemma OperationIsBeside()
    ensures StartIndex(Run.REQUESTS, Decommission) == 0 && AfterLast(StatusTest(Decommission), Run.REQUESTS) == 2
    ensures StartOf(Run.REQUESTS, Decommission).observedAt == 16 && TerminalOf(Run.REQUESTS, Decommission).observedAt == 21
    ensures OperationBeside(Run.ATTEMPT, Run.ID, Run.PROOF.targetExpression, Decommission, Run.REQUESTS, PROGRESS, Work.Workload())
  {
    hide IsBlank, Present, OneSuccessfulRun, ReceiptsBound, TimingValid, TargetsMatch, StartBeforeStatus, FirstIndex, AfterLast;
    hide OperationId, Cmdline, Probe, Work.Recorded, StatusBeside, Run.RequestsWith, Run.StatusWith;
    Run.TranscriptIsValid(Complete);
    ReceiptsAreBound();
    Work.NamesAreThere();
    TerminalIsBeside();
  }

  lemma OverlapIsProven()
    ensures ProvesOverlap(Run.PROOF.attempt, Run.ID, Run.PROOF.targetExpression, Decommission, Run.REQUESTS, PROGRESS, Work.Workload())
  {
    hide OperationBeside, WorkloadBeside, FirstIndex, AfterLast, OperationId, Cmdline, Work.Workload, Run.RequestsWith;
    OperationIsBeside();
    Work.WorkloadIsBeside(16, 21);
  }

  lemma CapturesFollowTheSnapshot()
    ensures SnapshotInOrder(Run.PROOF, Run.BEFORE)
    ensures forall q :: q in Run.REQUESTS ==> Run.BEFORE.request.observedAt <= q.target.endpoint.clusterStartedAt
  {
    hide IsBlank, Cmdline;
    ReceiptsAreValid(2, true, Get, PoolsList, map[], PoolsBody(POOLS));
  }

  /** The receipts of this accepted run prove the overlap, all of it from one
      runtime and captured as live adapters do, and the path refuses it. */
  lemma LiveRunIsRefused()
    ensures Satisfied(Run.PROOF)
    ensures ProvesOverlap(Run.PROOF.attempt, Run.ID, Run.PROOF.targetExpression, Decommission, Run.REQUESTS, PROGRESS, Work.Workload())
    ensures TargetsMatch(Run.REQUESTS, Run.PROOF.runtime.target)
    ensures SnapshotInOrder(Run.PROOF, Run.BEFORE)
    ensures forall q :: q in Run.REQUESTS ==> Run.BEFORE.request.observedAt <= q.target.endpoint.clusterStartedAt && Successful(q.status)
    ensures !FastPathAccepts(Run.PROOF, Decommission, Run.ID, Run.REQUESTS, PROGRESS, Work.Workload())
  {
    hide Satisfied, ProvesOverlap, TargetsMatch, SnapshotInOrder, FastPathAccepts, TimingValid, StartBeforeStatus, Probe, Run.RequestsWith;
    hide OperationId, Cmdline, Work.Workload, FirstIndex, AfterLast, Successful;
    ProofIsBuilt(Decommission);
    OverlapIsProven();
    Run.TranscriptIsValid(Complete);
    Run.OperationFields();
    CapturesFollowTheSnapshot();
    if FastPathAccepts(Run.PROOF, Decommission, Run.ID, Run.REQUESTS, PROGRESS, Work.Workload()) {
      FastPathHasAStart(Run.PROOF, Decommission, Run.ID, Run.REQUESTS, PROGRESS, Work.Workload());
      FastPathNeedsAnEarlierCapture(Run.PROOF, Run.BEFORE, Decommission, Run.ID, Run.REQUESTS, PROGRESS, Work.Workload());
    }
  }
}
