/** A complete rebalance run that every acceptance check lets through, so that
    the guarantees proved of accepted artifacts are about something. */
module Example {
  import opened Basics
  import opened Receipts
  import opened TopologyProof
  import opened StatusProjection
  import opened Evidence
  import opened Progress
  import opened ExampleCluster

  const ATTEMPT := AttemptOf(Rebalance)
  const PROOF := ProofOf(Rebalance)

  const MOVED := RebalancePoolStatus(0, Completed, false, None, 0, 0, None, Some(RebalanceProgress(1, 1, 1)))
  const UNMOVED := RebalancePoolStatus(1, NoWord, false, None, 0, 0, None, None)
  const STATUS := RebalanceStatus("op", [MOVED, UNMOVED], None, [], [], false)

  const START := RequestAt(12, true, Post, RebalanceStart, map[], RebalanceStartBody("op"))
  const TERMINAL := RequestAt(17, false, Get, RebalanceStatusPath, map[], RebalanceBody(STATUS))
  const REQUESTS := [START, TERMINAL]

  const OPERATION := Operation(ATTEMPT, Rebalance, "op", None, None, Completed, true, false, false, [0],
                               Some(1), Some(1), Some(1), REQUESTS, SnapshotAt(2, ATTEMPT, POOLS), SnapshotAt(22, ATTEMPT, POOLS))

  lemma TranscriptIsValid()
    ensures TimingValid(REQUESTS, WINDOW) && TargetsMatch(REQUESTS, Probe(2).target)
    ensures StartBeforeStatus(REQUESTS, Rebalance, None)
    ensures StartOf(REQUESTS, Rebalance) == START && TerminalOf(REQUESTS, Rebalance) == TERMINAL
    ensures forall r :: r in REQUESTS ==> !IsCancelOrStop(r) && Successful(r.status)
  {
    hide RequestInWindow, SameRuntimeIdentity;
    ReceiptsAreValid(12, true, Post, RebalanceStart, map[], RebalanceStartBody("op"));
    ReceiptsAreValid(17, false, Get, RebalanceStatusPath, map[], RebalanceBody(STATUS));
    assert StartTest(Rebalance)(REQUESTS[0]) && StatusTest(Rebalance)(REQUESTS[1]);
    assert FirstIndex(StartTest(Rebalance), REQUESTS) == 0;
    assert AfterLast(StatusTest(Rebalance), REQUESTS) == 2;
  }

  lemma StatusProjects()
    ensures ProjectRebalance(STATUS, POOLS, false) == Some(RebalanceProjection(Completed, true, false, false, [0], 1, 1, 1))
  {
    hide Cmdline;
    assert Map(StatusPoolId, STATUS.pools) == [0, 1];
    FullCardinalityIffDistinct(Map(StatusPoolId, STATUS.pools));
    assert STATUS.pools[1..] == [UNMOVED] && [UNMOVED][1..] == [];
    assert Totals([], 1, 1, 1) == Some((1, 1, 1));
    assert Totals([UNMOVED], 1, 1, 1) == Some((1, 1, 1));
    assert Totals(STATUS.pools, 0, 0, 0) == Some((1, 1, 1));
    var test := ParticipantTest();
    assert test(MOVED) && !test(UNMOVED);
    assert Filter(test, []) == [] && Filter(test, [UNMOVED]) == [];
    assert Filter(test, STATUS.pools) == [MOVED];
    assert Map(StatusPoolId, [MOVED]) == [0];
    assert MOVED in STATUS.pools && Participates(MOVED);
  }

  lemma SnapshotsAreTimed()
    ensures BeforeSnapshotInWindow(OPERATION, WINDOW, START.startedAt)
    ensures AfterSnapshotInWindow(OPERATION, WINDOW, TERMINAL.observedAt)
  {
    hide IsBlank, TimingValid, ListRequestValid, WireInvariants, Cmdline, TenantGetMatches;
    PoolsAreConsistent();
    SnapshotIsValid(2, Rebalance, POOLS);
    SnapshotIsValid(22, Rebalance, POOLS);
  }

  lemma TerminalMatches()
    ensures TerminalResponseMatches(OPERATION)
  {
    hide TimingValid, TargetsMatch, StartBeforeStatus, ProjectRebalance, Cmdline;
    TranscriptIsValid();
    StatusProjects();
  }

  lemma OperationSucceeds()
    ensures Succeeded(OPERATION, WINDOW)
  {
    hide IsBlank, TimingValid, TargetsMatch, SameRuntimeIdentity, StartBeforeStatus, TerminalResponseMatches;
    hide BeforeSnapshotInWindow, AfterSnapshotInWindow, RebalancePoolsAccepted, RequestInWindow, BindingValid;
    ShortNamesAreNotBlank();
    CaseNamesAreNotBlank(Rebalance, REBALANCE_CASE);
    TranscriptIsValid();
    TerminalMatches();
    SnapshotsAreTimed();
    ReceiptsAreValid(22, true, Get, PoolsList, map[], PoolsBody(POOLS));
    PoolsAccepted();
  }

  lemma PoolsKeepTheirIdentity(pools: seq<AdminPool>)
    ensures forall b :: b in pools ==> exists a :: a in pools && SamePool(a, b)
  {
    forall b | b in pools ensures exists a :: a in pools && SamePool(a, b) {
      assert SamePool(b, b);
    }
  }

  lemma TranscriptAddressesTheCluster()
    ensures exists r :: r in REQUESTS && IsStart(Rebalance, r) && ExactQuery(r, Rebalance, None)
    ensures exists r :: r in REQUESTS && IsStatus(Rebalance, r) && ExactQuery(r, Rebalance, None)
  {
    assert START in REQUESTS && IsStart(Rebalance, START) && ExactQuery(START, Rebalance, None);
    assert TERMINAL in REQUESTS && IsStatus(Rebalance, TERMINAL) && ExactQuery(TERMINAL, Rebalance, None);
  }

  lemma PoolsAccepted()
    ensures RebalancePoolsAccepted(OPERATION)
  {
    hide Cmdline, PoolIsIdle, SamePool, IsStart, IsStatus, ExactQuery, RequestAt, WireInvariants, Elements;
    PoolsAreConsistent();
    PoolsKeepTheirIdentity(POOLS);
    TranscriptAddressesTheCluster();
    FullCardinalityIffDistinct(OPERATION.participants);
    assert POOLS[0] in POOLS && POOLS[0].id == 0;
  }

  lemma SnapshotsFitTheProof()
    ensures PreStartSnapshotValid(PROOF, OPERATION.before, REQUESTS) && PostSnapshotValid(PROOF, OPERATION.after, REQUESTS)
  {
    hide IsBlank, Satisfied, ListRequestValid, TimingValid, SameRuntimeIdentity, StartBeforeStatus, TenantGetMatches;
    hide RuntimePoolsValid, WireInvariants, Cmdline, BindingValid, RequestInWindow, TopologyCapacity;
    ProofIsBuilt(Rebalance);
    TranscriptIsValid();
    PoolsAreBound();
    PoolsAreConsistent();
    SnapshotIsValid(2, Rebalance, POOLS);
    SnapshotIsValid(22, Rebalance, POOLS);
    ReceiptsAreValid(22, true, Get, PoolsList, map[], PoolsBody(POOLS));
    CapacityFits();
  }

  /** The run is accepted: the chronology and conservation laws are not empty. */
  lemma RunIsAccepted()
    ensures ArtifactsAccepted(Rebalance, ATTEMPT, WINDOW, PROOF, OPERATION)
  {
    hide IsBlank, Satisfied, Succeeded, SameRuntimeIdentity, TimingValid, StartBeforeStatus, TargetsMatch;
    hide PreStartSnapshotValid, PostSnapshotValid, RequestInWindow, BindingValid;
    ShortNamesAreNotBlank();
    CaseNamesAreNotBlank(Rebalance, REBALANCE_CASE);
    ProofIsBuilt(Rebalance);
    OperationSucceeds();
    TranscriptIsValid();
    SnapshotsFitTheProof();
    ReceiptsAreValid(22, true, Get, PoolsList, map[], PoolsBody(POOLS));
  }

  const SAMPLE := Sample(ATTEMPT, "op", "r", 21, Completed, true, false, false, Some(1), Some(1), Some(1))

  lemma OneStatus()
    ensures Statuses(OPERATION) == [TERMINAL]
  {
    var test := StatusTest(Rebalance);
    assert !test(START) && test(TERMINAL);
    assert REQUESTS[1..] == [TERMINAL] && [TERMINAL][1..] == [];
    assert Filter(test, []) == [] && Filter(test, [TERMINAL]) == [TERMINAL];
  }

  lemma SampleIsTheReceipts()
    ensures SampleOf(OPERATION, TERMINAL, SAMPLE)
  {
    hide IsBlank, ProjectRebalance, Cmdline;
    ShortNamesAreNotBlank();
    StatusProjects();
  }

  /** Its one status receipt and the sample of it are a faithful progress run. */
  lemma RunIsFaithful()
    ensures FaithfulRun(OPERATION, [SAMPLE], WINDOW)
  {
    hide TimingValid, TargetsMatch, StartBeforeStatus, SampleOf, Statuses, Cmdline, RequestAt;
    TranscriptIsValid();
    OneStatus();
    SampleIsTheReceipts();
  }
}
