/** A complete decommission run, accepted live and offline, and the same run
    with a status word that only the builder overlooks. */
module DecommissionExample {
  import opened Basics
  import opened Receipts
  import opened TopologyProof
  import opened StatusProjection
  import opened Evidence
  import opened Progress
  import opened Builders
  import opened Overlap
  import opened Polling
  import opened Handover
  import opened ExampleCluster

  const ATTEMPT := AttemptOf(Decommission)
  const PROOF := ProofOf(Decommission)
  const QUERY: map<string, string> := map["pool" := Decimal(1), "by-id" := "true"]
  const ID := OperationId(1, "s")

  const COUNTERS := DecommissionProgress(Some("s"), true, false, false, false, 1, 0, 1, 0, 0)

  function StatusWith(word: Word): DecommissionPoolStatus {
    DecommissionPoolStatus(1, Cmdline(TARGET), word, Decommissioned, Some(COUNTERS))
  }

  const START := RequestAt(12, true, Post, PoolsDecommission, QUERY, OpaqueBody("ok"))

  function TerminalWith(word: Word): Request {
    RequestAt(17, false, Get, DecommissionStatus, QUERY, DecommissionBody(StatusWith(word)))
  }

  function RequestsWith(word: Word): seq<Request> {
    [START, TerminalWith(word)]
  }

  const SURVIVORS := [Pool(0, "a")]
  const BEFORE := SnapshotAt(2, ATTEMPT, POOLS)
  const AFTER := SnapshotAt(22, ATTEMPT, SURVIVORS)

  function OperationWith(word: Word): Operation {
    Operation(ATTEMPT, Decommission, ID, Some(1), Some(Cmdline(TARGET)), word, true, false, false, [1],
              Some(1), None, Some(1), RequestsWith(word), BEFORE, AFTER)
  }

  lemma TranscriptIsValid(word: Word)
    ensures TimingValid(RequestsWith(word), WINDOW) && TargetsMatch(RequestsWith(word), Probe(2).target)
    ensures StartBeforeStatus(RequestsWith(word), Decommission, Some(1))
    ensures StartIndex(RequestsWith(word), Decommission) == 0 && AfterLast(StatusTest(Decommission), RequestsWith(word)) == 2
    ensures StartOf(RequestsWith(word), Decommission) == START && TerminalOf(RequestsWith(word), Decommission) == TerminalWith(word)
    ensures forall r :: r in RequestsWith(word) ==> !IsCancelOrStop(r) && Successful(r.status)
  {
    hide RequestInWindow, SameRuntimeIdentity, Cmdline, Decimal;
    ReceiptsAreValid(12, true, Post, PoolsDecommission, QUERY, OpaqueBody("ok"));
    ReceiptsAreValid(17, false, Get, DecommissionStatus, QUERY, DecommissionBody(StatusWith(word)));
    var requests := RequestsWith(word);
    assert StartTest(Decommission)(requests[0]) && StatusTest(Decommission)(requests[1]);
    assert FirstIndex(StartTest(Decommission), requests) == 0;
    assert AfterLast(StatusTest(Decommission), requests) == 2;
  }

  lemma SurvivorsAreConsistent()
    ensures WireInvariants(SURVIVORS) && forall p :: p in SURVIVORS ==> PoolIsIdle(p)
  {
    hide Cmdline, Trim, IsBlank;
    ShortNamesAreNotBlank();
    CmdlineShape("a");
    FullCardinalityIffDistinct(Map(PoolId, SURVIVORS));
    FullCardinalityIffDistinct(Map(PoolExpression, SURVIVORS));
  }

  lemma SnapshotsFitTheProof(word: Word)
    ensures PreStartSnapshotValid(PROOF, BEFORE, RequestsWith(word)) && PostSnapshotValid(PROOF, AFTER, RequestsWith(word))
  {
    hide IsBlank, Satisfied, ListRequestValid, TimingValid, SameRuntimeIdentity, StartBeforeStatus, TenantGetMatches;
    hide RuntimePoolsValid, WireInvariants, Cmdline, BindingValid, RequestInWindow, TopologyCapacity, StatusWith;
    ProofIsBuilt(Decommission);
    TranscriptIsValid(word);
    PoolsAreBound();
    SurvivorsAreConsistent();
    SnapshotIsValid(2, Decommission, POOLS);
    SnapshotIsValid(22, Decommission, SURVIVORS);
    ReceiptsAreValid(22, true, Get, PoolsList, map[], PoolsBody(SURVIVORS));
    CapacityFits();
  }

  lemma NothingCanceled(word: Word)
    ensures !ControlRequested(RequestsWith(word))
  {
    hide TimingValid, TargetsMatch, StartBeforeStatus, RequestAt;
    TranscriptIsValid(word);
  }

  /** The builder accepts the receipts, whether the last status says complete or running. */
  lemma OperationIsBuilt(word: Word)
    requires word.Complete? || word.Running?
    ensures FromDecommission(PROOF, BEFORE, StatusWith(word), RequestsWith(word), AFTER) == Some(OperationWith(word))
  {
    hide IsBlank, Satisfied, PreStartSnapshotValid, PostSnapshotValid, Cmdline, ControlRequested, RequestsWith, SnapshotAt, Probe, CaseOf, OperationId;
    ProofIsBuilt(Decommission);
    ShortNamesAreNotBlank();
    SnapshotsFitTheProof(word);
    NothingCanceled(word);
  }

  lemma WordProjects(word: Word)
    requires word.Complete? || word.Running?
    ensures ProjectDecommission(StatusWith(word), 1, Cmdline(TARGET), ID) ==
            if word.Complete? then Some(DecommissionProjection(Complete, true, false, false, 1, 1)) else None
    ensures StartTime(COUNTERS) == Some("s")
  {
    hide IsBlank, Cmdline, OperationId;
    ShortNamesAreNotBlank();
  }

  lemma TerminalReads(word: Word)
    requires word.Complete? || word.Running?
    ensures TerminalResponseMatches(OperationWith(word)) <==> word.Complete?
  {
    hide TimingValid, TargetsMatch, StartBeforeStatus, Cmdline, ProjectDecommission, RequestAt, Captured, FirstIndex, AfterLast, SnapshotAt, OperationId;
    TranscriptIsValid(word);
    TerminalIsCaptured(word);
    WordProjects(word);
  }

  lemma TerminalIsCaptured(word: Word)
    ensures Captured(TerminalWith(word)) == Some(DecommissionBody(StatusWith(word)))
  {
    hide Cmdline;
  }

  /** The gap of the public constructor: given a status that says running while
      its flags say complete, it builds a completed operation, which the offline
      check refuses. */
  lemma BuilderIgnoresTheStateWord()
    ensures Satisfied(PROOF)
    ensures var op := FromDecommission(PROOF, BEFORE, StatusWith(Running), RequestsWith(Running), AFTER);
            op.Some? && op.value.completed && !TerminalResponseMatches(op.value)
    ensures Captured(TerminalOf(RequestsWith(Running), Decommission)) == Some(DecommissionBody(StatusWith(Running)))
    ensures !ControlRequested(RequestsWith(Running))
  {
    hide Satisfied, FromDecommission, TerminalResponseMatches, ControlRequested, TimingValid, TargetsMatch, StartBeforeStatus, Cmdline;
    hide RequestAt, Captured, RequestsWith, TerminalWith, TerminalOf, StatusWith;
    ProofIsBuilt(Decommission);
    TranscriptIsValid(Running);
    TerminalIsCaptured(Running);
    OperationIsBuilt(Running);
    TerminalReads(Running);
    NothingCanceled(Running);
  }

  // --------------------------------------------------- the accepted run

  const OPERATION := OperationWith(Complete)
  const REQUESTS := RequestsWith(Complete)
  const TERMINAL := TerminalWith(Complete)

  lemma SnapshotsAreTimed()
    ensures BeforeSnapshotInWindow(OPERATION, WINDOW, START.startedAt)
    ensures AfterSnapshotInWindow(OPERATION, WINDOW, TERMINAL.observedAt)
  {
    hide IsBlank, TimingValid, ListRequestValid, WireInvariants, Cmdline, TenantGetMatches;
    PoolsAreConsistent();
    SurvivorsAreConsistent();
    SnapshotIsValid(2, Decommission, POOLS);
    SnapshotIsValid(22, Decommission, SURVIVORS);
  }

  lemma TranscriptAddressesTheTarget()
    ensures exists r :: r in REQUESTS && IsStart(Decommission, r) && ExactQuery(r, Decommission, Some(1))
    ensures exists r :: r in REQUESTS && IsStatus(Decommission, r) && ExactQuery(r, Decommission, Some(1))
  {
    hide Cmdline, Decimal;
    assert START in REQUESTS && IsStart(Decommission, START) && ExactQuery(START, Decommission, Some(1));
    assert TERMINAL in REQUESTS && IsStatus(Decommission, TERMINAL) && ExactQuery(TERMINAL, Decommission, Some(1));
  }

  lemma PoolsAccepted()
    ensures DecommissionPoolsAccepted(OPERATION, 1, Cmdline(TARGET))
  {
    hide Cmdline, PoolIsIdle, IsStart, IsStatus, ExactQuery, RequestAt, WireInvariants, IsDecommissionedTarget;
    SurvivorsAreConsistent();
    TranscriptAddressesTheTarget();
    assert POOLS[1] in POOLS && POOLS[1].id == 1 && POOLS[1].expression == Cmdline(TARGET);
    assert POOLS[0] == SURVIVORS[0] && POOLS[0] in POOLS && SURVIVORS[0] in SURVIVORS && SamePool(POOLS[0], SURVIVORS[0]);
  }

  lemma OperationSucceeds()
    ensures Succeeded(OPERATION, WINDOW)
  {
    hide IsBlank, TimingValid, TargetsMatch, SameRuntimeIdentity, StartBeforeStatus, TerminalResponseMatches, Cmdline;
    hide BeforeSnapshotInWindow, AfterSnapshotInWindow, DecommissionPoolsAccepted, RequestInWindow, BindingValid;
    IdentityIsNotBlank();
    CaseNamesAreNotBlank(Decommission, DECOMMISSION_CASE);
    TranscriptIsValid(Complete);
    TerminalReads(Complete);
    SnapshotsAreTimed();
    ReceiptsAreValid(22, true, Get, PoolsList, map[], PoolsBody(SURVIVORS));
    PoolsAccepted();
  }

  lemma IdentityIsNotBlank()
    ensures !IsBlank(ID) && !IsBlank("run") && !IsBlank("u") && Cmdline(TARGET) != ""
  {
    hide IsBlank;
    assert ID[0] == 'd';
    BeginsVisibly(ID);
    ShortNamesAreNotBlank();
    CmdlineShape(TARGET);
  }

  lemma OperationFields()
    ensures OPERATION.scenario == Decommission && OPERATION.attempt == ATTEMPT && OPERATION.requests == REQUESTS
    ensures OPERATION.before == BEFORE && OPERATION.after == AFTER
    ensures OPERATION.targetId == PROOF.targetId && OPERATION.targetExpression == PROOF.targetExpression
    ensures PROOF.scenario == Decommission && PROOF.attempt == ATTEMPT && PROOF.runtime == Probe(2)
    ensures BEFORE.runtime == Probe(2) && AFTER.runtime == Probe(22)
  {
    hide Cmdline, Probe, RequestAt;
  }

  lemma AttemptIsValid()
    ensures AttemptValid(ATTEMPT) && CaseMatches(Decommission, ATTEMPT.caseName)
  {
    hide IsBlank;
    ShortNamesAreNotBlank();
    CaseNamesAreNotBlank(Decommission, DECOMMISSION_CASE);
  }

  /** The run is accepted, so conservation of pools is about something. */
  lemma RunIsAccepted()
    ensures ArtifactsAccepted(Decommission, ATTEMPT, WINDOW, PROOF, OPERATION)
  {
    hide Satisfied, Succeeded, SameRuntimeIdentity, TimingValid, StartBeforeStatus, TargetsMatch, AttemptValid, CaseMatches;
    hide PreStartSnapshotValid, PostSnapshotValid, RequestInWindow, BindingValid, OperationWith, ProofOf, AttemptOf, SnapshotAt, Probe, RequestsWith;
    OperationFields();
    AttemptIsValid();
    ProofIsBuilt(Decommission);
    OperationSucceeds();
    TranscriptIsValid(Complete);
    SnapshotsFitTheProof(Complete);
    ReceiptsAreValid(22, true, Get, PoolsList, map[], PoolsBody(SURVIVORS));
  }

  // ------------------------------------------------------ and its poll

  const CALL := Call(StatusWith(Complete), TERMINAL)
  const SAMPLE := Sample(ATTEMPT, ID, "r", 21, Complete, true, false, false, Some(1), None, Some(1))
  const STARTED := Transcript(None, [START], [])
  const POLLED := Transcript(Some(ID), REQUESTS, [SAMPLE])

  lemma ReceiptIsValid()
    ensures DecommissionReceiptValid(PROOF, CALL)
  {
    hide IsBlank, Satisfied, Cmdline, RequestInWindow, Decimal, RequestValid, SameRuntimeIdentity, BindingValid, StatusWith;
    ProofIsBuilt(Decommission);
    ShortNamesAreNotBlank();
    ReceiptsAreValid(17, false, Get, DecommissionStatus, QUERY, DecommissionBody(StatusWith(Complete)));
    RequestInWindowIsValid(TERMINAL);
  }

  lemma CallIsSampled()
    ensures DecommissionSample(PROOF, ID, CALL) == Some(SAMPLE)
    ensures RevealedId(PROOF, CALL) == Some(ID) && SelfConsistent(PROOF, CALL)
  {
    hide DecommissionReceiptValid, ProjectDecommission, OperationId, StartTime, Cmdline;
    WordProjects(Complete);
    ReceiptIsValid();
  }

  lemma CallIsTracked()
    ensures Tracks(PROOF, STARTED, POLLED, [CALL])
  {
    hide DecommissionSample, SelfConsistent, RevealedId, Cmdline, RequestAt, StatusWith;
    CallIsSampled();
    assert [CALL][..0] == [];
    assert IdInForce(PROOF, None, []) == None;
    assert IdInForce(PROOF, None, [CALL]) == RevealedId(PROOF, CALL);
  }

  lemma RequestInWindowIsValid(r: Request)
    requires RequestInWindow(r, WINDOW)
    ensures RequestValid(r)
  {
    hide RequestValid;
  }

  lemma RunIsPolled()
    ensures Polled(PROOF, STARTED, POLLED, [CALL], []) && PollSucceeded(PROOF, STARTED, POLLED, [CALL], [], StatusWith(Complete))
    ensures CleanRun(REQUESTS, [CALL], WINDOW)
  {
    hide Tracks, TimingValid, TargetsMatch, StartBeforeStatus, RequestAt, Cmdline, ControlRequested, ReceiptsBound, IsStatus, OperationId, ProofOf, AttemptOf;
    CallIsTracked();
    TranscriptIsValid(Complete);
    NothingCanceled(Complete);
    assert [CALL] + [] == [CALL];
    assert REQUESTS == [START] + Map(RequestOfCall, [CALL]);
    StartIsNoStatus();
    TrackedReceiptsAreBound(PROOF, STARTED, POLLED, [CALL]);
  }

  lemma StartIsNoStatus()
    ensures forall r :: r in STARTED.requests ==> !IsStatus(Decommission, r)
  {
  }

  /** Polled live and built, the run passes the offline progress check. */
  lemma RunIsFaithful()
    ensures FaithfulRun(OPERATION, [SAMPLE], WINDOW)
  {
    hide Polled, PollSucceeded, CleanRun, FaithfulRun, FromDecommission, IsStatus, RequestAt, Cmdline;
    RunIsPolled();
    StartIsNoStatus();
    OperationIsBuilt(Complete);
    LiveRunIsFaithfulIffClean(PROOF, STARTED, POLLED, [CALL], BEFORE, AFTER, WINDOW);
  }
}
