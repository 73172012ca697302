/** The rebalance example seen live: a poll whose one answer ends the run, handed
    to the builder, which makes of it the accepted operation. */
module RebalanceExample {
  import opened Basics
  import opened Receipts
  import opened TopologyProof
  import opened StatusProjection
  import opened Evidence
  import opened Progress
  import opened Builders
  import opened Polling
  import opened Exchanges
  import opened RebalanceHandover
  import opened ExampleCluster
  import opened Example

  lemma NothingStopped()
    ensures !ControlRequested(REQUESTS)
  {
    hide TimingValid, TargetsMatch, StartBeforeStatus, RequestAt;
    TranscriptIsValid();
  }

  lemma FiguresOfTheStatus()
    ensures CoversPools(STATUS, POOLS) && Totals(STATUS.pools, 0, 0, 0) == Some((1, 1, 1))
    ensures MovementFinished(STATUS) && !RebalanceFailed(STATUS) && !RebalanceStopped(STATUS, false)
    ensures Map(StatusPoolId, Filter(ParticipantTest(), STATUS.pools)) == [0]
  {
    hide Cmdline, CoversPools, MovementFinished, RebalanceFailed, RebalanceStopped, Filter, Totals;
    StatusProjects();
  }

  /** The builder makes the accepted operation of the run's receipts. */
  lemma OperationIsBuilt()
    ensures FromRebalance(PROOF, OPERATION.before, "op", STATUS, REQUESTS, OPERATION.after) == Some(OPERATION)
  {
    hide Satisfied, PreStartSnapshotValid, PostSnapshotValid, ControlRequested, CoversPools, Totals, MovementFinished, RebalanceFailed;
    hide IsBlank, Filter, Cmdline, RequestAt, SnapshotAt, Probe, RebalanceStopped;
    ProofIsBuilt(Rebalance);
    SnapshotsFitTheProof();
    ShortNamesAreNotBlank();
    NothingStopped();
    FiguresOfTheStatus();
  }

  // --------------------------------------------------------- the poll

  const UNREAD := DecommissionPoolStatus(0, "", NoWord, NoWord, None)
  const ANSWER := Exchange(StatusSent, Answered(TERMINAL, UNREAD, STATUS, "", false), Owned("op"))
  const STARTED := Transcript(Some("op"), [START], [])
  const POLLED := Transcript(Some("op"), REQUESTS, [SAMPLE])

  lemma AnswerIsSampled()
    ensures OwnedSample(Rebalance, PROOF, "op", ANSWER) == Some(SAMPLE)
  {
    hide IsBlank, Satisfied, ProjectRebalance, Cmdline, RequestInWindow, RequestValid, SameRuntimeIdentity, BindingValid;
    ProofIsBuilt(Rebalance);
    ShortNamesAreNotBlank();
    StatusProjects();
    ReceiptsAreValid(17, false, Get, RebalanceStatusPath, map[], RebalanceBody(STATUS));
    TerminalIsValid();
  }

  lemma TerminalIsValid()
    ensures RequestValid(TERMINAL)
  {
    hide RequestValid, RequestAt;
    ReceiptsAreValid(17, false, Get, RebalanceStatusPath, map[], RebalanceBody(STATUS));
  }

  /** The poll that produces it: the transcript, its one ended status, and a clean run. */
  lemma RunIsPolled()
    ensures PollsOwned(Rebalance, PROOF, "op", [ANSWER]) && Exchanges.Ended(Rebalance, SAMPLE)
    ensures POLLED == Extended(STARTED, Rebalance, PROOF, "op", [ANSWER])
    ensures CleanRebalance(REQUESTS, [ANSWER], WINDOW)
  {
    hide OwnedSample, TimingValid, TargetsMatch, StartBeforeStatus, RequestAt, CompletesRebalance, ControlRequested, AnsweredRequests, OwnedSamples;
    AnswerIsSampled();
    TranscriptIsValid();
    NothingStopped();
    RunCompletes();
    OneExchange(Rebalance, PROOF, "op", [], ANSWER);
    NoExchange(Rebalance, PROOF, "op");
    assert [] + [ANSWER] == [ANSWER];
    assert REQUESTS == [START] + [TERMINAL];
  }

  lemma RunCompletes()
    ensures CompletesRebalance(STATUS)
  {
    hide CoversPools, Totals, MovementFinished, RebalanceFailed, RebalanceStopped, Filter, SumBy, Cmdline;
    FiguresOfTheStatus();
    TotalsAreExact(STATUS.pools, 0, 0, 0);
  }

  /** Handed over, it passes the offline progress check. */
  lemma HandedOverRunIsFaithful()
    ensures FaithfulRun(OPERATION, [SAMPLE], WINDOW)
  {
    hide OwnedSample, FromRebalance, FaithfulRun, CleanRebalance, Extended, RequestAt, Cmdline, TimingValid;
    RunIsPolled();
    AnswerIsSampled();
    OperationIsBuilt();
    StartIsNoStatus();
    LiveRebalanceIsFaithfulIffClean(PROOF, "op", STARTED, POLLED, [ANSWER], OPERATION.before, OPERATION.after, WINDOW);
  }

  lemma StartIsNoStatus()
    ensures forall r :: r in STARTED.requests ==> !IsStatus(Rebalance, r)
  {
  }
}
