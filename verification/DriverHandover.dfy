/** What a workflow leaves for its verify phase: the transcript of a driver that
    observed its operation to the end, handed to the builder and to the offline
    check (src/fault/admin_decommission.rs, src/fault/admin_rebalance.rs). */
module DriverHandover {
  import opened Basics
  import opened Receipts
  import opened TopologyProof
  import opened StatusProjection
  import opened Evidence
  import opened Overlap
  import opened Progress
  import opened Builders
  import opened Polling
  import opened Exchanges
  import opened AdminDriver
  import opened Workflow
  import Handover
  import RebalanceHandover

  // ------------------------------------------------------- decommission

  /** After a passed overlap phase the requests are the start and then the
      receipts of the observations, bound one to one to the progress; and the
      operation built of them passes the offline progress check exactly when the
      observations were clean. */
  lemma ObservedDecommissionHandsOver(session: AdminSession, snapshot: Snapshot, after: Snapshot, w: Window)
    requires session.isDecommission && session.RunOut() && OpenedByItsStart(session)
    ensures session.statusCalls != []
    ensures session.transcript.requests == session.opening + Map(RequestOfCall, session.statusCalls)
    ensures ReceiptsBound(Decommission, session.transcript.requests, session.transcript.progress)
    ensures var calls, t := session.statusCalls, session.transcript;
            var op := FromDecommission(session.proof, snapshot, calls[|calls| - 1].value, t.requests, after);
            op.Some? ==> (FaithfulRun(op.value, t.progress, w) <==> Handover.CleanRun(t.requests, calls, w))
  {
    hide Tracks, ReceiptsBound, FromDecommission, FaithfulRun, Handover.CleanRun, IsStatus, TerminalWord;
    var before := Transcript(None, session.opening, []);
    var calls, t := session.statusCalls, session.transcript;
    assert calls + [] == calls;
    if FromDecommission(session.proof, snapshot, calls[|calls| - 1].value, t.requests, after).Some? {
      Handover.LiveRunIsFaithfulIffClean(session.proof, before, t, calls, snapshot, after, w);
    }
  }

  // ---------------------------------------------------------- rebalance

  /** The same of a rebalance, whose start receipt the driver does not check: it
      must not be a status. */
  lemma ObservedRebalanceHandsOver(session: AdminSession, snapshot: Snapshot, after: Snapshot, w: Window)
    requires !session.isDecommission && session.RunOut() && OpenedByItsStart(session)
    requires !IsStatus(Rebalance, session.opening[0])
    ensures session.watched != [] && session.transcript.operationId.Some? && forall e :: e in session.watched ==> e.reply.Answered?
    ensures session.transcript.requests == session.opening + AnsweredRequests(session.watched)
    ensures ReceiptsBound(Rebalance, session.transcript.requests, session.transcript.progress)
    ensures var sent, t := session.watched, session.transcript;
            var op := FromRebalance(session.proof, snapshot, t.operationId.value, sent[|sent| - 1].reply.rebalance, t.requests, after);
            op.Some? ==> (FaithfulRun(op.value, t.progress, w) <==> RebalanceHandover.CleanRebalance(t.requests, sent, w))
  {
    hide OwnedSample, FromRebalance, FaithfulRun, RebalanceHandover.CleanRebalance, IsStatus, Exchanges.Ended, ReceiptsBound, AnsweredRequests, OwnedSamples;
    var sent, t := session.watched, session.transcript;
    var id := t.operationId.value;
    var before := Transcript(Some(id), session.opening, []);
    RebalanceHandover.RunIsOwned(session.proof, id, sent);
    NoStatusIsBound(before);
    OwnedPollsStayBound(before, session.proof, id, sent);
    if FromRebalance(session.proof, snapshot, id, sent[|sent| - 1].reply.rebalance, t.requests, after).Some? {
      RebalanceHandover.LiveRebalanceIsFaithfulIffClean(session.proof, id, before, t, sent, snapshot, after, w);
    }
  }

  lemma NoStatusIsBound(t: Transcript)
    requires t.progress == [] && forall r :: r in t.requests ==> !IsStatus(Rebalance, r)
    ensures ReceiptsBound(Rebalance, t.requests, t.progress)
  {
    hide IsStatus, Filter;
    FilterNone(StatusTest(Rebalance), t.requests);
  }
}
