/** From the live driver to the offline check: the progress a poll records is
    what validate_admin_operation_progress re-derives from the stored receipts
    (src/fault/admin_decommission.rs, src/fault/admin_topology.rs). */
module Handover {
  import opened Basics
  import opened Receipts
  import opened TopologyProof
  import opened StatusProjection
  import opened Evidence
  import opened Progress
  import opened Builders
  import opened Polling

  predicate ReadsNoLess(a: StatusCall, b: StatusCall) {
    && a.value.decommission.Some? && b.value.decommission.Some?
    && StageOf(Decommission, a.value.status).Some? && StageOf(Decommission, b.value.status).Some?
    && StageOf(Decommission, a.value.status).value.rank <= StageOf(Decommission, b.value.status).value.rank
    && a.value.decommission.value.objects <= b.value.decommission.value.objects
    && a.value.decommission.value.bytes <= b.value.decommission.value.bytes
  }

  predicate CompletesMove(s: DecommissionPoolStatus) {
    s.status.Complete? && s.poolStatus.Decommissioned? && s.decommission.Some? && Moved(s.decommission.value)
  }

  function CallId(c: StatusCall): Option<string> { c.request.requestId }

  /** What the server and the clocks must have done, read off the receipts alone. */
  ghost predicate CleanRun(requests: seq<Request>, calls: seq<StatusCall>, w: Window)
    requires calls != []
  {
    && w.Valid() && TimingValid(requests, w)
    && Distinct(Map(CallId, calls))
    && (forall i, j :: 0 <= i < j < |calls| ==> ReadsNoLess(calls[i], calls[j]))
    && CompletesMove(calls[|calls| - 1].value)
    && !ControlRequested(requests)
  }

  /** One live sample against the offline re-derivation. */
  lemma LiveSampleIsDerived(proof: Proof, op: Operation, call: StatusCall, s: Sample)
    requires DecommissionSample(proof, op.operationId, call) == Some(s)
    requires op.scenario.Decommission? && op.attempt == proof.attempt
    requires op.targetId == proof.targetId && op.targetExpression == proof.targetExpression
    ensures proof.scenario.Decommission? && call.value.decommission.Some?
    ensures s.operationId == op.operationId && s.attempt == op.attempt && Present(call.request.requestId)
    ensures Answers(s, call.request) && Derived(op, call.request, s)
    ensures s.state == call.value.status && (s.completed <==> CompletesMove(call.value))
    ensures s.objects == Some(call.value.decommission.value.objects) && s.bytes == Some(call.value.decommission.value.bytes)
    ensures s.versions.None?
    ensures s.state.Queued? || s.state.Running? || TerminalWord(s.state)
    ensures StateParses(Decommission, s) <==> s.state.Queued? || s.state.Running? || CompletesMove(call.value)
  {
    hide Satisfied, RequestValid, SameRuntimeIdentity, IsBlank, CarriesIdentity;
  }

  /** The operation the builder names is the one the poll bound. */
  lemma BuilderNamesThePolledOperation(proof: Proof, before: Transcript, t: Transcript, calls: seq<StatusCall>,
                                       snapshot: Snapshot, after: Snapshot)
    requires Tracks(proof, before, t, calls) && calls != [] && t.operationId.Some?
    requires FromDecommission(proof, snapshot, calls[|calls| - 1].value, t.requests, after).Some?
    ensures var op := FromDecommission(proof, snapshot, calls[|calls| - 1].value, t.requests, after).value;
            && op.operationId == t.operationId.value && op.scenario.Decommission? && op.attempt == proof.attempt
            && op.targetId == proof.targetId && op.targetExpression == proof.targetExpression && op.requests == t.requests
            && StartBeforeStatus(op.requests, proof.scenario, op.targetId)
  {
    hide Satisfied, PostSnapshotValid, SelfConsistent, DecommissionSample, IdInForce, StartBeforeStatus, PreStartSnapshotFresh;
    assert calls[|calls| - 1] in calls;
  }

  /** A completed last status is what the builder made of it, unless a cancel was requested. */
  lemma LastSampleAgrees(proof: Proof, op: Operation, snapshot: Snapshot, after: Snapshot, call: StatusCall, s: Sample)
    requires FromDecommission(proof, snapshot, call.value, op.requests, after) == Some(op)
    requires DecommissionSample(proof, op.operationId, call) == Some(s)
    ensures CompletesMove(call.value) ==> (TerminalAgrees(op, s) <==> !ControlRequested(op.requests))
  {
    hide Satisfied, RequestValid, SameRuntimeIdentity, PreStartSnapshotValid, PostSnapshotValid, CarriesIdentity, ControlRequested;
  }

  /** The live samples mirror the calls they were made from. */
  ghost predicate Mirrors(op: Operation, calls: seq<StatusCall>, samples: seq<Sample>) {
    && |samples| == |calls|
    && forall i :: 0 <= i < |calls| ==> MirrorsOne(op, calls[i], samples[i])
  }

  ghost predicate MirrorsOne(op: Operation, call: StatusCall, s: Sample) {
    && call.value.decommission.Some?
    && s.operationId == op.operationId && s.attempt == op.attempt && Present(call.request.requestId)
    && Answers(s, call.request) && Derived(op, call.request, s)
    && s.state == call.value.status && (s.completed <==> CompletesMove(call.value))
    && s.objects == Some(call.value.decommission.value.objects) && s.bytes == Some(call.value.decommission.value.bytes)
    && s.versions.None?
    && (s.state.Queued? || s.state.Running? || TerminalWord(s.state))
    && (StateParses(Decommission, s) <==> s.state.Queued? || s.state.Running? || CompletesMove(call.value))
  }

  lemma PolledSamplesMirror(proof: Proof, before: Transcript, t: Transcript, calls: seq<StatusCall>, op: Operation)
    requires Tracks(proof, before, t, calls) && calls != [] && t.operationId == Some(op.operationId)
    requires op.scenario.Decommission? && op.attempt == proof.attempt
    requires op.targetId == proof.targetId && op.targetExpression == proof.targetExpression
    ensures Mirrors(op, calls, t.progress) && proof.scenario.Decommission?
  {
    hide DecommissionSample, SelfConsistent, RevealedId, IdInForce, Derived, Answers, StateParses;
    forall i | 0 <= i < |calls| ensures MirrorsOne(op, calls[i], t.progress[i]) && proof.scenario.Decommission? {
      LiveSampleIsDerived(proof, op, calls[i], t.progress[i]);
    }
    assert MirrorsOne(op, calls[0], t.progress[0]);
  }

  lemma Pairwise(op: Operation, a: StatusCall, b: StatusCall, s: Sample, u: Sample)
    requires MirrorsOne(op, a, s) && MirrorsOne(op, b, u) && s.observedAt < u.observedAt
    requires s.state.Queued? || s.state.Running?
    requires u.state.Queued? || u.state.Running? || u.state.Complete?
    ensures Advances(Decommission, s, u) <==> ReadsNoLess(a, b)
  {
    hide Derived, Answers, StateParses, Present;
  }

  /** A clean run, seen live, is accepted offline: its samples are faithful to
      the stored receipts of the operation the builder assembles.  And nothing
      else is: the offline check refuses exactly the runs that were not clean. */
  lemma LiveRunIsFaithfulIffClean(proof: Proof, before: Transcript, t: Transcript, calls: seq<StatusCall>,
                                  snapshot: Snapshot, after: Snapshot, w: Window)
    requires calls != [] && Polled(proof, before, t, calls, [])
    requires PollSucceeded(proof, before, t, calls, [], calls[|calls| - 1].value)
    requires forall r :: r in before.requests ==> !IsStatus(Decommission, r)
    requires FromDecommission(proof, snapshot, calls[|calls| - 1].value, t.requests, after).Some?
    ensures FaithfulRun(FromDecommission(proof, snapshot, calls[|calls| - 1].value, t.requests, after).value, t.progress, w)
       <==> CleanRun(t.requests, calls, w)
  {
    hide Tracks, FromDecommission, FaithfulRun, CleanRun, Filter, IsStatus;
    var op := FromDecommission(proof, snapshot, calls[|calls| - 1].value, t.requests, after).value;
    assert calls + [] == calls;
    PolledStatuses(proof, before, t, calls);
    BuilderNamesThePolledOperation(proof, before, t, calls, snapshot, after);
    PolledSamplesMirror(proof, before, t, calls, op);
    LastCallAgrees(proof, before, t, calls, op, snapshot, after);
    FaithfulIffClean(op, t.progress, calls, w);
  }

  lemma LastCallAgrees(proof: Proof, before: Transcript, t: Transcript, calls: seq<StatusCall>, op: Operation,
                       snapshot: Snapshot, after: Snapshot)
    requires Tracks(proof, before, t, calls) && calls != [] && t.operationId == Some(op.operationId)
    requires FromDecommission(proof, snapshot, calls[|calls| - 1].value, op.requests, after) == Some(op)
    ensures |t.progress| == |calls|
    ensures CompletesMove(calls[|calls| - 1].value) ==> (TerminalAgrees(op, t.progress[|calls| - 1]) <==> !ControlRequested(op.requests))
  {
    hide DecommissionSample, SelfConsistent, RevealedId, IdInForce, FromDecommission, TerminalAgrees, ControlRequested, CompletesMove;
    LastSampleAgrees(proof, op, snapshot, after, calls[|calls| - 1], t.progress[|calls| - 1]);
  }

  lemma FaithfulIffClean(op: Operation, samples: seq<Sample>, calls: seq<StatusCall>, w: Window)
    requires calls != [] && Mirrors(op, calls, samples) && op.scenario.Decommission?
    requires Statuses(op) == Map(RequestOfCall, calls)
    requires StartBeforeStatus(op.requests, Decommission, op.targetId)
    requires forall i :: 0 <= i < |calls| ==> (TerminalWord(calls[i].value.status) <==> i == |calls| - 1)
    requires CompletesMove(calls[|calls| - 1].value) ==> (TerminalAgrees(op, samples[|calls| - 1]) <==> !ControlRequested(op.requests))
    ensures FaithfulRun(op, samples, w) <==> CleanRun(op.requests, calls, w)
  {
    hide Derived, TimingValid, StartBeforeStatus, Statuses, ControlRequested, TerminalAgrees, Distinct, Advances, ReadsNoLess;
    hide StateParses, Answers, Present, Mirrors, SampleOf, CompletesMove, TerminalWord;
    assert Map(ResponseId, Statuses(op)) == Map(CallId, calls);
    LastMirrors(op, calls, samples);
    if TimingValid(op.requests, w) && CompletesMove(calls[|calls| - 1].value) {
      StatusesAreOrdered(op, w);
      forall i | 0 <= i < |calls|
        ensures SampleOf(op, Statuses(op)[i], samples[i]) && (samples[i].completed <==> i == |calls| - 1)
      {
        EarlierMirrors(op, calls, samples, i);
      }
      forall i, j | 0 <= i < j < |calls|
        ensures Advances(Decommission, samples[i], samples[j]) <==> ReadsNoLess(calls[i], calls[j])
      {
        assert Statuses(op)[i].observedAt < Statuses(op)[j].observedAt;
        PairMirrors(op, calls, samples, i, j);
      }
    }
  }

  lemma LastMirrors(op: Operation, calls: seq<StatusCall>, samples: seq<Sample>)
    requires calls != [] && Mirrors(op, calls, samples)
    ensures |samples| == |calls| && (samples[|calls| - 1].completed <==> CompletesMove(calls[|calls| - 1].value))
  {
    hide Derived, Answers, StateParses, Present;
  }

  lemma EarlierMirrors(op: Operation, calls: seq<StatusCall>, samples: seq<Sample>, i: nat)
    requires i < |calls| && Mirrors(op, calls, samples) && op.scenario.Decommission?
    requires TerminalWord(calls[i].value.status) <==> i == |calls| - 1
    requires CompletesMove(calls[|calls| - 1].value)
    ensures SampleOf(op, calls[i].request, samples[i]) && (samples[i].completed <==> i == |calls| - 1)
  {
    hide Derived, Answers, StateParses, Present;
    assert MirrorsOne(op, calls[i], samples[i]);
  }

  lemma PairMirrors(op: Operation, calls: seq<StatusCall>, samples: seq<Sample>, i: nat, j: nat)
    requires i < j < |calls| && Mirrors(op, calls, samples)
    requires !TerminalWord(calls[i].value.status)
    requires TerminalWord(calls[j].value.status) <==> j == |calls| - 1
    requires CompletesMove(calls[|calls| - 1].value)
    requires calls[i].request.observedAt < calls[j].request.observedAt
    ensures Advances(Decommission, samples[i], samples[j]) <==> ReadsNoLess(calls[i], calls[j])
  {
    hide Derived, StateParses, Present, Advances, ReadsNoLess;
    assert MirrorsOne(op, calls[i], samples[i]) && MirrorsOne(op, calls[j], samples[j]);
    Pairwise(op, calls[i], calls[j], samples[i], samples[j]);
  }
}
