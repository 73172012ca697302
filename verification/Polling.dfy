/** What a live driver does with each answer of the server: the decommission
    poll step shared by poll_decommission and observe_inner, and the rules a
    run of requests obeys (src/fault/admin_decommission.rs,
    src/fault/admin_rebalance.rs). */
module Polling {
  import opened Basics
  import opened Receipts
  import opened TopologyProof
  import opened StatusProjection
  import opened Overlap

  datatype Fault =
    | NotPrepared | NoTarget | StaleSnapshot | NoReply | DeadlinePassed
    | BadReceipt | IdentityChanged | ReprojectionFailed | EmptyReconstruction | NotQueued
    | BadControl | NotClearable | ForeignOperation | BlankStartId | NotOwned
    | PredatesStart | StillAmbiguous | UnsuccessfulTerminal | PersistFailed
    | OverlapUnproven | SuiteDeadline | OperationTimeout | LimitsNotPositive | RecoveryTimeout
    | HookFailed(code: nat)

  /** An error and the failures attached to it as context, in order. */
  datatype Error = Error(cause: Fault, also: seq<Error>)

  datatype Result<+T> = Ok(value: T) | Err(error: Error)

  function Fail<T>(cause: Fault): Result<T> {
    Err(Error(cause, []))
  }

  function Attach(e: Error, other: Error): Error {
    e.(also := e.also + [other])
  }

  datatype Transcript = Transcript(operationId: Option<string>, requests: seq<Request>, progress: seq<Sample>)

  type StatusCall = Call<DecommissionPoolStatus>

  predicate TerminalWord(w: Word) {
    w.Complete? || w.Failed? || w.Canceled?
  }

  // ---------------------------------------------------- one status answer

  datatype Verdict = Accepted(sample: Sample) | Refused(cause: Fault)

  datatype Absorbed = Absorbed(transcript: Transcript, calls: seq<StatusCall>, verdict: Verdict)

  function Sampler(proof: Proof, id: string): StatusCall -> Option<Sample> {
    c => DecommissionSample(proof, id, c)
  }

  /** One turn of the poll: keep the receipt, learn or compare the identity, then
      project every receipt so far under it, or this one as an unbound queued one. */
  function Absorb(proof: Proof, t: Transcript, calls: seq<StatusCall>, call: StatusCall): Absorbed {
    var kept := t.(requests := t.requests + [call.request]);
    if !SelfConsistent(proof, call) then Absorbed(kept, calls, Refused(BadReceipt))
    else
      var candidate := RevealedId(proof, call);
      if t.operationId.Some? && candidate.Some? && t.operationId != candidate
      then Absorbed(kept, calls, Refused(IdentityChanged))
      else
        var bound := kept.(operationId := if t.operationId.Some? then t.operationId else candidate);
        var all := calls + [call];
        if bound.operationId.Some? then
          match Values(Map(Sampler(proof, bound.operationId.value), all))
          case None => Absorbed(bound, all, Refused(ReprojectionFailed))
          case Some(progress) =>
            if progress == [] then Absorbed(bound, all, Refused(EmptyReconstruction))
            else Absorbed(bound.(progress := progress), all, Accepted(progress[|progress| - 1]))
        else
          match DecommissionSample(proof, UNBOUND, call)
          case None => Absorbed(bound, all, Refused(BadReceipt))
          case Some(s) =>
            if s.state.Queued? && !s.completed && !s.failed && !s.canceledOrStopped
            then Absorbed(bound, all, Accepted(s))
            else Absorbed(bound, all, Refused(NotQueued))
  }

  /** The identity in force after some calls: the one in force before, else the
      first that any call reveals. */
  function IdInForce(proof: Proof, before: Option<string>, calls: seq<StatusCall>): Option<string>
    requires proof.targetId.Some?
  {
    if calls == [] then before
    else
      var earlier := IdInForce(proof, before, calls[..|calls| - 1]);
      if earlier.Some? then earlier else RevealedId(proof, calls[|calls| - 1])
  }

  /** Every call is a receipt of one operation, and the progress is the
      projection of all of them under its identity. */
  ghost predicate Tracks(proof: Proof, before: Transcript, t: Transcript, calls: seq<StatusCall>) {
    && (calls != [] ==> proof.targetId.Some?)
    && (forall c :: c in calls ==> SelfConsistent(proof, c) && (RevealedId(proof, c).Some? ==> RevealedId(proof, c) == t.operationId))
    && (if calls == [] then t.operationId == before.operationId else t.operationId == IdInForce(proof, before.operationId, calls))
    && (if calls == [] || t.operationId.None? then t.progress == before.progress
        else
          && |t.progress| == |calls|
          && forall i :: 0 <= i < |calls| ==> DecommissionSample(proof, t.operationId.value, calls[i]) == Some(t.progress[i]))
  }

  /** Identities are learnt late, yet nothing ever has to be taken back: an
      answer is refused only for what it says itself, never because the earlier
      receipts cannot be projected again. */
  lemma AbsorbTracks(proof: Proof, before: Transcript, t: Transcript, calls: seq<StatusCall>, call: StatusCall)
    requires Tracks(proof, before, t, calls)
    ensures var r := Absorb(proof, t, calls, call);
            && r.transcript.requests == t.requests + [call.request]
            && (t.operationId.Some? ==> r.transcript.operationId == t.operationId)
            && Tracks(proof, before, r.transcript, r.calls)
            && (r.verdict.Accepted? <==>
                  SelfConsistent(proof, call) && !(t.operationId.Some? && RevealedId(proof, call).Some? && RevealedId(proof, call) != t.operationId))
            && (r.verdict.Refused? ==>
                  && (r.verdict.cause.BadReceipt? <==> !SelfConsistent(proof, call))
                  && (r.verdict.cause.BadReceipt? || r.verdict.cause.IdentityChanged?)
                  && (r.verdict.cause.IdentityChanged? ==>
                        t.operationId.Some? && RevealedId(proof, call).Some? && RevealedId(proof, call) != t.operationId)
                  && r.calls == calls && r.transcript == t.(requests := r.transcript.requests))
            && (r.verdict.Accepted? ==>
                  && r.calls == calls + [call] && SelfConsistent(proof, call)
                  && r.verdict.sample.state == call.value.status
                  && (TerminalWord(call.value.status) ==> r.transcript.operationId.Some?)
                  && (r.transcript.operationId.Some? ==> r.verdict.sample == r.transcript.progress[|calls|]))
  {
    hide DecommissionSample, RevealedId, IdInForce;
    if SelfConsistent(proof, call) {
      SampleState(proof, call);
      if !(t.operationId.Some? && RevealedId(proof, call).Some? && t.operationId != RevealedId(proof, call)) {
        Reproject(proof, before, t, calls, call);
      }
    }
  }

  /** A sample shows the status word of its receipt; without an identity that is "queued". */
  lemma SampleState(proof: Proof, call: StatusCall)
    requires SelfConsistent(proof, call)
    ensures forall id {:trigger DecommissionSample(proof, id, call)} ::
              DecommissionSample(proof, id, call).Some? ==> DecommissionSample(proof, id, call).value.state == call.value.status
    ensures RevealedId(proof, call).None? ==>
              && call.value.status.Queued?
              && var s := DecommissionSample(proof, UNBOUND, call);
              && s.Some? && !s.value.completed && !s.value.failed && !s.value.canceledOrStopped
  {
    hide DecommissionReceiptValid;
  }

  lemma Reproject(proof: Proof, before: Transcript, t: Transcript, calls: seq<StatusCall>, call: StatusCall)
    requires proof.targetId.Some? && Tracks(proof, before, t, calls) && SelfConsistent(proof, call)
    requires t.operationId.Some? && RevealedId(proof, call).Some? ==> t.operationId == RevealedId(proof, call)
    ensures var id := if t.operationId.Some? then t.operationId else RevealedId(proof, call);
            && id == IdInForce(proof, before.operationId, calls + [call])
            && (forall c :: c in calls + [call] ==> SelfConsistent(proof, c) && (RevealedId(proof, c).Some? ==> RevealedId(proof, c) == id))
            && (id.Some? ==>
                  && var p := Values(Map(Sampler(proof, id.value), calls + [call]));
                  && p.Some? && |p.value| == |calls| + 1
                  && forall i :: 0 <= i < |calls| + 1 ==> DecommissionSample(proof, id.value, (calls + [call])[i]) == Some(p.value[i]))
  {
    hide SelfConsistent, DecommissionSample, RevealedId;
    var id := if t.operationId.Some? then t.operationId else RevealedId(proof, call);
    var all := calls + [call];
    assert all[..|all| - 1] == calls;
    forall c | c in all ensures SelfConsistent(proof, c) && (RevealedId(proof, c).Some? ==> RevealedId(proof, c) == id) {
    }
    if id.Some? {
      SamplesExist(proof, id.value, all);
    }
  }

  lemma SamplesExist(proof: Proof, id: string, calls: seq<StatusCall>)
    requires proof.targetId.Some?
    requires forall c :: c in calls ==> SelfConsistent(proof, c) && (RevealedId(proof, c).Some? ==> RevealedId(proof, c) == Some(id))
    ensures var p := Values(Map(Sampler(proof, id), calls));
            && p.Some? && |p.value| == |calls|
            && forall i :: 0 <= i < |calls| ==> DecommissionSample(proof, id, calls[i]) == Some(p.value[i])
  {
    hide SelfConsistent, DecommissionSample, RevealedId;
    var sampler := Sampler(proof, id);
    var samples := Map(sampler, calls);
    forall i | 0 <= i < |calls| ensures samples[i] == DecommissionSample(proof, id, calls[i]) && samples[i].Some? {
      assert calls[i] in calls;
      ReprojectionSucceeds(proof, calls[i], id, id);
      assert samples[i] == sampler(calls[i]);
    }
  }

  // ---------------------------------------------- the polled transcript

  function RequestOfCall(c: StatusCall): Request { c.request }

  lemma SampleMatchesReceipt(proof: Proof, id: string, call: StatusCall)
    requires DecommissionSample(proof, id, call).Some?
    ensures IsStatus(Decommission, call.request) && Successful(call.request.status)
    ensures var s := DecommissionSample(proof, id, call).value;
            call.request.requestId == Some(s.statusRequestId) && call.request.observedAt == s.observedAt
  {
    hide Satisfied, RequestValid, SameRuntimeIdentity, ProjectDecommission;
  }

  /** The status requests of a polled transcript are the polled ones, in order. */
  lemma PolledStatuses(proof: Proof, before: Transcript, t: Transcript, calls: seq<StatusCall>)
    requires Tracks(proof, before, t, calls) && calls != [] && t.operationId.Some?
    requires t.requests == before.requests + Map(RequestOfCall, calls)
    requires forall r :: r in before.requests ==> !IsStatus(Decommission, r)
    ensures Filter(StatusTest(Decommission), t.requests) == Map(RequestOfCall, calls)
  {
    hide Filter, IsStatus, DecommissionSample, SelfConsistent, RevealedId, IdInForce, Successful;
    var test, polled := StatusTest(Decommission), Map(RequestOfCall, calls);
    forall i | 0 <= i < |polled| ensures IsStatus(Decommission, polled[i]) {
      SampleMatchesReceipt(proof, t.operationId.value, calls[i]);
    }
    FilterAppend(test, before.requests, polled);
    FilterNone(test, before.requests);
    FilterAll(test, polled);
  }

  /** Receipts kept by a tracking poll are exactly bound to its progress samples. */
  lemma TrackedReceiptsAreBound(proof: Proof, before: Transcript, t: Transcript, calls: seq<StatusCall>)
    requires Tracks(proof, before, t, calls) && calls != [] && t.operationId.Some?
    requires t.requests == before.requests + Map(RequestOfCall, calls)
    requires forall r :: r in before.requests ==> !IsStatus(Decommission, r)
    ensures ReceiptsBound(Decommission, t.requests, t.progress)
  {
    hide Filter, IsStatus, DecommissionSample, SelfConsistent, RevealedId, IdInForce, Successful;
    PolledStatuses(proof, before, t, calls);
    var polled := Map(RequestOfCall, calls);
    forall i | 0 <= i < |polled|
      ensures Successful(polled[i].status) && polled[i].requestId == Some(t.progress[i].statusRequestId)
      ensures polled[i].observedAt == t.progress[i].observedAt
    {
      SampleMatchesReceipt(proof, t.operationId.value, calls[i]);
    }
  }

  /** A poll that ends in its first terminal receipt, a completed one, is one
      successful run in the sense of the overlap evidence. */
  lemma PolledRunIsOneSuccessfulRun(proof: Proof, before: Transcript, t: Transcript, calls: seq<StatusCall>)
    requires Tracks(proof, before, t, calls) && calls != [] && t.operationId.Some?
    requires forall i :: 0 <= i < |calls| - 1 ==> !TerminalWord(calls[i].value.status)
    requires forall i :: 0 <= i < |calls| - 1 ==> calls[i].request.observedAt <= calls[i + 1].request.observedAt
    ensures OneSuccessfulRun(proof.attempt, t.operationId.value, t.progress) <==>
              && calls[|calls| - 1].value.status.Complete?
              && calls[|calls| - 1].value.poolStatus.Decommissioned?
              && Moved(calls[|calls| - 1].value.decommission.value)
  {
    hide DecommissionReceiptValid, RevealedId, IdInForce;
    var id := t.operationId.value;
    forall i | 0 <= i < |calls|
      ensures DecommissionSample(proof, id, calls[i]) == Some(t.progress[i])
      ensures calls[i].value.decommission.Some?
    {
    }
  }

  // ------------------------------------------------- what a poll promises

  /** The transcript is the old one with the polled receipts in order; the
      identity never changed once bound; the progress is the projection of all
      accepted polls under it. */
  ghost predicate Polled(proof: Proof, before: Transcript, t: Transcript, calls: seq<StatusCall>, refused: seq<StatusCall>) {
    && |refused| <= 1
    && t.requests == before.requests + Map(RequestOfCall, calls + refused)
    && (before.operationId.Some? ==> t.operationId == before.operationId)
    && Tracks(proof, before, t, calls)
  }

  /** A poll that returns has its only terminal receipt last, under a bound
      identity, and its receipts are exactly bound to its samples. */
  ghost predicate PollSucceeded(proof: Proof, before: Transcript, t: Transcript, calls: seq<StatusCall>, refused: seq<StatusCall>,
                                status: DecommissionPoolStatus) {
    && refused == [] && calls != [] && calls[|calls| - 1].value == status && t.operationId.Some?
    && (forall i :: 0 <= i < |calls| ==> (TerminalWord(calls[i].value.status) <==> i == |calls| - 1))
    && ((forall r :: r in before.requests ==> !IsStatus(Decommission, r)) ==> ReceiptsBound(Decommission, t.requests, t.progress))
  }

  /** A poll fails for its deadline or for what the last answer says itself;
      projecting the earlier answers again never fails. */
  predicate PollFault(cause: Fault, refused: seq<StatusCall>) {
    if refused == [] then cause.NoTarget? || cause.NoReply? || cause.DeadlinePassed?
    else cause.BadReceipt? || cause.IdentityChanged?
  }

  /** The answer is no valid receipt, or names another operation. */
  predicate RefusedFor(proof: Proof, bound: Option<string>, call: StatusCall, cause: Fault) {
    || (cause.BadReceipt? && !SelfConsistent(proof, call))
    || (cause.IdentityChanged? && SelfConsistent(proof, call) && bound.Some? && RevealedId(proof, call).Some? && RevealedId(proof, call) != bound)
  }

  lemma NothingPolled(proof: Proof, t: Transcript)
    ensures Polled(proof, t, t, [], [])
  {
    assert t.requests + Map(RequestOfCall, []) == t.requests;
  }

  lemma RequestsGrow(polled: seq<StatusCall>, call: StatusCall)
    ensures polled + [] == polled && polled + [call] + [] == polled + [call]
    ensures Map(RequestOfCall, polled + [call]) == Map(RequestOfCall, polled) + [call.request]
  {
  }

  lemma PollTurn(proof: Proof, before: Transcript, t: Transcript, polled: seq<StatusCall>, call: StatusCall)
    requires Polled(proof, before, t, polled, [])
    ensures var next := Absorb(proof, t, polled, call);
            if next.verdict.Refused?
            then
              && Polled(proof, before, next.transcript, polled, [call]) && PollFault(next.verdict.cause, [call])
              && RefusedFor(proof, t.operationId, call, next.verdict.cause) && next.transcript.operationId == t.operationId
            else
              && Polled(proof, before, next.transcript, polled + [call], []) && next.calls == polled + [call]
              && next.verdict.sample.state == call.value.status
              && (TerminalWord(call.value.status) ==> next.transcript.operationId.Some?)
  {
    hide Tracks, Absorb, TerminalWord, Map;
    AbsorbTracks(proof, before, t, polled, call);
    RequestsGrow(polled, call);
  }

  lemma PollEnds(proof: Proof, before: Transcript, t: Transcript, calls: seq<StatusCall>)
    requires Polled(proof, before, t, calls, []) && calls != [] && t.operationId.Some?
    requires forall i :: 0 <= i < |calls| ==> (TerminalWord(calls[i].value.status) <==> i == |calls| - 1)
    ensures PollSucceeded(proof, before, t, calls, [], calls[|calls| - 1].value)
  {
    hide Tracks, IsStatus, ReceiptsBound, TerminalWord;
    assert calls + [] == calls;
    if forall r :: r in before.requests ==> !IsStatus(Decommission, r) {
      TrackedReceiptsAreBound(proof, before, t, calls);
    }
  }
}
