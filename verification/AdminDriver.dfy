/** The two live admin drivers (src/fault/admin_decommission.rs and
    src/fault/admin_rebalance.rs) as one session object: they hold the same
    state and differ in the requests they send. */
module AdminDriver {
  import opened Basics
  import opened Receipts
  import opened TopologyProof
  import opened StatusProjection
  import opened Evidence
  import opened Overlap
  import opened FastPath
  import opened Polling
  import opened Exchanges
  import opened Policy

  datatype Observation = StillActive | Finished

  datatype CancelOutcome = CanceledOwnedOperation | NoOwnedOperation

  /** A call of a driver hook; prepare and the workload also show their return. */
  datatype HookCall =
    | PrepareReturned(ok: bool) | StartCalled | WorkloadBegan | ObserveCalled | WorkloadReturned
    | OverlapProofCalled | VerifyCalled | CancelCalled | CleanupCalled

  const FRESH := Transcript(None, [], [])

  /** combine_primary_and_secondary with a write that succeeded or not. */
  function Combine<T>(primary: Result<T>, persisted: bool): (r: Result<T>)
    ensures r.Ok? <==> primary.Ok? && persisted
    ensures r.Ok? ==> r == primary
    ensures primary.Err? && r.Err? ==> r.error.cause == primary.error.cause
    ensures primary.Ok? && r.Err? ==> r.error.cause == PersistFailed
  {
    if persisted then primary
    else if primary.Ok? then Fail(PersistFailed)
    else Err(Attach(primary.error, Error(PersistFailed, [])))
  }

  function HookResult(outcome: Option<Fault>): Result<()> {
    if outcome.None? then Ok(()) else Fail(outcome.value)
  }

  /** Whether the next write succeeds, and the writes after it. */
  predicate Writes(disk: seq<bool>) {
    disk == [] || disk[0]
  }

  function AfterWrite(disk: seq<bool>): seq<bool> {
    if disk == [] then [] else disk[1..]
  }

  /** What a start leaves: nothing if none was sent; else doubt, or a named rebalance,
      and on success the receipt kept. */
  ghost predicate StartShape(isDecommission: bool, proof: Proof, attemptedAt: u64, sent: seq<Exchange>,
                             before: Ownership, after: Ownership, t: Transcript, next: Transcript, ok: bool) {
    && |sent| <= 1
    && (sent == [] ==> !ok && after == before && next == t)
    && (sent != [] ==>
          && sent[0].kind.StartSent? && sent[0].owner == Ambiguous(attemptedAt)
          && (if !isDecommission && sent[0].reply.Answered? && !IsBlank(sent[0].reply.startId)
              then after == Owned(sent[0].reply.startId) && next.operationId == Some(sent[0].reply.startId)
              else after == Ambiguous(attemptedAt)))
    && (ok ==>
          && sent != [] && sent[0].reply.Answered?
          && next == Transcript(if isDecommission then t.operationId else Some(sent[0].reply.startId),
                                t.requests + [sent[0].reply.request], t.progress)
          && (if isDecommission then ControlValid(proof, PoolsDecommission, sent[0].reply.request) else after.Owned?))
  }

  /** A valid status, younger than the start attempt, of a decommission of the target that has ended. */
  predicate DecommissionIsOver(proof: Proof, attemptedAt: u64, e: Exchange) {
    && e.reply.Answered? && e.reply.request.startedAt >= attemptedAt
    && SelfConsistent(proof, CallOf(e)) && e.reply.decommission.status in [Complete, Failed, Canceled]
  }

  /** The same of some named rebalance. */
  predicate RebalanceIsOver(proof: Proof, attemptedAt: u64, e: Exchange) {
    && e.reply.Answered? && e.reply.request.startedAt >= attemptedAt && !IsBlank(e.reply.rebalance.id)
    && var s := OwnedSample(Rebalance, proof, e.reply.rebalance.id, e);
    && s.Some? && (s.value.completed || s.value.failed || s.value.canceledOrStopped)
  }

  /** An observation reports what was made of its answer. */
  predicate Reports(outcome: Result<bool>, r: Result<Observation>) {
    match outcome
    case Ok(finished) => r == Ok(if finished then Finished else StillActive)
    case Err(error) => r.Err? && r.error.cause == error.cause
  }

  /** A status that shows its identity makes the driver the owner of that operation; one that does not,
      of the operation it already knew, if it knew one. */
  ghost predicate LearnsOwner(proof: Proof, call: StatusCall, bound: Option<string>, before: Ownership, after: Ownership)
    requires proof.targetId.Some?
  {
    && (RevealedId(proof, call).Some? ==> bound == RevealedId(proof, call))
    && after == if bound.Some? then Owned(bound.value) else before
  }

  /** What an observation sends and reports, in every state of the driver: nothing
      unless it is prepared and knows what to ask for, else one status and what its answer makes of it. */
  ghost predicate ObservesOnce(isDecommission: bool, proof: Proof, prepared: bool, owner: Ownership, bound: Option<string>,
                               sent: seq<Exchange>, written: bool, r: Result<Observation>) {
    && (!prepared ==> sent == [] && r.Err? && r.error.cause == NotPrepared)
    && (prepared && isDecommission ==>
          if proof.targetId.None? || proof.targetExpression.None? then sent == [] && r.Err? && r.error.cause == NoTarget
          else |sent| == 1 && Reports(DecommissionObserved(proof, bound, sent[0], written), r))
    && (prepared && !isDecommission ==>
          if !owner.Owned? then sent == [] && r.Err? && r.error.cause == NotOwned
          else |sent| == 1 && Reports(RebalanceObserved(proof, owner.operationId, sent[0], written), r))
  }

  class AdminSession {
    const isDecommission: bool
    const proof: Proof
    const poolsBefore: Snapshot
    var prepared: bool
    var transcript: Transcript
    var ownership: Ownership
    var statusCalls: seq<StatusCall>
    var terminal: bool
    var workload: Option<WorkloadReceipt>
    var workloadRunning: bool

    // The surroundings: what the server will answer, and whether each write succeeds.
    var pending: seq<Reply>
    var disk: seq<bool>

    // Every request this session has sent, and every hook that was called.
    ghost var log: seq<Exchange>
    ghost var calls: seq<HookCall>

    // What the start left in the transcript, and the rebalance statuses it watched since.
    ghost var opening: seq<Request>
    ghost var watched: seq<Exchange>

    function Driven(): Scenario {
      if isDecommission then Decommission else Rebalance
    }

    ghost predicate Disciplined()
      reads this`log, this`ownership, this`transcript
    {
      OwnerDisciplined(log, ownership, transcript.operationId)
    }

    /** The decommission progress is the projection of every status call so far. */
    ghost predicate Tracked()
      reads this`transcript, this`statusCalls
    {
      isDecommission ==> Tracks(proof, FRESH, transcript, statusCalls)
    }

    /** Every endpoint is captured after the snapshot, as a live adapter does. */
    ghost predicate CapturedLive()
      reads this`transcript, this`pending
    {
      AllCapturedAfter(poolsBefore, transcript.requests, pending)
    }

    /** As it is built: nothing sent, called or kept. */
    ghost predicate Fresh()
      reads this
    {
      Unused() && ownership.NotStarted? && log == [] && calls == [] && !workloadRunning
    }

    ghost predicate Unused()
      reads this`transcript, this`statusCalls, this`watched
    {
      transcript == FRESH && statusCalls == [] && watched == []
    }

    ghost predicate RunningOn()
      reads this`transcript, this`statusCalls, this`opening, this`watched
    {
      RunsOn(isDecommission, proof, opening, transcript, statusCalls, watched)
    }

    ghost predicate RunOut()
      reads this`transcript, this`statusCalls, this`opening, this`watched
    {
      RanOut(isDecommission, proof, opening, transcript, statusCalls, watched)
    }

    constructor (isDecommission: bool, proof: Proof, poolsBefore: Snapshot, pending: seq<Reply>, disk: seq<bool>)
      ensures this.isDecommission == isDecommission && this.proof == proof && this.poolsBefore == poolsBefore
      ensures this.pending == pending && this.disk == disk
      ensures Fresh() && !prepared && !terminal && workload.None?
      ensures Disciplined() && Tracked()
    {
      this.isDecommission, this.proof, this.poolsBefore := isDecommission, proof, poolsBefore;
      this.pending, this.disk := pending, disk;
      prepared, terminal, transcript, ownership, statusCalls := false, false, FRESH, NotStarted, [];
      workload, workloadRunning, log, calls, opening, watched := None, false, [], [], [], [];
    }

    // ---------------------------------------------------- surroundings

    method Send(kind: Kind) returns (reply: Reply)
      modifies this`pending, this`log
      ensures log == old(log) + [Exchange(kind, reply, ownership)]
      ensures reply == NextReply(old(pending)) && pending == RestOf(old(pending))
    {
      reply := Silent;
      if pending != [] {
        reply, pending := pending[0], pending[1..];
      }
      log := log + [Exchange(kind, reply, ownership)];
    }

    method Persist() returns (ok: bool)
      modifies this`disk
      ensures ok == Writes(old(disk)) && disk == AfterWrite(old(disk))
    {
      ok := true;
      if disk != [] {
        ok, disk := disk[0], disk[1..];
      }
    }

    // ------------------------------------------------- whole-run polling

    /** poll_decommission.  The calls are the answers it accepted; at most one more was refused. */
    method PollDecommission()
      returns (result: Result<DecommissionPoolStatus>, ghost calls: seq<StatusCall>, ghost refused: seq<StatusCall>, ghost sent: seq<Exchange>)
      modifies this`pending, this`log, this`transcript
      ensures Polled(proof, old(transcript), transcript, calls, refused)
      ensures log == old(log) + sent && UsesUp(old(pending), sent, pending)
      ensures result.Ok? ==> PollSucceeded(proof, old(transcript), transcript, calls, refused, result.value)
      ensures result.Err? ==> PollFault(result.error.cause, refused)
      ensures proof.targetId.None? || proof.targetExpression.None? ==> sent == [] && result == Fail(NoTarget)
      ensures proof.targetId.Some? && proof.targetExpression.Some? ==>
                PollCarried(proof, transcript.operationId, sent, calls, refused, result)
    {
      hide Polled, PollSucceeded, TerminalWord, Absorb, UsesUp, RefusedFor;
      NothingPolled(proof, transcript);
      NothingUsed(pending);
      if proof.targetId.None? || proof.targetExpression.None? {
        return Fail(NoTarget), [], [], [];
      }
      ghost var before, script := transcript, pending;
      var polled: seq<StatusCall> := [];
      calls, refused, sent := [], [], [];
      while true
        invariant Polled(proof, before, transcript, polled, [])
        invariant log == old(log) + sent && UsesUp(script, sent, pending) && PollsOn(sent, polled)
        decreases |pending|
      {
        ghost var left := pending;
        var reply := Send(StatusSent);
        ghost var e := Exchange(StatusSent, reply, ownership);
        UseOne(script, sent, left, e);
        assert (sent + [e])[..|sent|] == sent && polled[..|polled|] == polled;
        if reply.Silent? {
          return Fail(NoReply), polled, [], sent + [e];
        }
        var call := Call(reply.decommission, reply.request);
        var next := Absorb(proof, transcript, polled, call);
        PollTurn(proof, before, transcript, polled, call);
        transcript := next.transcript;
        if next.verdict.Refused? {
          return Fail(next.verdict.cause), polled, [call], sent + [e];
        }
        assert (polled + [call])[..|polled|] == polled;
        if TerminalWord(next.verdict.sample.state) {
          PollEnds(proof, before, transcript, polled + [call]);
          return Ok(call.value), polled + [call], [], sent + [e];
        }
        polled, sent := polled + [call], sent + [e];
        if reply.late {
          return Fail(DeadlinePassed), polled, [], sent;
        }
      }
    }

    // -------------------------------------------------- owned operations

    /** One status request, its receipt kept and, when it carries the owned
        identity, sampled: record_status_sample and its rebalance counterpart. */
    method ReadOwnedStatus(scenario: Scenario, id: string) returns (result: Result<Reply>, ghost e: Exchange)
      requires Supported(scenario)
      modifies this`pending, this`log, this`transcript
      ensures e.kind.StatusSent? && e.owner == ownership && log == old(log) + [e]
      ensures transcript == Extended(old(transcript), scenario, proof, id, [e])
      ensures result.Ok? <==> OwnedSample(scenario, proof, id, e).Some?
      ensures result.Ok? ==> e.reply == result.value && e.reply.Answered? && |pending| < |old(pending)|
      ensures result.Err? ==> result == Fail(if e.reply.Silent? then NoReply else ForeignOperation)
      ensures e.reply == NextReply(old(pending)) && pending == RestOf(old(pending))
    {
      hide DecommissionSample, RebalanceSample, SelfConsistent, RevealedId;
      var reply := Send(StatusSent);
      e := Exchange(StatusSent, reply, ownership);
      var sample := OwnedSample(scenario, proof, id, Exchange(StatusSent, reply, ownership));
      OneExchange(scenario, proof, id, [], e);
      assert [] + [e] == [e];
      if reply.Silent? {
        return Fail(NoReply), e;
      }
      transcript := transcript.(requests := transcript.requests + [reply.request]);
      if sample.None? {
        return Fail(ForeignOperation), e;
      }
      transcript := transcript.(progress := transcript.progress + [sample.value]);
      return Ok(reply), e;
    }

    /** poll_rebalance */
    method PollRebalance(startId: string) returns (result: Result<RebalanceStatus>, ghost sent: seq<Exchange>)
      modifies this`pending, this`log, this`transcript
      ensures log == old(log) + sent && sent != [] && PollsOwned(Rebalance, proof, startId, sent)
      ensures transcript == Extended(old(transcript), Rebalance, proof, startId, sent)
      ensures result.Ok? ==>
                && var s := OwnedSample(Rebalance, proof, startId, sent[|sent| - 1]);
                && s.Some? && Ended(Rebalance, s.value)
                && sent[|sent| - 1].reply.Answered? && result.value == sent[|sent| - 1].reply.rebalance
      ensures result.Ok? && old(ReceiptsBound(Rebalance, transcript.requests, transcript.progress)) ==>
                ReceiptsBound(Rebalance, transcript.requests, transcript.progress)
      ensures Carried(ToWatch, proof, startId, sent) && UsesUp(old(pending), sent, pending)
      ensures Discarded(result) == OutcomeOf(ToWatch, proof, startId, sent[|sent| - 1])
    {
      hide OwnedSample, Extended, ReceiptsBound, Ended, Due, Carried, UsesUp, MustFollow, OutcomeOf;
      NothingDone(ToWatch, proof, startId);
      NothingUsed(pending);
      sent := [];
      ghost var before := transcript;
      NothingSent(before, Rebalance, proof, startId);
      while true
        invariant log == old(log) + sent && PollsOwned(Rebalance, proof, startId, sent)
        invariant forall e :: e in sent ==> StillRunning(Rebalance, proof, startId, e)
        invariant transcript == Extended(before, Rebalance, proof, startId, sent)
        invariant Due(ToWatch, proof, startId, sent, StatusSent) && UsesUp(old(pending), sent, pending)
        decreases |pending|
      {
        ghost var left := pending;
        var answer, e := ReadOwnedStatus(Rebalance, startId);
        UseOne(old(pending), sent, left, e);
        Proceed(ToWatch, proof, startId, sent, e);
        StatusStep(ToWatch, proof, startId, |sent|, e);
        ExtendOne(before, Rebalance, proof, startId, sent, e);
        sent := sent + [e];
        if answer.Err? {
          return Err(answer.error), sent;
        }
        var sample := OwnedSample(Rebalance, proof, startId, Exchange(StatusSent, answer.value, ownership));
        if Ended(Rebalance, sample.value) {
          RunStaysBound(before, proof, startId, sent);
          return Ok(answer.value.rebalance), sent;
        }
        if answer.value.late {
          return Fail(DeadlinePassed), sent;
        }
      }
    }

    /** stop_owned_rebalance */
    method StopOwnedRebalance(id: string) returns (result: Result<()>, ghost sent: seq<Exchange>)
      modifies this`pending, this`log, this`transcript
      ensures log == old(log) + sent && (forall e :: e in sent ==> e.owner == ownership)
      ensures ControlSafe(Rebalance, proof, id, sent)
      ensures transcript == Extended(old(transcript), Rebalance, proof, id, sent)
      ensures Carried(ToStop, proof, id, sent) && UsesUp(old(pending), sent, pending)
      ensures result == OutcomeOf(ToStop, proof, id, sent[|sent| - 1])
      ensures result.Ok? ==>
                && var s := OwnedSample(Rebalance, proof, id, sent[|sent| - 1]);
                && s.Some? && Ended(Rebalance, s.value)
    {
      hide OwnedSample, Extended, Ended, ControlSafe, Due, Carried, UsesUp, MustFollow, OutcomeOf;
      ghost var before, script := transcript, pending;
      NothingSent(before, Rebalance, proof, id);
      NothingDone(ToStop, proof, id);
      NothingUsed(pending);
      var answer, e := ReadOwnedStatus(Rebalance, id);
      assert [] + [e] == [e];
      UseOne(script, [], script, e);
      Proceed(ToStop, proof, id, [], e);
      StatusStep(ToStop, proof, id, 0, e);
      sent := [e];
      if answer.Err? {
        result := Err(answer.error);
      } else if Ended(Rebalance, OwnedSample(Rebalance, proof, id, Exchange(StatusSent, answer.value, ownership)).value) {
        result := Ok(());
      } else if answer.value.late {
        result := Fail(DeadlinePassed);
      } else {
        result, sent := StopAndWait(id, before, e, script);
      }
      CarriedRunIsSafe(ToStop, proof, id, sent);
      if result.Ok? {
        StopSucceedsOnItsEnd(proof, id, sent);
      }
    }

    /** The stop request, and the statuses after it until the operation has ended. */
    method StopAndWait(id: string, ghost before: Transcript, ghost first: Exchange, ghost script: seq<Reply>)
      returns (result: Result<()>, ghost sent: seq<Exchange>)
      requires first.owner == ownership && transcript == Extended(before, Rebalance, proof, id, [first])
      requires Due(ToStop, proof, id, [first], StopSent) && UsesUp(script, [first], pending)
      modifies this`pending, this`log, this`transcript
      ensures sent != [] && sent[0] == first && log == old(log) + sent[1..] && (forall e :: e in sent ==> e.owner == ownership)
      ensures transcript == Extended(before, Rebalance, proof, id, sent)
      ensures Carried(ToStop, proof, id, sent) && UsesUp(script, sent, pending)
      ensures result == OutcomeOf(ToStop, proof, id, sent[|sent| - 1])
    {
      hide OwnedSample, Extended, Ended, Due, Carried, UsesUp, MustFollow, OutcomeOf;
      ghost var left := pending;
      var reply := Send(StopSent);
      ghost var stop := Exchange(StopSent, reply, ownership);
      UseOne(script, [first], left, stop);
      Proceed(ToStop, proof, id, [first], stop);
      ControlStep(ToStop, proof, id, 1, stop);
      ExtendOne(before, Rebalance, proof, id, [first], stop);
      ExtendByControl(transcript, Rebalance, proof, id, stop);
      sent := [first] + [stop];
      if reply.Silent? {
        return Fail(NoReply), sent;
      }
      transcript := transcript.(requests := transcript.requests + [reply.request]);
      if reply.late {
        return Fail(DeadlinePassed), sent;
      }
      while true
        invariant |sent| > 1 && sent[0] == first && log == old(log) + sent[1..] && (forall e :: e in sent ==> e.owner == ownership)
        invariant transcript == Extended(before, Rebalance, proof, id, sent)
        invariant Due(ToStop, proof, id, sent, StatusSent) && UsesUp(script, sent, pending)
        decreases |pending|
      {
        left := pending;
        var answer, e := ReadOwnedStatus(Rebalance, id);
        UseOne(script, sent, left, e);
        Proceed(ToStop, proof, id, sent, e);
        StatusStep(ToStop, proof, id, |sent|, e);
        ExtendOne(before, Rebalance, proof, id, sent, e);
        assert (sent + [e])[1..] == sent[1..] + [e];
        sent := sent + [e];
        if answer.Err? {
          return Err(answer.error), sent;
        }
        if Ended(Rebalance, OwnedSample(Rebalance, proof, id, Exchange(StatusSent, answer.value, ownership)).value) {
          return Ok(()), sent;
        }
        if answer.value.late {
          return Fail(DeadlinePassed), sent;
        }
      }
    }

    /** clear_terminal_decommission */
    method ClearTerminalDecommission(id: string, status: Reply) returns (result: Result<()>, ghost sent: seq<Exchange>)
      requires status.Answered?
      modifies this`pending, this`log, this`transcript
      ensures log == old(log) + sent && |sent| <= 1
      ensures sent != [] ==>
                && sent[0].kind.ClearSent? && sent[0].owner == ownership
                && ReadyToClear(proof, id, Exchange(StatusSent, status, ownership))
      ensures transcript == Extended(old(transcript), Decommission, proof, id, sent)
      ensures result.Ok? ==> sent != [] && Acknowledged(proof, sent[0])
      ensures sent != [] <==> ReadyToClear(proof, id, Exchange(StatusSent, status, ownership)) && !status.late
      ensures sent == [] ==> result == Fail(if !Clearable(status.decommission) then NotClearable
                                            else if OwnedSample(Decommission, proof, id, Exchange(StatusSent, status, ownership)).None? then ForeignOperation
                                            else DeadlinePassed)
      ensures sent != [] ==> result == OutcomeOf(ToCancel, proof, id, sent[0]) && sent[0].reply == NextReply(old(pending)) && pending == RestOf(old(pending))
      ensures sent == [] ==> pending == old(pending)
    {
      hide DecommissionSample, SelfConsistent, RevealedId, ControlValid, Extended, Clearable;
      NothingSent(transcript, Decommission, proof, id);
      sent := [];
      if !Clearable(status.decommission) {
        return Fail(NotClearable), [];
      }
      if OwnedSample(Decommission, proof, id, Exchange(StatusSent, status, ownership)).None? {
        return Fail(ForeignOperation), [];
      }
      if status.late {
        return Fail(DeadlinePassed), [];
      }
      var reply := Send(ClearSent);
      ghost var clear := Exchange(ClearSent, reply, ownership);
      ExtendByControl(transcript, Decommission, proof, id, clear);
      if reply.Silent? {
        return Fail(NoReply), [clear];
      }
      transcript := transcript.(requests := transcript.requests + [reply.request]);
      if !ControlValid(proof, PoolsClear, reply.request) {
        return Fail(BadControl), [clear];
      }
      return Ok(()), [clear];
    }

    /** What follows a status of the owned operation that has ended. */
    method Settle(id: string, status: Reply, ghost before: Transcript, ghost seen: seq<Exchange>, ghost script: seq<Reply>)
      returns (result: Result<()>, ghost sent: seq<Exchange>)
      requires status.Answered? && TerminalWord(status.decommission.status)
      requires OwnedSample(Decommission, proof, id, Exchange(StatusSent, status, ownership)).Some?
      requires transcript == Extended(before, Decommission, proof, id, seen + [Exchange(StatusSent, status, ownership)])
      requires Due(ToCancel, proof, id, seen, StatusSent) && UsesUp(script, seen + [Exchange(StatusSent, status, ownership)], pending)
      modifies this`pending, this`log, this`transcript
      ensures log == old(log) + sent && |sent| <= 1 && (forall e :: e in sent ==> e.owner == ownership)
      ensures var run := seen + [Exchange(StatusSent, status, ownership)] + sent;
              && transcript == Extended(before, Decommission, proof, id, run)
              && Carried(ToCancel, proof, id, run) && result == OutcomeOf(ToCancel, proof, id, run[|run| - 1])
              && UsesUp(script, run, pending)
    {
      hide OwnedSample, Extended, ControlValid, Clearable, SuccessfulCompletion, Due, Carried, UsesUp, TerminalWord;
      ghost var e, left := Exchange(StatusSent, status, ownership), pending;
      EndedByItsWord(proof, id, e);
      Proceed(ToCancel, proof, id, seen, e);
      assert seen + [e] + [] == seen + [e];
      if SuccessfulCompletion(status.decommission) {
        return Ok(()), [];
      }
      NothingSent(transcript, Decommission, proof, id);
      result, sent := ClearTerminalDecommission(id, status);
      if sent != [] {
        assert sent == [sent[0]];
        UseOne(script, seen + [e], left, sent[0]);
        Proceed(ToCancel, proof, id, seen + [e], sent[0]);
        ExtendOne(before, Decommission, proof, id, seen + [e], sent[0]);
      }
    }

    /** cancel_owned_decommission */
    method CancelOwnedDecommission(id: string) returns (result: Result<()>, ghost sent: seq<Exchange>)
      modifies this`pending, this`log, this`transcript
      ensures log == old(log) + sent && (forall e :: e in sent ==> e.owner == ownership)
      ensures ControlSafe(Decommission, proof, id, sent)
      ensures transcript == Extended(old(transcript), Decommission, proof, id, sent)
      ensures result.Ok? ==>
                && sent != [] && Settled(sent[|sent| - 1])
                && forall e :: e in sent && IsControl(e.kind) ==> Acknowledged(proof, e)
      ensures proof.targetId.None? || proof.targetExpression.None? ==> sent == [] && result == Fail(NoTarget)
      ensures proof.targetId.Some? && proof.targetExpression.Some? ==>
                && Carried(ToCancel, proof, id, sent) && UsesUp(old(pending), sent, pending)
                && result == OutcomeOf(ToCancel, proof, id, sent[|sent| - 1])
    {
      hide OwnedSample, Extended, ControlSafe, Acknowledged, SeesSuccess, TerminalWord, Due, Carried, UsesUp, MustFollow, OutcomeOf;
      ghost var before, script := transcript, pending;
      NothingSent(before, Decommission, proof, id);
      if proof.targetId.None? || proof.targetExpression.None? {
        NothingToControl(Decommission, proof);
        return Fail(NoTarget), [];
      }
      NothingDone(ToCancel, proof, id);
      NothingUsed(pending);
      var answer, e := ReadOwnedStatus(Decommission, id);
      assert [] + [e] == [e];
      UseOne(script, [], script, e);
      Proceed(ToCancel, proof, id, [], e);
      StatusStep(ToCancel, proof, id, 0, e);
      sent := [e];
      if answer.Err? {
        result := Err(answer.error);
      } else {
        EndedByItsWord(proof, id, e);
        if TerminalWord(answer.value.decommission.status) {
          ghost var tail;
          result, tail := Settle(id, answer.value, before, [], script);
          sent := [] + [e] + tail;
        } else if answer.value.late {
          result := Fail(DeadlinePassed);
        } else {
          result, sent := CancelAndWait(id, before, e, script);
        }
      }
      CarriedRunIsSafe(ToCancel, proof, id, sent);
      if result.Ok? {
        SuccessIsAcknowledged(proof, id, sent);
      }
    }

    /** The cancel request, and the statuses after it until the operation has ended. */
    method CancelAndWait(id: string, ghost before: Transcript, ghost first: Exchange, ghost script: seq<Reply>)
      returns (result: Result<()>, ghost sent: seq<Exchange>)
      requires first.owner == ownership && transcript == Extended(before, Decommission, proof, id, [first])
      requires Due(ToCancel, proof, id, [first], CancelSent) && UsesUp(script, [first], pending)
      modifies this`pending, this`log, this`transcript
      ensures sent != [] && sent[0] == first && log == old(log) + sent[1..] && (forall e :: e in sent ==> e.owner == ownership)
      ensures transcript == Extended(before, Decommission, proof, id, sent)
      ensures Carried(ToCancel, proof, id, sent) && UsesUp(script, sent, pending)
      ensures result == OutcomeOf(ToCancel, proof, id, sent[|sent| - 1])
    {
      hide OwnedSample, Extended, Acknowledged, TerminalWord, Due, Carried, UsesUp, MustFollow, OutcomeOf;
      ghost var left := pending;
      var acknowledged, late, cancel := SendCancel(id);
      UseOne(script, [first], left, cancel);
      Proceed(ToCancel, proof, id, [first], cancel);
      ControlStep(ToCancel, proof, id, 1, cancel);
      ExtendOne(before, Decommission, proof, id, [first], cancel);
      sent := [first] + [cancel];
      if acknowledged.Err? {
        return acknowledged, sent;
      }
      if late {
        return Fail(DeadlinePassed), sent;
      }
      ghost var done := sent;
      result, sent := AwaitEnd(id, before, done, script);
      assert sent[1..] == [cancel] + sent[2..];
    }

    /** The statuses after an acknowledged cancel, until the operation has ended, and what then follows. */
    method AwaitEnd(id: string, ghost before: Transcript, ghost done: seq<Exchange>, ghost script: seq<Reply>)
      returns (result: Result<()>, ghost sent: seq<Exchange>)
      requires (forall e :: e in done ==> e.owner == ownership) && transcript == Extended(before, Decommission, proof, id, done)
      requires |done| > 1 && Due(ToCancel, proof, id, done, StatusSent) && UsesUp(script, done, pending)
      modifies this`pending, this`log, this`transcript
      ensures done <= sent && log == old(log) + sent[|done|..] && (forall e :: e in sent ==> e.owner == ownership)
      ensures transcript == Extended(before, Decommission, proof, id, sent)
      ensures Carried(ToCancel, proof, id, sent) && UsesUp(script, sent, pending)
      ensures sent != [] && result == OutcomeOf(ToCancel, proof, id, sent[|sent| - 1])
    {
      hide OwnedSample, Extended, Acknowledged, TerminalWord, Due, Carried, UsesUp, MustFollow, OutcomeOf;
      sent := done;
      while true
        invariant done <= sent && log == old(log) + sent[|done|..] && (forall e :: e in sent ==> e.owner == ownership)
        invariant transcript == Extended(before, Decommission, proof, id, sent)
        invariant Due(ToCancel, proof, id, sent, StatusSent) && UsesUp(script, sent, pending)
        decreases |pending|
      {
        ghost var left := pending;
        var answer, e := ReadOwnedStatus(Decommission, id);
        UseOne(script, sent, left, e);
        Proceed(ToCancel, proof, id, sent, e);
        StatusStep(ToCancel, proof, id, |sent|, e);
        ExtendOne(before, Decommission, proof, id, sent, e);
        OneLonger(done, sent, [e]);
        if answer.Err? {
          return Err(answer.error), sent + [e];
        }
        EndedByItsWord(proof, id, e);
        if TerminalWord(answer.value.decommission.status) {
          ghost var tail;
          result, tail := Settle(id, answer.value, before, sent, script);
          OneLonger(done, sent + [e], tail);
          return result, sent + [e] + tail;
        }
        sent := sent + [e];
        if answer.value.late {
          return Fail(DeadlinePassed), sent;
        }
      }
    }

    method SendCancel(id: string) returns (result: Result<()>, late: bool, ghost e: Exchange)
      modifies this`pending, this`log, this`transcript
      ensures e.kind.CancelSent? && e.owner == ownership && log == old(log) + [e]
      ensures transcript == Extended(old(transcript), Decommission, proof, id, [e])
      ensures result.Ok? <==> Acknowledged(proof, e)
      ensures result.Err? ==> result == OutcomeOf(ToCancel, proof, id, e)
      ensures result.Ok? ==> e.reply.Answered? && late == e.reply.late
      ensures e.reply == NextReply(old(pending)) && pending == RestOf(old(pending))
    {
      hide ControlValid, Extended, OwnedSample;
      var reply := Send(CancelSent);
      e, late := Exchange(CancelSent, reply, ownership), false;
      ExtendByControl(transcript, Decommission, proof, id, e);
      if reply.Silent? {
        return Fail(NoReply), late, e;
      }
      transcript, late := transcript.(requests := transcript.requests + [reply.request]), reply.late;
      result := if ControlValid(proof, PoolsCancel, reply.request) then Ok(()) else Fail(BadControl);
    }

    // --------------------------------------------------------- the hooks

    /** preserve_evidence: write the transcript, keep the first failure. */
    method Preserve<T>(result: Result<T>) returns (r: Result<T>)
      modifies this`disk
      ensures r == Combine(result, Writes(old(disk))) && disk == AfterWrite(old(disk))
    {
      var ok := Persist();
      r := Combine(result, ok);
    }

    /** The same where only a failure is preserved. */
    method PreserveFailure<T>(result: Result<T>) returns (r: Result<T>)
      modifies this`disk
      ensures r == if result.Ok? then result else Combine(result, Writes(old(disk)))
    {
      r := result;
      if result.Err? {
        r := Preserve(result);
      }
    }

    /** prepare: fixture, snapshot and topology proof, all of which may fail. */
    method Prepare(outcome: Option<Fault>) returns (r: Result<()>)
      modifies this`prepared, this`disk, this`calls
      ensures prepared == outcome.None? && r == Combine(HookResult(outcome), Writes(old(disk))) && disk == AfterWrite(old(disk))
      ensures calls == old(calls) + [PrepareReturned(r.Ok?)]
    {
      prepared := outcome.None?;
      r := Preserve(HookResult(outcome));
      calls := calls + [PrepareReturned(r.Ok?)];
    }

    /** run_workload, from its first step ... */
    method BeginWorkload()
      modifies this`workloadRunning, this`calls
      ensures workloadRunning && calls == old(calls) + [WorkloadBegan]
    {
      workloadRunning := true;
      calls := calls + [WorkloadBegan];
    }

    /** ... to its return, which keeps the receipt of a finished workload. */
    method FinishWorkload(outcome: Result<WorkloadReceipt>) returns (r: Result<()>)
      modifies this`workload, this`workloadRunning, this`disk, this`calls
      ensures !workloadRunning && calls == old(calls) + [WorkloadReturned]
      ensures r == Combine(Discarded(outcome), Writes(old(disk)))
      ensures workload == if outcome.Ok? then Some(outcome.value) else old(workload)
    {
      workloadRunning := false;
      if outcome.Ok? {
        workload := Some(outcome.value);
      }
      r := Preserve(Discarded(outcome));
      calls := calls + [WorkloadReturned];
    }

    /** verify, all of whose checks may fail. */
    method Verify(outcome: Option<Fault>) returns (r: Result<()>)
      modifies this`disk, this`calls
      ensures r == Combine(HookResult(outcome), Writes(old(disk)))
      ensures calls == old(calls) + [VerifyCalled]
    {
      calls := calls + [VerifyCalled];
      r := Preserve(HookResult(outcome));
    }

    /** cleanup, which may fail. */
    method Cleanup(outcome: Option<Fault>) returns (r: Result<()>)
      modifies this`calls
      ensures r == HookResult(outcome)
      ensures calls == old(calls) + [CleanupCalled]
    {
      calls := calls + [CleanupCalled];
      r := HookResult(outcome);
    }

    /** Prepared and, for a decommission, with a pre-start snapshot that is valid and fresh now. */
    predicate MayStart(now: u64)
      reads this`prepared
    {
      && prepared
      && (isDecommission ==> PreStartSnapshotFresh(proof, poolsBefore, now) && proof.targetId.Some? && proof.targetExpression.Some?)
    }

    /** The start was answered as the driver demands. */
    predicate StartAnswered(reply: Reply) {
      reply.Answered? && if isDecommission then ControlValid(proof, PoolsDecommission, reply.request) else !IsBlank(reply.startId)
    }

    /** start: ownership is in doubt from before the request is sent until an
        answer names the operation, and the decommission start never does. */
    method Start(now: u64, attemptedAt: u64) returns (r: Result<()>, ghost sent: seq<Exchange>)
      modifies this`pending, this`log, this`transcript, this`ownership, this`disk, this`calls, this`opening
      ensures calls == old(calls) + [StartCalled]
      ensures log == old(log) + sent && |sent| <= 1
      ensures sent != [] <==> MayStart(now)
      ensures StartShape(isDecommission, proof, attemptedAt, sent, old(ownership), ownership, old(transcript), transcript, r.Ok?)
      ensures old(ownership).NotStarted? && old(Disciplined()) ==> Disciplined()
      ensures old(Tracked()) ==> Tracked()
      ensures old(CapturedLive()) ==> CapturedLive()
      ensures r.Ok? <==> sent != [] && StartAnswered(sent[0].reply) && Writes(old(disk)) && Writes(AfterWrite(old(disk)))
      ensures r.Err? && sent != [] ==>
                || (r.error.cause.NoReply? && sent[0].reply.Silent?) || r.error.cause.PersistFailed?
                || (sent[0].reply.Answered? && !StartAnswered(sent[0].reply) && r.error.cause == if isDecommission then BadControl else BlankStartId)
      ensures r.Ok? && old(Unused()) ==> RunningOn() && opening == [sent[0].reply.request] && (isDecommission ==> !IsStatus(Decommission, opening[0]))
    {
      hide MayStart, StartAnswered, Combine, StartShape, RunsOn, IsStatus, Tracks, OwnerDisciplined, AllCapturedAfter, KeepsAtMost;
      calls := calls + [StartCalled];
      r, sent := StartInner(now, attemptedAt);
      StartDelivers(isDecommission, proof, attemptedAt, sent, old(ownership), ownership, old(transcript), transcript, r.Ok?, old(log));
      if old(CapturedLive()) {
        StillCapturedAfter(poolsBefore, old(transcript.requests), transcript.requests, old(pending), pending, sent);
      }
      opening := transcript.requests;
      r := Preserve(r);
    }

    /** start_inner of the one driver or the other. */
    method StartInner(now: u64, attemptedAt: u64) returns (r: Result<()>, ghost sent: seq<Exchange>)
      modifies this`pending, this`log, this`transcript, this`ownership, this`disk
      ensures log == old(log) + sent && |sent| <= 1
      ensures sent != [] <==> MayStart(now)
      ensures StartShape(isDecommission, proof, attemptedAt, sent, old(ownership), ownership, old(transcript), transcript, r.Ok?)
      ensures KeepsAtMost(old(transcript.requests), transcript.requests, old(pending), pending, sent)
      ensures r.Ok? <==> sent != [] && StartAnswered(sent[0].reply) && Writes(old(disk))
      ensures r.Err? && sent != [] ==>
                || (r.error.cause.NoReply? && sent[0].reply.Silent?) || r.error.cause.PersistFailed?
                || (sent[0].reply.Answered? && !StartAnswered(sent[0].reply) && r.error.cause == if isDecommission then BadControl else BlankStartId)
      ensures r.Ok? || (sent != [] && r.error.cause.PersistFailed?) ==> disk == AfterWrite(old(disk))
      ensures old(Tracked()) ==> Tracked()
    {
      hide PreStartSnapshotFresh, ControlValid, Tracks, IsBlank, KeepsAtMost;
      NothingExchanged(transcript.requests, pending);
      r, sent := Fail(NotPrepared), [];
      if prepared {
        if isDecommission && !PreStartSnapshotFresh(proof, poolsBefore, now) {
          r := Fail(StaleSnapshot);
        } else if isDecommission && (proof.targetId.None? || proof.targetExpression.None?) {
          r := Fail(NoTarget);
        } else {
          r, sent := SendStart(attemptedAt);
        }
      }
    }

    /** The start request itself: whose it is stays in doubt until the answer is in. */
    method SendStart(attemptedAt: u64) returns (r: Result<()>, ghost sent: seq<Exchange>)
      modifies this`pending, this`log, this`transcript, this`ownership, this`disk
      ensures log == old(log) + sent && |sent| == 1
      ensures StartShape(isDecommission, proof, attemptedAt, sent, old(ownership), ownership, old(transcript), transcript, r.Ok?)
      ensures KeepsAtMost(old(transcript.requests), transcript.requests, old(pending), pending, sent)
      ensures r.Ok? <==> sent != [] && StartAnswered(sent[0].reply) && Writes(old(disk))
      ensures r.Err? && sent != [] ==>
                || (r.error.cause.NoReply? && sent[0].reply.Silent?) || r.error.cause.PersistFailed?
                || (sent[0].reply.Answered? && !StartAnswered(sent[0].reply) && r.error.cause == if isDecommission then BadControl else BlankStartId)
      ensures r.Ok? || (sent != [] && r.error.cause.PersistFailed?) ==> disk == AfterWrite(old(disk))
      ensures old(Tracked()) ==> Tracked()
    {
      hide ControlValid, Tracks, IsBlank;
      ownership := Ambiguous(attemptedAt);
      var reply := Send(StartSent);
      sent := [Exchange(StartSent, reply, Ambiguous(attemptedAt))];
      if reply.Silent? {
        r := Fail(NoReply);
      } else if isDecommission {
        r := KeepDecommissionStart(reply.request);
      } else {
        r := OwnRebalanceStart(reply.startId, reply.request);
      }
    }

    method KeepDecommissionStart(request: Request) returns (r: Result<()>)
      modifies this`transcript, this`disk
      ensures r == if ControlValid(proof, PoolsDecommission, request) then Combine(Ok(()), Writes(old(disk))) else Fail(BadControl)
      ensures disk == if ControlValid(proof, PoolsDecommission, request) then AfterWrite(old(disk)) else old(disk)
      ensures transcript == old(transcript) || transcript == old(transcript).(requests := old(transcript.requests) + [request])
      ensures r.Ok? ==> transcript.requests == old(transcript.requests) + [request]
      ensures old(Tracked()) ==> Tracked()
    {
      hide ControlValid;
      if !ControlValid(proof, PoolsDecommission, request) {
        return Fail(BadControl);
      }
      transcript := transcript.(requests := transcript.requests + [request]);
      var ok := Persist();
      r := Combine(Ok(()), ok);
    }

    method OwnRebalanceStart(id: string, request: Request) returns (r: Result<()>)
      modifies this`transcript, this`ownership, this`disk
      ensures if IsBlank(id) then r.Err? && ownership == old(ownership) && transcript == old(transcript)
              else ownership == Owned(id) && transcript == Transcript(Some(id), old(transcript.requests) + [request], old(transcript.progress))
      ensures r == if IsBlank(id) then Fail(BlankStartId) else Combine(Ok(()), Writes(old(disk)))
      ensures disk == if IsBlank(id) then old(disk) else AfterWrite(old(disk))
    {
      hide IsBlank;
      if IsBlank(id) {
        return Fail(BlankStartId);
      }
      ownership := Owned(id);
      transcript := Transcript(Some(id), transcript.requests + [request], transcript.progress);
      var ok := Persist();
      r := Combine(Ok(()), ok);
    }

    /** observe: one status request.  The decommission driver learns here which
        operation it owns; the rebalance driver reads only the one it owns. */
    method Observe() returns (r: Result<Observation>, ghost sent: seq<Exchange>)
      modifies this`pending, this`log, this`transcript, this`ownership, this`statusCalls, this`terminal, this`disk, this`calls, this`watched
      ensures calls == old(calls) + [ObserveCalled]
      ensures log == old(log) + sent && |sent| <= 1
      ensures forall e :: e in sent ==> e.kind.StatusSent? && e.owner == old(ownership)
      ensures old(transcript.operationId).Some? ==> transcript.operationId == old(transcript.operationId)
      ensures ownership == old(ownership) || (isDecommission && ownership.Owned? && transcript.operationId == Some(ownership.operationId))
      ensures r.Ok? ==> sent != [] && sent[0].reply.Answered? && transcript.requests == old(transcript.requests) + [sent[0].reply.request]
      ensures r.Ok? && isDecommission && old(Tracked()) ==> (r.value.Finished? <==> TerminalWord(sent[0].reply.decommission.status))
      ensures r == Ok(Finished) && old(Tracked()) ==>
                && terminal && ownership.Owned? && transcript.progress != []
                && var s := transcript.progress[|transcript.progress| - 1];
                && s.completed && !s.failed && !s.canceledOrStopped
      ensures !old(ownership).NotStarted? && old(Disciplined()) ==> Disciplined()
      ensures old(Tracked()) ==> Tracked()
      ensures old(CapturedLive()) ==> CapturedLive()
      ensures r.Ok? && old(RunningOn()) && old(Disciplined()) ==> if r.value.Finished? then RunOut() else RunningOn()
      ensures old(Tracked()) ==>
                ObservesOnce(isDecommission, proof, prepared, old(ownership), old(transcript.operationId), sent, Writes(old(disk)), r)
      ensures r.Ok? && isDecommission && old(Tracked()) ==>
                proof.targetId.Some? && LearnsOwner(proof, CallOf(sent[0]), transcript.operationId, old(ownership), ownership)
    {
      hide LearnsOwner, ObservesOnce, RunsOn, RanOut, Tracks, OwnerDisciplined, RevealedId, CapturedAfter, TerminalWord, AllCapturedAfter, KeepsAtMost;
      calls := calls + [ObserveCalled];
      r, sent := ObserveInner();
      ObservationKeeps(old(log), sent, old(ownership), ownership, old(transcript), transcript, poolsBefore, old(pending), pending);
      ghost var inner := r;
      r := PreserveFailure(r);
      CauseIsKept(isDecommission, proof, prepared, old(ownership), old(transcript.operationId), sent, Writes(old(disk)), inner, r);
    }

    /** observe_inner of the one driver or the other. */
    method ObserveInner() returns (r: Result<Observation>, ghost sent: seq<Exchange>)
      modifies this`pending, this`log, this`transcript, this`ownership, this`statusCalls, this`terminal, this`disk, this`watched
      ensures log == old(log) + sent && |sent| <= 1
      ensures KeepsAtMost(old(transcript.requests), transcript.requests, old(pending), pending, sent)
      ensures forall e :: e in sent ==> e.kind.StatusSent? && e.owner == old(ownership)
      ensures old(transcript.operationId).Some? ==> transcript.operationId == old(transcript.operationId)
      ensures ownership == old(ownership) || (isDecommission && ownership.Owned? && transcript.operationId == Some(ownership.operationId))
      ensures r.Ok? ==> sent != [] && sent[0].reply.Answered? && transcript.requests == old(transcript.requests) + [sent[0].reply.request]
      ensures r.Ok? && isDecommission && old(Tracked()) ==> (r.value.Finished? <==> TerminalWord(sent[0].reply.decommission.status))
      ensures r == Ok(Finished) && old(Tracked()) ==>
                && terminal && ownership.Owned? && transcript.progress != []
                && var s := transcript.progress[|transcript.progress| - 1];
                && s.completed && !s.failed && !s.canceledOrStopped
      ensures old(Tracked()) ==> Tracked()
      ensures r.Ok? && old(RunningOn()) && (old(ownership.Owned?) ==> old(transcript.operationId) == Some(old(ownership).operationId)) ==>
                if r.value.Finished? then RunOut() else RunningOn()
      ensures old(Tracked()) ==>
                ObservesOnce(isDecommission, proof, prepared, old(ownership), old(transcript.operationId), sent, Writes(old(disk)), r)
      ensures r.Ok? && isDecommission && old(Tracked()) ==>
                proof.targetId.Some? && LearnsOwner(proof, CallOf(sent[0]), transcript.operationId, old(ownership), ownership)
    {
      hide LearnsOwner, DecommissionObserved, RebalanceObserved, DecommissionRunsOn, DecommissionRanOut, RebalanceRunsOn, RebalanceRanOut, Tracks, OwnedSample, TerminalWord, KeepsAtMost;
      NothingExchanged(transcript.requests, pending);
      r, sent := Fail(NotPrepared), [];
      if prepared {
        if isDecommission {
          r, sent := ObserveDecommission();
        } else if ownership.Owned? {
          r, sent := ObserveRebalance();
        } else {
          r := Fail(NotOwned);
        }
      }
    }

    method ObserveDecommission() returns (r: Result<Observation>, ghost sent: seq<Exchange>)
      modifies this`pending, this`log, this`transcript, this`ownership, this`statusCalls, this`terminal, this`disk
      ensures log == old(log) + sent && |sent| <= 1
      ensures KeepsAtMost(old(transcript.requests), transcript.requests, old(pending), pending, sent)
      ensures forall e :: e in sent ==> e.kind.StatusSent? && e.owner == old(ownership)
      ensures old(transcript.operationId).Some? ==> transcript.operationId == old(transcript.operationId)
      ensures ownership == old(ownership) || (ownership.Owned? && transcript.operationId == Some(ownership.operationId))
      ensures r.Ok? ==> sent != [] && sent[0].reply.Answered? && transcript.requests == old(transcript.requests) + [sent[0].reply.request]
      ensures r.Ok? && old(Tracks(proof, FRESH, transcript, statusCalls)) ==> (r.value.Finished? <==> TerminalWord(sent[0].reply.decommission.status))
      ensures r == Ok(Finished) && old(Tracks(proof, FRESH, transcript, statusCalls)) ==>
                && terminal && transcript.operationId.Some? && ownership.Owned? && transcript.progress != []
                && var s := transcript.progress[|transcript.progress| - 1];
                && s.completed && !s.failed && !s.canceledOrStopped
      ensures old(Tracks(proof, FRESH, transcript, statusCalls)) ==> Tracks(proof, FRESH, transcript, statusCalls)
      ensures r.Ok? && old(DecommissionRunsOn(proof, opening, transcript, statusCalls)) ==>
                if r.value.Finished? then DecommissionRanOut(proof, opening, transcript, statusCalls)
                else DecommissionRunsOn(proof, opening, transcript, statusCalls)
      ensures if proof.targetId.None? || proof.targetExpression.None? then sent == [] && r == Fail(NoTarget)
              else |sent| == 1 && (old(Tracks(proof, FRESH, transcript, statusCalls)) ==>
                     Reports(DecommissionObserved(proof, old(transcript.operationId), sent[0], Writes(old(disk))), r))
      ensures r.Ok? && old(Tracks(proof, FRESH, transcript, statusCalls)) ==>
                proof.targetId.Some? && LearnsOwner(proof, CallOf(sent[0]), transcript.operationId, old(ownership), ownership)
    {
      hide LearnsOwner, DecommissionObserved, DecommissionRunsOn, DecommissionRanOut, Tracks, TerminalWord;
      sent := [];
      if proof.targetId.None? || proof.targetExpression.None? {
        return Fail(NoTarget), [];
      }
      var reply := Send(StatusSent);
      sent := [Exchange(StatusSent, reply, ownership)];
      if reply.Silent? {
        SilenceIsNoReply(proof, transcript.operationId, sent[0], Writes(disk));
        return Fail(NoReply), sent;
      }
      var verdict := TakeIn(reply, sent[0]);
      if verdict.Refused? {
        return Fail(verdict.cause), sent;
      }
      var ok := Persist();
      if !ok {
        return Fail(PersistFailed), sent;
      }
      if TerminalWord(verdict.sample.state) {
        terminal := true;
        var s := verdict.sample;
        if !(s.completed && !s.failed && !s.canceledOrStopped) {
          return Fail(UnsuccessfulTerminal), sent;
        }
        return Ok(Finished), sent;
      }
      return Ok(StillActive), sent;
    }

    /** The middle of observe_inner: keep the receipt, learn whose operation it is, project all receipts anew. */
    method TakeIn(reply: Reply, ghost e: Exchange) returns (verdict: Verdict)
      requires reply.Answered? && e.reply == reply && proof.targetId.Some?
      modifies this`transcript, this`ownership, this`statusCalls
      ensures transcript.requests == old(transcript.requests) + [reply.request]
      ensures old(transcript.operationId).Some? ==> transcript.operationId == old(transcript.operationId)
      ensures ownership == old(ownership) || (ownership.Owned? && transcript.operationId == Some(ownership.operationId))
      ensures old(Tracks(proof, FRESH, transcript, statusCalls)) ==>
                Tracks(proof, FRESH, transcript, statusCalls) && VerdictFits(proof, old(transcript.operationId), e, verdict)
      ensures old(Tracks(proof, FRESH, transcript, statusCalls)) && verdict.Accepted? ==>
                && verdict.sample.state == reply.decommission.status
                && (TerminalWord(verdict.sample.state) ==>
                      && transcript.operationId.Some? && ownership.Owned? && transcript.progress != []
                      && verdict.sample == transcript.progress[|transcript.progress| - 1])
      ensures old(Tracks(proof, FRESH, transcript, statusCalls)) ==>
                if verdict.Accepted? then LearnsOwner(proof, Call(reply.decommission, reply.request), transcript.operationId, old(ownership), ownership)
                else ownership == old(ownership) && transcript.operationId == old(transcript.operationId)
      ensures old(DecommissionRunsOn(proof, opening, transcript, statusCalls)) && verdict.Accepted? ==>
                if TerminalWord(verdict.sample.state) then DecommissionRanOut(proof, opening, transcript, statusCalls)
                else DecommissionRunsOn(proof, opening, transcript, statusCalls)
    {
      hide VerdictFits, DecommissionRunsOn, DecommissionRanOut, Tracks, TerminalWord, Absorb, RevealedId;
      var call := Call(reply.decommission, reply.request);
      var next := Absorb(proof, transcript, statusCalls, call);
      AbsorbKeepsTracking(proof, transcript, statusCalls, call);
      if Tracks(proof, FRESH, transcript, statusCalls) {
        AbsorbDecides(proof, FRESH, transcript, statusCalls, e);
      }
      if DecommissionRunsOn(proof, opening, transcript, statusCalls) {
        DecommissionTurn(proof, opening, transcript, statusCalls, call);
      }
      var identified := next.calls != statusCalls && next.transcript.operationId.Some?;
      transcript, statusCalls := next.transcript, next.calls;
      if identified {
        ownership := Owned(transcript.operationId.value);
      }
      verdict := next.verdict;
    }

    method ObserveRebalance() returns (r: Result<Observation>, ghost sent: seq<Exchange>)
      requires ownership.Owned?
      modifies this`pending, this`log, this`transcript, this`terminal, this`disk, this`watched
      ensures |sent| == 1 && log == old(log) + sent && sent[0].kind.StatusSent? && sent[0].owner == ownership
      ensures KeepsAtMost(old(transcript.requests), transcript.requests, old(pending), pending, sent)
      ensures var s := OwnedSample(Rebalance, proof, ownership.operationId, sent[0]);
              if s.None? then r.Err? && transcript == old(transcript)
              else
                && sent[0].reply.Answered?
                && transcript == Transcript(old(transcript.operationId), old(transcript.requests) + [sent[0].reply.request],
                                            old(transcript.progress) + [s.value])
                && (r.Ok? ==> r == Ok(if s.value.completed then Finished else StillActive))
                && (r == Ok(Finished) ==> terminal && s.value.completed && !s.value.failed && !s.value.canceledOrStopped)
      ensures r.Ok? && old(RebalanceRunsOn(proof, opening, transcript, watched)) && old(transcript.operationId) == Some(ownership.operationId) ==>
                if r.value.Finished? then RebalanceRanOut(proof, opening, transcript, watched)
                else RebalanceRunsOn(proof, opening, transcript, watched)
      ensures Reports(RebalanceObserved(proof, ownership.operationId, sent[0], Writes(old(disk))), r)
    {
      hide OwnedSample, RebalanceRunsOn, RebalanceRanOut;
      var reply := Send(StatusSent);
      sent := [Exchange(StatusSent, reply, ownership)];
      var sample := OwnedSample(Rebalance, proof, ownership.operationId, Exchange(StatusSent, reply, ownership));
      if sample.None? {
        return Fail(if reply.Silent? then NoReply else ForeignOperation), sent;
      }
      OwnedReceiptIsBound(proof, ownership.operationId, sent[0]);
      if RebalanceRunsOn(proof, opening, transcript, watched) && transcript.operationId == Some(ownership.operationId) {
        RebalanceTurn(proof, opening, transcript, sent[0], watched);
      }
      watched := watched + sent;
      transcript := Transcript(transcript.operationId, transcript.requests + [reply.request], transcript.progress + [sample.value]);
      var ok := Persist();
      if !ok {
        return Fail(PersistFailed), sent;
      }
      if !Ended(Rebalance, sample.value) {
        return Ok(StillActive), sent;
      }
      terminal := true;
      if !(sample.value.completed && !sample.value.failed && !sample.value.canceledOrStopped) {
        return Fail(UnsuccessfulTerminal), sent;
      }
      return Ok(Finished), sent;
    }

    function CancelPurpose(): Purpose {
      if isDecommission then ToCancel else ToStop
    }

    /** Prepared and, for a decommission, with a target. */
    predicate Equipped()
      reads this`prepared
    {
      prepared && (isDecommission ==> proof.targetId.Some? && proof.targetExpression.Some?)
    }

    /** cancel: touches only an operation proven to be this attempt's. */
    method Cancel() returns (r: Result<CancelOutcome>, ghost sent: seq<Exchange>)
      modifies this`pending, this`log, this`transcript, this`disk, this`calls
      ensures calls == old(calls) + [CancelCalled]
      ensures log == old(log) + sent && (forall e :: e in sent ==> e.owner == ownership)
      ensures ownership.NotStarted? ==> sent == [] && r == Ok(NoOwnedOperation)
      ensures ownership.Ambiguous? ==> |sent| <= 1 && (forall e :: e in sent ==> e.kind.StatusSent?) && (r.Ok? ==> r == Ok(NoOwnedOperation))
      ensures ownership.Ambiguous? && Equipped() ==>
                && |sent| == 1
                && (r.Ok? <==>
                      && Writes(old(disk))
                      && if isDecommission then DecommissionIsOver(proof, ownership.attemptedAt, sent[0])
                         else RebalanceIsOver(proof, ownership.attemptedAt, sent[0]))
      ensures ownership.Owned? ==> ControlSafe(Driven(), proof, ownership.operationId, sent)
      ensures r == Ok(NoOwnedOperation) ==> forall e :: e in sent ==> !IsControl(e.kind)
      ensures transcript.operationId == old(transcript.operationId)
      ensures old(Disciplined()) ==> Disciplined()
      ensures ownership.Owned? && Equipped() ==>
                && Carried(CancelPurpose(), proof, ownership.operationId, sent) && UsesUp(old(pending), sent, pending)
                && CancelReports(OutcomeOf(CancelPurpose(), proof, ownership.operationId, sent[|sent| - 1]), Discarded(r))
    {
      hide ControlSafe, OwnerDisciplined, ControlValid, Carried, UsesUp, OutcomeOf, OwnedSample, SelfConsistent, TerminalWord, Settled, Ended, IsBlank;
      hide DecommissionIsOver, RebalanceIsOver;
      calls := calls + [CancelCalled];
      sent := [];
      if ownership.NotStarted? {
        return Ok(NoOwnedOperation), [];
      }
      if !prepared {
        NothingToControl(Driven(), proof);
        return Fail(NotPrepared), [];
      }
      if ownership.Ambiguous? {
        if isDecommission {
          r, sent := ReconcileDecommission();
        } else {
          r, sent := ReconcileRebalance();
        }
      } else if isDecommission {
        r, sent := CancelDecommission(ownership.operationId);
      } else {
        var stopped;
        stopped, sent := StopOwnedRebalance(ownership.operationId);
        var ok := Persist();
        var combined := Combine(stopped, ok);
        r := if combined.Ok? then Ok(CanceledOwnedOperation) else Err(combined.error);
      }
      if old(Disciplined()) {
        KnownOwner(old(log), ownership, old(transcript.operationId));
        DisciplineKept(old(log), sent, ownership, ownership, ownership, old(transcript.operationId), transcript.operationId);
      }
    }

    method CancelDecommission(id: string) returns (r: Result<CancelOutcome>, ghost sent: seq<Exchange>)
      modifies this`pending, this`log, this`transcript, this`disk
      ensures log == old(log) + sent && (forall e :: e in sent ==> e.owner == ownership)
      ensures ControlSafe(Decommission, proof, id, sent)
      ensures transcript == Extended(old(transcript), Decommission, proof, id, sent)
      ensures r == Ok(NoOwnedOperation) ==> forall e :: e in sent ==> !IsControl(e.kind)
      ensures r.Ok? ==> sent != [] && Settled(sent[|sent| - 1])
      ensures proof.targetId.Some? && proof.targetExpression.Some? ==>
                && Carried(ToCancel, proof, id, sent) && UsesUp(old(pending), sent, pending)
                && CancelReports(OutcomeOf(ToCancel, proof, id, sent[|sent| - 1]), Discarded(r))
    {
      hide Carried, UsesUp, OutcomeOf, ControlSafe, OwnedSample, OwnedSamples, AnsweredRequests, SeesSuccess;
      var canceled;
      canceled, sent := CancelOwnedDecommission(id);
      var ok := Persist();
      var combined := Combine(canceled, ok);
      if combined.Err? {
        return Err(combined.error), sent;
      }
      var touched := exists q :: q in transcript.requests && (q.path.PoolsCancel? || q.path.PoolsClear?);
      ControlShows(proof, id, sent);
      return Ok(if touched then CanceledOwnedOperation else NoOwnedOperation), sent;
    }

    /** An ambiguous start is only looked at: one status, and never a control request. */
    method ReconcileDecommission() returns (r: Result<CancelOutcome>, ghost sent: seq<Exchange>)
      requires ownership.Ambiguous?
      modifies this`pending, this`log, this`transcript, this`disk
      ensures log == old(log) + sent && |sent| <= 1
      ensures forall e :: e in sent ==> e.kind.StatusSent? && e.owner == ownership
      ensures transcript.operationId == old(transcript.operationId)
      ensures r.Ok? ==>
                && r == Ok(NoOwnedOperation) && sent != [] && sent[0].reply.Answered?
                && sent[0].reply.request.startedAt >= ownership.attemptedAt && TerminalWord(sent[0].reply.decommission.status)
      ensures sent != [] <==> proof.targetId.Some? && proof.targetExpression.Some?
      ensures r.Ok? <==> sent != [] && DecommissionIsOver(proof, ownership.attemptedAt, sent[0]) && Writes(old(disk))
    {
      hide SelfConsistent, RevealedId, DecommissionSample;
      sent := [];
      if proof.targetId.None? || proof.targetExpression.None? {
        return Fail(NoTarget), [];
      }
      var reply := Send(StatusSent);
      sent := [Exchange(StatusSent, reply, ownership)];
      if reply.Silent? {
        return Fail(NoReply), sent;
      }
      if reply.request.startedAt < ownership.attemptedAt {
        return Fail(PredatesStart), sent;
      }
      var call := Call(reply.decommission, reply.request);
      if !SelfConsistent(proof, call) {
        return Fail(BadReceipt), sent;
      }
      SampleState(proof, call);
      SelfConsistentSample(proof, call);
      transcript := transcript.(requests := transcript.requests + [call.request]);
      var candidate := RevealedId(proof, call);
      if candidate.Some? {
        var sample := DecommissionSample(proof, candidate.value, call);
        if sample.None? {
          return Fail(BadReceipt), sent;
        }
        transcript := transcript.(progress := transcript.progress + [sample.value]);
        if TerminalWord(sample.value.state) {
          var ok := Persist();
          return if ok then Ok(NoOwnedOperation) else Fail(PersistFailed), sent;
        }
      }
      var ok := Persist();
      return Fail(if ok then StillAmbiguous else PersistFailed), sent;
    }

    method ReconcileRebalance() returns (r: Result<CancelOutcome>, ghost sent: seq<Exchange>)
      requires ownership.Ambiguous?
      modifies this`pending, this`log, this`transcript, this`disk
      ensures log == old(log) + sent && |sent| <= 1
      ensures forall e :: e in sent ==> e.kind.StatusSent? && e.owner == ownership
      ensures transcript.operationId == old(transcript.operationId)
      ensures r.Ok? ==>
                && r == Ok(NoOwnedOperation) && sent != [] && sent[0].reply.Answered?
                && sent[0].reply.request.startedAt >= ownership.attemptedAt
                && var s := OwnedSample(Rebalance, proof, sent[0].reply.rebalance.id, sent[0]);
                && s.Some? && Ended(Rebalance, s.value)
      ensures sent != []
      ensures r.Ok? <==> RebalanceIsOver(proof, ownership.attemptedAt, sent[0]) && Writes(old(disk))
    {
      hide RebalanceSample, IsBlank;
      var reply := Send(StatusSent);
      sent := [Exchange(StatusSent, reply, ownership)];
      if reply.Silent? {
        return Fail(NoReply), sent;
      }
      if reply.request.startedAt < ownership.attemptedAt || IsBlank(reply.rebalance.id) {
        return Fail(PredatesStart), sent;
      }
      var sample := RebalanceSample(proof, reply.rebalance.id, Call(reply.rebalance, reply.request));
      if sample.None? {
        return Fail(BadReceipt), sent;
      }
      transcript := Transcript(transcript.operationId, transcript.requests + [reply.request], transcript.progress + [sample.value]);
      var ok := Persist();
      if !ok {
        return Fail(PersistFailed), sent;
      }
      return if Ended(Rebalance, sample.value) then Ok(NoOwnedOperation) else Fail(StillAmbiguous), sent;
    }

    /** verify_completed_overlap: an operation that ended before it was seen running
        must be proven, from its receipts, to have overlapped the workload.  Since
        a live adapter captures its endpoint anew for every request, it never is. */
    method VerifyCompletedOverlap() returns (r: Result<()>)
      modifies this`disk, this`calls
      ensures calls == old(calls) + [OverlapProofCalled]
      ensures r.Ok? <==>
                && Writes(old(disk))
                && prepared && terminal && ownership.Owned? && workload.Some?
                && transcript.operationId == Some(ownership.operationId)
                && FastPathAccepts(proof, Driven(), ownership.operationId, transcript.requests, transcript.progress, workload.value)
      ensures r.Err? ==> r.error.cause == OverlapUnproven || (r.error.cause == PersistFailed && !Writes(old(disk)))
      ensures SnapshotInOrder(proof, poolsBefore) && CapturedLive() ==> r.Err?
    {
      hide FastPathAccepts, AllCapturedAfter, SnapshotInOrder;
      calls := calls + [OverlapProofCalled];
      r := Fail(OverlapUnproven);
      if prepared && terminal && ownership.Owned? && workload.Some? && transcript.operationId == Some(ownership.operationId)
        && FastPathAccepts(proof, Driven(), ownership.operationId, transcript.requests, transcript.progress, workload.value)
      {
        LiveCaptureDefeatsFastPath(proof, poolsBefore, Driven(), ownership.operationId, transcript.requests, transcript.progress,
                                   workload.value, pending);
        r := Ok(());
      }
      var ok := Persist();
      r := Combine(r, ok);
    }
  }

  lemma LiveCaptureDefeatsFastPath(proof: Proof, s: Snapshot, scenario: Scenario, id: string, requests: seq<Request>,
                                   progress: seq<Sample>, w: WorkloadReceipt, pending: seq<Reply>)
    requires FastPathAccepts(proof, scenario, id, requests, progress, w)
    ensures !(SnapshotInOrder(proof, s) && AllCapturedAfter(s, requests, pending))
  {
    hide FastPathAccepts, SnapshotInOrder, FirstIndex;
    if SnapshotInOrder(proof, s) {
      FastPathHasAStart(proof, scenario, id, requests, progress, w);
      FastPathNeedsAnEarlierCapture(proof, s, scenario, id, requests, progress, w);
      assert !CapturedAfter(s, StartOf(requests, scenario));
    }
  }

  lemma NothingToControl(scenario: Scenario, proof: Proof)
    ensures forall id :: ControlSafe(scenario, proof, id, [])
  {
  }

  /** An acknowledged control request of a safe run shows in the kept receipts by its path. */
  lemma ControlShows(proof: Proof, id: string, sent: seq<Exchange>)
    requires ControlSafe(Decommission, proof, id, sent)
    requires forall e :: e in sent && IsControl(e.kind) ==> Acknowledged(proof, e)
    ensures forall e :: e in sent && IsControl(e.kind) ==>
              exists q :: q in AnsweredRequests(sent) && (q.path.PoolsCancel? || q.path.PoolsClear?)
  {
    hide StillRunning, ReadyToClear, SeesSuccess, Satisfied, RequestValid, SameRuntimeIdentity, ExactQuery;
    forall e | e in sent && IsControl(e.kind)
      ensures exists q :: q in AnsweredRequests(sent) && (q.path.PoolsCancel? || q.path.PoolsClear?)
    {
      var i :| 0 <= i < |sent| && sent[i] == e;
      AnswersAreKept(sent, i);
    }
  }

  lemma StartIsNoStatus(proof: Proof, r: Request)
    requires ControlValid(proof, PoolsDecommission, r)
    ensures !IsStatus(Decommission, r)
  {
    hide Satisfied, RequestValid, SameRuntimeIdentity, ExactQuery;
  }

  lemma StartDelivers(isDecommission: bool, proof: Proof, attemptedAt: u64, sent: seq<Exchange>, before: Ownership, after: Ownership,
                      t: Transcript, next: Transcript, ok: bool, log: seq<Exchange>)
    requires StartShape(isDecommission, proof, attemptedAt, sent, before, after, t, next, ok)
    ensures StartShape(isDecommission, proof, attemptedAt, sent, before, after, t, next, false)
    ensures before.NotStarted? && OwnerDisciplined(log, before, t.operationId) ==> OwnerDisciplined(log + sent, after, next.operationId)
    ensures ok && t == FRESH ==>
              && RunsOn(isDecommission, proof, next.requests, next, [], []) && sent != [] && sent[0].reply.Answered?
              && next.requests == [sent[0].reply.request] && (isDecommission ==> !IsStatus(Decommission, next.requests[0]))
  {
    hide OwnerDisciplined, RunsOn, ControlValid, IsStatus, IsBlank;
    if sent == [] {
      assert log + sent == log;
    } else {
      assert sent == [sent[0]];
      if before.NotStarted? && OwnerDisciplined(log, before, t.operationId) {
        StartKeepsDiscipline(log, sent[0], attemptedAt, after, t.operationId, next.operationId);
      }
    }
    if ok && t == FRESH {
      RunBegins(isDecommission, proof, next);
      if isDecommission {
        StartIsNoStatus(proof, sent[0].reply.request);
      }
    }
  }

  lemma StartKeepsDiscipline(log: seq<Exchange>, e: Exchange, attemptedAt: u64, after: Ownership, bound: Option<string>, newBound: Option<string>)
    requires OwnerDisciplined(log, NotStarted, bound) && e.kind.StartSent? && e.owner == Ambiguous(attemptedAt)
    requires after == Ambiguous(attemptedAt) || (after.Owned? && newBound == Some(after.operationId))
    ensures OwnerDisciplined(log + [e], after, newBound)
  {
    hide OwnerDisciplined;
    DisciplineKept(log, [e], Ambiguous(attemptedAt), NotStarted, after, bound, newBound);
  }

  /** An observation keeps ownership disciplined and captures live. */
  lemma ObservationKeeps(log: seq<Exchange>, sent: seq<Exchange>, before: Ownership, after: Ownership, t: Transcript, next: Transcript,
                         s: Snapshot, pending: seq<Reply>, rest: seq<Reply>)
    requires forall e :: e in sent ==> e.kind.StatusSent? && e.owner == before
    requires t.operationId.Some? ==> next.operationId == t.operationId
    requires after == before || (after.Owned? && next.operationId == Some(after.operationId))
    requires KeepsAtMost(t.requests, next.requests, pending, rest, sent)
    ensures OwnerDisciplined(log, before, t.operationId) ==> (before.Owned? ==> t.operationId == Some(before.operationId))
    ensures OwnerDisciplined(log, before, t.operationId) && !before.NotStarted? ==> OwnerDisciplined(log + sent, after, next.operationId)
    ensures AllCapturedAfter(s, t.requests, pending) ==> AllCapturedAfter(s, next.requests, rest)
  {
    hide OwnerDisciplined, AllCapturedAfter, KeepsAtMost;
    if AllCapturedAfter(s, t.requests, pending) {
      StillCapturedAfter(s, t.requests, next.requests, pending, rest, sent);
    }
    if OwnerDisciplined(log, before, t.operationId) {
      KnownOwner(log, before, t.operationId);
      if !before.NotStarted? {
        DisciplineKept(log, sent, before, before, after, t.operationId, next.operationId);
      }
    }
  }

  lemma KnownOwner(log: seq<Exchange>, owner: Ownership, bound: Option<string>)
    requires OwnerDisciplined(log, owner, bound)
    ensures owner.Owned? ==> bound == Some(owner.operationId)
  {
  }

  lemma AbsorbKeepsTracking(proof: Proof, t: Transcript, calls: seq<StatusCall>, call: StatusCall)
    requires proof.targetId.Some?
    ensures var r := Absorb(proof, t, calls, call);
            && r.transcript.requests == t.requests + [call.request]
            && (t.operationId.Some? ==> r.transcript.operationId == t.operationId)
            && (r.calls == calls || r.calls == calls + [call])
            && (r.calls == calls ==> r.transcript == t.(requests := r.transcript.requests))
            && (Tracks(proof, FRESH, t, calls) ==>
                  && Tracks(proof, FRESH, r.transcript, r.calls)
                  && (r.verdict.Refused? ==> r.calls == calls && r.transcript.operationId == t.operationId)
                  && (r.verdict.Accepted? && RevealedId(proof, call).Some? ==> r.transcript.operationId == RevealedId(proof, call))
                  && (r.verdict.Accepted? ==>
                        && r.calls == calls + [call] && r.verdict.sample.state == call.value.status
                        && (TerminalWord(r.verdict.sample.state) ==>
                              && r.transcript.operationId.Some? && |r.transcript.progress| == |calls| + 1
                              && r.verdict.sample == r.transcript.progress[|calls|])))
  {
    hide SelfConsistent, RevealedId, DecommissionSample, IdInForce, Values;
    if Tracks(proof, FRESH, t, calls) {
      AbsorbTracks(proof, FRESH, t, calls, call);
      assert call in calls + [call];
    }
  }

  lemma CauseIsKept(isDecommission: bool, proof: Proof, prepared: bool, owner: Ownership, bound: Option<string>,
                    sent: seq<Exchange>, written: bool, inner: Result<Observation>, r: Result<Observation>)
    requires if inner.Ok? then r == inner else r.Err? && r.error.cause == inner.error.cause
    ensures ObservesOnce(isDecommission, proof, prepared, owner, bound, sent, written, inner) ==>
              ObservesOnce(isDecommission, proof, prepared, owner, bound, sent, written, r)
  {
    hide DecommissionObserved, RebalanceObserved;
  }

  lemma OneLonger(done: seq<Exchange>, sent: seq<Exchange>, more: seq<Exchange>)
    requires done <= sent
    ensures done <= sent + more && (sent + more)[|done|..] == sent[|done|..] + more
  {
  }

  lemma SelfConsistentSample(proof: Proof, call: StatusCall)
    requires SelfConsistent(proof, call)
    ensures RevealedId(proof, call).Some? ==> DecommissionSample(proof, RevealedId(proof, call).value, call).Some?
  {
    hide DecommissionSample, RevealedId;
  }

  /** The hook succeeds or fails as the attempt did, unless the transcript could not be written. */
  predicate CancelReports(outcome: Result<()>, r: Result<()>) {
    && (r.Ok? ==> outcome.Ok?)
    && (r.Err? ==> r.error.cause.PersistFailed? || (outcome.Err? && r.error.cause == outcome.error.cause))
  }

  function Discarded<T>(r: Result<T>): Result<()> {
    if r.Ok? then Ok(()) else Err(r.error)
  }

  lemma EndedByItsWord(proof: Proof, id: string, e: Exchange)
    requires OwnedSample(Decommission, proof, id, e).Some?
    ensures e.reply.Answered?
    ensures StillRunning(Decommission, proof, id, e) <==> !TerminalWord(e.reply.decommission.status)
  {
    hide RevealedId, TerminalWord;
    SampleState(proof, Call(e.reply.decommission, e.reply.request));
  }

  /** The operation is known to be over: completed, or its ended metadata cleared. */
  predicate Settled(e: Exchange) {
    SeesSuccess(e) || e.kind.ClearSent?
  }

  lemma NothingSent(t: Transcript, scenario: Scenario, proof: Proof, id: string)
    ensures Extended(t, scenario, proof, id, []) == t
  {
    assert t.requests + [] == t.requests && t.progress + [] == t.progress;
  }

  lemma RunStaysBound(t: Transcript, proof: Proof, id: string, sent: seq<Exchange>)
    requires forall e :: e in sent ==> OwnedSample(Rebalance, proof, id, e).Some?
    ensures var u := Extended(t, Rebalance, proof, id, sent);
            ReceiptsBound(Rebalance, t.requests, t.progress) ==> ReceiptsBound(Rebalance, u.requests, u.progress)
  {
    hide ReceiptsBound, OwnedSample;
    if ReceiptsBound(Rebalance, t.requests, t.progress) {
      OwnedPollsStayBound(t, proof, id, sent);
    }
  }
}
