/** The requests a live driver sends, and the rules its control requests obey
    whatever the server answers. */
module Exchanges {
  import opened Basics
  import opened Receipts
  import opened TopologyProof
  import opened StatusProjection
  import opened Overlap
  import opened Polling

  /** The server's answer to the next request, whichever that is: the part that
      fits the request is read.  Silent stands for a transport error, a lost
      response or a timeout; late says that the caller's deadline has passed by
      the time the answer has been handled. */
  datatype Reply =
    | Silent
    | Answered(request: Request, decommission: DecommissionPoolStatus, rebalance: RebalanceStatus, startId: string, late: bool)

  function NextReply(pending: seq<Reply>): Reply {
    if pending == [] then Silent else pending[0]
  }

  function RestOf(pending: seq<Reply>): seq<Reply> {
    if pending == [] then [] else pending[1..]
  }

  datatype Kind = StartSent | StatusSent | CancelSent | ClearSent | StopSent

  datatype Ownership = NotStarted | Ambiguous(attemptedAt: u64) | Owned(operationId: string)

  /** One request, with the driver's claim of ownership when it was sent. */
  datatype Exchange = Exchange(kind: Kind, reply: Reply, owner: Ownership)

  predicate IsControl(k: Kind) {
    k.CancelSent? || k.ClearSent? || k.StopSent?
  }

  /** Ownership moves only from NotStarted to Ambiguous to Owned, and an owned
      identity is never exchanged for another. */
  predicate OwnershipAdvances(a: Ownership, b: Ownership) {
    a.NotStarted? || a == b || (a.Ambiguous? && b.Owned?)
  }

  /** Only an owner has sent a control request; ownership advanced from request
      to request and up to now; the transcript carries the owned identity. */
  ghost predicate OwnerDisciplined(log: seq<Exchange>, now: Ownership, bound: Option<string>) {
    && (forall e :: e in log && IsControl(e.kind) ==> e.owner.Owned?)
    && (forall i, j :: 0 <= i < j < |log| ==> OwnershipAdvances(log[i].owner, log[j].owner))
    && (forall e :: e in log ==> OwnershipAdvances(e.owner, now))
    && (now.NotStarted? ==> log == [])
    && (now.Owned? ==> bound == Some(now.operationId))
  }

  /** More requests, sent by one and the same claim, and then perhaps a step of ownership. */
  lemma DisciplineKept(log: seq<Exchange>, sent: seq<Exchange>, claim: Ownership, before: Ownership, after: Ownership,
                       bound: Option<string>, newBound: Option<string>)
    requires OwnerDisciplined(log, before, bound) && OwnershipAdvances(before, claim) && OwnershipAdvances(claim, after) && OwnershipAdvances(before, after)
    requires forall e :: e in sent ==> e.owner == claim && (IsControl(e.kind) ==> claim.Owned?)
    requires after.NotStarted? ==> sent == []
    requires after.Owned? ==> newBound == Some(after.operationId)
    ensures OwnerDisciplined(log + sent, after, newBound)
  {
    var all := log + sent;
    forall e | e in all ensures OwnershipAdvances(e.owner, after) && (IsControl(e.kind) ==> e.owner.Owned?) {
      if e in log { assert OwnershipAdvances(e.owner, before); }
    }
    forall i, j | 0 <= i < j < |all| ensures OwnershipAdvances(all[i].owner, all[j].owner) {
      if i < |log| {
        assert all[i] in log && OwnershipAdvances(all[i].owner, before);
        if j < |log| { assert all[i] == log[i] && all[j] == log[j]; } else { assert all[j] in sent; }
      } else {
        assert all[i] in sent && all[j] in sent;
      }
    }
  }

  /** The request's endpoint was captured no earlier than the snapshot's last receipt. */
  predicate CapturedAfter(s: Snapshot, r: Request) {
    s.request.observedAt <= r.target.endpoint.clusterStartedAt
  }

  /** So was that of every request kept so far, and of every one still to be answered. */
  ghost predicate AllCapturedAfter(s: Snapshot, kept: seq<Request>, pending: seq<Reply>) {
    && (forall q :: q in kept ==> CapturedAfter(s, q))
    && (forall p :: p in pending && p.Answered? ==> CapturedAfter(s, p.request))
  }

  /** One exchange at most, whose answer may be kept. */
  ghost predicate KeepsAtMost(kept: seq<Request>, next: seq<Request>, pending: seq<Reply>, rest: seq<Reply>, sent: seq<Exchange>) {
    && |sent| <= 1
    && (sent == [] ==> next == kept && rest == pending)
    && (sent != [] ==>
          && sent[0].reply == NextReply(pending) && rest == RestOf(pending)
          && (next == kept || (sent[0].reply.Answered? && next == kept + [sent[0].reply.request])))
  }

  lemma NothingExchanged(kept: seq<Request>, pending: seq<Reply>)
    ensures KeepsAtMost(kept, kept, pending, pending, [])
  {
  }

  lemma StillCapturedAfter(s: Snapshot, kept: seq<Request>, next: seq<Request>, pending: seq<Reply>, rest: seq<Reply>, sent: seq<Exchange>)
    requires AllCapturedAfter(s, kept, pending) && KeepsAtMost(kept, next, pending, rest, sent)
    ensures AllCapturedAfter(s, next, rest)
  {
    hide CapturedAfter;
  }

  // ------------------------------------------------------ owned statuses

  /** The sample of a status answer that carries the owned identity. */
  function OwnedSample(scenario: Scenario, proof: Proof, id: string, e: Exchange): Option<Sample> {
    if !e.kind.StatusSent? || e.reply.Silent? then None
    else if scenario.Rebalance? then RebalanceSample(proof, id, Call(e.reply.rebalance, e.reply.request))
    else
      var call := Call(e.reply.decommission, e.reply.request);
      if SelfConsistent(proof, call) && RevealedId(proof, call) == Some(id) then DecommissionSample(proof, id, call) else None
  }

  predicate Ended(scenario: Scenario, s: Sample) {
    if scenario.Rebalance? then s.completed || s.failed || s.canceledOrStopped else TerminalWord(s.state)
  }

  predicate StillRunning(scenario: Scenario, proof: Proof, id: string, e: Exchange) {
    var s := OwnedSample(scenario, proof, id, e);
    s.Some? && !Ended(scenario, s.value)
  }

  /** status_is_successful_completion */
  predicate SuccessfulCompletion(s: DecommissionPoolStatus) {
    && s.status.Complete? && s.poolStatus.Decommissioned? && s.decommission.Some?
    && var p := s.decommission.value;
    && p.complete && !p.queued && !p.failed && !p.canceled && p.unresolvedEntries == 0 && Moved(p)
  }

  /** validate_clearable_terminal */
  predicate Clearable(s: DecommissionPoolStatus) {
    && s.decommission.Some? && TerminalWord(s.status)
    && var p := s.decommission.value;
    && !p.complete && (p.failed || p.canceled) && p.unresolvedEntries == 0
  }

  predicate ReadyToClear(proof: Proof, id: string, e: Exchange) {
    OwnedSample(Decommission, proof, id, e).Some? && e.reply.Answered? && Clearable(e.reply.decommission)
  }

  predicate SeesSuccess(e: Exchange) {
    e.kind.StatusSent? && e.reply.Answered? && SuccessfulCompletion(e.reply.decommission)
  }

  /** validate_decommission_control_call */
  predicate ControlValid(proof: Proof, path: Path, r: Request) {
    && Satisfied(proof) && proof.scenario.Decommission? && proof.targetId.Some?
    && RequestValid(r) && SameRuntimeIdentity(proof.runtime.target, r.target)
    && r.verb == Post && r.path == path && ExactQuery(r, Decommission, proof.targetId) && Successful(r.status)
  }

  function ControlPath(k: Kind): Path {
    match k
    case CancelSent => PoolsCancel
    case ClearSent => PoolsClear
    case StopSent => RebalanceStop
    case _ => OtherPath("")
  }

  predicate Acknowledged(proof: Proof, e: Exchange) {
    e.reply.Answered? && ControlValid(proof, ControlPath(e.kind), e.reply.request)
  }

  // ----------------------------------------------- what a cancel may send

  /** The requests of one attempt to cancel or stop the owned operation.  A cancel
      or a stop can only be the second of them, right after a status that shows
      the owned operation still running; a clear can only be the last, right after
      a status that shows it failed or canceled and clearable; nothing follows a
      silent server, a foreign status or a successful completion. */
  predicate ControlSafe(scenario: Scenario, proof: Proof, id: string, sent: seq<Exchange>) {
    && (forall i :: 0 <= i < |sent| && sent[i].kind.StartSent? ==> false)
    && (forall i :: 0 <= i < |sent| && (sent[i].kind.CancelSent? || sent[i].kind.StopSent?) ==>
          i == 1 && StillRunning(scenario, proof, id, sent[0]))
    && (forall i :: 0 <= i < |sent| && sent[i].kind.ClearSent? ==>
          i == |sent| - 1 && i > 0 && ReadyToClear(proof, id, sent[i - 1]))
    && (forall i :: 0 <= i < |sent| && sent[i].kind.CancelSent? ==> scenario.Decommission?)
    && (forall i :: 0 <= i < |sent| && sent[i].kind.ClearSent? ==> scenario.Decommission?)
    && (forall i :: 0 <= i < |sent| && sent[i].kind.StopSent? ==> scenario.Rebalance?)
    && (forall i :: 0 <= i < |sent| - 1 ==>
          && sent[i].reply.Answered?
          && (sent[i].kind.StatusSent? ==>
                || StillRunning(scenario, proof, id, sent[i])
                || sent[i + 1].kind.ClearSent?))
    && (scenario.Decommission? ==> forall i :: 0 <= i < |sent| - 1 ==> !SeesSuccess(sent[i]))
  }

  lemma RunningIsNotSuccess(scenario: Scenario, proof: Proof, id: string, e: Exchange)
    requires StillRunning(scenario, proof, id, e)
    ensures e.kind.StatusSent? && e.reply.Answered?
    ensures scenario.Decommission? ==> !SeesSuccess(e)
  {
    hide DecommissionReceiptValid, CarriesIdentity, FlagsAgree, RevealedId, ProjectRebalance;
  }

  // ------------------------------------------------- what it leaves behind

  function AnsweredRequests(sent: seq<Exchange>): seq<Request> {
    if sent == [] then []
    else
      var last := sent[|sent| - 1];
      AnsweredRequests(sent[..|sent| - 1]) + if last.reply.Answered? then [last.reply.request] else []
  }

  function OwnedSamples(scenario: Scenario, proof: Proof, id: string, sent: seq<Exchange>): seq<Sample> {
    if sent == [] then []
    else
      var s := OwnedSample(scenario, proof, id, sent[|sent| - 1]);
      OwnedSamples(scenario, proof, id, sent[..|sent| - 1]) + if s.Some? then [s.value] else []
  }

  /** The transcript after a run: every answer kept, every owned status sampled, the identity as it was. */
  function Extended(t: Transcript, scenario: Scenario, proof: Proof, id: string, sent: seq<Exchange>): Transcript {
    Transcript(t.operationId, t.requests + AnsweredRequests(sent), t.progress + OwnedSamples(scenario, proof, id, sent))
  }

  lemma OneExchange(scenario: Scenario, proof: Proof, id: string, sent: seq<Exchange>, e: Exchange)
    ensures AnsweredRequests(sent + [e]) == AnsweredRequests(sent) + if e.reply.Answered? then [e.reply.request] else []
    ensures var s := OwnedSample(scenario, proof, id, e);
            OwnedSamples(scenario, proof, id, sent + [e]) ==
            OwnedSamples(scenario, proof, id, sent) + if s.Some? then [s.value] else []
  {
    hide OwnedSample;
    assert (sent + [e])[..|sent|] == sent;
  }

  lemma NoExchange(scenario: Scenario, proof: Proof, id: string)
    ensures AnsweredRequests([]) == [] && OwnedSamples(scenario, proof, id, []) == []
  {
  }

  lemma ExtendOne(t: Transcript, scenario: Scenario, proof: Proof, id: string, sent: seq<Exchange>, e: Exchange)
    ensures Extended(t, scenario, proof, id, sent + [e]) ==
            Extended(Extended(t, scenario, proof, id, sent), scenario, proof, id, [e])
  {
    hide OwnedSample, AnsweredRequests, OwnedSamples;
    OneExchange(scenario, proof, id, sent, e);
    OneExchange(scenario, proof, id, [], e);
    NoExchange(scenario, proof, id);
    assert [] + [e] == [e];
    var requests, samples := AnsweredRequests(sent), OwnedSamples(scenario, proof, id, sent);
    var request, sample := AnsweredRequests([e]), OwnedSamples(scenario, proof, id, [e]);
    assert t.requests + (requests + request) == t.requests + requests + request;
    assert t.progress + (samples + sample) == t.progress + samples + sample;
  }

  /** A control or start request leaves only its receipt. */
  lemma ExtendByControl(t: Transcript, scenario: Scenario, proof: Proof, id: string, e: Exchange)
    requires !e.kind.StatusSent?
    ensures Extended(t, scenario, proof, id, [e]) ==
            t.(requests := t.requests + if e.reply.Answered? then [e.reply.request] else [])
  {
    hide DecommissionSample, RebalanceSample, SelfConsistent, RevealedId;
    assert [e][..0] == [];
    assert AnsweredRequests([e]) == if e.reply.Answered? then [e.reply.request] else [];
    assert OwnedSamples(scenario, proof, id, [e]) == [];
  }

  lemma {:induction false} AnswersAreKept(sent: seq<Exchange>, i: nat)
    requires i < |sent| && sent[i].reply.Answered?
    ensures sent[i].reply.request in AnsweredRequests(sent)
  {
    if i < |sent| - 1 {
      AnswersAreKept(sent[..|sent| - 1], i);
    }
  }

  // ------------------------------------------------------ rebalance polls

  /** A run of owned statuses, all but perhaps the last of a running operation. */
  predicate PollsOwned(scenario: Scenario, proof: Proof, id: string, sent: seq<Exchange>) {
    && (forall i :: 0 <= i < |sent| - 1 ==> StillRunning(scenario, proof, id, sent[i]))
    && (forall e :: e in sent ==> e.kind.StatusSent?)
  }

  lemma OwnedReceiptIsBound(proof: Proof, id: string, e: Exchange)
    requires OwnedSample(Rebalance, proof, id, e).Some?
    ensures e.reply.Answered? && IsStatus(Rebalance, e.reply.request) && Successful(e.reply.request.status)
    ensures var s := OwnedSample(Rebalance, proof, id, e).value;
            && s.operationId == id && s.attempt == proof.attempt && s.observedAt == e.reply.request.observedAt
            && e.reply.request.requestId == Some(s.statusRequestId)
  {
    hide Satisfied, RequestValid, SameRuntimeIdentity, ProjectRebalance;
  }

  /** Receipts and samples of owned statuses stay bound one to one, in order. */
  lemma {:induction false} OwnedPollsStayBound(t: Transcript, proof: Proof, id: string, sent: seq<Exchange>)
    requires ReceiptsBound(Rebalance, t.requests, t.progress)
    requires forall e :: e in sent ==> OwnedSample(Rebalance, proof, id, e).Some?
    ensures var u := Extended(t, Rebalance, proof, id, sent); ReceiptsBound(Rebalance, u.requests, u.progress)
  {
    hide OwnedSample, IsStatus, Filter;
    if sent != [] {
      var front, last := sent[..|sent| - 1], sent[|sent| - 1];
      OwnedPollsStayBound(t, proof, id, front);
      var u := Extended(t, Rebalance, proof, id, front);
      OwnedReceiptIsBound(proof, id, last);
      FilterAppend(StatusTest(Rebalance), u.requests, [last.reply.request]);
      FilterAll(StatusTest(Rebalance), [last.reply.request]);
      assert sent == front + [last];
      OneExchange(Rebalance, proof, id, front, last);
      assert t.requests + (AnsweredRequests(front) + [last.reply.request]) == u.requests + [last.reply.request];
      var s := OwnedSample(Rebalance, proof, id, last).value;
      assert t.progress + (OwnedSamples(Rebalance, proof, id, front) + [s]) == u.progress + [s];
    } else {
      assert t.requests + [] == t.requests && t.progress + [] == t.progress;
    }
  }

  // ------------------------------------------------ a run under observation

  ghost predicate DecommissionRunsOn(proof: Proof, opening: seq<Request>, t: Transcript, calls: seq<StatusCall>) {
    && Polled(proof, Transcript(None, opening, []), t, calls, [])
    && forall i :: 0 <= i < |calls| ==> !TerminalWord(calls[i].value.status)
  }

  ghost predicate DecommissionRanOut(proof: Proof, opening: seq<Request>, t: Transcript, calls: seq<StatusCall>) {
    && calls != [] && Polled(proof, Transcript(None, opening, []), t, calls, [])
    && PollSucceeded(proof, Transcript(None, opening, []), t, calls, [], calls[|calls| - 1].value)
  }

  ghost predicate RebalanceRunsOn(proof: Proof, opening: seq<Request>, t: Transcript, watched: seq<Exchange>) {
    && t.operationId.Some?
    && t == Extended(Transcript(t.operationId, opening, []), Rebalance, proof, t.operationId.value, watched)
    && forall e :: e in watched ==> e.reply.Answered? && StillRunning(Rebalance, proof, t.operationId.value, e)
  }

  ghost predicate RebalanceRanOut(proof: Proof, opening: seq<Request>, t: Transcript, watched: seq<Exchange>) {
    && t.operationId.Some? && watched != []
    && t == Extended(Transcript(t.operationId, opening, []), Rebalance, proof, t.operationId.value, watched)
    && (forall e :: e in watched ==> e.reply.Answered?)
    && (forall i :: 0 <= i < |watched| - 1 ==> StillRunning(Rebalance, proof, t.operationId.value, watched[i]))
    && var s := OwnedSample(Rebalance, proof, t.operationId.value, watched[|watched| - 1]);
    && s.Some? && Ended(Rebalance, s.value)
  }

  /** A driver's transcript while it observes: what the start left, and then the
      receipts of its observations in order, all of a running operation; the
      progress is their projection under the one identity. */
  ghost predicate RunsOn(isDecommission: bool, proof: Proof, opening: seq<Request>, t: Transcript,
                         calls: seq<StatusCall>, watched: seq<Exchange>) {
    if isDecommission then DecommissionRunsOn(proof, opening, t, calls) else RebalanceRunsOn(proof, opening, t, watched)
  }

  /** And once an observation, the last and the only one, has shown its end. */
  ghost predicate RanOut(isDecommission: bool, proof: Proof, opening: seq<Request>, t: Transcript,
                         calls: seq<StatusCall>, watched: seq<Exchange>) {
    if isDecommission then DecommissionRanOut(proof, opening, t, calls) else RebalanceRanOut(proof, opening, t, watched)
  }

  lemma RunBegins(isDecommission: bool, proof: Proof, t: Transcript)
    requires t.progress == [] && (isDecommission <==> t.operationId.None?)
    ensures RunsOn(isDecommission, proof, t.requests, t, [], [])
  {
    hide Polled, OwnedSample;
    if isDecommission {
      NothingPolled(proof, t);
      assert t == Transcript(None, t.requests, []);
    } else {
      NoExchange(Rebalance, proof, t.operationId.value);
      assert t.requests + [] == t.requests && t.progress + [] == t.progress;
    }
  }

  lemma DecommissionTurn(proof: Proof, opening: seq<Request>, t: Transcript, calls: seq<StatusCall>, call: StatusCall)
    requires DecommissionRunsOn(proof, opening, t, calls)
    ensures var next := Absorb(proof, t, calls, call);
            next.verdict.Accepted? ==>
              if TerminalWord(next.verdict.sample.state) then DecommissionRanOut(proof, opening, next.transcript, next.calls)
              else DecommissionRunsOn(proof, opening, next.transcript, next.calls)
  {
    hide Polled, PollSucceeded, Absorb, TerminalWord;
    var before, next := Transcript(None, opening, []), Absorb(proof, t, calls, call);
    PollTurn(proof, before, t, calls, call);
    if next.verdict.Accepted? && TerminalWord(next.verdict.sample.state) {
      PollEnds(proof, before, next.transcript, next.calls);
    }
  }

  lemma RebalanceTurn(proof: Proof, opening: seq<Request>, t: Transcript, e: Exchange, watched: seq<Exchange>)
    requires RebalanceRunsOn(proof, opening, t, watched)
    requires e.reply.Answered? && OwnedSample(Rebalance, proof, t.operationId.value, e).Some?
    ensures var s := OwnedSample(Rebalance, proof, t.operationId.value, e).value;
            var next := Transcript(t.operationId, t.requests + [e.reply.request], t.progress + [s]);
            if Ended(Rebalance, s) then RebalanceRanOut(proof, opening, next, watched + [e])
            else RebalanceRunsOn(proof, opening, next, watched + [e])
  {
    hide OwnedSample, AnsweredRequests, OwnedSamples, Ended;
    var id := t.operationId.value;
    OneExchange(Rebalance, proof, id, watched, e);
    var s := OwnedSample(Rebalance, proof, id, e).value;
    assert opening + (AnsweredRequests(watched) + [e.reply.request]) == opening + AnsweredRequests(watched) + [e.reply.request];
    assert [] + (OwnedSamples(Rebalance, proof, id, watched) + [s]) == [] + OwnedSamples(Rebalance, proof, id, watched) + [s];
    forall i | 0 <= i < |watched| ensures (watched + [e])[i] in watched {
    }
  }
}
