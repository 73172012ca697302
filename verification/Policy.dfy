/** What a driver owes its owned operation: which request must follow which
    answer, and what the last answer makes of the whole attempt
    (cancel_owned_decommission, stop_owned_rebalance and the two polls). */
module Policy {
  import opened Basics
  import opened Receipts
  import opened TopologyProof
  import opened StatusProjection
  import opened Polling
  import opened Exchanges

  datatype Purpose = ToCancel | ToStop | ToWatch

  predicate NotEnded(purpose: Purpose, proof: Proof, id: string, e: Exchange) {
    StillRunning(if purpose.ToCancel? then Decommission else Rebalance, proof, id, e)
  }

  predicate Owns(purpose: Purpose, proof: Proof, id: string, e: Exchange) {
    OwnedSample(if purpose.ToCancel? then Decommission else Rebalance, proof, id, e).Some?
  }

  /** The request that must follow the i-th one and its answer, if any must. */
  function MustFollow(purpose: Purpose, proof: Proof, id: string, i: nat, e: Exchange): Option<Kind> {
    if e.reply.Silent? || e.reply.late then None
    else
      match e.kind
      case StatusSent =>
        if !Owns(purpose, proof, id, e) then None
        else if NotEnded(purpose, proof, id, e) then
          Some(if i > 0 || purpose.ToWatch? then StatusSent else if purpose.ToCancel? then CancelSent else StopSent)
        else if purpose.ToCancel? && !SuccessfulCompletion(e.reply.decommission) && Clearable(e.reply.decommission) then Some(ClearSent)
        else None
      case CancelSent => if ControlValid(proof, PoolsCancel, e.reply.request) then Some(StatusSent) else None
      case StopSent => Some(StatusSent)
      case _ => None
  }

  /** What an attempt that ends with this exchange returns. */
  function OutcomeOf(purpose: Purpose, proof: Proof, id: string, e: Exchange): Result<()> {
    if e.reply.Silent? then Fail(NoReply)
    else
      match e.kind
      case StatusSent =>
        if !Owns(purpose, proof, id, e) then Fail(ForeignOperation)
        else if NotEnded(purpose, proof, id, e) then Fail(DeadlinePassed)
        else if !purpose.ToCancel? || SuccessfulCompletion(e.reply.decommission) then Ok(())
        else if !Clearable(e.reply.decommission) then Fail(NotClearable)
        else Fail(DeadlinePassed)
      case CancelSent => Fail(if ControlValid(proof, PoolsCancel, e.reply.request) then DeadlinePassed else BadControl)
      case ClearSent => if ControlValid(proof, PoolsClear, e.reply.request) then Ok(()) else Fail(BadControl)
      case _ => Fail(DeadlinePassed)
  }

  /** The requests so far were each called for, and kind is called for next. */
  ghost predicate Due(purpose: Purpose, proof: Proof, id: string, sent: seq<Exchange>, kind: Kind) {
    && (forall i :: 0 <= i < |sent| - 1 ==> MustFollow(purpose, proof, id, i, sent[i]) == Some(sent[i + 1].kind))
    && (if sent == [] then kind.StatusSent?
        else sent[0].kind.StatusSent? && MustFollow(purpose, proof, id, |sent| - 1, sent[|sent| - 1]) == Some(kind))
  }

  /** A whole attempt: a status first, then what each answer calls for, until one calls for nothing. */
  ghost predicate Carried(purpose: Purpose, proof: Proof, id: string, sent: seq<Exchange>) {
    && sent != [] && sent[0].kind.StatusSent?
    && (forall i :: 0 <= i < |sent| - 1 ==> MustFollow(purpose, proof, id, i, sent[i]) == Some(sent[i + 1].kind))
    && MustFollow(purpose, proof, id, |sent| - 1, sent[|sent| - 1]).None?
  }

  lemma Proceed(purpose: Purpose, proof: Proof, id: string, sent: seq<Exchange>, e: Exchange)
    requires Due(purpose, proof, id, sent, e.kind)
    ensures match MustFollow(purpose, proof, id, |sent|, e)
            case Some(kind) => Due(purpose, proof, id, sent + [e], kind)
            case None => Carried(purpose, proof, id, sent + [e])
  {
    hide MustFollow;
    var all := sent + [e];
    forall i | 0 <= i < |sent| ensures MustFollow(purpose, proof, id, i, all[i]) == Some(all[i + 1].kind) {
      assert all[i] == sent[i] && all[i + 1] == if i < |sent| - 1 then sent[i + 1] else e;
    }
  }

  /** What a status calls for, case by case. */
  lemma StatusStep(purpose: Purpose, proof: Proof, id: string, i: nat, e: Exchange)
    requires e.kind.StatusSent?
    ensures !Owns(purpose, proof, id, e) ==>
              && MustFollow(purpose, proof, id, i, e).None?
              && OutcomeOf(purpose, proof, id, e) == Fail(if e.reply.Silent? then NoReply else ForeignOperation)
    ensures NotEnded(purpose, proof, id, e) && e.reply.Answered? && e.reply.late ==>
              MustFollow(purpose, proof, id, i, e).None? && OutcomeOf(purpose, proof, id, e) == Fail(DeadlinePassed)
    ensures NotEnded(purpose, proof, id, e) && e.reply.Answered? && !e.reply.late ==>
              MustFollow(purpose, proof, id, i, e) ==
              Some(if i > 0 || purpose.ToWatch? then StatusSent else if purpose.ToCancel? then CancelSent else StopSent)
    ensures Owns(purpose, proof, id, e) && e.reply.Answered? && !NotEnded(purpose, proof, id, e) && !purpose.ToCancel? ==>
              MustFollow(purpose, proof, id, i, e).None? && OutcomeOf(purpose, proof, id, e) == Ok(())
  {
    hide OwnedSample, Ended, ControlValid;
  }

  /** What a control request calls for. */
  lemma ControlStep(purpose: Purpose, proof: Proof, id: string, i: nat, e: Exchange)
    requires e.kind.CancelSent? || e.kind.StopSent?
    ensures e.reply.Answered? && (e.kind.CancelSent? ==> Acknowledged(proof, e)) && !e.reply.late ==>
              MustFollow(purpose, proof, id, i, e) == Some(StatusSent)
    ensures e.reply.Answered? && (e.kind.CancelSent? ==> Acknowledged(proof, e)) && e.reply.late ==>
              MustFollow(purpose, proof, id, i, e).None? && OutcomeOf(purpose, proof, id, e) == Fail(DeadlinePassed)
    ensures e.reply.Silent? ==> MustFollow(purpose, proof, id, i, e).None? && OutcomeOf(purpose, proof, id, e) == Fail(NoReply)
    ensures e.kind.CancelSent? && !Acknowledged(proof, e) ==> MustFollow(purpose, proof, id, i, e).None?
  {
    hide OwnedSample, ControlValid;
  }

  lemma NothingDone(purpose: Purpose, proof: Proof, id: string)
    ensures Due(purpose, proof, id, [], StatusSent)
  {
  }

  // ------------------------------------------------- the scripted answers

  function ReplyAt(pending: seq<Reply>, i: nat): Reply {
    if i < |pending| then pending[i] else Silent
  }

  /** The exchanges used up the next answers, one each and in order. */
  ghost predicate UsesUp(pending: seq<Reply>, sent: seq<Exchange>, rest: seq<Reply>) {
    && (forall i :: 0 <= i < |sent| ==> sent[i].reply == ReplyAt(pending, i))
    && rest == if |sent| <= |pending| then pending[|sent|..] else []
  }

  lemma NothingUsed(pending: seq<Reply>)
    ensures UsesUp(pending, [], pending)
  {
  }

  lemma UseOne(pending: seq<Reply>, sent: seq<Exchange>, rest: seq<Reply>, e: Exchange)
    requires UsesUp(pending, sent, rest) && e.reply == NextReply(rest)
    ensures UsesUp(pending, sent + [e], RestOf(rest))
  {
  }

  // ------------------------------------------------------- what it gives

  /** An attempt that does what its answers call for obeys the rules of control requests. */
  lemma CarriedRunIsSafe(purpose: Purpose, proof: Proof, id: string, sent: seq<Exchange>)
    requires Carried(purpose, proof, id, sent) && !purpose.ToWatch?
    ensures ControlSafe(if purpose.ToCancel? then Decommission else Rebalance, proof, id, sent)
  {
    hide Carried, MustFollow, StillRunning, ReadyToClear, SeesSuccess, OwnedSample;
    FirstIsAStatus(purpose, proof, id, sent);
    var scenario := if purpose.ToCancel? then Decommission else Rebalance;
    forall i | 0 <= i < |sent|
      ensures !sent[i].kind.StartSent?
      ensures sent[i].kind.CancelSent? || sent[i].kind.StopSent? ==> i == 1 && StillRunning(scenario, proof, id, sent[0])
      ensures sent[i].kind.CancelSent? || sent[i].kind.ClearSent? ==> scenario.Decommission?
      ensures sent[i].kind.StopSent? ==> scenario.Rebalance?
    {
      if i > 0 {
        RequestIsJustified(purpose, proof, id, sent, i);
      }
    }
    forall i | 0 <= i < |sent| && sent[i].kind.ClearSent?
      ensures i == |sent| - 1 && i > 0 && ReadyToClear(proof, id, sent[i - 1])
    {
      RequestIsJustified(purpose, proof, id, sent, i);
    }
    forall i | 0 <= i < |sent| - 1
      ensures sent[i].reply.Answered? && (scenario.Decommission? ==> !SeesSuccess(sent[i]))
      ensures sent[i].kind.StatusSent? ==> StillRunning(scenario, proof, id, sent[i]) || sent[i + 1].kind.ClearSent?
    {
      RequestIsJustified(purpose, proof, id, sent, i + 1);
    }
  }

  lemma RequestIsJustified(purpose: Purpose, proof: Proof, id: string, sent: seq<Exchange>, i: nat)
    requires Carried(purpose, proof, id, sent) && 1 <= i < |sent|
    ensures var scenario, before, e := if purpose.ToCancel? then Decommission else Rebalance, sent[i - 1], sent[i];
            && before.reply.Answered? && (scenario.Decommission? ==> !SeesSuccess(before)) && !e.kind.StartSent?
            && (e.kind.CancelSent? || e.kind.ClearSent? ==> scenario.Decommission?) && (e.kind.StopSent? ==> purpose.ToStop?)
            && (e.kind.CancelSent? || e.kind.StopSent? ==> i == 1 && StillRunning(scenario, proof, id, before))
            && (e.kind.ClearSent? ==> i == |sent| - 1 && ReadyToClear(proof, id, before))
            && (before.kind.StatusSent? ==> StillRunning(scenario, proof, id, before) || e.kind.ClearSent?)
  {
    hide Carried, MustFollow, StillRunning, ReadyToClear, SeesSuccess;
    StepAt(purpose, proof, id, sent, i - 1);
    EachIsJustified(purpose, proof, id, i, sent[i - 1], sent[i]);
    if sent[i].kind.ClearSent? {
      NothingFollowsAClear(purpose, proof, id, sent, i);
    }
  }

  /** Request i, given the exchange before it. */
  ghost predicate Justified(purpose: Purpose, proof: Proof, id: string, i: nat, before: Exchange, e: Exchange) {
    var scenario := if purpose.ToCancel? then Decommission else Rebalance;
    && before.reply.Answered? && (purpose.ToCancel? ==> !SeesSuccess(before))
    && !e.kind.StartSent?
    && (e.kind.CancelSent? ==> purpose.ToCancel?) && (e.kind.ClearSent? ==> purpose.ToCancel?) && (e.kind.StopSent? ==> purpose.ToStop?)
    && (e.kind.CancelSent? || e.kind.StopSent? ==> i == 1 && StillRunning(scenario, proof, id, before))
    && (e.kind.ClearSent? ==> ReadyToClear(proof, id, before))
    && (before.kind.StatusSent? ==> StillRunning(scenario, proof, id, before) || e.kind.ClearSent?)
  }

  lemma EachIsJustified(purpose: Purpose, proof: Proof, id: string, i: nat, before: Exchange, e: Exchange)
    requires 1 <= i && MustFollow(purpose, proof, id, i - 1, before) == Some(e.kind)
    ensures Justified(purpose, proof, id, i, before, e)
  {
    hide OwnedSample, ControlValid, Clearable;
    if NotEnded(purpose, proof, id, before) {
      RunningIsNotSuccess(if purpose.ToCancel? then Decommission else Rebalance, proof, id, before);
    }
  }

  lemma FirstIsAStatus(purpose: Purpose, proof: Proof, id: string, sent: seq<Exchange>)
    requires Carried(purpose, proof, id, sent)
    ensures sent != [] && sent[0].kind.StatusSent?
  {
    hide MustFollow;
  }

  /** Every control request of a successful attempt was acknowledged. */
  lemma SuccessIsAcknowledged(proof: Proof, id: string, sent: seq<Exchange>)
    requires Carried(ToCancel, proof, id, sent) && OutcomeOf(ToCancel, proof, id, sent[|sent| - 1]).Ok?
    ensures forall e :: e in sent && IsControl(e.kind) ==> Acknowledged(proof, e)
    ensures SeesSuccess(sent[|sent| - 1]) || sent[|sent| - 1].kind.ClearSent?
  {
    hide OwnedSample, ControlValid, Carried, Clearable;
    OnlyCancelKinds(proof, id, sent);
    FirstIsAStatus(ToCancel, proof, id, sent);
    forall e | e in sent && IsControl(e.kind) ensures Acknowledged(proof, e) {
      var i :| 0 <= i < |sent| && sent[i] == e;
      if i < |sent| - 1 {
        StepAt(ToCancel, proof, id, sent, i);
      }
    }
  }

  /** A running operation is canceled, a canceled or failed one is cleared: no
      answer in time leaves the attempt idle. */
  lemma CancelMakesProgress(proof: Proof, id: string, sent: seq<Exchange>)
    requires Carried(ToCancel, proof, id, sent)
    ensures StillRunning(Decommission, proof, id, sent[0]) && sent[0].reply.Answered? && !sent[0].reply.late ==>
              |sent| >= 2 && sent[1].kind.CancelSent?
    ensures forall i :: 1 <= i < |sent| && StillRunning(Decommission, proof, id, sent[i]) && sent[i].reply.Answered? && !sent[i].reply.late ==>
              i + 1 < |sent| && sent[i + 1].kind.StatusSent?
    ensures forall i :: 0 <= i < |sent| && sent[i].kind.CancelSent? && Acknowledged(proof, sent[i]) && !sent[i].reply.late ==>
              i + 1 < |sent| && sent[i + 1].kind.StatusSent?
    ensures forall i :: 0 <= i < |sent| && ReadyToClear(proof, id, sent[i]) && !sent[i].reply.late ==>
              i + 2 == |sent| && sent[i + 1].kind.ClearSent?
  {
    hide OwnedSample, ControlValid;
    forall i | 0 <= i < |sent| && ReadyToClear(proof, id, sent[i]) && !sent[i].reply.late
      ensures i + 2 == |sent| && sent[i + 1].kind.ClearSent?
    {
      ClearableHasEnded(proof, id, sent[i]);
      assert sent[i + 1].kind.ClearSent?;
      NothingFollowsAClear(ToCancel, proof, id, sent, i + 1);
    }
    forall i | 1 <= i < |sent| && StillRunning(Decommission, proof, id, sent[i]) && sent[i].reply.Answered? && !sent[i].reply.late
      ensures i + 1 < |sent| && sent[i + 1].kind.StatusSent?
    {
      RunningIsNotSuccess(Decommission, proof, id, sent[i]);
    }
    if StillRunning(Decommission, proof, id, sent[0]) {
      RunningIsNotSuccess(Decommission, proof, id, sent[0]);
    }
  }

  lemma StepAt(purpose: Purpose, proof: Proof, id: string, sent: seq<Exchange>, i: nat)
    requires Carried(purpose, proof, id, sent) && i < |sent| - 1
    ensures MustFollow(purpose, proof, id, i, sent[i]) == Some(sent[i + 1].kind)
  {
    hide MustFollow;
  }

  lemma NothingFollowsAClear(purpose: Purpose, proof: Proof, id: string, sent: seq<Exchange>, i: nat)
    requires Carried(purpose, proof, id, sent) && i < |sent| && sent[i].kind.ClearSent?
    ensures i == |sent| - 1
  {
    hide Carried, OwnedSample, ControlValid;
    if i < |sent| - 1 {
      StepAt(purpose, proof, id, sent, i);
    }
  }

  lemma ClearableHasEnded(proof: Proof, id: string, e: Exchange)
    requires ReadyToClear(proof, id, e)
    ensures e.kind.StatusSent? && !SuccessfulCompletion(e.reply.decommission) && !StillRunning(Decommission, proof, id, e)
  {
    hide RevealedId;
    SampleState(proof, Call(e.reply.decommission, e.reply.request));
  }

  /** Running, an acknowledged cancel, clearable, an acknowledged clear: given
      these answers in time, the attempt is exactly these four requests and succeeds. */
  lemma CancelThenClear(proof: Proof, id: string, owner: Ownership, pending: seq<Reply>, sent: seq<Exchange>, rest: seq<Reply>)
    requires Carried(ToCancel, proof, id, sent) && UsesUp(pending, sent, rest) && forall e :: e in sent ==> e.owner == owner
    requires |pending| >= 4 && forall i :: 0 <= i < 4 ==> pending[i].Answered? && !pending[i].late
    requires StillRunning(Decommission, proof, id, Exchange(StatusSent, pending[0], owner))
    requires ControlValid(proof, PoolsCancel, pending[1].request)
    requires ReadyToClear(proof, id, Exchange(StatusSent, pending[2], owner))
    requires ControlValid(proof, PoolsClear, pending[3].request)
    ensures Map(KindOf, sent) == [StatusSent, CancelSent, StatusSent, ClearSent]
    ensures OutcomeOf(ToCancel, proof, id, sent[|sent| - 1]) == Ok(())
  {
    hide OwnedSample, ControlValid, Clearable;
    assert sent[0] in sent && sent[0] == Exchange(StatusSent, pending[0], owner);
    CancelMakesProgress(proof, id, sent);
    assert sent[1].reply == pending[1] && Acknowledged(proof, sent[1]);
    assert sent[2].kind.StatusSent? && sent[2].reply == pending[2];
    assert sent[2] in sent && sent[2] == Exchange(StatusSent, pending[2], owner);
    assert |sent| == 4 && sent[3].reply == pending[3];
  }

  function KindOf(e: Exchange): Kind { e.kind }

  /** A failed cancel names what its last answer was: none, another operation's,
      late, a control refused, or an end that is neither success nor clearable. */
  lemma CancelFailureIsNamed(proof: Proof, id: string, sent: seq<Exchange>)
    requires Carried(ToCancel, proof, id, sent)
    ensures var e := sent[|sent| - 1];
            match OutcomeOf(ToCancel, proof, id, e)
            case Ok(_) => SeesSuccess(e) || (e.kind.ClearSent? && Acknowledged(proof, e))
            case Err(error) =>
              || (error.cause.NoReply? && e.reply.Silent?)
              || (error.cause.ForeignOperation? && e.kind.StatusSent? && e.reply.Answered? && OwnedSample(Decommission, proof, id, e).None?)
              || (error.cause.DeadlinePassed? && e.reply.Answered? && e.reply.late)
              || (error.cause.BadControl? && IsControl(e.kind) && !Acknowledged(proof, e))
              || (error.cause.NotClearable? && e.kind.StatusSent? && e.reply.Answered? && TerminalWord(e.reply.decommission.status)
                  && !SuccessfulCompletion(e.reply.decommission) && !Clearable(e.reply.decommission))
  {
    hide ControlValid, DecommissionReceiptValid, RevealedId, ProjectRebalance;
    var e := sent[|sent| - 1];
    OnlyCancelKinds(proof, id, sent);
    if OwnedSample(Decommission, proof, id, e).Some? {
      SampleState(proof, Call(e.reply.decommission, e.reply.request));
    }
  }

  lemma OnlyCancelKinds(proof: Proof, id: string, sent: seq<Exchange>)
    requires Carried(ToCancel, proof, id, sent)
    ensures forall i :: 0 <= i < |sent| ==> sent[i].kind.StatusSent? || sent[i].kind.CancelSent? || sent[i].kind.ClearSent?
  {
    hide OwnedSample, ControlValid;
    forall i | 0 <= i < |sent| ensures sent[i].kind.StatusSent? || sent[i].kind.CancelSent? || sent[i].kind.ClearSent? {
      if i > 0 {
        assert MustFollow(ToCancel, proof, id, i - 1, sent[i - 1]) == Some(sent[i - 1 + 1].kind);
      }
    }
  }

  /** A stop succeeds when its last answer shows the owned operation ended. */
  lemma StopSucceedsOnItsEnd(proof: Proof, id: string, sent: seq<Exchange>)
    requires Carried(ToStop, proof, id, sent) && OutcomeOf(ToStop, proof, id, sent[|sent| - 1]).Ok?
    ensures var s := OwnedSample(Rebalance, proof, id, sent[|sent| - 1]); s.Some? && Ended(Rebalance, s.value)
  {
    hide OwnedSample, ControlValid, Ended, ControlSafe;
    CarriedRunIsSafe(ToStop, proof, id, sent);
    NoClearInAStop(proof, id, sent);
  }

  lemma NoClearInAStop(proof: Proof, id: string, sent: seq<Exchange>)
    requires ControlSafe(Rebalance, proof, id, sent) && sent != []
    ensures !sent[|sent| - 1].kind.ClearSent?
  {
    hide StillRunning, ReadyToClear, SeesSuccess;
  }

  /** A running rebalance is stopped, and watched until it has ended. */
  lemma StopMakesProgress(proof: Proof, id: string, sent: seq<Exchange>)
    requires Carried(ToStop, proof, id, sent)
    ensures StillRunning(Rebalance, proof, id, sent[0]) && sent[0].reply.Answered? && !sent[0].reply.late ==>
              |sent| >= 2 && sent[1].kind.StopSent?
    ensures forall i :: 1 <= i < |sent| && sent[i].reply.Answered? && !sent[i].reply.late && (sent[i].kind.StopSent? || StillRunning(Rebalance, proof, id, sent[i])) ==>
              i + 1 < |sent| && sent[i + 1].kind.StatusSent?
  {
    hide OwnedSample;
    forall i | 0 <= i < |sent| && StillRunning(Rebalance, proof, id, sent[i]) ensures sent[i].kind.StatusSent? {
      RunningIsNotSuccess(Rebalance, proof, id, sent[i]);
    }
  }

  // --------------------------------------------------- decommission polls

  function CallOf(e: Exchange): StatusCall
    requires e.reply.Answered?
  {
    Call(e.reply.decommission, e.reply.request)
  }

  /** The poll so far: one status after the other, each answered in time by a running operation. */
  ghost predicate PollsOn(sent: seq<Exchange>, calls: seq<StatusCall>) {
    && |sent| == |calls|
    && forall i :: 0 <= i < |sent| ==>
         && sent[i].kind.StatusSent? && sent[i].reply.Answered? && !sent[i].reply.late
         && CallOf(sent[i]) == calls[i] && !TerminalWord(calls[i].value.status)
  }

  /** A whole poll: statuses until one is silent, refused, terminal or late, and
      the result that this last one calls for. */
  ghost predicate PollCarried(proof: Proof, bound: Option<string>, sent: seq<Exchange>, calls: seq<StatusCall>, refused: seq<StatusCall>,
                              result: Result<DecommissionPoolStatus>) {
    && sent != []
    && var last, n := sent[|sent| - 1], |sent| - 1;
    && last.kind.StatusSent? && n <= |calls| && PollsOn(sent[..n], calls[..n])
    && (last.reply.Silent? ==> |calls| == n && refused == [] && result == Fail(NoReply))
    && (last.reply.Answered? && refused != [] ==>
          |calls| == n && refused == [CallOf(last)] && result.Err? && result == Fail(result.error.cause)
          && RefusedFor(proof, bound, CallOf(last), result.error.cause))
    && (last.reply.Answered? && refused == [] ==>
          && calls == calls[..n] + [CallOf(last)]
          && (if TerminalWord(last.reply.decommission.status) then result == Ok(last.reply.decommission)
              else last.reply.late && result == Fail(DeadlinePassed)))
  }

  // --------------------------------------------------- one observation

  /** What one observation of a decommission makes of its answer: finished or not, or why it failed. */
  function DecommissionObserved(proof: Proof, bound: Option<string>, e: Exchange, written: bool): Result<bool>
    requires proof.targetId.Some?
  {
    if e.reply.Silent? then Fail(NoReply)
    else
      var s := e.reply.decommission;
      if !SelfConsistent(proof, CallOf(e)) then Fail(BadReceipt)
      else if bound.Some? && RevealedId(proof, CallOf(e)).Some? && RevealedId(proof, CallOf(e)) != bound then Fail(IdentityChanged)
      else if !written then Fail(PersistFailed)
      else if s.status == Queued || s.status == Running then Ok(false)
      else if s.status == Complete && s.poolStatus == Decommissioned && s.decommission.Some? && (s.decommission.value.objects > 0 || s.decommission.value.bytes > 0)
      then Ok(true)
      else Fail(UnsuccessfulTerminal)
  }

  lemma SilenceIsNoReply(proof: Proof, bound: Option<string>, e: Exchange, written: bool)
    requires e.reply.Silent? && proof.targetId.Some?
    ensures DecommissionObserved(proof, bound, e, written) == Fail(NoReply)
  {
    hide SelfConsistent, RevealedId;
  }

  function RebalanceObserved(proof: Proof, id: string, e: Exchange, written: bool): Result<bool> {
    if e.reply.Silent? then Fail(NoReply)
    else if OwnedSample(Rebalance, proof, id, e).None? then Fail(ForeignOperation)
    else
      var s := OwnedSample(Rebalance, proof, id, e).value;
      if !written then Fail(PersistFailed)
      else if s.failed || s.canceledOrStopped then Fail(UnsuccessfulTerminal)
      else Ok(s.completed)
  }

  /** The verdict on an accepted status, read off the status itself. */
  lemma VerdictReads(proof: Proof, id: string, call: StatusCall)
    requires SelfConsistent(proof, call) && DecommissionSample(proof, id, call).Some?
    ensures var sample, s := DecommissionSample(proof, id, call).value, call.value;
            && sample.state == s.status && s.status in [Queued, Running, Complete, Failed, Canceled] && s.decommission.Some?
            && (s.status == Complete ==> !sample.failed && !sample.canceledOrStopped)
            && (sample.completed <==> s.status == Complete && s.poolStatus == Decommissioned && (s.decommission.value.objects > 0 || s.decommission.value.bytes > 0))
  {
    hide Satisfied, RequestValid, SameRuntimeIdentity, ProjectDecommission, RevealedId, IsBlank;
    DecommissionProjectionReads(call.value, proof.targetId.value, proof.targetExpression.value, id);
  }

  ghost predicate VerdictFits(proof: Proof, bound: Option<string>, e: Exchange, verdict: Verdict)
    requires proof.targetId.Some?
  {
    match verdict
    case Refused(cause) => forall written :: DecommissionObserved(proof, bound, e, written) == Fail(cause)
    case Accepted(sample) =>
      && DecommissionObserved(proof, bound, e, false) == Fail(PersistFailed)
      && DecommissionObserved(proof, bound, e, true) ==
         (if !TerminalWord(sample.state) then Ok(false)
          else if sample.completed && !sample.failed && !sample.canceledOrStopped then Ok(true)
          else Fail(UnsuccessfulTerminal))
  }

  /** Absorbing an answer decides the observation: on a tracked transcript it is
      refused exactly as DecommissionObserved says, and a terminal one succeeds exactly when it says so. */
  lemma AbsorbDecides(proof: Proof, before: Transcript, t: Transcript, calls: seq<StatusCall>, e: Exchange)
    requires Tracks(proof, before, t, calls) && e.reply.Answered? && proof.targetId.Some?
    ensures VerdictFits(proof, t.operationId, e, Absorb(proof, t, calls, CallOf(e)).verdict)
  {
    hide Absorb, SelfConsistent, RevealedId, DecommissionSample, IdInForce;
    var call := CallOf(e);
    var r := Absorb(proof, t, calls, call);
    AbsorbTracks(proof, before, t, calls, call);
    if r.verdict.Accepted? {
      if TerminalWord(r.verdict.sample.state) {
        assert DecommissionSample(proof, r.transcript.operationId.value, r.calls[|calls|]) == Some(r.transcript.progress[|calls|]);
        VerdictReads(proof, r.transcript.operationId.value, call);
      } else {
        SelfConsistentWord(proof, call);
      }
    }
  }

  lemma SelfConsistentWord(proof: Proof, call: StatusCall)
    requires SelfConsistent(proof, call)
    ensures call.value.status in [Queued, Running, Complete, Failed, Canceled]
  {
    hide DecommissionSample, RevealedId;
    VerdictReads(proof, if RevealedId(proof, call).Some? then RevealedId(proof, call).value else UNBOUND, call);
  }

  // --------------------------------------------- in the fields of the answers

  /** A status of the owned decommission: a captured 2xx answer to exactly this
      query, from the proof's runtime, of the target, carrying the owned identity. */
  lemma OwnedDecommissionReads(proof: Proof, id: string, e: Exchange)
    requires OwnedSample(Decommission, proof, id, e).Some?
    ensures e.kind == StatusSent && e.reply.Answered? && Satisfied(proof) && proof.targetId.Some? && RequestValid(e.reply.request)
    ensures var r, s := e.reply.request, e.reply.decommission;
            && r.verb == Get && r.path == DecommissionStatus && 200 <= r.status <= 299
            && r.query == map["pool" := Decimal(proof.targetId.value), "by-id" := "true"]
            && r.body == Some(DecommissionBody(s)) && r.requestId.Some? && !IsBlank(r.requestId.value)
            && r.target.endpoint.identity == proof.runtime.target.endpoint.identity && r.target.deploymentId == proof.runtime.target.deploymentId
            && Some(s.id) == proof.targetId && Some(s.expression) == proof.targetExpression
            && s.decommission.Some? && s.decommission.value.startTime.Some?
            && id == "decommission:" + Decimal(s.id) + ":" + s.decommission.value.startTime.value
            && s.status in [Queued, Running, Complete, Failed, Canceled]
  {
    hide Satisfied, RequestValid, EndpointValid, IsBlank, ProjectDecommission;
    var call := Call(e.reply.decommission, e.reply.request);
    DecommissionProjectionReads(call.value, proof.targetId.value, proof.targetExpression.value, id);
  }

  /** An acknowledged control request: a POST of exactly this query to the proof's runtime, answered with a 2xx. */
  lemma ControlReads(proof: Proof, path: Path, r: Request)
    requires ControlValid(proof, path, r)
    ensures proof.targetId.Some? && proof.scenario.Decommission? && Satisfied(proof) && RequestValid(r)
    ensures r.verb == Post && r.path == path && 200 <= r.status <= 299
    ensures r.query == map["pool" := Decimal(proof.targetId.value), "by-id" := "true"]
    ensures r.target.endpoint.identity == proof.runtime.target.endpoint.identity && r.target.deploymentId == proof.runtime.target.deploymentId
  {
    hide Satisfied, RequestValid, EndpointValid;
  }

  /** What the requests of a cancel follow, in the fields of the answers: a cancel
      follows a queued or running status; a clear one that ended without completing,
      failed or canceled, with nothing unresolved. */
  lemma CancelReads(proof: Proof, id: string, sent: seq<Exchange>, i: nat)
    requires Carried(ToCancel, proof, id, sent) && 1 <= i < |sent|
    ensures sent[i - 1].reply.Answered? && !sent[i - 1].reply.late
    ensures sent[i].kind == CancelSent ==> i == 1 && sent[0].reply.decommission.status in [Queued, Running]
    ensures sent[i].kind == ClearSent ==>
              && i == |sent| - 1 && sent[i - 1].reply.decommission.decommission.Some?
              && var s, d := sent[i - 1].reply.decommission, sent[i - 1].reply.decommission.decommission.value;
              && s.status in [Complete, Failed, Canceled] && !d.complete && (d.failed || d.canceled) && d.unresolvedEntries == 0
    ensures sent[i].kind == StatusSent ==> sent[i - 1].kind == CancelSent || sent[i - 1].reply.decommission.status in [Queued, Running]
    ensures IsControl(sent[i].kind) ==> OwnedSample(Decommission, proof, id, sent[i - 1]).Some?
  {
    hide Carried, ControlValid, OwnedSample;
    StepAt(ToCancel, proof, id, sent, i - 1);
    OnlyCancelKinds(proof, id, sent);
    var e := sent[i - 1];
    if sent[i].kind.ClearSent? {
      NothingFollowsAClear(ToCancel, proof, id, sent, i);
    }
    if e.kind.StatusSent? {
      OwnedWordReads(proof, id, e);
    }
  }

  lemma OwnedWordReads(proof: Proof, id: string, e: Exchange)
    requires OwnedSample(Decommission, proof, id, e).Some?
    ensures e.reply.Answered?
    ensures StillRunning(Decommission, proof, id, e) <==> e.reply.decommission.status in [Queued, Running]
  {
    hide Satisfied, RequestValid, IsBlank, ProjectDecommission, RevealedId;
    OwnedDecommissionReads(proof, id, e);
    SampleState(proof, Call(e.reply.decommission, e.reply.request));
  }

  /** A successful cancel ends with the completed decommission of the target, or with
      an acknowledged clear. */
  lemma CanceledReads(proof: Proof, id: string, sent: seq<Exchange>)
    requires Carried(ToCancel, proof, id, sent) && OutcomeOf(ToCancel, proof, id, sent[|sent| - 1]).Ok?
    ensures var e := sent[|sent| - 1];
            && e.reply.Answered?
            && (if e.kind == ClearSent
                then e.reply.request.verb == Post && e.reply.request.path == PoolsClear && 200 <= e.reply.request.status <= 299
                else
                  && e.kind == StatusSent && e.reply.decommission.status == Complete && e.reply.decommission.poolStatus == Decommissioned
                  && e.reply.decommission.decommission.Some?
                  && var d := e.reply.decommission.decommission.value;
                  && d.complete && !d.queued && !d.failed && !d.canceled && d.unresolvedEntries == 0 && (d.objects > 0 || d.bytes > 0))
  {
    hide Carried, OwnedSample, ControlValid;
    OnlyCancelKinds(proof, id, sent);
    FirstIsAStatus(ToCancel, proof, id, sent);
    var e := sent[|sent| - 1];
    if e.kind.ClearSent? {
      ControlReads(proof, PoolsClear, e.reply.request);
    }
  }

  /** A status of the owned rebalance, likewise. */
  lemma OwnedRebalanceReads(proof: Proof, id: string, e: Exchange)
    requires OwnedSample(Rebalance, proof, id, e).Some?
    ensures e.kind == StatusSent && e.reply.Answered? && Satisfied(proof) && proof.scenario.Rebalance? && RequestValid(e.reply.request)
    ensures var r, s := e.reply.request, e.reply.rebalance;
            && r.verb == Get && r.path == RebalanceStatusPath && 200 <= r.status <= 299 && r.query == map[]
            && r.body == Some(RebalanceBody(s)) && r.requestId.Some? && !IsBlank(r.requestId.value)
            && r.target.endpoint.identity == proof.runtime.target.endpoint.identity && r.target.deploymentId == proof.runtime.target.deploymentId
            && s.id == id && !IsBlank(id) && |s.pools| == |proof.runtimePools|
    ensures var p, sample := ProjectRebalance(e.reply.rebalance, proof.runtimePools, false), OwnedSample(Rebalance, proof, id, e).value;
            && p.Some? && sample.completed == p.value.completed && sample.failed == p.value.failed && sample.canceledOrStopped == p.value.stopped
            && sample.objects == Some(p.value.objects) && sample.versions == Some(p.value.versions) && sample.bytes == Some(p.value.bytes)
            && sample.state == p.value.state
  {
    hide Satisfied, RequestValid, EndpointValid, IsBlank, ProjectRebalance;
    RebalanceIsProjectedWhen(e.reply.rebalance, proof.runtimePools, false);
  }

  /** And conversely, in the fields of an owned answer in time: a queued or running
      one is followed by the cancel or by another status, an end that failed or was
      canceled with nothing unresolved by the clear, and nothing follows a clean
      completion, which is a success. */
  lemma AnswerCallsFor(proof: Proof, id: string, sent: seq<Exchange>, i: nat)
    requires Carried(ToCancel, proof, id, sent) && i < |sent|
    requires OwnedSample(Decommission, proof, id, sent[i]).Some? && !sent[i].reply.late
    ensures var s := sent[i].reply.decommission;
            && (s.status in [Queued, Running] ==> i + 1 < |sent| && sent[i + 1].kind == if i == 0 then CancelSent else StatusSent)
            && s.decommission.Some?
            && var d := s.decommission.value;
            && (s.status in [Complete, Failed, Canceled] && !d.complete && (d.failed || d.canceled) && d.unresolvedEntries == 0 ==>
                  i + 2 == |sent| && sent[i + 1].kind == ClearSent)
            && (s.status == Complete && s.poolStatus == Decommissioned && d.complete && !d.queued && !d.failed && !d.canceled
                && d.unresolvedEntries == 0 && (d.objects > 0 || d.bytes > 0) ==>
                  i + 1 == |sent| && OutcomeOf(ToCancel, proof, id, sent[i]) == Ok(()))
  {
    hide OwnedSample, ControlValid, Carried;
    OwnedDecommissionReads(proof, id, sent[i]);
    OwnedWordReads(proof, id, sent[i]);
    LastCallsForNothing(ToCancel, proof, id, sent);
    if i < |sent| - 1 {
      StepAt(ToCancel, proof, id, sent, i);
      if sent[i + 1].kind.ClearSent? {
        NothingFollowsAClear(ToCancel, proof, id, sent, i + 1);
      }
    }
  }

  lemma LastCallsForNothing(purpose: Purpose, proof: Proof, id: string, sent: seq<Exchange>)
    requires Carried(purpose, proof, id, sent)
    ensures sent != [] && MustFollow(purpose, proof, id, |sent| - 1, sent[|sent| - 1]).None?
  {
    hide MustFollow;
  }

  /** A rebalance status that shows its end: a failure, a stop, or completion. */
  ghost predicate ShowsEnd(s: RebalanceStatus) {
    || s.failedPeers != [] || s.reloadFailedPeers != [] || s.stoppedAt.Some? || s.pendingTerminalReload
    || (exists x :: x in s.pools && (|| (x.lastError.Some? && |x.lastError.value| > 0) || x.warningCount > 0 || x.warningEntries > 0
                                     || (x.lastWarning.Some? && |x.lastWarning.value| > 0)
                                     || x.status == Failed || x.status == Blocked || x.stopping || x.status == Stopped))
    || (&& (exists x :: x in s.pools && x.progress.Some?
              && (x.progress.value.objects > 0 || x.progress.value.versions > 0 || x.progress.value.bytes > 0))
        && (forall x :: x in s.pools ==> x.status == Completed || (x.progress.None? && x.status == NoWord)))
  }

  lemma OwnedEndReads(proof: Proof, id: string, e: Exchange)
    requires OwnedSample(Rebalance, proof, id, e).Some?
    ensures e.reply.Answered? && e.kind == StatusSent
    ensures Ended(Rebalance, OwnedSample(Rebalance, proof, id, e).value) <==> ShowsEnd(e.reply.rebalance)
  {
    hide ProjectRebalance, OwnedSample, SumBy;
    OwnedRebalanceReads(proof, id, e);
    RebalanceFailureReads(e.reply.rebalance, proof.runtimePools, false);
    RebalanceCompletionReads(e.reply.rebalance, proof.runtimePools, false);
  }

  /** In the fields of an owned answer in time: an end ends the attempt with
      success, and a rebalance that shows none is stopped, or watched on. */
  lemma RebalanceAnswerCallsFor(purpose: Purpose, proof: Proof, id: string, sent: seq<Exchange>, i: nat)
    requires Carried(purpose, proof, id, sent) && !purpose.ToCancel? && i < |sent|
    requires OwnedSample(Rebalance, proof, id, sent[i]).Some? && !sent[i].reply.late
    ensures if ShowsEnd(sent[i].reply.rebalance) then i + 1 == |sent| && OutcomeOf(purpose, proof, id, sent[i]) == Ok(())
            else i + 1 < |sent| && sent[i + 1].kind == if i == 0 && purpose.ToStop? then StopSent else StatusSent
  {
    hide OwnedSample, Ended, ShowsEnd, Carried;
    OwnedEndReads(proof, id, sent[i]);
    LastCallsForNothing(purpose, proof, id, sent);
    if i < |sent| - 1 {
      StepAt(purpose, proof, id, sent, i);
    }
  }
}
