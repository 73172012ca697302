/** The rebalance twin of Handover: live samples project over the pools of the
    proof, the offline check over the pools of the pre-start snapshot
    (src/fault/admin_rebalance.rs, src/fault/admin_topology.rs). */
module RebalanceHandover {
  import opened Basics
  import opened Receipts
  import opened TopologyProof
  import opened StatusProjection
  import opened Evidence
  import opened Progress
  import opened Builders
  import opened Polling
  import opened Exchanges

  predicate MovedSomething(s: RebalanceStatus) {
    SumBy(Objects, s.pools) > 0 || SumBy(Versions, s.pools) > 0 || SumBy(Bytes, s.pools) > 0
  }

  predicate CompletesRebalance(s: RebalanceStatus) {
    MovedSomething(s) && MovementFinished(s) && !RebalanceFailed(s) && !RebalanceStopped(s, false)
  }

  predicate MovesNoLess(a: RebalanceStatus, b: RebalanceStatus) {
    && SumBy(Objects, a.pools) <= SumBy(Objects, b.pools)
    && SumBy(Versions, a.pools) <= SumBy(Versions, b.pools)
    && SumBy(Bytes, a.pools) <= SumBy(Bytes, b.pools)
  }

  /** What the server and the clocks must have done, read off the receipts alone. */
  ghost predicate CleanRebalance(requests: seq<Request>, sent: seq<Exchange>, w: Window)
    requires sent != [] && forall e :: e in sent ==> e.reply.Answered?
  {
    && w.Valid() && TimingValid(requests, w)
    && (forall i, j :: 0 <= i < j < |sent| ==>
          && sent[i].reply.request.requestId != sent[j].reply.request.requestId
          && MovesNoLess(sent[i].reply.rebalance, sent[j].reply.rebalance))
    && CompletesRebalance(sent[|sent| - 1].reply.rebalance)
    && !ControlRequested(requests)
  }

  // ------------------------------------------------- one sample, twice

  /** A projection reads of the pool list only which ids it has. */
  lemma ProjectionReadsIds(s: RebalanceStatus, a: seq<AdminPool>, b: seq<AdminPool>, control: bool)
    requires |a| == |b| && Elements(Map(PoolId, a)) == Elements(Map(PoolId, b))
    ensures ProjectRebalance(s, a, control) == ProjectRebalance(s, b, control)
  {
    hide CoversPools, Totals, RebalanceFailed, RebalanceStopped, MovementFinished, Filter;
    if CoversPools(s, a) {
      CoverageFollowsTheIds(s, a, b);
    }
    if CoversPools(s, b) {
      CoverageFollowsTheIds(s, b, a);
    }
  }

  /** What a projection says of a status, without its pool list. */
  lemma ProjectionSays(s: RebalanceStatus, pools: seq<AdminPool>)
    requires ProjectRebalance(s, pools, false).Some?
    ensures var p := ProjectRebalance(s, pools, false).value;
            && p.objects == SumBy(Objects, s.pools) && p.versions == SumBy(Versions, s.pools) && p.bytes == SumBy(Bytes, s.pools)
            && p.failed == RebalanceFailed(s) && p.stopped == RebalanceStopped(s, false)
            && (p.completed <==> CompletesRebalance(s)) && (p.completed ==> !p.failed && !p.stopped)
            && p.state == (if p.failed then Failed else if p.stopped then Stopped else if p.completed then Completed else Started)
  {
    hide CoversPools, Totals, RebalanceFailed, RebalanceStopped, MovementFinished, Filter, SumBy;
    TotalsAreExact(s.pools, 0, 0, 0);
  }

  /** The live sample of a receipt mirrors its status, and the offline check re-derives it. */
  ghost predicate MirrorsStatus(op: Operation, e: Exchange, s: Sample) {
    && e.reply.Answered?
    && s.operationId == op.operationId && s.attempt == op.attempt && Present(e.reply.request.requestId)
    && Progress.Answers(s, e.reply.request) && Derived(op, e.reply.request, s)
    && Counts(s.objects, Objects, e.reply.rebalance) && Counts(s.versions, Versions, e.reply.rebalance)
    && Counts(s.bytes, Bytes, e.reply.rebalance)
    && (s.completed <==> CompletesRebalance(e.reply.rebalance))
    && (s.completed ==> !s.failed && !s.canceledOrStopped)
    && s.state == (if s.failed then Failed else if s.canceledOrStopped then Stopped else if s.completed then Completed else Started)
  }

  predicate Counts(counter: Option<u64>, f: RebalancePoolStatus -> nat, s: RebalanceStatus) {
    counter.Some? && counter.value == SumBy(f, s.pools)
  }

  lemma LiveStatusIsMirrored(proof: Proof, op: Operation, e: Exchange)
    requires OwnedSample(Rebalance, proof, op.operationId, e).Some?
    requires op.scenario.Rebalance? && op.attempt == proof.attempt
    requires |proof.runtimePools| == |op.before.pools|
    requires Elements(Map(PoolId, proof.runtimePools)) == Elements(Map(PoolId, op.before.pools))
    ensures MirrorsStatus(op, e, OwnedSample(Rebalance, proof, op.operationId, e).value)
    ensures proof.scenario.Rebalance?
  {
    hide Satisfied, RequestValid, SameRuntimeIdentity, IsBlank, ProjectRebalance, CompletesRebalance, SumBy, Elements;
    ProjectionReadsIds(e.reply.rebalance, proof.runtimePools, op.before.pools, false);
    ProjectionSays(e.reply.rebalance, proof.runtimePools);
  }

  // ------------------------------------------------------- the whole run

  lemma {:induction false} OwnedRunIndexes(scenario: Scenario, proof: Proof, id: string, sent: seq<Exchange>)
    requires forall e :: e in sent ==> e.reply.Answered? && OwnedSample(scenario, proof, id, e).Some?
    ensures |AnsweredRequests(sent)| == |sent| == |OwnedSamples(scenario, proof, id, sent)|
    ensures forall i :: 0 <= i < |sent| ==>
              && AnsweredRequests(sent)[i] == sent[i].reply.request
              && OwnedSample(scenario, proof, id, sent[i]) == Some(OwnedSamples(scenario, proof, id, sent)[i])
  {
    hide OwnedSample, AnsweredRequests, OwnedSamples;
    NoExchange(scenario, proof, id);
    if sent != [] {
      var front, last := sent[..|sent| - 1], sent[|sent| - 1];
      OwnedRunIndexes(scenario, proof, id, front);
      assert last in sent && sent == front + [last];
      OneExchange(scenario, proof, id, front, last);
    }
  }

  ghost predicate MirrorsAll(op: Operation, sent: seq<Exchange>, samples: seq<Sample>) {
    && |samples| == |sent|
    && forall i :: 0 <= i < |sent| ==> MirrorsStatus(op, sent[i], samples[i])
  }

  /** Every turn but the last shows the operation running, the last shows its end. */
  ghost predicate EndsLast(samples: seq<Sample>) {
    forall i :: 0 <= i < |samples| ==> (Exchanges.Ended(Rebalance, samples[i]) <==> i == |samples| - 1)
  }

  lemma PairOfSamples(op: Operation, a: Exchange, b: Exchange, s: Sample, u: Sample)
    requires MirrorsStatus(op, a, s) && MirrorsStatus(op, b, u)
    requires a.reply.request.observedAt < b.reply.request.observedAt
    requires !Exchanges.Ended(Rebalance, s) && (Exchanges.Ended(Rebalance, u) ==> u.completed)
    ensures Progress.Advances(Rebalance, s, u) <==> MovesNoLess(a.reply.rebalance, b.reply.rebalance)
  {
    hide Derived, Present, SumBy, CompletesRebalance;
  }

  lemma OneSample(op: Operation, e: Exchange, s: Sample)
    requires MirrorsStatus(op, e, s) && op.scenario.Rebalance?
    requires Exchanges.Ended(Rebalance, s) ==> s.completed
    ensures SampleOf(op, e.reply.request, s)
  {
    hide Derived, Present, SumBy, CompletesRebalance, Progress.Answers;
  }

  /** Mirrored samples of a run that ends in its last status are faithful exactly when the run was clean. */
  lemma MirroredRunIsFaithfulIffClean(op: Operation, samples: seq<Sample>, sent: seq<Exchange>, w: Window)
    requires sent != [] && (forall e :: e in sent ==> e.reply.Answered?) && op.scenario.Rebalance?
    requires MirrorsAll(op, sent, samples) && EndsLast(samples)
    requires |Statuses(op)| == |sent| && forall i :: 0 <= i < |sent| ==> Statuses(op)[i] == sent[i].reply.request
    requires StartBeforeStatus(op.requests, Rebalance, op.targetId)
    requires CompletesRebalance(sent[|sent| - 1].reply.rebalance) ==>
               (TerminalAgrees(op, samples[|sent| - 1]) <==> !ControlRequested(op.requests))
    ensures FaithfulRun(op, samples, w) <==> CleanRebalance(op.requests, sent, w)
  {
    hide TimingValid, StartBeforeStatus, Statuses, ControlRequested, TerminalAgrees, Progress.Advances, SampleOf;
    hide MirrorsStatus, MovesNoLess, CompletesRebalance, Exchanges.Ended, Distinct;
    var last := |sent| - 1;
    IdsAreDistinct(op, sent);
    LastCompletes(op, sent[last], samples[last]);
    if TimingValid(op.requests, w) && CompletesRebalance(sent[last].reply.rebalance) {
      StatusesAreOrdered(op, w);
      forall i | 0 <= i < |sent|
        ensures SampleOf(op, Statuses(op)[i], samples[i]) && (samples[i].completed <==> i == last)
      {
        LastCompletes(op, sent[i], samples[i]);
        OneSample(op, sent[i], samples[i]);
      }
      forall i, j | 0 <= i < j < |sent|
        ensures Progress.Advances(Rebalance, samples[i], samples[j]) <==> MovesNoLess(sent[i].reply.rebalance, sent[j].reply.rebalance)
      {
        assert Statuses(op)[i].observedAt < Statuses(op)[j].observedAt;
        LastCompletes(op, sent[j], samples[j]);
        PairOfSamples(op, sent[i], sent[j], samples[i], samples[j]);
      }
    }
  }

  lemma LastCompletes(op: Operation, e: Exchange, s: Sample)
    requires MirrorsStatus(op, e, s)
    ensures s.completed <==> CompletesRebalance(e.reply.rebalance)
    ensures s.completed ==> Exchanges.Ended(Rebalance, s)
  {
    hide Derived, Present, SumBy, CompletesRebalance, Progress.Answers;
  }

  lemma IdsAreDistinct(op: Operation, sent: seq<Exchange>)
    requires forall e :: e in sent ==> e.reply.Answered?
    requires |Statuses(op)| == |sent| && forall i :: 0 <= i < |sent| ==> Statuses(op)[i] == sent[i].reply.request
    ensures Distinct(Map(ResponseId, Statuses(op))) <==>
              forall i, j :: 0 <= i < j < |sent| ==> sent[i].reply.request.requestId != sent[j].reply.request.requestId
  {
    hide Statuses;
    var ids := Map(ResponseId, Statuses(op));
    assert forall i :: 0 <= i < |sent| ==> sent[i] in sent && ids[i] == sent[i].reply.request.requestId;
  }

  lemma BuilderAgreesWithTheLast(proof: Proof, op: Operation, before: Snapshot, after: Snapshot, e: Exchange)
    requires e.reply.Answered? && OwnedSample(Rebalance, proof, op.operationId, e).Some?
    requires FromRebalance(proof, before, op.operationId, e.reply.rebalance, op.requests, after) == Some(op)
    ensures CompletesRebalance(e.reply.rebalance) ==>
              (TerminalAgrees(op, OwnedSample(Rebalance, proof, op.operationId, e).value) <==> !ControlRequested(op.requests))
  {
    hide Satisfied, RequestValid, SameRuntimeIdentity, IsBlank, PreStartSnapshotValid, PostSnapshotValid, CoversPools, ProjectRebalance;
    hide MovementFinished, RebalanceFailed, ControlRequested, SumBy, Filter, Totals;
    ProjectionSays(e.reply.rebalance, proof.runtimePools);
    TotalsAreExact(e.reply.rebalance.pools, 0, 0, 0);
    StoppedByControl(e.reply.rebalance, ControlRequested(op.requests));
  }

  lemma StoppedByControl(s: RebalanceStatus, control: bool)
    ensures RebalanceStopped(s, control) <==> RebalanceStopped(s, false) || control
  {
  }

  /** A finished poll_rebalance handed to from_rebalance passes the offline
      progress check exactly when its receipts are clean. */
  lemma LiveRebalanceIsFaithfulIffClean(proof: Proof, startId: string, before: Transcript, t: Transcript, sent: seq<Exchange>,
                                        snapshot: Snapshot, after: Snapshot, w: Window)
    requires sent != [] && (forall e :: e in sent ==> e.reply.Answered?)
    requires forall i :: 0 <= i < |sent| - 1 ==> StillRunning(Rebalance, proof, startId, sent[i])
    requires var s := OwnedSample(Rebalance, proof, startId, sent[|sent| - 1]); s.Some? && Exchanges.Ended(Rebalance, s.value)
    requires t == Extended(before, Rebalance, proof, startId, sent) && before.progress == []
    requires forall r :: r in before.requests ==> !IsStatus(Rebalance, r)
    requires FromRebalance(proof, snapshot, startId, sent[|sent| - 1].reply.rebalance, t.requests, after).Some?
    ensures FaithfulRun(FromRebalance(proof, snapshot, startId, sent[|sent| - 1].reply.rebalance, t.requests, after).value, t.progress, w)
       <==> CleanRebalance(t.requests, sent, w)
  {
    hide OwnedSample, FromRebalance, FaithfulRun, CleanRebalance, Exchanges.Ended, IsStatus, TerminalAgrees, ControlRequested, CompletesRebalance;
    hide StartBeforeStatus, MirrorsAll, EndsLast, AnsweredRequests, OwnedSamples, Statuses, Elements;
    var op := FromRebalance(proof, snapshot, startId, sent[|sent| - 1].reply.rebalance, t.requests, after).value;
    RunIsOwned(proof, startId, sent);
    OwnedRunIndexes(Rebalance, proof, startId, sent);
    EndIsLast(proof, startId, sent);
    BuilderKeeps(proof, snapshot, startId, sent[|sent| - 1].reply.rebalance, t.requests, after);
    assert t.progress == OwnedSamples(Rebalance, proof, startId, sent);
    LiveStatusesAreMirrored(proof, op, sent);
    OwnedStatusesOnly(proof, startId, before, sent, op);
    BuilderAgreesWithTheLast(proof, op, snapshot, after, sent[|sent| - 1]);
    MirroredRunIsFaithfulIffClean(op, t.progress, sent, w);
  }

  lemma LiveStatusesAreMirrored(proof: Proof, op: Operation, sent: seq<Exchange>)
    requires sent != [] && forall e :: e in sent ==> e.reply.Answered? && OwnedSample(Rebalance, proof, op.operationId, e).Some?
    requires op.scenario.Rebalance? && op.attempt == proof.attempt
    requires |proof.runtimePools| == |op.before.pools|
    requires Elements(Map(PoolId, proof.runtimePools)) == Elements(Map(PoolId, op.before.pools))
    ensures MirrorsAll(op, sent, OwnedSamples(Rebalance, proof, op.operationId, sent)) && proof.scenario.Rebalance?
  {
    hide OwnedSample, OwnedSamples, MirrorsStatus, Elements;
    OwnedRunIndexes(Rebalance, proof, op.operationId, sent);
    forall i | 0 <= i < |sent|
      ensures MirrorsStatus(op, sent[i], OwnedSamples(Rebalance, proof, op.operationId, sent)[i]) && proof.scenario.Rebalance?
    {
      LiveStatusIsMirrored(proof, op, sent[i]);
    }
    LiveStatusIsMirrored(proof, op, sent[0]);
  }

  lemma EndIsLast(proof: Proof, id: string, sent: seq<Exchange>)
    requires sent != [] && forall e :: e in sent ==> e.reply.Answered? && OwnedSample(Rebalance, proof, id, e).Some?
    requires forall i :: 0 <= i < |sent| - 1 ==> StillRunning(Rebalance, proof, id, sent[i])
    requires Exchanges.Ended(Rebalance, OwnedSample(Rebalance, proof, id, sent[|sent| - 1]).value)
    ensures EndsLast(OwnedSamples(Rebalance, proof, id, sent))
  {
    hide OwnedSample, OwnedSamples, Exchanges.Ended;
    OwnedRunIndexes(Rebalance, proof, id, sent);
    var samples := OwnedSamples(Rebalance, proof, id, sent);
    forall i | 0 <= i < |samples| ensures Exchanges.Ended(Rebalance, samples[i]) <==> i == |samples| - 1 {
      assert OwnedSample(Rebalance, proof, id, sent[i]) == Some(samples[i]);
    }
  }

  lemma RunIsOwned(proof: Proof, id: string, sent: seq<Exchange>)
    requires sent != [] && OwnedSample(Rebalance, proof, id, sent[|sent| - 1]).Some?
    requires forall i :: 0 <= i < |sent| - 1 ==> StillRunning(Rebalance, proof, id, sent[i])
    ensures forall e :: e in sent ==> OwnedSample(Rebalance, proof, id, e).Some?
  {
    hide OwnedSample;
    forall e | e in sent ensures OwnedSample(Rebalance, proof, id, e).Some? {
      var i :| 0 <= i < |sent| && sent[i] == e;
    }
  }

  lemma BuilderKeeps(proof: Proof, snapshot: Snapshot, startId: string, s: RebalanceStatus, requests: seq<Request>, after: Snapshot)
    requires FromRebalance(proof, snapshot, startId, s, requests, after).Some?
    ensures var op := FromRebalance(proof, snapshot, startId, s, requests, after).value;
            && op.operationId == startId && op.scenario.Rebalance? && op.attempt == proof.attempt && op.requests == requests
            && op.targetId.None? && op.before == snapshot && StartBeforeStatus(requests, proof.scenario, proof.targetId)
            && |proof.runtimePools| == |op.before.pools|
            && Elements(Map(PoolId, proof.runtimePools)) == Elements(Map(PoolId, op.before.pools))
            && (proof.scenario.Rebalance? ==> proof.targetId.None?)
  {
    hide PostSnapshotValid, StartBeforeStatus, CoversPools, Totals, TopologyCapacity, ReceiptMatchesProof, RuntimePoolsValid, BindingValid, IsBlank;
    PreStartPoolsCarryTheProofIds(proof, snapshot, requests);
  }

  lemma OwnedStatusesOnly(proof: Proof, id: string, before: Transcript, sent: seq<Exchange>, op: Operation)
    requires forall e :: e in sent ==> e.reply.Answered? && OwnedSample(Rebalance, proof, id, e).Some?
    requires forall r :: r in before.requests ==> !IsStatus(Rebalance, r)
    requires op.scenario.Rebalance? && op.requests == before.requests + AnsweredRequests(sent)
    ensures |Statuses(op)| == |sent| && forall i :: 0 <= i < |sent| ==> Statuses(op)[i] == sent[i].reply.request
  {
    hide OwnedSample, IsStatus, Filter, AnsweredRequests;
    OwnedRunIndexes(Rebalance, proof, id, sent);
    var test, polled := StatusTest(Rebalance), AnsweredRequests(sent);
    forall i | 0 <= i < |polled| ensures IsStatus(Rebalance, polled[i]) {
      OwnedReceiptIsBound(proof, id, sent[i]);
    }
    FilterAppend(test, before.requests, polled);
    FilterNone(test, before.requests);
    FilterAll(test, polled);
  }
}
