/** The live constructors of operation evidence, from_decommission and
    from_rebalance in src/fault/admin_topology.rs, against the offline
    projection of the terminal receipt. */
module Builders {
  import opened Basics
  import opened Receipts
  import opened TopologyProof
  import opened StatusProjection
  import opened Evidence

  predicate ControlRequested(requests: seq<Request>) {
    exists r :: r in requests && IsCancelOrStop(r)
  }

  /** The constructor's own notion of completion; it never reads the state word
      beyond excluding failed and canceled. */
  predicate BuilderCompleted(s: DecommissionPoolStatus, p: DecommissionProgress) {
    && s.poolStatus.Decommissioned? && p.complete && !p.queued && p.unresolvedEntries == 0
    && !DecommissionFailed(s.status, p) && !DecommissionCanceled(s.status, p) && Moved(p)
  }

  /** The evidence from_decommission assembles once its checks have passed. */
  function DecommissionOperation(proof: Proof, before: Snapshot, s: DecommissionPoolStatus,
                                 requests: seq<Request>, after: Snapshot): Operation
    requires proof.targetId.Some? && s.decommission.Some? && s.decommission.value.startTime.Some?
  {
    var p := s.decommission.value;
    Operation(proof.attempt, Decommission, OperationId(proof.targetId.value, p.startTime.value),
              proof.targetId, proof.targetExpression, s.status,
              BuilderCompleted(s, p), DecommissionFailed(s.status, p),
              DecommissionCanceled(s.status, p) || ControlRequested(requests),
              [proof.targetId.value], Some(p.objects), None, Some(p.bytes), requests, before, after)
  }

  function FromDecommission(proof: Proof, before: Snapshot, s: DecommissionPoolStatus,
                            requests: seq<Request>, after: Snapshot): Option<Operation> {
    if !Satisfied(proof) || !PreStartSnapshotValid(proof, before, requests) || !PostSnapshotValid(proof, after, requests)
      || proof.targetId.None? || proof.targetExpression.None?
      || s.id != proof.targetId.value || s.expression != proof.targetExpression.value
      || s.decommission.None? || StartTime(s.decommission.value).None?
    then None
    else Some(DecommissionOperation(proof, before, s, requests, after))
  }

  /** The evidence from_rebalance assembles once its checks have passed. */
  function RebalanceOperation(proof: Proof, before: Snapshot, startId: string, s: RebalanceStatus,
                              requests: seq<Request>, after: Snapshot, totals: (u64, u64, u64)): Operation {
    var (objects, versions, bytes) := totals;
    var failed, stopped := RebalanceFailed(s), RebalanceStopped(s, ControlRequested(requests));
    var completed := (objects > 0 || versions > 0 || bytes > 0) && MovementFinished(s) && !failed && !stopped;
    var state := if failed then Failed else if stopped then Stopped else if completed then Completed else Incomplete;
    Operation(proof.attempt, Rebalance, startId, None, None, state, completed, failed, stopped,
              Map(StatusPoolId, Filter(ParticipantTest(), s.pools)), Some(objects), Some(versions), Some(bytes),
              requests, before, after)
  }

  function FromRebalance(proof: Proof, before: Snapshot, startId: string, s: RebalanceStatus,
                         requests: seq<Request>, after: Snapshot): Option<Operation> {
    if !Satisfied(proof) || !PreStartSnapshotValid(proof, before, requests) || !PostSnapshotValid(proof, after, requests)
      || IsBlank(startId) || s.id != startId || !CoversPools(s, proof.runtimePools)
    then None
    else
      match Totals(s.pools, 0, 0, 0)
      case None => None
      case Some(totals) => Some(RebalanceOperation(proof, before, startId, s, requests, after, totals))
  }

  /** The fields of a built decommission, in those of the terminal status and the requests. */
  lemma DecommissionBuildReads(proof: Proof, before: Snapshot, s: DecommissionPoolStatus, requests: seq<Request>, after: Snapshot)
    requires FromDecommission(proof, before, s, requests, after).Some?
    ensures Satisfied(proof) && PreStartSnapshotValid(proof, before, requests) && PostSnapshotValid(proof, after, requests)
    ensures proof.targetId == Some(s.id) && proof.targetExpression == Some(s.expression)
    ensures s.decommission.Some? && s.decommission.value.startTime.Some? && !IsBlank(s.decommission.value.startTime.value)
    ensures var op, d := FromDecommission(proof, before, s, requests, after).value, s.decommission.value;
            && op.attempt == proof.attempt && op.scenario == Decommission && op.requests == requests && op.before == before && op.after == after
            && op.targetId == Some(s.id) && op.targetExpression == Some(s.expression) && op.participants == [s.id]
            && op.operationId == "decommission:" + Decimal(s.id) + ":" + d.startTime.value
            && op.terminalState == s.status && op.objects == Some(d.objects) && op.versions == None && op.bytes == Some(d.bytes)
            && (op.failed <==> d.failed || d.objectsFailed > 0 || d.bytesFailed > 0 || s.status == Failed)
            && (op.canceledOrStopped <==>
                  || d.canceled || s.status == Canceled
                  || exists r :: r in requests && r.verb == Post && (r.path == PoolsCancel || r.path == RebalanceStop))
            && (op.completed <==>
                  && s.poolStatus == Decommissioned && d.complete && !d.queued && d.unresolvedEntries == 0
                  && !op.failed && !d.canceled && s.status != Canceled && (d.objects > 0 || d.bytes > 0))
  {
    hide PreStartSnapshotValid, PostSnapshotValid, Satisfied;
  }

  /** The fields of a built rebalance, in those of the terminal status and the requests. */
  lemma RebalanceBuildReads(proof: Proof, before: Snapshot, startId: string, s: RebalanceStatus, requests: seq<Request>, after: Snapshot)
    requires FromRebalance(proof, before, startId, s, requests, after).Some?
    ensures Satisfied(proof) && PreStartSnapshotValid(proof, before, requests) && PostSnapshotValid(proof, after, requests)
    ensures s.id == startId && !IsBlank(startId)
    ensures var op := FromRebalance(proof, before, startId, s, requests, after).value;
            && op.attempt == proof.attempt && op.scenario == Rebalance && op.requests == requests && op.before == before && op.after == after
            && op.targetId == None && op.targetExpression == None && op.operationId == startId
            && op.objects == Some(SumBy(Objects, s.pools)) && op.versions == Some(SumBy(Versions, s.pools)) && op.bytes == Some(SumBy(Bytes, s.pools))
            && (op.failed <==>
                  || s.failedPeers != [] || s.reloadFailedPeers != []
                  || exists x :: x in s.pools && (|| (x.lastError.Some? && |x.lastError.value| > 0) || x.warningCount > 0 || x.warningEntries > 0
                                                  || (x.lastWarning.Some? && |x.lastWarning.value| > 0)
                                                  || x.status == Failed || x.status == Blocked))
            && (op.canceledOrStopped <==>
                  || s.stoppedAt.Some? || s.pendingTerminalReload
                  || (exists x :: x in s.pools && (x.stopping || x.status == Stopped))
                  || exists r :: r in requests && r.verb == Post && (r.path == PoolsCancel || r.path == RebalanceStop))
            && op.terminalState == (if op.failed then Failed else if op.canceledOrStopped then Stopped else if op.completed then Completed else Incomplete)
  {
    hide PreStartSnapshotValid, PostSnapshotValid, Satisfied, CoversPools, Totals, SumBy, Filter, MovementFinished;
    TotalsAreExact(s.pools, 0, 0, 0);
  }

  lemma RebalanceBuildCompletes(proof: Proof, before: Snapshot, startId: string, s: RebalanceStatus, requests: seq<Request>, after: Snapshot)
    requires FromRebalance(proof, before, startId, s, requests, after).Some?
    ensures var op := FromRebalance(proof, before, startId, s, requests, after).value;
            && (op.completed <==>
                  && !op.failed && !op.canceledOrStopped
                  && (exists x :: x in s.pools && x.progress.Some?
                        && (x.progress.value.objects > 0 || x.progress.value.versions > 0 || x.progress.value.bytes > 0))
                  && (forall x :: x in s.pools ==> x.status == Completed || (x.progress.None? && x.status == NoWord)))
            && (forall id :: id in op.participants <==> exists x :: x in s.pools && x.id == id && x.progress.Some?)
  {
    hide PreStartSnapshotValid, PostSnapshotValid, Satisfied, CoversPools, Totals, SumBy, Filter, RebalanceFailed, RebalanceStopped, ControlRequested;
    TotalsAreExact(s.pools, 0, 0, 0);
    SomePositive(Objects, s.pools);
    SomePositive(Versions, s.pools);
    SomePositive(Bytes, s.pools);
    ParticipantsAre(s.pools);
  }

  lemma DecommissionFlagsAgree(proof: Proof, before: Snapshot, s: DecommissionPoolStatus,
                               requests: seq<Request>, after: Snapshot)
    requires proof.targetId.Some? && s.decommission.Some? && StartTime(s.decommission.value).Some?
    requires s.id == proof.targetId.value
    ensures var op := DecommissionOperation(proof, before, s, requests, after);
            var projection := ProjectDecommission(s, proof.targetId.value, s.expression, op.operationId);
            && (projection.Some? && projection.value.completed ==>
                  op.completed && projection.value.state.Complete? && !projection.value.failed && !projection.value.canceled)
            && (op.completed && op.terminalState.Complete? ==>
                  && projection.Some?
                  && projection.value == DecommissionProjection(Complete, true, false, false, op.objects.value, op.bytes.value))
  {
  }

  /** A built decommission passes the offline terminal check as completed
      exactly when it is completed, its state word is complete and nobody asked
      to cancel; and the offline check never calls completed what the builder does not. */
  lemma DecommissionBuilderAgrees(proof: Proof, before: Snapshot, s: DecommissionPoolStatus,
                                  requests: seq<Request>, after: Snapshot)
    requires FromDecommission(proof, before, s, requests, after).Some?
    requires proof.scenario.Decommission?
    requires Captured(TerminalOf(requests, Decommission)) == Some(DecommissionBody(s))
    ensures var op := FromDecommission(proof, before, s, requests, after).value;
            && (op.completed && TerminalResponseMatches(op)
                <==> op.completed && op.terminalState.Complete? && !ControlRequested(requests))
            && (match ProjectDecommission(s, proof.targetId.value, proof.targetExpression.value, op.operationId)
                case Some(p) => p.completed ==> op.completed
                case None => true)
  {
    hide PreStartSnapshotValid, PostSnapshotValid, Satisfied, ProjectDecommission, TerminalResponseMatches, FirstIndex, AfterLast;
    TranscriptHasTerminal(proof, before, requests);
    DecommissionFlagsAgree(proof, before, s, requests, after);
    TerminalCheckReads(proof, before, s, requests, after);
  }

  lemma TranscriptHasTerminal(proof: Proof, before: Snapshot, requests: seq<Request>)
    requires PreStartSnapshotValid(proof, before, requests)
    ensures AfterLast(StatusTest(proof.scenario), requests) > 0 && StartIndex(requests, proof.scenario) < |requests|
  {
  }

  lemma TerminalCheckReads(proof: Proof, before: Snapshot, s: DecommissionPoolStatus,
                           requests: seq<Request>, after: Snapshot)
    requires proof.targetId.Some? && proof.targetExpression == Some(s.expression)
    requires s.decommission.Some? && StartTime(s.decommission.value).Some?
    requires AfterLast(StatusTest(Decommission), requests) > 0
    requires Captured(TerminalOf(requests, Decommission)) == Some(DecommissionBody(s))
    ensures var op := DecommissionOperation(proof, before, s, requests, after);
            TerminalResponseMatches(op) <==>
              match ProjectDecommission(s, proof.targetId.value, s.expression, op.operationId)
              case None => false
              case Some(p) => op.terminalState == p.state && op.completed == p.completed && op.failed == p.failed
                              && op.canceledOrStopped == p.canceled
  {
  }

  /** A status that projects is completed for the builder only under the word complete. */
  lemma PolledStatusCompletesByItsWord(proof: Proof, call: Call<DecommissionPoolStatus>)
    requires SelfConsistent(proof, call) && call.value.decommission.Some?
    requires BuilderCompleted(call.value, call.value.decommission.value)
    ensures call.value.status.Complete?
  {
    hide DecommissionReceiptValid, CarriesIdentity, RevealedId, Moved;
  }

  /** So for every status a driver has polled, the builder and the offline check
      can disagree on completion only because a cancel was requested. */
  lemma PolledStatusAgreesUnlessCanceled(proof: Proof, before: Snapshot, call: Call<DecommissionPoolStatus>,
                                         requests: seq<Request>, after: Snapshot)
    requires SelfConsistent(proof, call) && proof.scenario.Decommission?
    requires FromDecommission(proof, before, call.value, requests, after).Some?
    requires Captured(TerminalOf(requests, Decommission)) == Some(DecommissionBody(call.value))
    ensures var op := FromDecommission(proof, before, call.value, requests, after).value;
            op.completed ==> (TerminalResponseMatches(op) <==> !ControlRequested(requests))
  {
    hide PreStartSnapshotValid, PostSnapshotValid, Satisfied, TerminalResponseMatches, SelfConsistent, BuilderCompleted, ControlRequested;
    DecommissionBuilderAgrees(proof, before, call.value, requests, after);
    if FromDecommission(proof, before, call.value, requests, after).value.completed {
      PolledStatusCompletesByItsWord(proof, call);
    }
  }

  lemma CoverageFollowsTheIds(s: RebalanceStatus, a: seq<AdminPool>, b: seq<AdminPool>)
    requires CoversPools(s, a)
    requires |a| == |b| && Elements(Map(PoolId, a)) == Elements(Map(PoolId, b))
    ensures CoversPools(s, b)
  {
    forall p | p in b ensures p.id in Elements(Map(StatusPoolId, s.pools)) {
      var j :| 0 <= j < |b| && b[j] == p;
      assert Map(PoolId, b)[j] in Elements(Map(PoolId, b));
      var i :| 0 <= i < |a| && Map(PoolId, a)[i] == p.id;
      assert a[i] in a;
    }
  }

  ghost predicate Agrees(op: Operation, p: RebalanceProjection) {
    && op.completed == p.completed && op.failed == p.failed && op.canceledOrStopped == p.stopped
    && op.participants == p.participants
    && op.objects == Some(p.objects) && op.versions == Some(p.versions) && op.bytes == Some(p.bytes)
    && p.state == (if op.terminalState.Incomplete? then Started else op.terminalState)
  }

  lemma RebalanceFiguresAgree(proof: Proof, before: Snapshot, startId: string, s: RebalanceStatus,
                              requests: seq<Request>, after: Snapshot)
    requires CoversPools(s, before.pools) && Totals(s.pools, 0, 0, 0).Some?
    ensures var op := RebalanceOperation(proof, before, startId, s, requests, after, Totals(s.pools, 0, 0, 0).value);
            var projection := ProjectRebalance(s, before.pools, ControlRequested(requests));
            && (projection.Some? <==> forall p :: p in s.pools ==> KnownPoolState(p.status))
            && (op.completed ==> projection.Some?)
            && (projection.Some? ==> Agrees(op, projection.value))
  {
    if MovementFinished(s) {
      CompletedStatesAreKnown(s);
    }
  }

  /** The builder checks the proof's pools and the projection the snapshot's,
      yet they agree: the projection succeeds exactly when every pool state is a
      known one, all figures coincide, and the state words differ only in how
      they name an unfinished run. */
  lemma RebalanceBuilderAgrees(proof: Proof, before: Snapshot, startId: string, s: RebalanceStatus,
                               requests: seq<Request>, after: Snapshot)
    requires FromRebalance(proof, before, startId, s, requests, after).Some?
    ensures var op := FromRebalance(proof, before, startId, s, requests, after).value;
            var projection := ProjectRebalance(s, before.pools, ControlRequested(requests));
            && (projection.Some? <==> forall p :: p in s.pools ==> KnownPoolState(p.status))
            && (op.completed ==> projection.Some?)
            && (projection.Some? ==> Agrees(op, projection.value))
  {
    PreStartPoolsCarryTheProofIds(proof, before, requests);
    CoverageFollowsTheIds(s, proof.runtimePools, before.pools);
    RebalanceFiguresAgree(proof, before, startId, s, requests, after);
  }

  lemma PreStartPoolsCarryTheProofIds(proof: Proof, before: Snapshot, requests: seq<Request>)
    requires PreStartSnapshotValid(proof, before, requests)
    ensures |proof.runtimePools| == |before.pools|
    ensures Elements(Map(PoolId, proof.runtimePools)) == Elements(Map(PoolId, before.pools))
  {
    BoundSnapshotsShareIds(proof.tenantPools, proof.runtimePools, before.pools);
  }

  lemma CompletedStatesAreKnown(s: RebalanceStatus)
    requires MovementFinished(s)
    ensures forall p :: p in s.pools ==> KnownPoolState(p.status)
  {
    forall p | p in s.pools ensures KnownPoolState(p.status) {
      assert Participates(p) || !Participates(p);
    }
  }

  /** So a rebalance built as completed passes the offline terminal check. */
  lemma CompletedRebalancePassesTerminalCheck(proof: Proof, before: Snapshot, startId: string, s: RebalanceStatus,
                                              requests: seq<Request>, after: Snapshot)
    requires FromRebalance(proof, before, startId, s, requests, after).Some?
    requires proof.scenario.Rebalance?
    requires Captured(StartOf(requests, Rebalance)) == Some(RebalanceStartBody(startId))
    requires Captured(TerminalOf(requests, Rebalance)) == Some(RebalanceBody(s))
    requires FromRebalance(proof, before, startId, s, requests, after).value.completed
    ensures TerminalResponseMatches(FromRebalance(proof, before, startId, s, requests, after).value)
  {
    TranscriptHasTerminal(proof, before, requests);
    RebalanceBuilderAgrees(proof, before, startId, s, requests, after);
  }
}
