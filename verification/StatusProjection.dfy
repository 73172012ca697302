/** What a captured status response means: the fail-closed projections of
    src/fault/admin_topology.rs and the progress samples built on them. */
module StatusProjection {
  import opened Basics
  import opened Receipts
  import opened TopologyProof

  // ------------------------------------------------------- decommission

  datatype DecommissionProjection = DecommissionProjection(
    state: Word, completed: bool, failed: bool, canceled: bool, objects: u64, bytes: u64)

  function OperationId(pool: nat, startTime: string): string {
    "decommission:" + Decimal(pool) + ":" + startTime
  }

  function StartTime(p: DecommissionProgress): Option<string> {
    if Present(p.startTime) then p.startTime else None
  }

  predicate DecommissionFailed(state: Word, p: DecommissionProgress) {
    p.failed || p.objectsFailed > 0 || p.bytesFailed > 0 || state.Failed?
  }

  predicate DecommissionCanceled(state: Word, p: DecommissionProgress) {
    p.canceled || state.Canceled?
  }

  predicate Moved(p: DecommissionProgress) {
    p.objects > 0 || p.bytes > 0
  }

  /** The status belongs to the operation; only a queued one may lack a start time. */
  predicate CarriesIdentity(state: Word, p: DecommissionProgress, target: nat, operationId: string) {
    match StartTime(p)
    case Some(time) => operationId == OperationId(target, time)
    case None => state.Queued?
  }

  predicate FlagsAgree(state: Word, p: DecommissionProgress) {
    var failed, canceled := DecommissionFailed(state, p), DecommissionCanceled(state, p);
    match state
    case Queued => p.queued && !p.complete && !failed && !canceled
    case Running => !p.queued && !p.complete && !failed && !canceled
    case Complete => !p.queued && p.complete && p.unresolvedEntries == 0 && !failed && !canceled
    case Failed => true
    case Canceled => true
    case _ => false
  }

  /** project_decommission_status */
  function ProjectDecommission(s: DecommissionPoolStatus, target: nat, expression: string, operationId: string): Option<DecommissionProjection> {
    if s.id != target || s.expression != expression || s.decommission.None? then None
    else
      var p := s.decommission.value;
      if !CarriesIdentity(s.status, p, target, operationId) || !FlagsAgree(s.status, p) then None
      else
        var failed, canceled := DecommissionFailed(s.status, p), DecommissionCanceled(s.status, p);
        var completed := s.status.Complete? && s.poolStatus.Decommissioned? && p.complete && !p.queued
                         && !failed && !canceled && Moved(p);
        Some(DecommissionProjection(s.status, completed, failed, canceled, p.objects, p.bytes))
  }

  /** What is projected and how, field by field: which identity a status may carry,
      under which word which flags are believed, and what counts as a failure. */
  lemma DecommissionProjectionReads(s: DecommissionPoolStatus, target: nat, expression: string, operationId: string)
    ensures var projection := ProjectDecommission(s, target, expression, operationId);
            && (projection.Some? <==>
                  && s.id == target && s.expression == expression && s.decommission.Some?
                  && var d := s.decommission.value;
                  && (if d.startTime.Some? && !IsBlank(d.startTime.value)
                      then operationId == "decommission:" + Decimal(target) + ":" + d.startTime.value
                      else s.status == Queued)
                  && (|| s.status == Failed || s.status == Canceled
                      || (&& !d.failed && d.objectsFailed == 0 && d.bytesFailed == 0 && !d.canceled
                          && (|| (s.status == Queued && d.queued && !d.complete)
                              || (s.status == Running && !d.queued && !d.complete)
                              || (s.status == Complete && !d.queued && d.complete && d.unresolvedEntries == 0)))))
            && (projection.Some? ==>
                  && var p, d := projection.value, s.decommission.value;
                  && p.state == s.status && p.objects == d.objects && p.bytes == d.bytes
                  && (p.failed <==> d.failed || d.objectsFailed > 0 || d.bytesFailed > 0 || s.status == Failed)
                  && (p.canceled <==> d.canceled || s.status == Canceled)
                  && (p.completed <==> s.status == Complete && s.poolStatus == Decommissioned && (d.objects > 0 || d.bytes > 0)))
  {
  }

  // ---------------------------------------------------------- rebalance

  datatype RebalanceProjection = RebalanceProjection(
    state: Word, completed: bool, failed: bool, stopped: bool,
    participants: seq<nat>, objects: u64, versions: u64, bytes: u64)

  function StatusPoolId(p: RebalancePoolStatus): nat { p.id }

  predicate Participates(p: RebalancePoolStatus) { p.progress.Some? }

  function ParticipantTest(): RebalancePoolStatus -> bool {
    p => Participates(p)
  }

  predicate NonEmptyText(s: Option<string>) {
    s.Some? && s.value != ""
  }

  predicate PoolFailed(p: RebalancePoolStatus) {
    || NonEmptyText(p.lastError) || p.warningCount > 0 || p.warningEntries > 0
    || NonEmptyText(p.lastWarning) || p.status.Failed? || p.status.Blocked?
  }

  predicate RebalanceFailed(s: RebalanceStatus) {
    (exists p :: p in s.pools && PoolFailed(p)) || s.failedPeers != [] || s.reloadFailedPeers != []
  }

  predicate RebalanceStopped(s: RebalanceStatus, controlRequested: bool) {
    || s.stoppedAt.Some?
    || (exists p :: p in s.pools && (p.stopping || p.status.Stopped?))
    || s.pendingTerminalReload
    || controlRequested
  }

  /** The status names every given pool exactly once and no other. */
  predicate CoversPools(s: RebalanceStatus, pools: seq<AdminPool>) {
    && |s.pools| == |pools|
    && var ids := Elements(Map(StatusPoolId, s.pools));
    && |ids| == |s.pools|
    && forall p :: p in pools ==> p.id in ids
  }

  predicate KnownPoolState(w: Word) {
    w.NoWord? || w.Started? || w.Stopping? || w.Stopped? || w.Completed? || w.Failed? || w.Blocked?
  }

  /** try_fold(checked_add) over the three counters of the participants. */
  function Totals(pools: seq<RebalancePoolStatus>, objects: u64, versions: u64, bytes: u64): Option<(u64, u64, u64)> {
    if pools == [] then Some((objects, versions, bytes))
    else if pools[0].progress.None? then Totals(pools[1..], objects, versions, bytes)
    else
      var p := pools[0].progress.value;
      match (CheckedAdd(objects, p.objects), CheckedAdd(versions, p.versions), CheckedAdd(bytes, p.bytes))
      case (Some(o), Some(v), Some(b)) => Totals(pools[1..], o, v, b)
      case _ => None
  }

  predicate MovementFinished(s: RebalanceStatus) {
    && (exists p :: p in s.pools && Participates(p))
    && (forall p :: p in s.pools && Participates(p) ==> p.status.Completed?)
    && (forall p :: p in s.pools && !Participates(p) ==> p.status.NoWord? || p.status.Completed?)
  }

  /** project_rebalance_status */
  function ProjectRebalance(s: RebalanceStatus, pools: seq<AdminPool>, controlRequested: bool): Option<RebalanceProjection> {
    if !CoversPools(s, pools) || !(forall p :: p in s.pools ==> KnownPoolState(p.status)) then None
    else
      match Totals(s.pools, 0, 0, 0)
      case None => None
      case Some((objects, versions, bytes)) =>
        var failed, stopped := RebalanceFailed(s), RebalanceStopped(s, controlRequested);
        var moved := objects > 0 || versions > 0 || bytes > 0;
        var completed := moved && MovementFinished(s) && !failed && !stopped;
        var state := if failed then Failed else if stopped then Stopped else if completed then Completed else Started;
        Some(RebalanceProjection(state, completed, failed, stopped,
                                 Map(StatusPoolId, Filter(ParticipantTest(), s.pools)), objects, versions, bytes))
  }

  /** A pool of the status that shows a failure, in the fields it is reported in. */
  lemma RebalanceFailureReads(s: RebalanceStatus, pools: seq<AdminPool>, controlRequested: bool)
    requires ProjectRebalance(s, pools, controlRequested).Some?
    ensures var p := ProjectRebalance(s, pools, controlRequested).value;
            && (p.failed <==>
                  || s.failedPeers != [] || s.reloadFailedPeers != []
                  || exists x :: x in s.pools && (|| (x.lastError.Some? && |x.lastError.value| > 0) || x.warningCount > 0 || x.warningEntries > 0
                                                  || (x.lastWarning.Some? && |x.lastWarning.value| > 0)
                                                  || x.status == Failed || x.status == Blocked))
            && (p.stopped <==>
                  || controlRequested || s.stoppedAt.Some? || s.pendingTerminalReload
                  || exists x :: x in s.pools && (x.stopping || x.status == Stopped))
            && (p.failed ==> p.state == Failed && !p.completed)
            && (p.stopped && !p.failed ==> p.state == Stopped && !p.completed)
  {
    hide CoversPools, KnownPoolState, Totals, Filter, MovementFinished;
  }

  /** Completed means that something moved, that every participating pool has
      completed and no other pool is busy, and that nothing failed or was stopped. */
  lemma RebalanceCompletionReads(s: RebalanceStatus, pools: seq<AdminPool>, controlRequested: bool)
    requires ProjectRebalance(s, pools, controlRequested).Some?
    ensures var p := ProjectRebalance(s, pools, controlRequested).value;
            && p.objects == SumBy(Objects, s.pools) && p.versions == SumBy(Versions, s.pools) && p.bytes == SumBy(Bytes, s.pools)
            && (p.completed <==>
                  && !p.failed && !p.stopped
                  && (exists x :: x in s.pools && x.progress.Some?
                        && (x.progress.value.objects > 0 || x.progress.value.versions > 0 || x.progress.value.bytes > 0))
                  && (forall x :: x in s.pools ==> x.status == Completed || (x.progress.None? && x.status == NoWord)))
            && (p.completed ==> p.state == Completed)
            && (!p.completed && !p.failed && !p.stopped ==> p.state == Started)
            && (forall id :: id in p.participants <==> exists x :: x in s.pools && x.id == id && x.progress.Some?)
  {
    hide CoversPools, KnownPoolState, Totals, Filter, RebalanceFailed, RebalanceStopped, SumBy;
    TotalsAreExact(s.pools, 0, 0, 0);
    SomePositive(Objects, s.pools);
    SomePositive(Versions, s.pools);
    SomePositive(Bytes, s.pools);
    ParticipantsAre(s.pools);
  }

  lemma {:induction false} SomePositive(f: RebalancePoolStatus -> nat, pools: seq<RebalancePoolStatus>)
    ensures SumBy(f, pools) > 0 <==> exists x :: x in pools && f(x) > 0
  {
    if pools != [] {
      SomePositive(f, pools[1..]);
      assert forall x :: x in pools <==> x == pools[0] || x in pools[1..];
    }
  }

  lemma ParticipantsAre(pools: seq<RebalancePoolStatus>)
    ensures forall id :: id in Map(StatusPoolId, Filter(ParticipantTest(), pools)) <==> exists x :: x in pools && x.id == id && x.progress.Some?
  {
    hide Filter;
    var moving := Filter(ParticipantTest(), pools);
    forall x | x in pools && x.progress.Some? ensures x.id in Map(StatusPoolId, moving) {
      assert ParticipantTest()(x);
      var i :| 0 <= i < |moving| && moving[i] == x;
      assert Map(StatusPoolId, moving)[i] == x.id;
    }
    forall id | id in Map(StatusPoolId, moving) ensures exists x :: x in pools && x.id == id && x.progress.Some? {
      var i :| 0 <= i < |moving| && Map(StatusPoolId, moving)[i] == id;
      assert moving[i] in moving && ParticipantTest()(moving[i]);
    }
  }

  /** A rebalance status is projected exactly when its pools are the given ones,
      each once and in a known state, and the counters of the movers fit u64. */
  lemma RebalanceIsProjectedWhen(s: RebalanceStatus, pools: seq<AdminPool>, controlRequested: bool)
    ensures ProjectRebalance(s, pools, controlRequested).Some? <==>
              && |s.pools| == |pools|
              && (forall i, j :: 0 <= i < j < |s.pools| ==> s.pools[i].id != s.pools[j].id)
              && (forall p :: p in pools ==> exists x :: x in s.pools && x.id == p.id)
              && (forall x :: x in s.pools ==> x.status in [NoWord, Started, Stopping, Stopped, Completed, Failed, Blocked])
              && SumBy(Objects, s.pools) <= U64_MAX && SumBy(Versions, s.pools) <= U64_MAX && SumBy(Bytes, s.pools) <= U64_MAX
  {
    hide Totals, Filter, RebalanceFailed, RebalanceStopped, SumBy, MovementFinished;
    TotalsAreExact(s.pools, 0, 0, 0);
    CoverageReads(s, pools);
  }

  lemma CoverageReads(s: RebalanceStatus, pools: seq<AdminPool>)
    ensures CoversPools(s, pools) <==>
              && |s.pools| == |pools|
              && (forall i, j :: 0 <= i < j < |s.pools| ==> s.pools[i].id != s.pools[j].id)
              && (forall p :: p in pools ==> exists x :: x in s.pools && x.id == p.id)
  {
    var ids := Map(StatusPoolId, s.pools);
    FullCardinalityIffDistinct(ids);
    assert Distinct(ids) <==> forall i, j :: 0 <= i < j < |s.pools| ==> s.pools[i].id != s.pools[j].id by {
      if Distinct(ids) {
        forall i, j | 0 <= i < j < |s.pools| ensures s.pools[i].id != s.pools[j].id {
          assert ids[i] != ids[j];
        }
      }
    }
    forall p | p in pools ensures p.id in Elements(ids) <==> exists x :: x in s.pools && x.id == p.id {
      IdIsListed(s.pools, p.id);
    }
  }

  lemma IdIsListed(pools: seq<RebalancePoolStatus>, id: nat)
    ensures id in Elements(Map(StatusPoolId, pools)) <==> exists x :: x in pools && x.id == id
  {
    var ids := Map(StatusPoolId, pools);
    if x :| x in pools && x.id == id {
      var i :| 0 <= i < |pools| && pools[i] == x;
      assert ids[i] == id;
    }
    if id in ids {
      var i :| 0 <= i < |ids| && ids[i] == id;
      assert pools[i] in pools;
    }
  }

  // ----------------------------------------------------- progress samples

  datatype Sample = Sample(
    attempt: Attempt, operationId: string, statusRequestId: string, observedAt: u64,
    state: Word, completed: bool, failed: bool, canceledOrStopped: bool,
    objects: Option<u64>, versions: Option<u64>, bytes: Option<u64>)

  datatype Call<T> = Call(value: T, request: Request)

  /** The part of decommission_progress_sample that does not depend on the operation identity. */
  predicate DecommissionReceiptValid(proof: Proof, call: Call<DecommissionPoolStatus>) {
    && Satisfied(proof) && proof.scenario.Decommission?
    && proof.targetId.Some? && proof.targetExpression.Some?
    && RequestValid(call.request)
    && SameRuntimeIdentity(proof.runtime.target, call.request.target)
    && IsStatus(Decommission, call.request) && ExactQuery(call.request, Decommission, proof.targetId)
    && Successful(call.request.status)
    && Captured(call.request) == Some(DecommissionBody(call.value))
    && Present(call.request.requestId)
  }

  function DecommissionSample(proof: Proof, operationId: string, call: Call<DecommissionPoolStatus>): Option<Sample> {
    if !DecommissionReceiptValid(proof, call) then None
    else
      match ProjectDecommission(call.value, proof.targetId.value, proof.targetExpression.value, operationId)
      case None => None
      case Some(p) =>
        Some(Sample(proof.attempt, operationId, call.request.requestId.value, call.request.observedAt,
                    p.state, p.completed, p.failed, p.canceled, Some(p.objects), None, Some(p.bytes)))
  }

  function RebalanceSample(proof: Proof, operationId: string, call: Call<RebalanceStatus>): Option<Sample> {
    if !Satisfied(proof) || !proof.scenario.Rebalance? || IsBlank(operationId) || call.value.id != operationId
      || !RequestValid(call.request) || !SameRuntimeIdentity(proof.runtime.target, call.request.target)
      || !IsStatus(Rebalance, call.request) || !ExactQuery(call.request, Rebalance, None)
      || !Successful(call.request.status) || Captured(call.request) != Some(RebalanceBody(call.value))
      || !Present(call.request.requestId)
    then None
    else
      match ProjectRebalance(call.value, proof.runtimePools, false)
      case None => None
      case Some(p) =>
        Some(Sample(proof.attempt, operationId, call.request.requestId.value, call.request.observedAt,
                    p.state, p.completed, p.failed, p.stopped, Some(p.objects), Some(p.versions), Some(p.bytes)))
  }

  const UNBOUND := "unbound-queued-operation"

  /** The identity a status reveals, if it reveals one. */
  function RevealedId(proof: Proof, call: Call<DecommissionPoolStatus>): Option<string>
    requires proof.targetId.Some?
  {
    if call.value.decommission.None? then None
    else
      match StartTime(call.value.decommission.value)
      case None => None
      case Some(time) => Some(OperationId(proof.targetId.value, time))
  }

  /** operation_id_from_status succeeds: the receipt projects under the identity it reveals. */
  predicate SelfConsistent(proof: Proof, call: Call<DecommissionPoolStatus>) {
    && proof.targetId.Some?
    && DecommissionSample(proof, if RevealedId(proof, call).Some? then RevealedId(proof, call).value else UNBOUND, call).Some?
  }

  /** Re-projection cannot fail: a self-consistent receipt projects under any
      identity it does not contradict, and nothing but the identity changes. */
  lemma ReprojectionSucceeds(proof: Proof, call: Call<DecommissionPoolStatus>, id: string, other: string)
    requires SelfConsistent(proof, call)
    requires RevealedId(proof, call).Some? ==> RevealedId(proof, call).value == id
    ensures DecommissionSample(proof, id, call).Some?
    ensures DecommissionSample(proof, other, call).Some? ==>
              DecommissionSample(proof, other, call).value == DecommissionSample(proof, id, call).value.(operationId := other)
    ensures RevealedId(proof, call).None? ==> call.value.status.Queued?
  {
    hide DecommissionReceiptValid, FlagsAgree, OperationId, DecommissionFailed, DecommissionCanceled, Moved, Present;
  }

  /** Both counters of a total are exact sums when the fold succeeds, and it
      fails exactly when one of the three sums leaves u64. */
  lemma {:induction false} TotalsAreExact(pools: seq<RebalancePoolStatus>, objects: u64, versions: u64, bytes: u64)
    ensures var o, v, b := objects + SumBy(Objects, pools), versions + SumBy(Versions, pools), bytes + SumBy(Bytes, pools);
            if o <= U64_MAX && v <= U64_MAX && b <= U64_MAX
            then Totals(pools, objects, versions, bytes) == Some((o, v, b))
            else Totals(pools, objects, versions, bytes) == None
  {
    if pools != [] {
      var p := pools[0];
      if p.progress.None? {
        TotalsAreExact(pools[1..], objects, versions, bytes);
      } else if objects + p.progress.value.objects <= U64_MAX && versions + p.progress.value.versions <= U64_MAX
             && bytes + p.progress.value.bytes <= U64_MAX {
        TotalsAreExact(pools[1..], objects + p.progress.value.objects, versions + p.progress.value.versions,
                       bytes + p.progress.value.bytes);
      }
    }
  }

  function Objects(p: RebalancePoolStatus): nat { if Participates(p) then p.progress.value.objects else 0 }

  function Versions(p: RebalancePoolStatus): nat { if Participates(p) then p.progress.value.versions else 0 }

  function Bytes(p: RebalancePoolStatus): nat { if Participates(p) then p.progress.value.bytes else 0 }
}
