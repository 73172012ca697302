/** S3 overlap evidence for both admin scenarios (src/fault/admin_decommission.rs
    and src/fault/admin_rebalance.rs): a window of recorder sequences cuts the
    workload out of the history, and the cut is tied to the operation window. */
module Overlap {
  import opened Basics
  import opened Receipts
  import opened StatusProjection
  import opened History
  import opened Evidence

  datatype WorkloadReceipt = WorkloadReceipt(
    startedAt: u64, endedAt: u64, first: u64, last: u64, history: seq<Record>)

  // ------------------------------------------------- the workload slice

  predicate Within(x: Option<u64>, first: u64, last: u64) {
    x.Some? && first <= x.value <= last
  }

  function SliceTest(first: u64, last: u64): Record -> bool {
    (r: Record) => Within(r.startedSequence, first, last)
  }

  /** The record lies on one side of the window boundary, and inside it also in time. */
  predicate SidesAgree(r: Record, w: WorkloadReceipt) {
    && r.startedSequence.Some? && r.endedSequence.Some?
    && (Within(r.startedSequence, w.first, w.last) <==> Within(r.endedSequence, w.first, w.last))
    && (Within(r.startedSequence, w.first, w.last) ==> w.startedAt <= r.startedAt && r.endedAt <= w.endedAt)
  }

  function Slice(w: WorkloadReceipt): seq<Record> {
    Filter(SliceTest(w.first, w.last), w.history)
  }

  /** validate_history_scope_and_order against the scope of the first record. */
  predicate SelfScoped(history: seq<Record>) {
    && history != [] && history[0].runId.Some?
    && ScopeAndOrder(history, history[0].scenario, history[0].runId.value, history[0].bucket)
  }

  /** workload_records succeeds; its result is Slice(w).  All slice members lie in
      the window, so its ends are covered when some member reaches each of them. */
  predicate SliceValid(w: WorkloadReceipt) {
    && 0 < w.startedAt <= w.endedAt && 0 < w.first <= w.last
    && SelfScoped(w.history)
    && (forall r :: r in w.history ==> SidesAgree(r, w))
    && BoundaryHit(Slice(w), w)
  }

  predicate BoundaryHit(found: seq<Record>, w: WorkloadReceipt) {
    && (exists r :: r in found && r.startedSequence == Some(w.first))
    && (exists r :: r in found && r.endedSequence == Some(w.last))
  }

  method WorkloadRecords(w: WorkloadReceipt) returns (records: Option<seq<Record>>)
    ensures records == if SliceValid(w) then Some(Slice(w)) else None
  {
    hide ScopeAndOrder, SidesAgree, Filter, SliceTest, BoundaryHit;
    if !(0 < w.startedAt <= w.endedAt && 0 < w.first <= w.last) || w.history == [] || w.history[0].runId.None? {
      return None;
    }
    var scoped := ValidateHistory(w.history, w.history[0].scenario, w.history[0].runId.value, w.history[0].bucket);
    if !scoped { return None; }
    var found: seq<Record> := [];
    EmptyFilter(SliceTest(w.first, w.last), w.history);
    for i := 0 to |w.history|
      invariant forall k :: 0 <= k < i ==> SidesAgree(w.history[k], w)
      invariant found == Filter(SliceTest(w.first, w.last), w.history[..i])
    {
      var r := w.history[i];
      if !SidesAgree(r, w) {
        assert r in w.history;
        return None;
      }
      FilterOneMore(SliceTest(w.first, w.last), w.history, i);
      if SliceTest(w.first, w.last)(r) {
        found := found + [r];
      }
    }
    assert w.history[..|w.history|] == w.history;
    if BoundaryHit(found, w) {
      return Some(found);
    }
    return None;
  }

  lemma EmptyFilter<T>(p: T -> bool, s: seq<T>)
    ensures Filter(p, s[..0]) == []
  {
  }

  lemma FilterOneMore<T>(p: T -> bool, s: seq<T>, i: nat)
    requires i < |s|
    ensures Filter(p, s[..i + 1]) == Filter(p, s[..i]) + if p(s[i]) then [s[i]] else []
  {
    assert s[..i + 1] == s[..i] + [s[i]];
    FilterAppend(p, s[..i], [s[i]]);
  }

  // ------------------------------------------------------ the evidence

  predicate IntervalsOverlap(a: u64, b: u64, c: u64, d: u64) {
    a < b && c < d && a < d && c < b
  }

  predicate Inside(t: real, a: u64, b: u64) {
    a as real < t < b as real
  }

  /** Two intervals overlap exactly when some moment lies strictly inside both. */
  lemma OverlapMeansSharedMoment(a: u64, b: u64, c: u64, d: u64)
    ensures IntervalsOverlap(a, b, c, d) <==> exists t :: Inside(t, a, b) && Inside(t, c, d)
  {
    if IntervalsOverlap(a, b, c, d) {
      var lo, hi := if a < c then c else a, if b < d then b else d;
      var t := (lo as real + hi as real) / 2.0;
      assert Inside(t, a, b) && Inside(t, c, d);
    }
  }

  datatype OverlapEvidence = OverlapEvidence(
    attempt: Attempt, operationId: string, targetExpression: Option<string>,
    operationStartedAt: u64, operationCompletedAt: u64, workloadStartedAt: u64, workloadEndedAt: u64,
    first: u64, last: u64, workloadIds: seq<string>, overlappingIds: seq<string>, statusIds: seq<string>)

  function RecordId(r: Record): string { r.id }

  predicate RecordBeside(r: Record, startedAt: u64, completedAt: u64) {
    IntervalsOverlap(r.startedAt, r.endedAt, startedAt, completedAt)
  }

  function OverlapTest(startedAt: u64, completedAt: u64): Record -> bool {
    r => RecordBeside(r, startedAt, completedAt)
  }

  /** validate_overlap_progress_receipts */
  predicate ReceiptsBound(scenario: Scenario, requests: seq<Request>, progress: seq<Sample>) {
    var statuses := Filter(StatusTest(scenario), requests);
    && |statuses| == |progress|
    && forall i :: 0 <= i < |statuses| ==>
         && Successful(statuses[i].status) && statuses[i].requestId == Some(progress[i].statusRequestId)
         && statuses[i].observedAt == progress[i].observedAt
  }

  /** One successful operation: every sample but the last unfinished, the last complete. */
  predicate OneSuccessfulRun(attempt: Attempt, operationId: string, progress: seq<Sample>) {
    && progress != []
    && (forall s :: s in progress ==> s.attempt == attempt && s.operationId == operationId)
    && (forall i :: 0 <= i < |progress| ==>
          !progress[i].failed && !progress[i].canceledOrStopped && (progress[i].completed <==> i == |progress| - 1))
    && (forall i :: 0 <= i < |progress| - 1 ==> progress[i].observedAt <= progress[i + 1].observedAt)
  }

  function StatusReceiptId(progress: seq<Sample>): Request -> Option<string> {
    (r: Request) => if r.requestId.Some? && exists s :: s in progress && s.statusRequestId == r.requestId.value && s.observedAt == r.observedAt
         then r.requestId else None
  }

  predicate StatusBeside(scenario: Scenario, r: Request, startedAt: u64, endedAt: u64) {
    IsStatus(scenario, r) && IntervalsOverlap(r.startedAt, r.observedAt, startedAt, endedAt)
  }

  function OverlappingStatus(scenario: Scenario, startedAt: u64, endedAt: u64): Request -> bool {
    r => StatusBeside(scenario, r, startedAt, endedAt)
  }

  /** overlapping_status_request_ids */
  function OverlappingStatusIds(scenario: Scenario, requests: seq<Request>, progress: seq<Sample>,
                                startedAt: u64, endedAt: u64): Option<seq<string>> {
    Values(Map(StatusReceiptId(progress), Filter(OverlappingStatus(scenario, startedAt, endedAt), requests)))
  }

  // ------------------------------------------------ workload families

  predicate SuccessfulVersioned(r: Record) {
    r.outcome.Ok? && IsVersion(r.versionId)
  }

  /** Some earlier recorded write of the same key had already committed. */
  predicate Overwrites(history: seq<Record>, put: Record) {
    exists r :: r in history && r.key == put.key && r.outcome.Ok? && (r.kind.PutObject? || r.kind.CompleteMultipart?)
      && r.endedSequence.Some?
      && r.endedSequence.value < (if put.startedSequence.Some? then put.startedSequence.value else 0)
  }

  predicate CarriesVersion(r: Record) {
    IsMutation(r.kind) && r.outcome.Ok? ==> IsVersion(r.versionId)
  }

  /** validate_workload_families */
  predicate FamiliesPresent(history: seq<Record>, workload: seq<Record>) {
    && (exists p :: p in workload && p.kind.PutObject? && SuccessfulVersioned(p) && !Overwrites(history, p))
    && (exists p :: p in workload && p.kind.PutObject? && SuccessfulVersioned(p) && Overwrites(history, p))
    && (exists r :: r in history && r.kind.PutObject? && r.outcome.Ok? && r.sizeBytes == Some(0) && IsVersion(r.versionId))
    && (exists r :: r in workload && r.kind.DeleteObject? && SuccessfulVersioned(r))
    && (exists r :: r in workload && r.kind.CompleteMultipart? && SuccessfulVersioned(r))
    && (exists r :: r in workload && r.kind.AbortMultipart? && r.outcome.Ok?)
    && (exists r :: r in history && r.kind.PutBucketVersioning? && r.outcome.Ok?)
    && (forall r :: r in history ==> CarriesVersion(r))
  }

  function ReceiptOf(e: OverlapEvidence, history: seq<Record>): WorkloadReceipt {
    WorkloadReceipt(e.workloadStartedAt, e.workloadEndedAt, e.first, e.last, history)
  }

  /** The part of the check that does not read the history. */
  predicate WindowValid(e: OverlapEvidence, scenario: Scenario, requests: seq<Request>, progress: seq<Sample>) {
    && Supported(scenario) && !IsBlank(e.operationId)
    && (scenario.Decommission? ==> Present(e.targetExpression))
    && OneSuccessfulRun(e.attempt, e.operationId, progress)
    && ReceiptsBound(scenario, requests, progress)
    && StartIndex(requests, scenario) < |requests|
    && AfterLast(StatusTest(scenario), requests) > 0
    && e.operationStartedAt == StartOf(requests, scenario).observedAt
    && e.operationCompletedAt == TerminalOf(requests, scenario).observedAt
    && IntervalsOverlap(e.workloadStartedAt, e.workloadEndedAt, e.operationStartedAt, e.operationCompletedAt)
    && e.statusIds != []
    && OverlappingStatusIds(scenario, requests, progress, e.workloadStartedAt, e.workloadEndedAt) == Some(e.statusIds)
  }

  /** The part that does. */
  predicate HistoryValid(e: OverlapEvidence, scenario: Scenario, history: seq<Record>) {
    var w := ReceiptOf(e, history);
    && history != [] && (forall r :: r in history ==> r.scenario == scenario && r.runId == Some(e.attempt.runId))
    && SliceValid(w)
    && e.workloadIds == Map(RecordId, Slice(w))
    && e.overlappingIds != []
    && e.overlappingIds == Map(RecordId, Filter(OverlapTest(e.operationStartedAt, e.operationCompletedAt), Slice(w)))
    && FamiliesPresent(history, Slice(w))
  }

  /** AdminDecommissionOverlapEvidence::validate_receipts and its rebalance twin. */
  predicate OverlapValid(e: OverlapEvidence, scenario: Scenario, requests: seq<Request>, progress: seq<Sample>, history: seq<Record>) {
    WindowValid(e, scenario, requests, progress) && HistoryValid(e, scenario, history)
  }

  // ----------------------------------------------------- building it

  function DerivedEvidence(attempt: Attempt, operationId: string, targetExpression: Option<string>,
                           startedAt: u64, completedAt: u64, w: WorkloadReceipt, statusIds: seq<string>): OverlapEvidence {
    OverlapEvidence(attempt, operationId, targetExpression, startedAt, completedAt,
                    w.startedAt, w.endedAt, w.first, w.last, Map(RecordId, Slice(w)),
                    Map(RecordId, Filter(OverlapTest(startedAt, completedAt), Slice(w))), statusIds)
  }

  /** from_receipts: derive every field from the receipts, then check the result. */
  function FromReceipts(attempt: Attempt, operationId: string, targetExpression: Option<string>, scenario: Scenario,
                        requests: seq<Request>, progress: seq<Sample>, w: WorkloadReceipt): (r: Option<OverlapEvidence>)
    ensures r.Some? ==> r.value.operationId == operationId && OverlapValid(r.value, scenario, requests, progress, w.history)
  {
    if StartIndex(requests, scenario) >= |requests| || AfterLast(StatusTest(scenario), requests) == 0 then None
    else
      var startedAt, completedAt := StartOf(requests, scenario).observedAt, TerminalOf(requests, scenario).observedAt;
      match OverlappingStatusIds(scenario, requests, progress, w.startedAt, w.endedAt)
      case None => None
      case Some(statusIds) =>
        var e := DerivedEvidence(attempt, operationId, targetExpression, startedAt, completedAt, w, statusIds);
        if OverlapValid(e, scenario, requests, progress, w.history) then Some(e) else None
  }

  /** The evidence is determined by its receipts: whatever passes the check for
      an operation and a workload window is what the builder derives. */
  lemma ValidEvidenceIsTheDerivedOne(e: OverlapEvidence, scenario: Scenario, requests: seq<Request>, progress: seq<Sample>, history: seq<Record>)
    ensures OverlapValid(e, scenario, requests, progress, history) <==>
            FromReceipts(e.attempt, e.operationId, e.targetExpression, scenario, requests, progress, ReceiptOf(e, history)) == Some(e)
  {
    hide FamiliesPresent, SliceValid, OneSuccessfulRun, ReceiptsBound, OverlappingStatusIds, Filter;
  }

  /** What the requests and the progress must show. */
  predicate OperationBeside(attempt: Attempt, operationId: string, targetExpression: Option<string>, scenario: Scenario,
                            requests: seq<Request>, progress: seq<Sample>, w: WorkloadReceipt)
    requires StartIndex(requests, scenario) < |requests| && AfterLast(StatusTest(scenario), requests) > 0
  {
    && Supported(scenario) && !IsBlank(operationId) && (scenario.Decommission? ==> Present(targetExpression))
    && OneSuccessfulRun(attempt, operationId, progress) && ReceiptsBound(scenario, requests, progress)
    && (exists r :: r in requests && StatusBeside(scenario, r, w.startedAt, w.endedAt))
    && IntervalsOverlap(w.startedAt, w.endedAt, StartOf(requests, scenario).observedAt, TerminalOf(requests, scenario).observedAt)
  }

  /** What the history must show of a window in which the operation ran. */
  predicate WorkloadBeside(runId: string, scenario: Scenario, startedAt: u64, completedAt: u64, w: WorkloadReceipt) {
    && (forall r :: r in w.history ==> r.scenario == scenario && r.runId == Some(runId))
    && SliceValid(w)
    && (exists r :: r in Slice(w) && RecordBeside(r, startedAt, completedAt))
    && FamiliesPresent(w.history, Slice(w))
  }

  predicate ProvesOverlap(attempt: Attempt, operationId: string, targetExpression: Option<string>, scenario: Scenario,
                          requests: seq<Request>, progress: seq<Sample>, w: WorkloadReceipt) {
    && StartIndex(requests, scenario) < |requests| && AfterLast(StatusTest(scenario), requests) > 0
    && OperationBeside(attempt, operationId, targetExpression, scenario, requests, progress, w)
    && WorkloadBeside(attempt.runId, scenario, StartOf(requests, scenario).observedAt, TerminalOf(requests, scenario).observedAt, w)
  }

  /** Bound receipts leave no overlapping status without its sample. */
  lemma BoundStatusesAreSampled(scenario: Scenario, requests: seq<Request>, progress: seq<Sample>, startedAt: u64, endedAt: u64)
    requires ReceiptsBound(scenario, requests, progress)
    ensures OverlappingStatusIds(scenario, requests, progress, startedAt, endedAt).Some?
    ensures OverlappingStatusIds(scenario, requests, progress, startedAt, endedAt) != Some([]) <==>
              exists r :: r in requests && StatusBeside(scenario, r, startedAt, endedAt)
  {
    hide Filter, Successful;
    var statuses := Filter(StatusTest(scenario), requests);
    var test, id := OverlappingStatus(scenario, startedAt, endedAt), StatusReceiptId(progress);
    var beside := Filter(test, requests);
    var ids := Map(id, beside);
    forall x | x in ids ensures x.Some? {
      var i :| 0 <= i < |beside| && ids[i] == x;
      assert beside[i] in beside && test(beside[i]);
      assert StatusTest(scenario)(beside[i]) && beside[i] in statuses;
      var k :| 0 <= k < |statuses| && statuses[k] == beside[i];
      assert progress[k] in progress;
      assert x == id(beside[i]);
    }
    assert |Values(ids).value| == |beside|;
    if beside != [] {
      assert beside[0] in beside && test(beside[0]);
    }
    forall r | r in requests && StatusBeside(scenario, r, startedAt, endedAt) ensures r in beside {
      assert test(r);
    }
  }

  /** Evidence is built exactly when the receipts prove the overlap; no status
      beside the workload can fail to have its sample. */
  lemma EvidenceIsBuiltIffProven(attempt: Attempt, operationId: string, targetExpression: Option<string>, scenario: Scenario,
                                 requests: seq<Request>, progress: seq<Sample>, w: WorkloadReceipt)
    ensures FromReceipts(attempt, operationId, targetExpression, scenario, requests, progress, w).Some? <==>
            ProvesOverlap(attempt, operationId, targetExpression, scenario, requests, progress, w)
  {
    hide WindowValid, HistoryValid, OperationBeside, WorkloadBeside, OverlappingStatusIds, FirstIndex, AfterLast, DerivedEvidence;
    if StartIndex(requests, scenario) < |requests| && AfterLast(StatusTest(scenario), requests) > 0 {
      var startedAt, completedAt := StartOf(requests, scenario).observedAt, TerminalOf(requests, scenario).observedAt;
      WindowIsValidIff(attempt, operationId, targetExpression, scenario, requests, progress, w);
      var ids := OverlappingStatusIds(scenario, requests, progress, w.startedAt, w.endedAt);
      if ids.Some? {
        HistoryIsValidIff(attempt, operationId, targetExpression, scenario, startedAt, completedAt, w, ids.value);
      }
    }
  }

  lemma WindowIsValidIff(attempt: Attempt, operationId: string, targetExpression: Option<string>, scenario: Scenario,
                         requests: seq<Request>, progress: seq<Sample>, w: WorkloadReceipt)
    requires StartIndex(requests, scenario) < |requests| && AfterLast(StatusTest(scenario), requests) > 0
    ensures var startedAt, completedAt := StartOf(requests, scenario).observedAt, TerminalOf(requests, scenario).observedAt;
            var ids := OverlappingStatusIds(scenario, requests, progress, w.startedAt, w.endedAt);
            OperationBeside(attempt, operationId, targetExpression, scenario, requests, progress, w) <==>
              && ids.Some?
              && WindowValid(DerivedEvidence(attempt, operationId, targetExpression, startedAt, completedAt, w, ids.value),
                             scenario, requests, progress)
  {
    hide OneSuccessfulRun, ReceiptsBound, OverlappingStatusIds, IsBlank, FirstIndex, AfterLast, Present, Slice, Filter, StatusBeside;
    if ReceiptsBound(scenario, requests, progress) {
      BoundStatusesAreSampled(scenario, requests, progress, w.startedAt, w.endedAt);
    }
  }

  lemma HistoryIsValidIff(attempt: Attempt, operationId: string, targetExpression: Option<string>, scenario: Scenario,
                          startedAt: u64, completedAt: u64, w: WorkloadReceipt, statusIds: seq<string>)
    ensures HistoryValid(DerivedEvidence(attempt, operationId, targetExpression, startedAt, completedAt, w, statusIds), scenario, w.history)
       <==> WorkloadBeside(attempt.runId, scenario, startedAt, completedAt, w)
  {
    hide SliceValid, FamiliesPresent, Slice, Filter, RecordBeside;
    SliceHasHistory(w);
    SomethingPasses(OverlapTest(startedAt, completedAt), Slice(w));
  }

  lemma SliceHasHistory(w: WorkloadReceipt)
    ensures SliceValid(w) ==> w.history != []
  {
    hide ScopeAndOrder, BoundaryHit, SidesAgree;
  }

  lemma SomethingPasses<T>(p: T -> bool, s: seq<T>)
    ensures Filter(p, s) != [] <==> exists x :: x in s && p(x)
  {
    if Filter(p, s) != [] {
      assert Filter(p, s)[0] in Filter(p, s);
    }
  }

  // ------------------------------------------- stability under growth

  /** Nothing recorded later can enter the slice: its window ends within the
      events the shorter history already had. */
  lemma GrowthMissesTheWindow(w: WorkloadReceipt, suffix: seq<Record>)
    requires SliceValid(w) && SelfScoped(w.history + suffix)
    ensures forall r :: r in suffix ==> r.startedSequence.Some? && r.endedSequence.Some? && w.last < r.startedSequence.value < r.endedSequence.value
  {
    hide SidesAgree, VersionsUnique, Filter;
    assert w.last <= 2 * |w.history| by {
      var r :| r in Slice(w) && r.endedSequence == Some(w.last);
      var i :| 0 <= i < |w.history| && w.history[i] == r;
      assert RecordValid(w.history[i], |w.history|);
    }
    forall r | r in suffix
      ensures r.startedSequence.Some? && r.endedSequence.Some? && w.last < r.startedSequence.value < r.endedSequence.value
    {
      GrowthComesAfter(w.history, suffix, r);
    }
  }

  lemma SliceSurvives(w: WorkloadReceipt, suffix: seq<Record>)
    requires SliceValid(w) && SelfScoped(w.history + suffix)
    ensures Slice(w.(history := w.history + suffix)) == Slice(w)
    ensures SliceValid(w.(history := w.history + suffix))
  {
    hide ScopeAndOrder, Filter;
    GrowthMissesTheWindow(w, suffix);
    FilterAppend(SliceTest(w.first, w.last), w.history, suffix);
    FilterNone(SliceTest(w.first, w.last), suffix);
    var longer := w.(history := w.history + suffix);
    forall r | r in longer.history ensures SidesAgree(r, longer) {
      if r in w.history {
        assert SidesAgree(r, w);
      }
    }
  }

  /** A later record never turns an ordinary PUT of the slice into an overwrite. */
  lemma ClassificationSurvives(w: WorkloadReceipt, suffix: seq<Record>, put: Record)
    requires SliceValid(w) && SelfScoped(w.history + suffix) && put in Slice(w)
    ensures Overwrites(w.history + suffix, put) <==> Overwrites(w.history, put)
  {
    hide ScopeAndOrder, SidesAgree;
    GrowthMissesTheWindow(w, suffix);
    assert SliceTest(w.first, w.last)(put);
    assert forall r :: r in w.history + suffix <==> r in w.history || r in suffix;
  }

  lemma FamiliesSurvive(w: WorkloadReceipt, suffix: seq<Record>)
    requires SliceValid(w) && SelfScoped(w.history + suffix) && FamiliesPresent(w.history, Slice(w))
    ensures FamiliesPresent(w.history + suffix, Slice(w)) <==> forall r :: r in suffix ==> CarriesVersion(r)
  {
    hide SliceValid, SelfScoped, Overwrites, Filter;
    var all := w.history + suffix;
    assert forall r :: r in all <==> r in w.history || r in suffix;
    var p :| p in Slice(w) && p.kind.PutObject? && SuccessfulVersioned(p) && !Overwrites(w.history, p);
    ClassificationSurvives(w, suffix, p);
    var q :| q in Slice(w) && q.kind.PutObject? && SuccessfulVersioned(q) && Overwrites(w.history, q);
    ClassificationSurvives(w, suffix, q);
    var z :| z in w.history && z.kind.PutObject? && z.outcome.Ok? && z.sizeBytes == Some(0) && IsVersion(z.versionId);
    assert z in all;
    var v :| v in w.history && v.kind.PutBucketVersioning? && v.outcome.Ok?;
    assert v in all;
  }

  /** Evidence that is valid when the workload ends stays valid on every longer
      history exactly when that history is itself in scope and order and the
      mutations added to it carry version IDs: the slice, the overlapping
      operations and the PUT classification do not move. */
  lemma OverlapSurvivesHistoryGrowth(e: OverlapEvidence, scenario: Scenario, requests: seq<Request>,
                                     progress: seq<Sample>, history: seq<Record>, suffix: seq<Record>)
    requires OverlapValid(e, scenario, requests, progress, history)
    ensures OverlapValid(e, scenario, requests, progress, history + suffix)
       <==> SelfScoped(history + suffix) && forall r :: r in suffix ==> CarriesVersion(r)
  {
    hide WindowValid, FamiliesPresent, ScopeAndOrder, SidesAgree, Filter;
    var w := ReceiptOf(e, history);
    var longer := ReceiptOf(e, history + suffix);
    if SelfScoped(history + suffix) {
      SliceSurvives(w, suffix);
      FamiliesSurvive(w, suffix);
      ScopeIsInherited(history, suffix, scenario, e.attempt.runId);
    }
  }

  lemma ScopeIsInherited(history: seq<Record>, suffix: seq<Record>, scenario: Scenario, runId: string)
    requires SelfScoped(history + suffix) && history != []
    requires forall r :: r in history ==> r.scenario == scenario && r.runId == Some(runId)
    ensures forall r :: r in history + suffix ==> r.scenario == scenario && r.runId == Some(runId)
  {
    assert (history + suffix)[0] == history[0] && history[0] in history;
  }
}
