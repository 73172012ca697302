/** What overlap evidence shows, in the fields of the recorded operations and of
    the receipts it is built from (from_receipts, workload_records and
    validate_workload_families in src/fault/admin_decommission.rs and
    src/fault/admin_rebalance.rs). */
module Families {
  import opened Basics
  import opened Receipts
  import opened StatusProjection
  import opened History
  import opened Evidence
  import opened Overlap

  // ------------------------------------------------ workload families

  datatype Family = OrdinaryPut | OverwritingPut | ZeroBytes | DeleteMarker | MultipartDone | MultipartAborted | VersioningOn

  /** A record of the workload: it began within the window of recorder sequences. */
  ghost predicate InWorkload(r: Record, w: WorkloadReceipt) {
    r in w.history && r.startedSequence.Some? && w.first <= r.startedSequence.value <= w.last
  }

  ghost predicate CommittedVersion(r: Record) {
    r.outcome == Ok && r.versionId.Some? && |r.versionId.value| > 0 && r.versionId.value != "null"
  }

  /** A write of the same key had committed before this one began. */
  ghost predicate WrittenBefore(r: Record, history: seq<Record>) {
    exists q :: q in history && q.key == r.key && q.outcome == Ok && (q.kind == PutObject || q.kind == CompleteMultipart)
      && q.endedSequence.Some? && r.startedSequence.Some? && q.endedSequence.value < r.startedSequence.value
  }

  ghost predicate Shows(family: Family, r: Record, w: WorkloadReceipt) {
    match family
    case OrdinaryPut => InWorkload(r, w) && r.kind == PutObject && CommittedVersion(r) && !WrittenBefore(r, w.history)
    case OverwritingPut => InWorkload(r, w) && r.kind == PutObject && CommittedVersion(r) && WrittenBefore(r, w.history)
    case ZeroBytes => r in w.history && r.kind == PutObject && CommittedVersion(r) && r.sizeBytes == Some(0)
    case DeleteMarker => InWorkload(r, w) && r.kind == DeleteObject && CommittedVersion(r)
    case MultipartDone => InWorkload(r, w) && r.kind == CompleteMultipart && CommittedVersion(r)
    case MultipartAborted => InWorkload(r, w) && r.kind == AbortMultipart && r.outcome == Ok
    case VersioningOn => r in w.history && r.kind == PutBucketVersioning && r.outcome == Ok
  }

  ghost predicate Has(family: Family, w: WorkloadReceipt) {
    exists r :: Shows(family, r, w)
  }

  /** A successful write or delete without an immutable version. */
  ghost predicate Unversioned(r: Record) {
    (r.kind == PutObject || r.kind == DeleteObject || r.kind == CompleteMultipart) && r.outcome == Ok && !CommittedVersion(r)
  }

  lemma SliceIsTheWorkload(w: WorkloadReceipt, r: Record)
    ensures r in Slice(w) <==> InWorkload(r, w)
  {
    hide Filter;
    assert SliceTest(w.first, w.last)(r) <==> r.startedSequence.Some? && w.first <= r.startedSequence.value <= w.last;
  }

  /** The check for the families asks exactly for a record of each and for a
      version on every successful mutation. */
  lemma FamiliesRead(w: WorkloadReceipt)
    ensures FamiliesPresent(w.history, Slice(w)) <==> (forall f: Family :: Has(f, w)) && (forall r :: r in w.history ==> !Unversioned(r))
  {
    hide Slice;
    forall r ensures r in Slice(w) <==> InWorkload(r, w) {
      SliceIsTheWorkload(w, r);
    }
    if FamiliesPresent(w.history, Slice(w)) {
      forall f: Family ensures Has(f, w) {
        FamilyFound(w, f);
      }
    }
    if forall f: Family :: Has(f, w) {
      EachFamilyFound(w);
    }
  }

  lemma FamilyFound(w: WorkloadReceipt, f: Family)
    requires FamiliesPresent(w.history, Slice(w)) && forall r :: r in Slice(w) <==> InWorkload(r, w)
    ensures Has(f, w)
  {
    hide Slice;
    var history, workload := w.history, Slice(w);
    match f
    case OrdinaryPut =>
      var p :| p in workload && p.kind.PutObject? && SuccessfulVersioned(p) && !Overwrites(history, p);
      assert Shows(f, p, w);
    case OverwritingPut =>
      var p :| p in workload && p.kind.PutObject? && SuccessfulVersioned(p) && Overwrites(history, p);
      assert Shows(f, p, w);
    case ZeroBytes =>
      var p :| p in history && p.kind.PutObject? && p.outcome.Ok? && p.sizeBytes == Some(0) && IsVersion(p.versionId);
      assert Shows(f, p, w);
    case DeleteMarker =>
      var p :| p in workload && p.kind.DeleteObject? && SuccessfulVersioned(p);
      assert Shows(f, p, w);
    case MultipartDone =>
      var p :| p in workload && p.kind.CompleteMultipart? && SuccessfulVersioned(p);
      assert Shows(f, p, w);
    case MultipartAborted =>
      var p :| p in workload && p.kind.AbortMultipart? && p.outcome.Ok?;
      assert Shows(f, p, w);
    case VersioningOn =>
      var p :| p in history && p.kind.PutBucketVersioning? && p.outcome.Ok?;
      assert Shows(f, p, w);
  }

  lemma EachFamilyFound(w: WorkloadReceipt)
    requires forall f: Family :: Has(f, w)
    requires forall r :: r in Slice(w) <==> InWorkload(r, w)
    ensures (forall r :: r in w.history ==> CarriesVersion(r)) ==> FamiliesPresent(w.history, Slice(w))
  {
    hide Slice, Overwrites, WrittenBefore, Has, CarriesVersion, IsVersion;
    var ordinary := Witness(OrdinaryPut, w);
    OverwriteReads(ordinary, w.history);
    VersionReads(ordinary);
    var overwriting := Witness(OverwritingPut, w);
    OverwriteReads(overwriting, w.history);
    VersionReads(overwriting);
    var empty := Witness(ZeroBytes, w);
    VersionReads(empty);
    var deleted := Witness(DeleteMarker, w);
    VersionReads(deleted);
    var done := Witness(MultipartDone, w);
    VersionReads(done);
    var aborted := Witness(MultipartAborted, w);
    var versioning := Witness(VersioningOn, w);
  }

  lemma OverwriteReads(r: Record, history: seq<Record>)
    requires r.startedSequence.Some?
    ensures Overwrites(history, r) <==> WrittenBefore(r, history)
  {
  }

  lemma VersionReads(r: Record)
    ensures CommittedVersion(r) <==> r.outcome.Ok? && IsVersion(r.versionId)
  {
  }

  lemma Witness(f: Family, w: WorkloadReceipt) returns (r: Record)
    requires Has(f, w)
    ensures Shows(f, r, w)
  {
    r :| Shows(f, r, w);
  }

  /** Evidence that is built has a record of every family and no successful mutation without its version. */
  lemma EvidenceShowsEveryFamily(attempt: Attempt, operationId: string, targetExpression: Option<string>, scenario: Scenario,
                                 requests: seq<Request>, progress: seq<Sample>, w: WorkloadReceipt)
    requires FromReceipts(attempt, operationId, targetExpression, scenario, requests, progress, w).Some?
    ensures forall f: Family :: Has(f, w)
    ensures forall r :: r in w.history ==> !Unversioned(r)
  {
    hide FromReceipts, OverlapValid, Has, Unversioned, FamiliesPresent, OperationBeside, SliceValid, Slice;
    EvidenceIsBuiltIffProven(attempt, operationId, targetExpression, scenario, requests, progress, w);
    FamiliesRead(w);
  }

  /** A workload that lacks any one of the families yields no evidence. */
  lemma LackingFamilyIsRefused(attempt: Attempt, operationId: string, targetExpression: Option<string>, scenario: Scenario,
                               requests: seq<Request>, progress: seq<Sample>, w: WorkloadReceipt, lacking: Family)
    requires forall r :: r in w.history ==> !Shows(lacking, r, w)
    ensures FromReceipts(attempt, operationId, targetExpression, scenario, requests, progress, w).None?
  {
    hide FromReceipts, OverlapValid;
    if FromReceipts(attempt, operationId, targetExpression, scenario, requests, progress, w).Some? {
      EvidenceShowsEveryFamily(attempt, operationId, targetExpression, scenario, requests, progress, w);
      var r := Witness(lacking, w);
    }
  }

  /** Nor does a history with a successful mutation that has no version. */
  lemma UnversionedMutationIsRefused(attempt: Attempt, operationId: string, targetExpression: Option<string>, scenario: Scenario,
                                     requests: seq<Request>, progress: seq<Sample>, w: WorkloadReceipt, r: Record)
    requires r in w.history && Unversioned(r)
    ensures FromReceipts(attempt, operationId, targetExpression, scenario, requests, progress, w).None?
  {
    hide FromReceipts, OverlapValid, Unversioned, Has;
    if FromReceipts(attempt, operationId, targetExpression, scenario, requests, progress, w).Some? {
      EvidenceShowsEveryFamily(attempt, operationId, targetExpression, scenario, requests, progress, w);
    }
  }

  // ------------------------------------------------------- the window

  /** Every record lies wholly inside the window of sequences or has neither end
      in it; those inside keep to its times, and its two ends are ends of records. */
  ghost predicate Framed(w: WorkloadReceipt) {
    && 0 < w.startedAt <= w.endedAt && 0 < w.first <= w.last
    && (forall r :: r in w.history ==>
          && r.startedSequence.Some? && r.endedSequence.Some?
          && (w.first <= r.startedSequence.value <= w.last <==> w.first <= r.endedSequence.value <= w.last)
          && (InWorkload(r, w) ==> w.startedAt <= r.startedAt && r.endedAt <= w.endedAt))
    && (exists r :: InWorkload(r, w) && r.startedSequence.value == w.first)
    && (exists r :: InWorkload(r, w) && r.endedSequence == Some(w.last))
  }

  lemma SliceReads(w: WorkloadReceipt)
    ensures SliceValid(w) <==> Framed(w) && SelfScoped(w.history)
  {
    hide SelfScoped, Slice;
    forall r ensures r in Slice(w) <==> InWorkload(r, w) {
      SliceIsTheWorkload(w, r);
    }
    if SliceValid(w) {
      var a :| a in Slice(w) && a.startedSequence == Some(w.first);
      assert InWorkload(a, w);
      var b :| b in Slice(w) && b.endedSequence == Some(w.last);
      assert InWorkload(b, w) && SidesAgree(b, w);
    }
    if Framed(w) {
      forall r | r in w.history ensures SidesAgree(r, w) {
      }
      var a :| InWorkload(a, w) && a.startedSequence.value == w.first;
      assert a in Slice(w);
      var b :| InWorkload(b, w) && b.endedSequence == Some(w.last);
      assert b in Slice(w);
    }
  }

  // -------------------------------------------------- the operation run

  /** One run: all samples of this attempt and operation, none of them failed,
      canceled or stopped, only the last completed, and never back in time. */
  ghost predicate RunsThrough(attempt: Attempt, operationId: string, progress: seq<Sample>) {
    && progress != []
    && (forall s :: s in progress ==> s.attempt == attempt && s.operationId == operationId && !s.failed && !s.canceledOrStopped)
    && progress[|progress| - 1].completed
    && (forall i, j :: 0 <= i < j < |progress| ==> !progress[i].completed && progress[i].observedAt <= progress[j].observedAt)
  }

  lemma {:induction false} SamplesInTime(progress: seq<Sample>, i: nat, j: nat)
    requires forall k :: 0 <= k < |progress| - 1 ==> progress[k].observedAt <= progress[k + 1].observedAt
    requires i < j < |progress|
    ensures progress[i].observedAt <= progress[j].observedAt
    decreases j
  {
    assert progress[j - 1].observedAt <= progress[j - 1 + 1].observedAt;
    if i < j - 1 {
      SamplesInTime(progress, i, j - 1);
    }
  }

  lemma RunReads(attempt: Attempt, operationId: string, progress: seq<Sample>)
    ensures OneSuccessfulRun(attempt, operationId, progress) <==> RunsThrough(attempt, operationId, progress)
  {
    if OneSuccessfulRun(attempt, operationId, progress) {
      forall i, j | 0 <= i < j < |progress| ensures progress[i].observedAt <= progress[j].observedAt {
        SamplesInTime(progress, i, j);
      }
    }
    if RunsThrough(attempt, operationId, progress) {
      forall i | 0 <= i < |progress|
        ensures !progress[i].failed && !progress[i].canceledOrStopped && (progress[i].completed <==> i == |progress| - 1)
      {
        assert progress[i] in progress;
        if i < |progress| - 1 {
          assert !progress[i].completed;
        }
      }
    }
  }

  // ---------------------------------------------------- the evidence

  /** Strictly overlapping, non-empty intervals. */
  ghost predicate Beside(a: u64, b: u64, c: u64, d: u64) {
    a < b && c < d && a < d && c < b
  }

  lemma IdsOfMap<T>(f: T -> string, s: seq<T>)
    ensures forall id :: id in Map(f, s) <==> exists x :: x in s && f(x) == id
  {
    var ids := Map(f, s);
    forall id | id in ids ensures exists x :: x in s && f(x) == id {
      var i :| 0 <= i < |ids| && ids[i] == id;
      assert s[i] in s;
    }
    forall x | x in s ensures f(x) in ids {
      var i :| 0 <= i < |s| && s[i] == x;
      assert ids[i] == f(x);
    }
  }

  /** What the evidence says of the workload: its identifiers are those of the
      records in the window, the overlapping ones those that share a moment with
      the operation, and there is one. */
  lemma EvidenceNamesTheWorkload(e: OverlapEvidence, scenario: Scenario, requests: seq<Request>, progress: seq<Sample>,
                                 history: seq<Record>)
    requires OverlapValid(e, scenario, requests, progress, history)
    ensures var w := ReceiptOf(e, history);
            && Framed(w) && SelfScoped(history) && (forall r :: r in history ==> r.scenario == scenario && r.runId == Some(e.attempt.runId))
            && (forall id :: id in e.workloadIds <==> exists r :: InWorkload(r, w) && r.id == id)
            && (forall id :: id in e.overlappingIds <==>
                  exists r :: InWorkload(r, w) && r.id == id && Beside(r.startedAt, r.endedAt, e.operationStartedAt, e.operationCompletedAt))
            && e.overlappingIds != []
            && (forall f: Family :: Has(f, w)) && (forall r :: r in history ==> !Unversioned(r))
  {
    hide WindowValid, SliceValid, FamiliesPresent, Framed, SelfScoped, Has, Unversioned, Slice, Filter;
    var w := ReceiptOf(e, history);
    SliceReads(w);
    FamiliesRead(w);
    IdsOfMap(RecordId, Slice(w));
    var test := OverlapTest(e.operationStartedAt, e.operationCompletedAt);
    IdsOfMap(RecordId, Filter(test, Slice(w)));
    forall r ensures r in Slice(w) <==> InWorkload(r, w) {
      SliceIsTheWorkload(w, r);
    }
    forall r | r in Slice(w)
      ensures r in Filter(test, Slice(w)) <==> Beside(r.startedAt, r.endedAt, e.operationStartedAt, e.operationCompletedAt)
    {
      assert test(r) <==> Beside(r.startedAt, r.endedAt, e.operationStartedAt, e.operationCompletedAt);
    }
  }

  ghost predicate StatusRequest(scenario: Scenario, r: Request) {
    r.verb == Get && r.path == if scenario.Decommission? then DecommissionStatus else RebalanceStatusPath
  }

  /** What it says of the operation: one run, every status answered with a 2xx and
      sampled, and the identifiers of just those statuses that share a moment with the workload. */
  lemma EvidenceNamesTheOperation(e: OverlapEvidence, scenario: Scenario, requests: seq<Request>, progress: seq<Sample>,
                                  history: seq<Record>)
    requires OverlapValid(e, scenario, requests, progress, history)
    ensures (scenario.Decommission? || scenario.Rebalance?) && !IsBlank(e.operationId)
    ensures scenario.Decommission? ==> e.targetExpression.Some? && !IsBlank(e.targetExpression.value)
    ensures RunsThrough(e.attempt, e.operationId, progress)
    ensures forall r :: r in requests && StatusRequest(scenario, r) ==>
              200 <= r.status <= 299 && exists s :: s in progress && r.requestId == Some(s.statusRequestId) && r.observedAt == s.observedAt
    ensures forall s :: s in progress ==>
              exists r :: r in requests && StatusRequest(scenario, r) && r.requestId == Some(s.statusRequestId) && r.observedAt == s.observedAt
    ensures e.statusIds != []
    ensures forall id :: id in e.statusIds <==>
              exists r :: r in requests && StatusRequest(scenario, r) && r.requestId == Some(id)
                && Beside(r.startedAt, r.observedAt, e.workloadStartedAt, e.workloadEndedAt)
  {
    hide HistoryValid, OneSuccessfulRun, RunsThrough, ReceiptsBound, OverlappingStatusIds, IsBlank, FirstIndex, AfterLast, StatusRequest, Beside;
    RunReads(e.attempt, e.operationId, progress);
    BindingReads(scenario, requests, progress);
    StatusIdsRead(scenario, requests, progress, e.workloadStartedAt, e.workloadEndedAt);
  }

  /** The operation's interval runs from the answer to its start to its terminal
      answer, and it strictly overlaps the workload's. */
  lemma EvidenceSpansTheOperation(e: OverlapEvidence, scenario: Scenario, requests: seq<Request>, progress: seq<Sample>,
                                  history: seq<Record>)
    requires OverlapValid(e, scenario, requests, progress, history)
    ensures StartIndex(requests, scenario) < |requests| && AfterLast(StatusTest(scenario), requests) > 0
    ensures e.operationStartedAt == StartOf(requests, scenario).observedAt && e.operationCompletedAt == TerminalOf(requests, scenario).observedAt
    ensures Beside(e.workloadStartedAt, e.workloadEndedAt, e.operationStartedAt, e.operationCompletedAt)
  {
    hide HistoryValid, OneSuccessfulRun, ReceiptsBound, OverlappingStatusIds, IsBlank, FirstIndex, AfterLast;
  }

  lemma BesideReads(a: u64, b: u64, c: u64, d: u64)
    ensures Beside(a, b, c, d) <==> IntervalsOverlap(a, b, c, d)
  {
  }

  lemma StatusReads(scenario: Scenario, r: Request)
    requires scenario.Decommission? || scenario.Rebalance?
    ensures StatusTest(scenario)(r) <==> StatusRequest(scenario, r)
  {
  }

  lemma BindingReads(scenario: Scenario, requests: seq<Request>, progress: seq<Sample>)
    requires ReceiptsBound(scenario, requests, progress) && (scenario.Decommission? || scenario.Rebalance?)
    ensures forall r :: r in requests && StatusRequest(scenario, r) ==>
              200 <= r.status <= 299 && exists s :: s in progress && r.requestId == Some(s.statusRequestId) && r.observedAt == s.observedAt
    ensures forall s :: s in progress ==>
              exists r :: r in requests && StatusRequest(scenario, r) && r.requestId == Some(s.statusRequestId) && r.observedAt == s.observedAt
  {
    hide Filter, StatusRequest, IsStatus;
    var statuses := Filter(StatusTest(scenario), requests);
    forall r | r in requests && StatusRequest(scenario, r)
      ensures 200 <= r.status <= 299 && exists s :: s in progress && r.requestId == Some(s.statusRequestId) && r.observedAt == s.observedAt
    {
      StatusReads(scenario, r);
      var i :| 0 <= i < |statuses| && statuses[i] == r;
      assert progress[i] in progress;
    }
    forall s | s in progress
      ensures exists r :: r in requests && StatusRequest(scenario, r) && r.requestId == Some(s.statusRequestId) && r.observedAt == s.observedAt
    {
      var i :| 0 <= i < |progress| && progress[i] == s;
      assert statuses[i] in statuses;
      StatusReads(scenario, statuses[i]);
    }
  }

  lemma StatusIdsRead(scenario: Scenario, requests: seq<Request>, progress: seq<Sample>, startedAt: u64, endedAt: u64)
    requires ReceiptsBound(scenario, requests, progress) && (scenario.Decommission? || scenario.Rebalance?)
    ensures OverlappingStatusIds(scenario, requests, progress, startedAt, endedAt).Some?
    ensures forall id :: id in OverlappingStatusIds(scenario, requests, progress, startedAt, endedAt).value <==>
              exists r :: r in requests && StatusRequest(scenario, r) && r.requestId == Some(id) && Beside(r.startedAt, r.observedAt, startedAt, endedAt)
  {
    hide Filter, StatusRequest, IsStatus, ReceiptsBound, Beside;
    BoundStatusesAreSampled(scenario, requests, progress, startedAt, endedAt);
    var test, receipt := OverlappingStatus(scenario, startedAt, endedAt), StatusReceiptId(progress);
    var beside := Filter(test, requests);
    var options := Map(receipt, beside);
    var ids := Values(options).value;
    forall r ensures r in beside <==> r in requests && StatusRequest(scenario, r) && Beside(r.startedAt, r.observedAt, startedAt, endedAt) {
      StatusReads(scenario, r);
      BesideReads(r.startedAt, r.observedAt, startedAt, endedAt);
      assert test(r) <==> StatusBeside(scenario, r, startedAt, endedAt);
    }
    forall i | 0 <= i < |beside| ensures beside[i].requestId == Some(ids[i]) {
      assert options[i] in options;
      assert options[i] == receipt(beside[i]);
    }
    forall id | id in ids
      ensures exists r :: r in requests && StatusRequest(scenario, r) && r.requestId == Some(id) && Beside(r.startedAt, r.observedAt, startedAt, endedAt)
    {
      var i :| 0 <= i < |ids| && ids[i] == id;
      assert beside[i] in beside;
    }
    forall r | r in beside && r.requestId.Some? ensures r.requestId.value in ids {
      var i :| 0 <= i < |beside| && beside[i] == r;
      assert ids[i] in ids;
    }
  }
}
