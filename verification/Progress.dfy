/** Validation of the progress samples against the status receipts
    (validate_admin_operation_progress in src/fault/admin_topology.rs): the
    source checks adjacent samples and set membership; what it accepts is a
    one-to-one, monotone run with a single terminal sample at its end. */
module Progress {
  import opened Basics
  import opened Receipts
  import opened StatusProjection
  import opened Evidence

  datatype Stage = Stage(rank: nat, terminal: bool)

  /** The stage a sample claims, by scenario and state word. */
  function StageOf(scenario: Scenario, state: Word): Option<Stage> {
    match (scenario, state)
    case (Decommission, Queued) => Some(Stage(0, false))
    case (Decommission, Running) => Some(Stage(1, false))
    case (Decommission, Complete) => Some(Stage(2, true))
    case (Rebalance, Started) => Some(Stage(0, false))
    case (Rebalance, Completed) => Some(Stage(1, true))
    case _ => None
  }

  /** parse_progress_state succeeds. */
  predicate StateParses(scenario: Scenario, s: Sample) {
    && !s.failed && !s.canceledOrStopped
    && StageOf(scenario, s.state).Some?
    && s.completed == StageOf(scenario, s.state).value.terminal
    && (scenario.Decommission? ==> s.versions.None?)
    && (scenario.Rebalance? ==> s.objects.Some? && s.versions.Some? && s.bytes.Some?)
  }

  predicate CounterNondecreasing(before: Option<u64>, after: Option<u64>) {
    before.Some? ==> after.Some? && before.value <= after.value
  }

  predicate NotRegressed(scenario: Scenario, a: Sample, b: Sample) {
    && a.observedAt <= b.observedAt
    && StageOf(scenario, a.state).Some? && StageOf(scenario, b.state).Some?
    && StageOf(scenario, a.state).value.rank <= StageOf(scenario, b.state).value.rank
    && CounterNondecreasing(a.objects, b.objects) && CounterNondecreasing(a.versions, b.versions)
    && CounterNondecreasing(a.bytes, b.bytes)
  }

  /** The sample is the projection of this receipt. */
  predicate Derived(op: Operation, r: Request, s: Sample) {
    && Captured(r).Some?
    && match op.scenario
       case Decommission =>
         && Captured(r).value.DecommissionBody? && op.targetId.Some? && op.targetExpression.Some?
         && (match ProjectDecommission(Captured(r).value.decommission, op.targetId.value, op.targetExpression.value, op.operationId)
             case None => false
             case Some(p) =>
               && s.state == p.state && s.completed == p.completed && s.failed == p.failed
               && s.canceledOrStopped == p.canceled && s.objects == Some(p.objects)
               && s.versions.None? && s.bytes == Some(p.bytes))
       case Rebalance =>
         && Captured(r).value.RebalanceBody? && Captured(r).value.rebalance.id == op.operationId
         && (match ProjectRebalance(Captured(r).value.rebalance, op.before.pools, false)
             case None => false
             case Some(p) =>
               && s.state == p.state && s.completed == p.completed && s.failed == p.failed
               && s.canceledOrStopped == p.stopped && s.objects == Some(p.objects)
               && s.versions == Some(p.versions) && s.bytes == Some(p.bytes))
       case OtherScenario(_) => false
  }

  function ResponseId(r: Request): Option<string> { r.requestId }

  function SampleId(s: Sample): Option<string> { Some(s.statusRequestId) }

  function Statuses(op: Operation): seq<Request> {
    Filter(StatusTest(op.scenario), op.requests)
  }

  predicate Answers(s: Sample, r: Request) {
    r.requestId == Some(s.statusRequestId) && Successful(r.status) && r.observedAt == s.observedAt
  }

  function AnswerTest(s: Sample): Request -> bool {
    r => Answers(s, r)
  }

  /** The body of the source's loop at one index; used holds the request IDs
      that earlier samples have claimed. */
  predicate StepAccepted(op: Operation, samples: seq<Sample>, i: nat, used: set<Option<string>>)
    requires i < |samples|
  {
    var s, statuses := samples[i], Statuses(op);
    && i < |statuses|
    && !IsBlank(s.statusRequestId)
    && SampleId(s) !in used
    && |Filter(AnswerTest(s), statuses)| == 1
    && statuses[i].requestId == Some(s.statusRequestId) && statuses[i].observedAt == s.observedAt
    && Derived(op, statuses[i], s)
    && StageOf(op.scenario, s.state).Some?
    && (StageOf(op.scenario, s.state).value.terminal ==> i + 1 == |samples|)
  }

  function Claimed(samples: seq<Sample>, i: nat): set<Option<string>>
    requires i <= |samples|
  {
    Elements(Map(SampleId, samples[..i]))
  }

  predicate TerminalAgrees(op: Operation, last: Sample) {
    && last.state == op.terminalState && last.completed == op.completed && last.failed == op.failed
    && last.canceledOrStopped == op.canceledOrStopped
    && last.objects == op.objects && last.versions == op.versions && last.bytes == op.bytes
    && (op.scenario.Rebalance? ==> Positive(last.objects) || Positive(last.versions) || Positive(last.bytes))
  }

  /** The checks that precede the loop. */
  predicate Preamble(op: Operation, samples: seq<Sample>, w: Window) {
    && w.Valid() && samples != [] && TimingValid(op.requests, w)
    && StartBeforeStatus(op.requests, op.scenario, op.targetId)
    && (forall r :: r in Statuses(op) ==> Present(r.requestId))
    && |Elements(Map(ResponseId, Statuses(op)))| == |Statuses(op)|
    && (forall s :: s in samples ==> s.operationId == op.operationId && s.attempt == op.attempt)
    && (forall s :: s in samples ==> w.Contains(s.observedAt) && s.observedAt >= StartOf(op.requests, op.scenario).observedAt)
    && (forall s :: s in samples ==> StateParses(op.scenario, s))
  }

  /** The checks that follow the loop. */
  predicate Epilogue(op: Operation, samples: seq<Sample>)
    requires samples != [] && AfterLast(StatusTest(op.scenario), op.requests) > 0
  {
    var last := samples[|samples| - 1];
    && Elements(Map(SampleId, samples)) == Elements(Map(ResponseId, Statuses(op)))
    && (forall i :: 0 <= i < |samples| - 1 ==> NotRegressed(op.scenario, samples[i], samples[i + 1]))
    && StageOf(op.scenario, last.state).Some? && StageOf(op.scenario, last.state).value.terminal
    && last.observedAt == TerminalOf(op.requests, op.scenario).observedAt
    && TerminalAgrees(op, last)
  }

  // ------------------------------------------- what acceptance guarantees

  predicate SampleOf(op: Operation, r: Request, s: Sample) {
    && s.operationId == op.operationId && s.attempt == op.attempt
    && Present(r.requestId) && Answers(s, r)
    && Derived(op, r, s) && StateParses(op.scenario, s)
  }

  predicate Advances(scenario: Scenario, a: Sample, b: Sample) {
    a.observedAt < b.observedAt && NotRegressed(scenario, a, b)
  }

  /** Samples and status receipts correspond one to one and in order, each
      sample is its receipt's projection, nothing ever regresses, time strictly
      advances, and exactly the last sample is terminal, agreeing with the operation. */
  ghost predicate FaithfulRun(op: Operation, samples: seq<Sample>, w: Window) {
    var statuses := Statuses(op);
    && w.Valid() && samples != [] && TimingValid(op.requests, w)
    && StartBeforeStatus(op.requests, op.scenario, op.targetId)
    && |samples| == |statuses|
    && Distinct(Map(ResponseId, statuses))
    && (forall i :: 0 <= i < |samples| ==> SampleOf(op, statuses[i], samples[i]))
    && (forall i, j :: 0 <= i < j < |samples| ==> Advances(op.scenario, samples[i], samples[j]))
    && (forall i :: 0 <= i < |samples| ==> (samples[i].completed <==> i == |samples| - 1))
    && TerminalAgrees(op, samples[|samples| - 1])
  }

  lemma {:induction false} FilterOneIsSuccessful(s: Sample, statuses: seq<Request>, i: nat)
    requires |Filter(AnswerTest(s), statuses)| == 1 && i < |statuses|
    requires statuses[i].requestId == Some(s.statusRequestId) && Distinct(Map(ResponseId, statuses))
    ensures Answers(s, statuses[i])
  {
    var found := Filter(AnswerTest(s), statuses)[0];
    assert found in Filter(AnswerTest(s), statuses);
    var k :| 0 <= k < |statuses| && statuses[k] == found;
    assert AnswerTest(s)(found);
    assert Map(ResponseId, statuses)[k] == Map(ResponseId, statuses)[i];
  }

  /** Status receipts are strictly ordered in time and follow the start. */
  lemma StatusesAreOrdered(op: Operation, w: Window)
    requires TimingValid(op.requests, w) && StartBeforeStatus(op.requests, op.scenario, op.targetId)
    ensures forall i, j :: 0 <= i < j < |Statuses(op)| ==> Statuses(op)[i].observedAt < Statuses(op)[j].observedAt
    ensures forall r :: r in Statuses(op) ==>
              w.Contains(r.observedAt) && r.observedAt >= StartOf(op.requests, op.scenario).observedAt
  {
    var earlier := (a: Request, b: Request) => a.observedAt < b.observedAt;
    forall i, j | 0 <= i < j < |op.requests| ensures earlier(op.requests[i], op.requests[j]) {
      EarlierRequestsPrecede(op.requests, w, i, j);
      assert op.requests[j] in op.requests && RequestInWindow(op.requests[j], w);
    }
    FilterKeepsOrder(StatusTest(op.scenario), op.requests, earlier);
    forall i, j | 0 <= i < j < |Statuses(op)| ensures Statuses(op)[i].observedAt < Statuses(op)[j].observedAt {
      assert earlier(Statuses(op)[i], Statuses(op)[j]);
    }
    forall r | r in Statuses(op)
      ensures w.Contains(r.observedAt) && r.observedAt >= StartOf(op.requests, op.scenario).observedAt
    {
      var k :| 0 <= k < |op.requests| && op.requests[k] == r;
      assert RequestInWindow(r, w) && StatusTest(op.scenario)(r);
    }
  }

  lemma {:induction false} LastOfFilter<T>(p: T -> bool, s: seq<T>)
    requires AfterLast(p, s) > 0
    ensures Filter(p, s) != [] && Filter(p, s)[|Filter(p, s)| - 1] == s[AfterLast(p, s) - 1]
  {
    var k := AfterLast(p, s);
    assert s == s[..k - 1] + [s[k - 1]] + s[k..];
    FilterAppend(p, s[..k - 1] + [s[k - 1]], s[k..]);
    FilterAppend(p, s[..k - 1], [s[k - 1]]);
    FilterNone(p, s[k..]);
    assert Filter(p, [s[k - 1]]) == [s[k - 1]];
  }

  lemma {:induction false} NeverRegresses(scenario: Scenario, samples: seq<Sample>, i: nat, j: nat)
    requires forall k :: 0 <= k < |samples| - 1 ==> NotRegressed(scenario, samples[k], samples[k + 1])
    requires i < j < |samples|
    ensures NotRegressed(scenario, samples[i], samples[j])
    decreases j
  {
    assert NotRegressed(scenario, samples[j - 1], samples[j - 1 + 1]);
    if i < j - 1 {
      NeverRegresses(scenario, samples, i, j - 1);
    }
  }

  /** The accepted samples cover the receipts: as many of them, in the same order. */
  lemma SamplesCoverStatuses(op: Operation, samples: seq<Sample>)
    requires Distinct(Map(ResponseId, Statuses(op)))
    requires |samples| <= |Statuses(op)|
    requires forall i :: 0 <= i < |samples| ==> Statuses(op)[i].requestId == Some(samples[i].statusRequestId)
    ensures Elements(Map(SampleId, samples)) == Elements(Map(ResponseId, Statuses(op))) <==> |samples| == |Statuses(op)|
    ensures Distinct(Map(SampleId, samples))
  {
    var ids, answered := Map(ResponseId, Statuses(op)), Map(SampleId, samples);
    assert forall i :: 0 <= i < |answered| ==> answered[i] == ids[i];
    assert answered == ids[..|answered|];
    FullCardinalityIffDistinct(ids);
    FullCardinalityIffDistinct(answered);
  }

  ghost predicate AllSteps(op: Operation, samples: seq<Sample>) {
    forall i :: 0 <= i < |samples| ==> StepAccepted(op, samples, i, Claimed(samples, i))
  }

  lemma AcceptedSamplesCorrespond(op: Operation, samples: seq<Sample>, w: Window)
    requires Preamble(op, samples, w) && AllSteps(op, samples)
    requires Elements(Map(SampleId, samples)) == Elements(Map(ResponseId, Statuses(op)))
    ensures |samples| == |Statuses(op)| && Distinct(Map(ResponseId, Statuses(op)))
    ensures forall i :: 0 <= i < |samples| ==> SampleOf(op, Statuses(op)[i], samples[i])
  {
    hide Derived, TimingValid, IsBlank, StartBeforeStatus, Filter, StateParses;
    var statuses := Statuses(op);
    FullCardinalityIffDistinct(Map(ResponseId, statuses));
    assert StepAccepted(op, samples, |samples| - 1, Claimed(samples, |samples| - 1));
    forall i | 0 <= i < |samples| ensures statuses[i].requestId == Some(samples[i].statusRequestId) {
      assert StepAccepted(op, samples, i, Claimed(samples, i));
    }
    SamplesCoverStatuses(op, samples);
    forall i | 0 <= i < |samples| ensures SampleOf(op, statuses[i], samples[i]) {
      assert StepAccepted(op, samples, i, Claimed(samples, i));
      assert samples[i] in samples && statuses[i] in statuses;
      FilterOneIsSuccessful(samples[i], statuses, i);
    }
  }

  lemma AcceptedSamplesAdvance(scenario: Scenario, samples: seq<Sample>, statuses: seq<Request>)
    requires |samples| == |statuses|
    requires forall i :: 0 <= i < |samples| ==> samples[i].observedAt == statuses[i].observedAt
    requires forall i, j :: 0 <= i < j < |statuses| ==> statuses[i].observedAt < statuses[j].observedAt
    requires forall k :: 0 <= k < |samples| - 1 ==> NotRegressed(scenario, samples[k], samples[k + 1])
    ensures forall i, j :: 0 <= i < j < |samples| ==> Advances(scenario, samples[i], samples[j])
  {
    forall i, j | 0 <= i < j < |samples| ensures Advances(scenario, samples[i], samples[j]) {
      NeverRegresses(scenario, samples, i, j);
    }
  }

  lemma OnlyTheLastIsTerminal(op: Operation, samples: seq<Sample>)
    requires samples != [] && AllSteps(op, samples)
    requires forall s :: s in samples ==> StateParses(op.scenario, s)
    requires StageOf(op.scenario, samples[|samples| - 1].state).Some?
    requires StageOf(op.scenario, samples[|samples| - 1].state).value.terminal
    ensures forall i :: 0 <= i < |samples| ==> (samples[i].completed <==> i == |samples| - 1)
  {
    hide Derived, IsBlank, Filter, Claimed;
    forall i | 0 <= i < |samples| ensures samples[i].completed <==> i == |samples| - 1 {
      assert samples[i] in samples;
      assert StepAccepted(op, samples, i, Claimed(samples, i));
    }
  }

  lemma AcceptedRunIsFaithful(op: Operation, samples: seq<Sample>, w: Window)
    requires Preamble(op, samples, w) && AllSteps(op, samples) && Epilogue(op, samples)
    ensures FaithfulRun(op, samples, w)
  {
    hide Derived, TimingValid, IsBlank, StartBeforeStatus, Filter, Claimed, StateParses, NotRegressed, TerminalAgrees, StepAccepted;
    var statuses := Statuses(op);
    AcceptedSamplesCorrespond(op, samples, w);
    StatusesAreOrdered(op, w);
    forall i | 0 <= i < |samples| ensures samples[i].observedAt == statuses[i].observedAt {
      assert SampleOf(op, statuses[i], samples[i]);
    }
    AcceptedSamplesAdvance(op.scenario, samples, statuses);
    OnlyTheLastIsTerminal(op, samples);
  }

  lemma FaithfulPair(op: Operation, samples: seq<Sample>, w: Window, i: nat)
    requires FaithfulRun(op, samples, w) && i < |samples|
    ensures |Statuses(op)| == |samples| && StartIndex(op.requests, op.scenario) < |op.requests|
    ensures Present(Statuses(op)[i].requestId)
    ensures samples[i].operationId == op.operationId && samples[i].attempt == op.attempt && StateParses(op.scenario, samples[i])
    ensures w.Contains(samples[i].observedAt) && samples[i].observedAt >= StartOf(op.requests, op.scenario).observedAt
  {
    hide Derived, TimingValid, Allowlisted, Filter, FirstIndex, AfterLast, StateParses, TerminalAgrees, Advances, Present, Distinct;
    StatusesAreOrdered(op, w);
    assert SampleOf(op, Statuses(op)[i], samples[i]) && Statuses(op)[i] in Statuses(op);
  }

  lemma FaithfulPreamble(op: Operation, samples: seq<Sample>, w: Window)
    requires FaithfulRun(op, samples, w)
    ensures Preamble(op, samples, w)
  {
    hide SampleOf, TimingValid, Allowlisted, Filter, FirstIndex, AfterLast, StateParses, TerminalAgrees, Advances, Present, Distinct, Elements;
    var statuses := Statuses(op);
    FullCardinalityIffDistinct(Map(ResponseId, statuses));
    forall r | r in statuses ensures Present(r.requestId) {
      var i :| 0 <= i < |statuses| && statuses[i] == r;
      FaithfulPair(op, samples, w, i);
    }
    forall s | s in samples
      ensures s.operationId == op.operationId && s.attempt == op.attempt && StateParses(op.scenario, s)
      ensures w.Contains(s.observedAt) && s.observedAt >= StartOf(op.requests, op.scenario).observedAt
    {
      var i :| 0 <= i < |samples| && samples[i] == s;
      FaithfulPair(op, samples, w, i);
    }
  }

  lemma FaithfulStep(op: Operation, samples: seq<Sample>, w: Window, i: nat)
    requires FaithfulRun(op, samples, w) && i < |samples|
    ensures StepAccepted(op, samples, i, Claimed(samples, i))
  {
    hide Derived, TimingValid, StartBeforeStatus;
    var statuses, s := Statuses(op), samples[i];
    var ids := Map(ResponseId, statuses);
    forall k | 0 <= k < |samples| ensures ids[k] == SampleId(samples[k]) {
      assert SampleOf(op, statuses[k], samples[k]);
    }
    assert SampleOf(op, statuses[i], s);
    forall k | 0 <= k < |statuses| && k != i ensures !AnswerTest(s)(statuses[k]) {
      assert ids[k] != ids[i];
    }
    assert AnswerTest(s)(statuses[i]);
    FilterHasOne(AnswerTest(s), statuses, i);
    assert SampleId(s) !in Map(SampleId, samples[..i]) by {
      forall k | 0 <= k < i ensures Map(SampleId, samples[..i])[k] != SampleId(s) {
        assert ids[k] != ids[i];
      }
    }
  }

  lemma FaithfulEpilogue(op: Operation, samples: seq<Sample>, w: Window)
    requires FaithfulRun(op, samples, w)
    ensures Epilogue(op, samples)
  {
    hide Derived, TimingValid, NotRegressed, TerminalAgrees, IsBlank, Allowlisted, Filter, FirstIndex, AfterLast;
    var statuses := Statuses(op);
    forall i | 0 <= i < |samples| ensures statuses[i].requestId == Some(samples[i].statusRequestId) {
      assert SampleOf(op, statuses[i], samples[i]);
    }
    SamplesCoverStatuses(op, samples);
    forall i | 0 <= i < |samples| - 1 ensures NotRegressed(op.scenario, samples[i], samples[i + 1]) {
      assert Advances(op.scenario, samples[i], samples[i + 1]);
    }
    LastOfFilter(StatusTest(op.scenario), op.requests);
    assert SampleOf(op, statuses[|samples| - 1], samples[|samples| - 1]);
  }

  lemma ClaimOne(samples: seq<Sample>, i: nat)
    requires i < |samples|
    ensures Claimed(samples, i + 1) == Claimed(samples, i) + {SampleId(samples[i])}
  {
    assert samples[..i + 1] == samples[..i] + [samples[i]];
    MapAppend(SampleId, samples[..i], [samples[i]]);
  }

  lemma PreambleHasStatuses(op: Operation, samples: seq<Sample>, w: Window)
    requires Preamble(op, samples, w)
    ensures samples != [] && AfterLast(StatusTest(op.scenario), op.requests) > 0
  {
  }

  /** validate_admin_operation_progress accepts exactly the faithful runs. */
  method ValidateProgress(op: Operation, samples: seq<Sample>, w: Window) returns (ok: bool)
    ensures ok <==> FaithfulRun(op, samples, w)
  {
    hide FaithfulRun, Preamble, StepAccepted, Epilogue;
    ghost var faithful := FaithfulRun(op, samples, w);
    if !Preamble(op, samples, w) {
      if faithful { FaithfulPreamble(op, samples, w); }
      return false;
    }
    PreambleHasStatuses(op, samples, w);
    var used: set<Option<string>> := {};
    for i := 0 to |samples|
      invariant used == Claimed(samples, i)
      invariant forall k :: 0 <= k < i ==> StepAccepted(op, samples, k, Claimed(samples, k))
    {
      if !StepAccepted(op, samples, i, used) {
        if faithful { FaithfulStep(op, samples, w, i); }
        return false;
      }
      ClaimOne(samples, i);
      used := used + {SampleId(samples[i])};
    }
    ok := Epilogue(op, samples);
    if ok { AcceptedRunIsFaithful(op, samples, w); }
    if faithful { FaithfulEpilogue(op, samples, w); }
  }

  // ------------------------------------- what a faithful run says

  /** A sample repeats its receipt: the answered request, its moment, and the state
      and counters of the captured status; no field of that status shows a failure or a cancel. */
  ghost predicate RepeatsDecommission(op: Operation, r: Request, s: Sample) {
    && r.body.Some? && r.body.value.DecommissionBody? && r.sha == Some(Digest(r.body.value))
    && var b := r.body.value.decommission;
    && Some(b.id) == op.targetId && Some(b.expression) == op.targetExpression && b.decommission.Some?
    && var d := b.decommission.value;
    && s.state == b.status && s.objects == Some(d.objects) && s.versions == None && s.bytes == Some(d.bytes)
    && !d.failed && d.objectsFailed == 0 && d.bytesFailed == 0 && !d.canceled
    && (d.startTime.Some? && !IsBlank(d.startTime.value) ==> op.operationId == "decommission:" + Decimal(b.id) + ":" + d.startTime.value)
    && (|| (b.status == Queued && d.queued && !d.complete && !s.completed)
        || (b.status == Running && !d.queued && !d.complete && !s.completed)
        || (b.status == Complete && d.complete && !d.queued && d.unresolvedEntries == 0 && s.completed && b.poolStatus == Decommissioned
            && (d.objects > 0 || d.bytes > 0)))
  }

  ghost predicate RepeatsRebalance(op: Operation, r: Request, s: Sample) {
    && r.body.Some? && r.body.value.RebalanceBody? && r.sha == Some(Digest(r.body.value))
    && var b := r.body.value.rebalance;
    && b.id == op.operationId && |b.pools| == |op.before.pools|
    && s.objects == Some(SumBy(Objects, b.pools)) && s.versions == Some(SumBy(Versions, b.pools)) && s.bytes == Some(SumBy(Bytes, b.pools))
    && s.state == (if s.completed then Completed else Started)
    && b.failedPeers == [] && b.reloadFailedPeers == [] && b.stoppedAt == None && !b.pendingTerminalReload
    && (forall x :: x in b.pools ==>
          && !x.stopping && x.status != Stopped && x.status != Failed && x.status != Blocked && x.warningCount == 0 && x.warningEntries == 0
          && (x.lastError.Some? ==> x.lastError.value == "") && (x.lastWarning.Some? ==> x.lastWarning.value == "")
          && (s.completed ==> x.status == Completed || (x.progress.None? && x.status == NoWord)))
  }

  lemma SampleRepeats(op: Operation, r: Request, s: Sample)
    requires SampleOf(op, r, s)
    ensures s.operationId == op.operationId && s.attempt == op.attempt
    ensures r.requestId == Some(s.statusRequestId) && !IsBlank(s.statusRequestId) && 200 <= r.status <= 299 && r.observedAt == s.observedAt
    ensures !s.failed && !s.canceledOrStopped && (op.scenario.Decommission? || op.scenario.Rebalance?)
    ensures op.scenario.Decommission? ==> RepeatsDecommission(op, r, s)
    ensures op.scenario.Rebalance? ==> RepeatsRebalance(op, r, s)
  {
    hide ProjectDecommission, ProjectRebalance, RepeatsDecommission, RepeatsRebalance, IsBlank, Answers;
    AnswerReads(s, r);
    if op.scenario.Decommission? {
      DecommissionSampleRepeats(op, r, s);
    } else if op.scenario.Rebalance? {
      RebalanceSampleRepeats(op, r, s);
    }
  }

  lemma AnswerReads(s: Sample, r: Request)
    requires Answers(s, r) && Present(r.requestId)
    ensures r.requestId == Some(s.statusRequestId) && !IsBlank(s.statusRequestId) && 200 <= r.status <= 299 && r.observedAt == s.observedAt
  {
    hide IsBlank;
  }

  lemma DecommissionSampleRepeats(op: Operation, r: Request, s: Sample)
    requires op.scenario.Decommission? && Derived(op, r, s) && StateParses(Decommission, s)
    ensures RepeatsDecommission(op, r, s)
  {
    hide ProjectDecommission, IsBlank, Decimal;
    DecommissionProjectionReads(Captured(r).value.decommission, op.targetId.value, op.targetExpression.value, op.operationId);
  }

  lemma RebalanceSampleRepeats(op: Operation, r: Request, s: Sample)
    requires op.scenario.Rebalance? && Derived(op, r, s) && StateParses(Rebalance, s)
    ensures RepeatsRebalance(op, r, s)
  {
    hide ProjectRebalance, SumBy;
    var b := Captured(r).value.rebalance;
    RebalanceFailureReads(b, op.before.pools, false);
    RebalanceCompletionReads(b, op.before.pools, false);
    RebalanceIsProjectedWhen(b, op.before.pools, false);
  }

  /** Between an earlier and a later sample time passes, no counter falls and no
      stage is taken back; only the last sample is completed, and it is the operation's end. */
  lemma FaithfulRunReads(op: Operation, samples: seq<Sample>, w: Window)
    requires FaithfulRun(op, samples, w)
    ensures samples != [] && |samples| == |Statuses(op)|
    ensures forall i, j :: 0 <= i < j < |samples| ==>
              && samples[i].observedAt < samples[j].observedAt && Statuses(op)[i].requestId != Statuses(op)[j].requestId
              && (samples[i].objects.Some? ==> samples[j].objects.Some? && samples[i].objects.value <= samples[j].objects.value)
              && (samples[i].versions.Some? ==> samples[j].versions.Some? && samples[i].versions.value <= samples[j].versions.value)
              && (samples[i].bytes.Some? ==> samples[j].bytes.Some? && samples[i].bytes.value <= samples[j].bytes.value)
              && (samples[j].state == Queued ==> samples[i].state == Queued)
              && !samples[i].completed
    ensures var last := samples[|samples| - 1];
            && last.completed && last.state == op.terminalState && last.completed == op.completed && last.failed == op.failed
            && last.canceledOrStopped == op.canceledOrStopped
            && last.objects == op.objects && last.versions == op.versions && last.bytes == op.bytes
  {
    hide TimingValid, StartBeforeStatus, Derived, Statuses, IsBlank, Answers, StateParses;
    var ids := Map(ResponseId, Statuses(op));
    forall i, j | 0 <= i < j < |samples| ensures Statuses(op)[i].requestId != Statuses(op)[j].requestId {
      assert ids[i] != ids[j];
    }
    forall i, j | 0 <= i < j < |samples|
      ensures Advances(op.scenario, samples[i], samples[j]) && (samples[j].state == Queued ==> samples[i].state == Queued) && !samples[i].completed
    {
      assert Advances(op.scenario, samples[i], samples[j]);
    }
  }

  /** And each repeats its own receipt. */
  lemma FaithfulSampleReads(op: Operation, samples: seq<Sample>, w: Window, i: nat)
    requires FaithfulRun(op, samples, w) && i < |samples|
    ensures |samples| == |Statuses(op)|
    ensures var r, s := Statuses(op)[i], samples[i];
            && s.operationId == op.operationId && s.attempt == op.attempt
            && r.requestId == Some(s.statusRequestId) && !IsBlank(s.statusRequestId) && 200 <= r.status <= 299 && r.observedAt == s.observedAt
            && (if op.scenario.Decommission? then RepeatsDecommission(op, r, s) else RepeatsRebalance(op, r, s))
  {
    hide TimingValid, StartBeforeStatus, SampleOf, Statuses, IsBlank, Advances, TerminalAgrees, RepeatsDecommission, RepeatsRebalance, Distinct;
    SampleRepeats(op, Statuses(op)[i], samples[i]);
  }
}
