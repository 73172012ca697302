/** The admin workflow runner (src/fault/admin_runner.rs): start, overlap, verify,
    cancel and cleanup phases over a live driver, the evidence they leave, and
    the validator of that evidence. */
module Workflow {
  import opened Basics
  import opened Receipts
  import opened TopologyProof
  import opened StatusProjection
  import opened Evidence
  import opened Overlap
  import opened FastPath
  import opened Polling
  import opened Exchanges
  import opened Policy
  import opened AdminDriver

  // ------------------------------------------------------------ evidence

  datatype Phase = StartPhase | OverlapPhase | VerifyPhase | CancelPhase | CleanupPhase | OtherPhase(name: string)

  datatype PhaseEvidence = PhaseEvidence(phase: Phase, succeeded: bool, startedAt: u64, endedAt: u64, error: Option<Error>)

  datatype WorkflowEvidence = WorkflowEvidence(
    schemaVersion: nat, scenario: string, runId: string, phases: seq<PhaseEvidence>,
    completed: bool, cancelAttempted: bool, cleanupSucceeded: bool)

  function PhaseOf(p: PhaseEvidence): Phase { p.phase }

  predicate PhaseValid(p: PhaseEvidence) {
    && (p.phase.OtherPhase? ==> !IsBlank(p.phase.name))
    && 0 < p.startedAt <= p.endedAt
    && (!p.succeeded <==> p.error.Some?)
  }

  predicate PhasesInOrder(phases: seq<PhaseEvidence>) {
    forall i :: 0 <= i < |phases| - 1 ==> phases[i].endedAt <= phases[i + 1].startedAt
  }

  /** AdminWorkflowEvidence::validate */
  predicate EvidenceValid(e: WorkflowEvidence) {
    && e.schemaVersion == 1 && !IsBlank(e.scenario) && !IsBlank(e.runId) && e.phases != []
    && (forall p :: p in e.phases ==> PhaseValid(p))
    && PhasesInOrder(e.phases)
    && var last := e.phases[|e.phases| - 1];
    && e.phases[0].phase.StartPhase? && last.phase.CleanupPhase?
    && (e.cleanupSucceeded <==> last.succeeded)
    && (if e.completed
        then
          && Map(PhaseOf, e.phases) == [StartPhase, OverlapPhase, VerifyPhase, CleanupPhase]
          && (forall p :: p in e.phases ==> p.succeeded)
          && !e.cancelAttempted
        else exists p :: p in e.phases && !p.succeeded)
  }

  lemma {:induction false} PhasesInTime(phases: seq<PhaseEvidence>, i: nat, j: nat)
    requires PhasesInOrder(phases) && (forall p :: p in phases ==> p.startedAt <= p.endedAt) && i < j < |phases|
    ensures phases[i].endedAt <= phases[j].startedAt
    decreases j
  {
    assert phases[j - 1].endedAt <= phases[j - 1 + 1].startedAt && phases[j - 1] in phases;
    if i < j - 1 {
      PhasesInTime(phases, i, j - 1);
    }
  }

  /** Accepted evidence, in its fields: named, of this schema, from a start to a
      cleanup, every phase over before any later one begins, an error on exactly
      the failed ones; completed means four phases that all passed and no cancel. */
  lemma AcceptedEvidenceReads(e: WorkflowEvidence)
    requires EvidenceValid(e)
    ensures e.schemaVersion == 1 && !IsBlank(e.scenario) && !IsBlank(e.runId)
    ensures |e.phases| >= 2 && e.phases[0].phase == StartPhase && e.phases[|e.phases| - 1].phase == CleanupPhase
    ensures forall p :: p in e.phases ==>
              && 0 < p.startedAt <= p.endedAt && (p.error.Some? <==> !p.succeeded) && (p.phase.OtherPhase? ==> !IsBlank(p.phase.name))
    ensures forall i, j :: 0 <= i < j < |e.phases| ==> e.phases[i].endedAt <= e.phases[j].startedAt
    ensures e.cleanupSucceeded == e.phases[|e.phases| - 1].succeeded
    ensures e.completed <==> forall p :: p in e.phases ==> p.succeeded
    ensures e.completed ==>
              && |e.phases| == 4 && e.phases[1].phase == OverlapPhase && e.phases[2].phase == VerifyPhase && !e.cancelAttempted
  {
    hide IsBlank;
    forall p | p in e.phases
      ensures 0 < p.startedAt <= p.endedAt && (p.error.Some? <==> !p.succeeded) && (p.phase.OtherPhase? ==> !IsBlank(p.phase.name))
    {
      assert PhaseValid(p);
    }
    forall i, j | 0 <= i < j < |e.phases| ensures e.phases[i].endedAt <= e.phases[j].startedAt {
      PhasesInTime(e.phases, i, j);
    }
    if e.completed {
      var names := Map(PhaseOf, e.phases);
      assert names[1] == OverlapPhase && names[2] == VerifyPhase;
    }
  }

  /** So evidence that is unnamed, out of order, says of a phase what its error
      denies, or calls completed what failed or was canceled, is refused. */
  lemma FlawedEvidenceIsRefused(e: WorkflowEvidence, i: nat, j: nat)
    requires i < j < |e.phases|
    requires || e.schemaVersion != 1 || IsBlank(e.scenario) || IsBlank(e.runId)
             || e.phases[0].phase != StartPhase || e.phases[|e.phases| - 1].phase != CleanupPhase
             || e.phases[i].startedAt == 0 || e.phases[i].endedAt < e.phases[i].startedAt || e.phases[j].startedAt < e.phases[i].endedAt
             || e.phases[j].succeeded == e.phases[j].error.Some?
             || e.cleanupSucceeded != e.phases[|e.phases| - 1].succeeded
             || (e.completed && (|e.phases| != 4 || e.cancelAttempted || !e.phases[i].succeeded || e.phases[1].phase != OverlapPhase))
             || (!e.completed && forall p :: p in e.phases ==> p.succeeded)
    ensures !EvidenceValid(e)
  {
    hide EvidenceValid, IsBlank;
    if EvidenceValid(e) {
      AcceptedEvidenceReads(e);
    }
  }

  // -------------------------------------------------- the shape of a run

  predicate Passed(phases: seq<PhaseEvidence>, names: seq<Phase>) {
    && |phases| >= |names|
    && forall i :: 0 <= i < |names| ==> phases[i].phase == names[i] && phases[i].succeeded
  }

  /** The failing phase k is followed by cancel and cleanup only. */
  predicate FailedAt(phases: seq<PhaseEvidence>, k: nat) {
    && |phases| == k + 3 && !phases[k].succeeded
    && phases[k + 1].phase.CancelPhase? && phases[k + 2].phase.CleanupPhase?
  }

  /** The four phase sequences: cancel runs exactly when a phase before cleanup
      failed, and cleanup runs once and last. */
  predicate FourShapes(phases: seq<PhaseEvidence>) {
    || (FailedAt(phases, 0) && phases[0].phase.StartPhase?)
    || (FailedAt(phases, 1) && Passed(phases, [StartPhase]) && phases[1].phase.OverlapPhase?)
    || (FailedAt(phases, 2) && Passed(phases, [StartPhase, OverlapPhase]) && phases[2].phase.VerifyPhase?)
    || (|phases| == 4 && Passed(phases, [StartPhase, OverlapPhase, VerifyPhase]) && phases[3].phase.CleanupPhase?)
  }

  /** The errors of the failed phases, in order. */
  function Failures(phases: seq<PhaseEvidence>): seq<Error> {
    if phases == [] then []
    else
      var last := phases[|phases| - 1];
      Failures(phases[..|phases| - 1]) + if last.error.Some? then [last.error.value] else []
  }

  /** The first failure, with every later one attached. */
  function Surviving(failures: seq<Error>): Option<Error> {
    if failures == [] then None
    else Some(failures[0].(also := failures[0].also + failures[1..]))
  }

  lemma FailuresGrow(phases: seq<PhaseEvidence>, p: PhaseEvidence)
    ensures Failures(phases + [p]) == Failures(phases) + if p.error.Some? then [p.error.value] else []
  {
    assert (phases + [p])[..|phases|] == phases;
  }

  lemma SurvivorsGrow(failures: seq<Error>, e: Error)
    ensures Surviving(failures + [e]) ==
            Some(if failures == [] then e else Attach(Surviving(failures).value, e))
  {
    if failures != [] {
      assert (failures + [e])[1..] == failures[1..] + [e];
      assert failures[0].also + (failures[1..] + [e]) == failures[0].also + failures[1..] + [e];
    } else {
      assert ([] + [e])[1..] == [] && e.also + [] == e.also;
    }
  }

  /** What every run of the workflow leaves behind, whatever the driver does. */
  predicate RunnerEvidence(e: WorkflowEvidence, error: Option<Error>) {
    && e.schemaVersion == 1 && FourShapes(e.phases)
    && (forall p :: p in e.phases ==> PhaseValid(p))
    && (e.completed <==> error.None?)
    && error == Surviving(Failures(e.phases))
    && (e.cleanupSucceeded <==> e.phases[|e.phases| - 1].succeeded)
    && (e.cancelAttempted ==> |e.phases| >= 2 && e.phases[|e.phases| - 2].phase.CancelPhase?)
  }

  lemma {:induction false} NoFailureMeansAllPassed(phases: seq<PhaseEvidence>)
    requires forall p :: p in phases ==> PhaseValid(p)
    ensures Failures(phases) == [] <==> forall p :: p in phases ==> p.succeeded
  {
    hide IsBlank;
    if phases != [] {
      var front, last := phases[..|phases| - 1], phases[|phases| - 1];
      NoFailureMeansAllPassed(front);
      assert last in phases;
      assert forall p :: p in phases <==> p in front || p == last;
    }
  }

  /** What the runner leaves is accepted exactly when it is identified and in order. */
  lemma OrderedEvidenceIsValid(e: WorkflowEvidence, error: Option<Error>)
    requires RunnerEvidence(e, error)
    ensures EvidenceValid(e) <==> !IsBlank(e.scenario) && !IsBlank(e.runId) && PhasesInOrder(e.phases)
  {
    hide IsBlank, PhasesInOrder, PhaseValid;
    NoFailureMeansAllPassed(e.phases);
    if e.completed {
      assert forall i :: 0 <= i < |e.phases| ==> e.phases[i] in e.phases;
      assert Map(PhaseOf, e.phases) == [StartPhase, OverlapPhase, VerifyPhase, CleanupPhase];
    }
  }

  // --------------------------------------------------------------- clocks

  function Ms(reading: u64): u64 {
    if reading == 0 then 1 else reading
  }

  ghost predicate Steady(wall: nat -> u64) {
    forall i, j :: 0 <= i <= j ==> wall(i) <= wall(j)
  }

  /** The wall clock, reading by reading, and the monotonic clock, which every
      awaited step advances by an arbitrary amount.  A step that outlasts its
      timer is dropped unless it is found ready first. */
  class Clock {
    const wall: nat -> u64
    const lag: nat -> nat
    const ready: nat -> bool
    var readings: nat
    var steps: nat
    var instant: nat

    constructor (wall: nat -> u64, lag: nat -> nat, ready: nat -> bool)
      ensures this.wall == wall && this.lag == lag && this.ready == ready && readings == 0 && steps == 0 && instant == 0
    {
      this.wall, this.lag, this.ready, readings, steps, instant := wall, lag, ready, 0, 0, 0;
    }

    /** now_ms */
    method NowMs() returns (t: u64)
      modifies this`readings
      ensures readings == old(readings) + 1 && t == Ms(wall(old(readings)))
    {
      t := Ms(wall(readings));
      readings := readings + 1;
    }

    /** A step of at least the given length, under a timer. */
    method Await(atLeast: nat, timer: nat) returns (dropped: bool)
      modifies this`steps, this`instant
      ensures steps == old(steps) + 1 && instant == old(instant) + atLeast + lag(old(steps))
      ensures dropped <==> old(instant) + timer <= instant && !ready(old(steps))
    {
      dropped := timer <= atLeast + lag(steps) && !ready(steps);
      instant, steps := instant + atLeast + lag(steps), steps + 1;
    }

    /** A step of any length, without a timer of its own. */
    method Elapse()
      modifies this`steps, this`instant
      ensures steps == old(steps) + 1 && instant == old(instant) + lag(old(steps))
    {
      instant, steps := instant + lag(steps), steps + 1;
    }
  }

  /** The numbers of the two wall-clock readings that frame a phase. */
  datatype Span = Span(began: nat, ended: nat)

  function BeganAt(wall: nat -> u64, s: Span): u64 { Ms(wall(s.began)) }

  function EndedAt(wall: nat -> u64, s: Span): u64 {
    if Ms(wall(s.ended)) < Ms(wall(s.began)) then Ms(wall(s.began)) else Ms(wall(s.ended))
  }

  /** The phases carry the readings of their spans, taken one after the other before reading n. */
  ghost predicate Stamped(phases: seq<PhaseEvidence>, spans: seq<Span>, wall: nat -> u64, n: nat) {
    && |spans| == |phases|
    && (forall i :: 0 <= i < |phases| ==>
          && PhaseValid(phases[i]) && spans[i].began < spans[i].ended < n
          && phases[i].startedAt == BeganAt(wall, spans[i]) && phases[i].endedAt == EndedAt(wall, spans[i]))
    && (forall i, j :: 0 <= i < j < |spans| ==> spans[i].ended < spans[j].began)
  }

  /** No phase begins at an earlier reading of the clock than its predecessor began or ended at. */
  ghost predicate NeverBack(spans: seq<Span>, wall: nat -> u64) {
    forall i :: 0 <= i < |spans| - 1 ==> EndedAt(wall, spans[i]) <= BeganAt(wall, spans[i + 1])
  }

  /** The runner and the validator agree: whatever the driver does, the evidence
      is accepted exactly when the run is named and the wall clock does not step
      back from one phase to the next. */
  lemma RunnerEvidenceValidates(e: WorkflowEvidence, error: Option<Error>, spans: seq<Span>, wall: nat -> u64, n: nat)
    requires RunnerEvidence(e, error) && Stamped(e.phases, spans, wall, n)
    ensures EvidenceValid(e) <==> !IsBlank(e.scenario) && !IsBlank(e.runId) && NeverBack(spans, wall)
  {
    hide EvidenceValid, IsBlank, PhaseValid, RunnerEvidence, BeganAt, EndedAt;
    OrderedEvidenceIsValid(e, error);
    StampsDecideOrder(e.phases, spans, wall, n);
  }

  lemma StampsDecideOrder(phases: seq<PhaseEvidence>, spans: seq<Span>, wall: nat -> u64, n: nat)
    requires Stamped(phases, spans, wall, n)
    ensures PhasesInOrder(phases) <==> NeverBack(spans, wall)
  {
    hide PhaseValid, BeganAt, EndedAt;
    if NeverBack(spans, wall) {
      forall i | 0 <= i < |phases| - 1 ensures phases[i].endedAt <= phases[i + 1].startedAt {
        assert EndedAt(wall, spans[i]) <= BeganAt(wall, spans[i + 1]);
      }
    }
    if PhasesInOrder(phases) {
      forall i | 0 <= i < |spans| - 1 ensures EndedAt(wall, spans[i]) <= BeganAt(wall, spans[i + 1]) {
        assert phases[i].endedAt <= phases[i + 1].startedAt;
      }
    }
  }

  lemma SteadyClockNeverGoesBack(phases: seq<PhaseEvidence>, spans: seq<Span>, wall: nat -> u64, n: nat)
    requires Stamped(phases, spans, wall, n) && Steady(wall)
    ensures NeverBack(spans, wall)
  {
    hide PhaseValid;
    forall i | 0 <= i < |spans| - 1 ensures EndedAt(wall, spans[i]) <= BeganAt(wall, spans[i + 1]) {
      assert spans[i].began <= spans[i].ended <= spans[i + 1].began;
      assert wall(spans[i].began) <= wall(spans[i + 1].began) && wall(spans[i].ended) <= wall(spans[i + 1].began);
    }
  }

  /** A clock that shows 5, 9, 8 and from then on 9. */
  function SteppingClock(): nat -> u64 {
    k => if k == 0 then 5 else if k == 2 then 8 else 9
  }

  const SPANS := [Span(0, 1), Span(2, 3), Span(4, 5), Span(6, 7)]

  /** The clock condition matters: a named run whose four phases all passed, each
      framed by two readings of that clock, is refused, because the clock stepped
      back from 9 to 8 between the first two. */
  lemma SteppedBackClockIsRefused(e: WorkflowEvidence)
    requires e.schemaVersion == 1 && e.completed && !e.cancelAttempted && e.cleanupSucceeded
    requires !IsBlank(e.scenario) && !IsBlank(e.runId)
    requires e.phases == [PhaseEvidence(StartPhase, true, 5, 9, None), PhaseEvidence(OverlapPhase, true, 8, 9, None),
                          PhaseEvidence(VerifyPhase, true, 9, 9, None), PhaseEvidence(CleanupPhase, true, 9, 9, None)]
    ensures Stamped(e.phases, SPANS, SteppingClock(), 8) && !NeverBack(SPANS, SteppingClock())
    ensures RunnerEvidence(e, None) && !EvidenceValid(e)
  {
    hide EvidenceValid, IsBlank, Failures;
    NoFailureMeansAllPassed(e.phases);
    OrderedEvidenceIsValid(e, None);
    assert !(e.phases[0].endedAt <= e.phases[1].startedAt);
    SteppingClockStamps(e.phases);
  }

  lemma SteppingClockStamps(phases: seq<PhaseEvidence>)
    requires phases == [PhaseEvidence(StartPhase, true, 5, 9, None), PhaseEvidence(OverlapPhase, true, 8, 9, None),
                        PhaseEvidence(VerifyPhase, true, 9, 9, None), PhaseEvidence(CleanupPhase, true, 9, 9, None)]
    ensures Stamped(phases, SPANS, SteppingClock(), 8) && !NeverBack(SPANS, SteppingClock())
  {
    var wall := SteppingClock();
    assert EndedAt(wall, SPANS[0]) == 9 && BeganAt(wall, SPANS[1]) == 8;
  }

  /** poll interval, operation and recovery timeouts, and the suite deadline if there is one. */
  datatype Limits = Limits(pollInterval: nat, operationTimeout: nat, recoveryTimeout: nat, suite: Option<nat>)

  predicate LimitsPositive(limits: Limits) {
    limits.pollInterval > 0 && limits.operationTimeout > 0 && limits.recoveryTimeout > 0
  }

  predicate SuiteOver(limits: Limits, instant: nat) {
    limits.suite.Some? && limits.suite.value <= instant
  }

  /** The hooks whose work lies outside the session: any outcome is possible, and
      the workload may return after any number of observations. */
  datatype Hooks = Hooks(prepare: Option<Fault>, workload: Result<WorkloadReceipt>, workloadPolls: nat,
                         verify: Option<Fault>, cleanup: Option<Fault>)

  /** run_phase, once its operation is over; it began at wall-clock reading n. */
  method EndPhase(phases: seq<PhaseEvidence>, phase: Phase, startedAt: u64, result: Result<()>, clock: Clock,
                  ghost spans: seq<Span>, ghost n: nat)
    returns (next: seq<PhaseEvidence>, ghost longer: seq<Span>)
    requires !phase.OtherPhase? && n < clock.readings && startedAt == Ms(clock.wall(n)) && Stamped(phases, spans, clock.wall, n)
    modifies clock`readings
    ensures clock.readings == old(clock.readings) + 1
    ensures |next| == |phases| + 1 && next[..|phases|] == phases
    ensures next[|phases|].phase == phase && next[|phases|].succeeded == result.Ok?
    ensures longer == spans + [Span(n, old(clock.readings))] && Stamped(next, longer, clock.wall, clock.readings)
    ensures Failures(next) == Failures(phases) + if result.Ok? then [] else [result.error]
  {
    hide Stamped, Failures;
    var t := clock.NowMs();
    var endedAt := if t < startedAt then startedAt else t;
    var p := PhaseEvidence(phase, result.Ok?, startedAt, endedAt, if result.Ok? then None else Some(result.error));
    next := phases + [p];
    longer := spans + [Span(n, old(clock.readings))];
    FailuresGrow(phases, p);
    StampOne(phases, spans, clock.wall, n, p, old(clock.readings));
  }

  lemma StampOne(phases: seq<PhaseEvidence>, spans: seq<Span>, wall: nat -> u64, n: nat, p: PhaseEvidence, m: nat)
    requires Stamped(phases, spans, wall, n) && n < m && PhaseValid(p)
    requires p.startedAt == BeganAt(wall, Span(n, m)) && p.endedAt == EndedAt(wall, Span(n, m))
    ensures Stamped(phases + [p], spans + [Span(n, m)], wall, m + 1)
  {
    hide PhaseValid, BeganAt, EndedAt;
  }

  // ------------------------------------------------------- order of hooks

  /** When in a run a hook has its place; observations and the return of the
      workload share one. */
  function Place(c: HookCall): nat {
    match c
    case PrepareReturned(_) => 0
    case StartCalled => 1
    case WorkloadBegan => 2
    case ObserveCalled => 3
    case WorkloadReturned => 3
    case OverlapProofCalled => 4
    case VerifyCalled => 5
    case CancelCalled => 6
    case CleanupCalled => 7
  }

  predicate MayFollow(a: HookCall, b: HookCall) {
    Place(a) < Place(b) || (Place(a) == Place(b) == 3 && !(a.WorkloadReturned? && b.WorkloadReturned?))
  }

  /** The calls are in sequence, none placed later than the limit. */
  ghost predicate InSequence(calls: seq<HookCall>, limit: nat) {
    && (forall i, j :: 0 <= i < j < |calls| ==> MayFollow(calls[i], calls[j]))
    && (forall c :: c in calls ==> Place(c) <= limit)
  }

  lemma CallAppended(calls: seq<HookCall>, limit: nat, c: HookCall)
    requires InSequence(calls, limit)
    requires limit < Place(c) || (limit == Place(c) == 3 && (c.ObserveCalled? || WorkloadReturned !in calls))
    ensures InSequence(calls + [c], Place(c))
  {
    forall i | 0 <= i < |calls| ensures MayFollow(calls[i], c) {
      assert calls[i] in calls;
    }
  }

  /** A begun workload has returned; only a begun one is observed beside. */
  ghost predicate WorkloadReturns(calls: seq<HookCall>) {
    && (WorkloadBegan in calls ==> WorkloadReturned in calls)
    && (ObserveCalled in calls || WorkloadReturned in calls ==> WorkloadBegan in calls)
  }

  ghost predicate At(calls: seq<HookCall>, i: int, c: HookCall) {
    0 <= i < |calls| && calls[i] == c
  }

  /** Start follows a successful prepare, observations a begun workload, verify a
      passed overlap; the overlap proof, verify, cancel and cleanup come after a
      begun workload has returned; cancel is called exactly when a phase before
      cleanup failed, and then only cleanup follows, once and last. */
  ghost predicate HookOrder(calls: seq<HookCall>, phases: seq<PhaseEvidence>) {
    && (forall i :: At(calls, i, StartCalled) ==> i == 1 && calls[0] == PrepareReturned(true))
    && (forall i :: At(calls, i, ObserveCalled) ==> exists b :: At(calls, b, WorkloadBegan) && b < i)
    && (forall b, i :: At(calls, b, WorkloadBegan) && 0 <= i < |calls| && Place(calls[i]) >= 4 ==>
          exists k :: At(calls, k, WorkloadReturned) && b < k < i)
    && (forall i :: At(calls, i, VerifyCalled) ==> |phases| > 1 && phases[1].phase.OverlapPhase? && phases[1].succeeded)
    && (forall i :: At(calls, i, CancelCalled) ==> i == |calls| - 2)
    && (CancelCalled in calls <==> |phases| > 1 && phases[|phases| - 2].phase.CancelPhase?)
    && (forall i :: At(calls, i, CleanupCalled) <==> i == |calls| - 1 >= 0)
  }

  lemma Placed(calls: seq<HookCall>, i: nat, j: nat)
    requires InSequence(calls, 7) && i < j < |calls|
    ensures Place(calls[i]) < Place(calls[j]) || Place(calls[i]) == Place(calls[j]) == 3
  {
    assert MayFollow(calls[i], calls[j]);
  }

  /** A call that is placed earlier was made earlier. */
  lemma EarlierPlace(calls: seq<HookCall>, i: nat, j: nat)
    requires InSequence(calls, 7) && i < |calls| && j < |calls| && Place(calls[i]) < Place(calls[j])
    ensures i < j
  {
    hide InSequence;
    if j < i {
      Placed(calls, j, i);
    }
  }

  lemma StartIsSecond(calls: seq<HookCall>, i: nat)
    requires InSequence(calls, 7) && PrepareReturned(true) in calls && i < |calls| && calls[i] == StartCalled
    ensures i == 1 && calls[0] == PrepareReturned(true)
  {
    hide InSequence;
    var p :| 0 <= p < |calls| && calls[p] == PrepareReturned(true);
    EarlierPlace(calls, p, i);
    if p > 0 {
      Placed(calls, 0, p);
    } else if i > 1 {
      Placed(calls, 0, 1);
      Placed(calls, 1, i);
    }
  }

  lemma WorkloadComesFirst(calls: seq<HookCall>)
    requires InSequence(calls, 7) && WorkloadReturns(calls)
    ensures forall i :: At(calls, i, ObserveCalled) ==> exists b :: At(calls, b, WorkloadBegan) && b < i
    ensures forall b, i :: At(calls, b, WorkloadBegan) && 0 <= i < |calls| && Place(calls[i]) >= 4 ==>
              exists k :: At(calls, k, WorkloadReturned) && b < k < i
  {
    hide InSequence;
    forall i | At(calls, i, ObserveCalled) ensures exists b :: At(calls, b, WorkloadBegan) && b < i {
      assert calls[i] in calls;
      var b :| 0 <= b < |calls| && calls[b] == WorkloadBegan;
      EarlierPlace(calls, b, i);
      assert At(calls, b, WorkloadBegan);
    }
    forall b, i | At(calls, b, WorkloadBegan) && 0 <= i < |calls| && Place(calls[i]) >= 4
      ensures exists k :: At(calls, k, WorkloadReturned) && b < k < i
    {
      assert calls[b] in calls;
      var k :| 0 <= k < |calls| && calls[k] == WorkloadReturned;
      EarlierPlace(calls, b, k);
      EarlierPlace(calls, k, i);
      assert At(calls, k, WorkloadReturned);
    }
  }

  lemma CleanupIsLast(calls: seq<HookCall>)
    requires InSequence(calls, 7) && CleanupCalled in calls
    ensures forall i :: At(calls, i, CleanupCalled) <==> i == |calls| - 1 >= 0
    ensures forall i :: At(calls, i, CancelCalled) ==> i == |calls| - 2
  {
    hide InSequence;
    var z :| 0 <= z < |calls| && calls[z] == CleanupCalled;
    var last := |calls| - 1;
    if z < last {
      Placed(calls, z, last);
    }
    forall i | At(calls, i, CleanupCalled) ensures i == last {
      if i < last {
        Placed(calls, i, last);
      }
    }
    forall i | At(calls, i, CancelCalled) ensures i == last - 1 {
      if i < last - 1 {
        Placed(calls, i, last - 1);
        Placed(calls, last - 1, last);
      }
    }
  }

  lemma SequenceGivesOrder(calls: seq<HookCall>, phases: seq<PhaseEvidence>)
    requires InSequence(calls, 7) && WorkloadReturns(calls)
    requires StartCalled in calls ==> PrepareReturned(true) in calls
    requires VerifyCalled in calls ==> |phases| > 1 && phases[1].phase.OverlapPhase? && phases[1].succeeded
    requires CancelCalled in calls <==> |phases| > 1 && phases[|phases| - 2].phase.CancelPhase?
    requires CleanupCalled in calls
    ensures HookOrder(calls, phases)
  {
    hide InSequence;
    WorkloadComesFirst(calls);
    CleanupIsLast(calls);
    forall i | At(calls, i, StartCalled) ensures i == 1 && calls[0] == PrepareReturned(true) {
      assert calls[i] in calls;
      StartIsSecond(calls, i);
    }
    forall i | At(calls, i, VerifyCalled) ensures VerifyCalled in calls {
      assert calls[i] in calls;
    }
  }

  /** Calls in sequence, each with what it needs before it. */
  ghost predicate RunsInOrder(calls: seq<HookCall>, limit: nat) {
    && InSequence(calls, limit)
    && (StartCalled in calls ==> PrepareReturned(true) in calls)
    && (ObserveCalled in calls || WorkloadReturned in calls ==> WorkloadBegan in calls)
  }

  lemma NextCall(calls: seq<HookCall>, limit: nat, c: HookCall)
    requires RunsInOrder(calls, limit)
    requires limit < Place(c) || (limit == Place(c) == 3 && (c.ObserveCalled? || WorkloadReturned !in calls))
    requires c.StartCalled? ==> PrepareReturned(true) in calls
    requires c.ObserveCalled? || c.WorkloadReturned? ==> WorkloadBegan in calls
    ensures RunsInOrder(calls + [c], Place(c))
    ensures forall d :: d in calls + [c] <==> d in calls || d == c
  {
    hide InSequence;
    CallAppended(calls, limit, c);
  }

  lemma NotYetCalled(calls: seq<HookCall>, limit: nat)
    requires RunsInOrder(calls, limit)
    ensures forall c :: limit < Place(c) ==> c !in calls
    ensures forall later :: limit <= later ==> RunsInOrder(calls, later)
  {
  }

  lemma NothingCalled()
    ensures forall limit :: RunsInOrder([], limit)
  {
  }

  // -------------------------------------------------------- observations

  ghost predicate OnlyStatuses(sent: seq<Exchange>) {
    forall e :: e in sent ==> e.kind.StatusSent?
  }

  /** Every observation but the last found the operation running. */
  ghost predicate RunningUntilLast(seen: seq<Result<Observation>>) {
    forall i :: 0 <= i < |seen| - 1 ==> seen[i] == Ok(StillActive)
  }

  ghost predicate AllRunning(seen: seq<Result<Observation>>) {
    forall o :: o in seen ==> o == Ok(StillActive)
  }

  /** A finished wait: running, running, ..., finished. */
  ghost predicate Waited(seen: seq<Result<Observation>>, observedRunning: bool) {
    && seen != [] && seen[|seen| - 1] == Ok(Finished)
    && RunningUntilLast(seen)
    && (observedRunning <==> Ok(StillActive) in seen)
  }

  predicate IsTimeout(e: Error) {
    e == Error(OperationTimeout, []) || e == Error(SuiteDeadline, [])
  }

  /** A failed wait: by what the last observation said, or because time was up. */
  ghost predicate WaitFailed(seen: seq<Result<Observation>>, e: Error, late: bool) {
    && RunningUntilLast(seen)
    && (|| (seen != [] && seen[|seen| - 1] == Err(e))
        || (late && IsTimeout(e)))
  }

  /** The timer of run_operation_phase: whichever of the two deadlines is nearer. */
  function Timer(limits: Limits, deadline: nat, instant: nat): nat
    requires instant <= deadline
  {
    if limits.suite.Some? && instant <= limits.suite.value < deadline then limits.suite.value - instant else deadline - instant
  }

  predicate TimeIsUp(limits: Limits, deadline: nat, instant: nat) {
    deadline <= instant || SuiteOver(limits, instant)
  }

  /** What run_operation_phase checks before its step. */
  function TooLate(limits: Limits, deadline: nat, instant: nat): (r: Result<()>)
    ensures r.Ok? <==> !TimeIsUp(limits, deadline, instant)
    ensures r.Err? ==> IsTimeout(r.error)
  {
    if deadline <= instant then Fail(OperationTimeout)
    else if SuiteOver(limits, instant) then Fail(SuiteDeadline)
    else Ok(())
  }

  lemma StillTime(limits: Limits, deadline: nat, instant: nat)
    requires !TimeIsUp(limits, deadline, instant)
    ensures instant < deadline
  {
  }

  /** The outcome of run_operation_phase, once its step is over. */
  function Timed<T>(result: Result<T>, dropped: bool, limits: Limits, deadline: nat, instant: nat): (r: Result<T>)
    ensures r.Ok? ==> r == result && !TimeIsUp(limits, deadline, instant)
    ensures r.Err? && !dropped && result.Err? ==> r == result
    ensures r.Err? && result.Ok? && !dropped ==> TimeIsUp(limits, deadline, instant)
    ensures r.Err? && (dropped || result.Ok?) ==> IsTimeout(r.error)
  {
    if dropped then Fail(OperationTimeout)
    else if result.Err? then result
    else if SuiteOver(limits, instant) then Fail(SuiteDeadline)
    else if deadline <= instant then Fail(OperationTimeout)
    else result
  }

  /** The time that so many poll intervals take. */
  function Spacing(polls: int, limits: Limits): int {
    polls * limits.pollInterval
  }

  lemma OneMoreInterval(polls: nat, limits: Limits)
    ensures Spacing(polls + 1, limits) == Spacing(polls, limits) + limits.pollInterval
    ensures Spacing(0, limits) == 0
  {
  }

  lemma NoneSeen()
    ensures AllRunning([])
  {
  }

  lemma WaitEnds(seen: seq<Result<Observation>>, last: Result<Observation>)
    requires AllRunning(seen)
    ensures last == Ok(StillActive) ==> AllRunning(seen + [last])
    ensures RunningUntilLast(seen) && RunningUntilLast(seen + [last])
    ensures last == Ok(Finished) ==> Waited(seen + [last], seen != [])
  {
    var all := seen + [last];
    forall i | 0 <= i < |all| - 1 ensures all[i] == Ok(StillActive) {
      assert all[i] == seen[i] && seen[i] in seen;
    }
    forall i | 0 <= i < |seen| ensures seen[i] == Ok(StillActive) {
      assert seen[i] in seen;
    }
    if seen != [] {
      assert seen[0] in all;
    }
  }

  /** What a begun workload has left behind, if it has returned. */
  ghost predicate WorkloadKept(calls: seq<HookCall>, running: bool, kept: Option<WorkloadReceipt>, worked: Option<Result<()>>, hooks: Hooks) {
    && WorkloadBegan in calls
    && (running <==> WorkloadReturned !in calls) && (running <==> worked.None?)
    && (worked.Some? && worked.value.Ok? ==> hooks.workload.Ok? && kept == Some(hooks.workload.value))
    && (worked.Some? && worked.value.Err? ==>
          worked.value.error.cause == if hooks.workload.Err? then hooks.workload.error.cause else PersistFailed)
  }

  lemma KeptBesideObservation(calls: seq<HookCall>, next: seq<HookCall>, running: bool, kept: Option<WorkloadReceipt>,
                              worked: Option<Result<()>>, hooks: Hooks)
    requires WorkloadKept(calls, running, kept, worked, hooks)
    requires forall c :: c in next <==> c in calls || c == ObserveCalled
    ensures WorkloadKept(next, running, kept, worked, hooks)
  {
  }

  lemma KeptMeansBegun(calls: seq<HookCall>, running: bool, kept: Option<WorkloadReceipt>, worked: Option<Result<()>>, hooks: Hooks)
    requires WorkloadKept(calls, running, kept, worked, hooks)
    ensures WorkloadBegan in calls && (running <==> worked.None?)
  {
  }

  /** The workload returns now, if it is due and has not returned. */
  method LetWorkloadReturn(session: AdminSession, worked: Option<Result<()>>, hooks: Hooks, due: bool)
    returns (next: Option<Result<()>>)
    requires WorkloadKept(session.calls, session.workloadRunning, session.workload, worked, hooks) && RunsInOrder(session.calls, 3)
    modifies session`workload, session`workloadRunning, session`disk, session`calls
    ensures WorkloadKept(session.calls, session.workloadRunning, session.workload, next, hooks) && RunsInOrder(session.calls, 3)
    ensures due ==> next.Some?
    ensures worked.Some? ==> next == worked
  {
    hide RunsInOrder;
    next := worked;
    if due && session.workloadRunning {
      NextCall(session.calls, 3, WorkloadReturned);
      var r := session.FinishWorkload(hooks.workload);
      next := Some(r);
    }
  }

  lemma NoStatuses()
    ensures OnlyStatuses([])
  {
  }

  lemma StatusesJoin(a: seq<Exchange>, b: seq<Exchange>)
    requires OnlyStatuses(a) && OnlyStatuses(b)
    ensures OnlyStatuses(a + b)
  {
  }

  /** The session has seen its own operation complete. */
  ghost predicate Concluded(session: AdminSession)
    reads session`terminal, session`ownership, session`transcript
  {
    && session.terminal && session.ownership.Owned? && session.transcript.progress != []
    && var s := session.transcript.progress[|session.transcript.progress| - 1];
    && s.completed && !s.failed && !s.canceledOrStopped
  }

  /** What holds of a started session whatever it has observed. */
  ghost predicate Underway(session: AdminSession)
    reads session`log, session`ownership, session`transcript, session`statusCalls
  {
    !session.ownership.NotStarted? && session.Disciplined() && session.Tracked()
  }

  /** run_operation_phase around one observation. */
  method ObserveOnce(session: AdminSession, clock: Clock, limits: Limits, deadline: nat)
    returns (r: Result<Observation>, ghost seen: Result<Observation>, ghost sent: seq<Exchange>)
    requires Underway(session) && !TimeIsUp(limits, deadline, clock.instant)
    requires WorkloadBegan in session.calls && RunsInOrder(session.calls, 3)
    modifies session`pending, session`log, session`transcript, session`ownership, session`statusCalls, session`terminal, session`disk, session`watched
    modifies session`calls, clock`steps, clock`instant
    ensures Underway(session) && session.log == old(session.log) + sent && OnlyStatuses(sent)
    ensures old(session.CapturedLive()) ==> session.CapturedLive()
    ensures RunsInOrder(session.calls, 3) && (forall c :: c in session.calls <==> c in old(session.calls) || c == ObserveCalled)
    ensures clock.instant >= old(clock.instant)
    ensures r.Ok? ==> r == seen && !TimeIsUp(limits, deadline, clock.instant)
    ensures r.Err? ==>
              || seen == Err(r.error)
              || (TimeIsUp(limits, deadline, clock.instant) && IsTimeout(r.error))
    ensures r == Ok(Finished) ==> Concluded(session)
    ensures r.Ok? && old(session.RunningOn()) ==> if r.value.Finished? then session.RunOut() else session.RunningOn()
  {
    hide LearnsOwner, ObservesOnce, OwnerDisciplined, Tracks, AllCapturedAfter, RunsInOrder, TerminalWord, RunsOn, RanOut;
    NextCall(session.calls, 3, ObserveCalled);
    var timer := Timer(limits, deadline, clock.instant);
    var observation, exchange := session.Observe();
    var dropped := clock.Await(0, timer);
    r, seen, sent := Timed(observation, dropped, limits, deadline, clock.instant), observation, exchange;
  }

  /** run_operation_phase around the poll interval. */
  method Sleep(clock: Clock, limits: Limits, deadline: nat) returns (r: Result<()>)
    requires !TimeIsUp(limits, deadline, clock.instant)
    modifies clock`steps, clock`instant
    ensures clock.instant >= old(clock.instant) + limits.pollInterval
    ensures r.Ok? ==> !TimeIsUp(limits, deadline, clock.instant)
    ensures r.Err? ==> TimeIsUp(limits, deadline, clock.instant) && IsTimeout(r.error)
  {
    var timer := Timer(limits, deadline, clock.instant);
    var dropped := clock.Await(limits.pollInterval, timer);
    r := Timed(Ok(()), dropped, limits, deadline, clock.instant);
  }

  /** One turn of the wait: the workload returns if it is due, and if there is time the driver observes. */
  method PollOnce(session: AdminSession, clock: Clock, limits: Limits, hooks: Hooks, deadline: nat, worked: Option<Result<()>>, polls: nat)
    returns (r: Result<Observation>, next: Option<Result<()>>, ghost raw: seq<Result<Observation>>, ghost sent: seq<Exchange>)
    requires Underway(session) && RunsInOrder(session.calls, 3)
    requires WorkloadKept(session.calls, session.workloadRunning, session.workload, worked, hooks)
    modifies session`pending, session`log, session`transcript, session`ownership, session`statusCalls, session`terminal, session`disk, session`watched
    modifies session`calls, session`workload, session`workloadRunning
    modifies clock`steps, clock`instant
    ensures Underway(session) && session.log == old(session.log) + sent && OnlyStatuses(sent) && RunsInOrder(session.calls, 3)
    ensures WorkloadKept(session.calls, session.workloadRunning, session.workload, next, hooks)
    ensures old(session.CapturedLive()) ==> session.CapturedLive()
    ensures clock.instant >= old(clock.instant) && (raw != [] ==> old(clock.instant) < deadline)
    ensures raw == [] ==> r.Err? && IsTimeout(r.error) && TimeIsUp(limits, deadline, clock.instant)
    ensures r.Ok? ==> raw == [r] && !TimeIsUp(limits, deadline, clock.instant)
    ensures r.Err? && raw != [] ==> raw == [Err(r.error)] || (|raw| == 1 && TimeIsUp(limits, deadline, clock.instant) && IsTimeout(r.error))
    ensures r == Ok(Finished) ==> Concluded(session)
    ensures r.Ok? && old(session.RunningOn()) ==> if r.value.Finished? then session.RunOut() else session.RunningOn()
  {
    hide RunsOn, RanOut, TimeIsUp, IsTimeout, TooLate, Underway, AllCapturedAfter, RunsInOrder, Concluded, WorkloadKept, OnlyStatuses;
    next := LetWorkloadReturn(session, worked, hooks, hooks.workloadPolls <= polls);
    var inTime := TooLate(limits, deadline, clock.instant);
    NoStatuses();
    raw, sent := [], [];
    if inTime.Err? {
      return Err(inTime.error), next, raw, sent;
    }
    StillTime(limits, deadline, clock.instant);
    ghost var calls := session.calls;
    KeptMeansBegun(calls, session.workloadRunning, session.workload, next, hooks);
    ghost var seen;
    r, seen, sent := ObserveOnce(session, clock, limits, deadline);
    KeptBesideObservation(calls, session.calls, session.workloadRunning, session.workload, next, hooks);
    raw := [seen];
  }

  /** wait_for_admin_completion, beside a workload that may return meanwhile. */
  method WaitForCompletion(session: AdminSession, clock: Clock, limits: Limits, hooks: Hooks, deadline: nat)
    returns (r: Result<bool>, worked: Option<Result<()>>, ghost seen: seq<Result<Observation>>, ghost sent: seq<Exchange>)
    requires limits.pollInterval > 0 && Underway(session)
    requires WorkloadKept(session.calls, session.workloadRunning, session.workload, None, hooks) && RunsInOrder(session.calls, 3)
    modifies session`pending, session`log, session`transcript, session`ownership, session`statusCalls, session`terminal, session`disk, session`watched
    modifies session`calls, session`workload, session`workloadRunning
    modifies clock`steps, clock`instant
    ensures Underway(session) && session.log == old(session.log) + sent && OnlyStatuses(sent)
    ensures old(session.CapturedLive()) ==> session.CapturedLive()
    ensures WorkloadKept(session.calls, session.workloadRunning, session.workload, worked, hooks) && RunsInOrder(session.calls, 3)
    ensures seen != [] ==> Spacing(|seen| - 1, limits) < deadline - old(clock.instant)
    ensures r.Ok? ==> Waited(seen, r.value) && !TimeIsUp(limits, deadline, clock.instant) && Concluded(session)
    ensures r.Err? ==> WaitFailed(seen, r.error, TimeIsUp(limits, deadline, clock.instant))
    ensures r.Ok? && old(session.RunningOn()) ==> session.RunOut()
  {
    hide RunsOn, RanOut, TimeIsUp, IsTimeout, Underway, AllCapturedAfter, RunsInOrder, RunningUntilLast, Waited, Concluded, Spacing;
    hide WorkloadKept, OnlyStatuses, AllRunning;
    var polls := 0;
    NoneSeen();
    OneMoreInterval(0, limits);
    NoStatuses();
    seen, sent, worked := [], [], None;
    while true
      invariant Underway(session) && session.log == old(session.log) + sent && OnlyStatuses(sent)
      invariant old(session.CapturedLive()) ==> session.CapturedLive()
      invariant old(session.RunningOn()) ==> session.RunningOn()
      invariant WorkloadKept(session.calls, session.workloadRunning, session.workload, worked, hooks) && RunsInOrder(session.calls, 3)
      invariant polls == |seen| && clock.instant >= old(clock.instant) + Spacing(polls, limits)
      invariant polls > 0 ==> Spacing(polls - 1, limits) < deadline - old(clock.instant)
      invariant AllRunning(seen)
      decreases deadline - clock.instant
    {
      OneMoreInterval(polls, limits);
      WaitEnds(seen, Ok(Finished));
      var observation;
      ghost var raw, exchange;
      observation, worked, raw, exchange := PollOnce(session, clock, limits, hooks, deadline, worked, polls);
      StatusesJoin(sent, exchange);
      sent, polls := sent + exchange, polls + 1;
      if observation.Err? {
        if raw == [] {
          assert seen + raw == seen;
        } else {
          assert raw == [raw[0]];
          WaitEnds(seen, raw[0]);
        }
        return Err(observation.error), worked, seen + raw, sent;
      }
      WaitEnds(seen, observation);
      seen := seen + raw;
      if observation.value.Finished? {
        return Ok(polls > 1), worked, seen, sent;
      }
      var slept := Sleep(clock, limits, deadline);
      if slept.Err? {
        WaitEnds(seen, Ok(Finished));
        return Err(slept.error), worked, seen, sent;
      }
    }
  }

  /** combine_overlap_results: both must pass; the operation's failure leads, and none is lost. */
  function CombineOverlap(workload: Result<()>, operation: Result<bool>): (r: Result<bool>)
    ensures r.Ok? <==> workload.Ok? && operation.Ok?
    ensures r.Ok? ==> r == operation
    ensures r.Err? ==> r.error.cause == if operation.Err? then operation.error.cause else workload.error.cause
    ensures workload.Err? ==> r.error == workload.error || workload.error in r.error.also
    ensures operation.Err? ==> operation.error.also <= r.error.also
  {
    if operation.Ok? then (if workload.Ok? then operation else Err(workload.error))
    else if workload.Ok? then operation
    else Err(Attach(operation.error, workload.error))
  }

  /** A passed overlap phase saw the operation running beside the workload, or
      proved from the receipts that the two overlapped. */
  ghost predicate SawOverlap(session: AdminSession, seen: seq<Result<Observation>>)
    reads session`terminal, session`ownership, session`transcript, session`workload
  {
    && Concluded(session) && session.workload.Some?
    && (|| Waited(seen, true)
        || (&& Waited(seen, false)
            && FastPathAccepts(session.proof, session.Driven(), session.ownership.operationId, session.transcript.requests,
                               session.transcript.progress, session.workload.value)))
  }

  /** A failed join: by the last observation or for lack of time, else by the workload, or because its receipt could not be written. */
  ghost predicate JoinFailed(seen: seq<Result<Observation>>, cause: Fault, late: bool, hooks: Hooks) {
    && RunningUntilLast(seen)
    && (|| (seen != [] && seen[|seen| - 1].Err? && seen[|seen| - 1].error.cause == cause)
        || (late && (cause == OperationTimeout || cause == SuiteDeadline))
        || (Waited(seen, |seen| > 1) && (cause == if hooks.workload.Err? then hooks.workload.error.cause else PersistFailed)))
  }

  lemma LaterStillFails(seen: seq<Result<Observation>>, cause: Fault, late: bool, later: bool, hooks: Hooks)
    requires JoinFailed(seen, cause, late, hooks) && (late ==> later)
    ensures JoinFailed(seen, cause, later, hooks)
  {
  }

  lemma FailedJoin(seen: seq<Result<Observation>>, waited: Result<bool>, worked: Result<()>, late: bool, hooks: Hooks)
    requires if waited.Ok? then Waited(seen, waited.value) else WaitFailed(seen, waited.error, late)
    requires worked.Err? && hooks.workload.Err? ==> worked.error.cause == hooks.workload.error.cause
    requires worked.Err? && hooks.workload.Ok? ==> worked.error.cause == PersistFailed
    ensures CombineOverlap(worked, waited).Err? ==> JoinFailed(seen, CombineOverlap(worked, waited).error.cause, late, hooks)
  {
    if waited.Ok? {
      if |seen| > 1 {
        assert seen[0] in seen;
      } else {
        assert seen == [Ok(Finished)];
      }
    }
  }

  /** The workload and the wait, joined: both have returned before anything else happens. */
  method JoinWorkload(session: AdminSession, clock: Clock, limits: Limits, hooks: Hooks, deadline: nat)
    returns (r: Result<bool>, ghost seen: seq<Result<Observation>>, ghost sent: seq<Exchange>)
    requires limits.pollInterval > 0 && Underway(session) && RunsInOrder(session.calls, 1)
    modifies session`pending, session`log, session`transcript, session`ownership, session`statusCalls, session`terminal, session`disk, session`watched
    modifies session`calls, session`workload, session`workloadRunning
    modifies clock`steps, clock`instant
    ensures Underway(session) && session.log == old(session.log) + sent && OnlyStatuses(sent)
    ensures old(session.CapturedLive()) ==> session.CapturedLive()
    ensures RunsInOrder(session.calls, 3) && WorkloadReturned in session.calls
    ensures seen != [] ==> Spacing(|seen| - 1, limits) < deadline - old(clock.instant)
    ensures r.Ok? ==> hooks.workload.Ok? && session.workload == Some(hooks.workload.value) && Waited(seen, r.value) && Concluded(session)
    ensures r.Ok? && old(session.RunningOn()) ==> session.RunOut()
    ensures r.Err? ==> JoinFailed(seen, r.error.cause, TimeIsUp(limits, deadline, clock.instant), hooks)
  {
    hide RunsOn, RanOut, Underway, AllCapturedAfter, RunsInOrder, Waited, Concluded, Spacing, OnlyStatuses;
    NotYetCalled(session.calls, 1);
    NextCall(session.calls, 1, WorkloadBegan);
    session.BeginWorkload();
    NotYetCalled(session.calls, 2);
    var waited, worked;
    waited, worked, seen, sent := WaitForCompletion(session, clock, limits, hooks, deadline);
    worked := LetWorkloadReturn(session, worked, hooks, true);
    r := CombineOverlap(worked.value, waited);
    FailedJoin(seen, waited, worked.value, TimeIsUp(limits, deadline, clock.instant), hooks);
  }

  /** The operation-workload-overlap phase. */
  method RunOverlap(session: AdminSession, clock: Clock, limits: Limits, hooks: Hooks, deadline: nat)
    returns (r: Result<()>, ghost seen: seq<Result<Observation>>, ghost sent: seq<Exchange>)
    requires limits.pollInterval > 0 && Underway(session) && RunsInOrder(session.calls, 1)
    modifies session`pending, session`log, session`transcript, session`ownership, session`statusCalls, session`terminal, session`disk, session`watched
    modifies session`calls, session`workload, session`workloadRunning
    modifies clock`steps, clock`instant
    ensures Underway(session) && session.log == old(session.log) + sent && OnlyStatuses(sent)
    ensures RunsInOrder(session.calls, 4) && WorkloadReturned in session.calls
    ensures seen != [] ==> Spacing(|seen| - 1, limits) < deadline - old(clock.instant)
    ensures r.Ok? ==> hooks.workload.Ok? && session.workload == Some(hooks.workload.value) && SawOverlap(session, seen)
    ensures r.Ok? && SnapshotInOrder(session.proof, session.poolsBefore) && old(session.CapturedLive()) ==> Waited(seen, true)
    ensures r.Ok? && old(session.RunningOn()) ==> session.RunOut()
    ensures r.Err? ==>
              || JoinFailed(seen, r.error.cause, TimeIsUp(limits, deadline, clock.instant), hooks)
              || (Waited(seen, false) && (r == Fail(SuiteDeadline) ==> SuiteOver(limits, clock.instant)))
  {
    hide RunsOn, RanOut, Underway, AllCapturedAfter, RunsInOrder, Waited, Concluded, FastPathAccepts, SnapshotInOrder, Spacing, OnlyStatuses, JoinFailed;
    var joined;
    joined, seen, sent := JoinWorkload(session, clock, limits, hooks, deadline);
    NotYetCalled(session.calls, 3);
    ghost var late := TimeIsUp(limits, deadline, clock.instant);
    clock.Elapse();
    if joined.Err? {
      LaterStillFails(seen, joined.error.cause, late, TimeIsUp(limits, deadline, clock.instant), hooks);
      return Err(joined.error), seen, sent;
    }
    if joined.value {
      return Ok(()), seen, sent;
    }
    r := ProveOverlap(session, clock, limits);
  }

  /** verify_completed_overlap under the suite deadline. */
  method ProveOverlap(session: AdminSession, clock: Clock, limits: Limits) returns (r: Result<()>)
    requires RunsInOrder(session.calls, 3)
    modifies session`disk, session`calls, clock`steps, clock`instant
    ensures clock.instant >= old(clock.instant)
    ensures RunsInOrder(session.calls, 4) && (forall c :: c in old(session.calls) ==> c in session.calls)
    ensures if SuiteOver(limits, old(clock.instant)) then r == Fail(SuiteDeadline) && session.calls == old(session.calls)
            else session.calls == old(session.calls) + [OverlapProofCalled] && (SuiteOver(limits, clock.instant) ==> r == Fail(SuiteDeadline))
    ensures r.Ok? <==>
              && !SuiteOver(limits, old(clock.instant)) && !SuiteOver(limits, clock.instant) && Writes(old(session.disk))
              && session.prepared && session.terminal && session.ownership.Owned? && session.workload.Some?
              && session.transcript.operationId == Some(session.ownership.operationId)
              && FastPathAccepts(session.proof, session.Driven(), session.ownership.operationId, session.transcript.requests,
                                 session.transcript.progress, session.workload.value)
    ensures r == Fail(SuiteDeadline) ==> SuiteOver(limits, clock.instant)
    ensures SnapshotInOrder(session.proof, session.poolsBefore) && session.CapturedLive() ==> r.Err?
  {
    hide RunsInOrder, FastPathAccepts, SnapshotInOrder, AllCapturedAfter;
    NotYetCalled(session.calls, 3);
    if SuiteOver(limits, clock.instant) {
      return Fail(SuiteDeadline);
    }
    NextCall(session.calls, 3, OverlapProofCalled);
    r := session.VerifyCompletedOverlap();
    clock.Elapse();
    if SuiteOver(limits, clock.instant) {
      r := Fail(SuiteDeadline);
    }
  }

  /** The transcript opens with the receipt of the start, which for a decommission is checked to be no status. */
  ghost predicate OpenedByItsStart(session: AdminSession)
    reads session`opening
  {
    |session.opening| == 1 && (session.isDecommission ==> !IsStatus(Decommission, session.opening[0]))
  }

  lemma FreshSession(session: AdminSession)
    requires session.Fresh()
    ensures session.Disciplined() && session.Tracked() && session.log == []
  {
  }

  /** The start phase; on success it yields the operation deadline. */
  method RunStart(session: AdminSession, clock: Clock, limits: Limits, hooks: Hooks)
    returns (r: Result<nat>, ghost sent: seq<Exchange>)
    requires session.Fresh()
    modifies session`prepared, session`pending, session`log, session`transcript, session`ownership, session`disk, session`calls, session`opening, clock
    ensures clock.readings >= old(clock.readings)
    ensures session.log == old(session.log) + sent && |sent| <= 1
    ensures sent != [] ==> sent[0].kind.StartSent? && hooks.prepare.None?
    ensures session.Disciplined() && session.Tracked()
    ensures old(session.CapturedLive()) ==> session.CapturedLive()
    ensures RunsInOrder(session.calls, 1)
    ensures r.Ok? ==>
              && LimitsPositive(limits) && Underway(session) && sent != [] && hooks.prepare.None?
              && session.calls == [PrepareReturned(true), StartCalled]
              && session.RunningOn() && OpenedByItsStart(session) && session.Equipped()
              && old(clock.instant) + limits.operationTimeout <= r.value <= clock.instant + limits.operationTimeout
    ensures !session.ownership.NotStarted? ==> session.Equipped()
    ensures if limits.pollInterval == 0 || limits.operationTimeout == 0 || limits.recoveryTimeout == 0
            then r == Fail(LimitsNotPositive) && session.calls == [] && sent == []
            else if SuiteOver(limits, old(clock.instant)) then r == Fail(SuiteDeadline) && session.calls == [] && sent == []
            else session.calls != [] && session.calls[0].PrepareReturned?
    ensures r.Err? ==>
              || (r == Fail(LimitsNotPositive) && !LimitsPositive(limits)) || (r == Fail(SuiteDeadline) && SuiteOver(limits, clock.instant))
              || Combine(HookResult(hooks.prepare), Writes(old(session.disk))) == Err(r.error)
              || (StartCalled in session.calls && !StartSucceeds(session, clock.wall(old(clock.readings)), sent, old(session.disk)))
  {
    hide OwnerDisciplined, Tracks, AllCapturedAfter, RunsInOrder, RunsOn, OpenedByItsStart, AdminSession.MayStart, AdminSession.StartAnswered;
    sent := [];
    FreshSession(session);
    NothingCalled();
    if !LimitsPositive(limits) {
      return Fail(LimitsNotPositive), sent;
    }
    if SuiteOver(limits, clock.instant) {
      return Fail(SuiteDeadline), sent;
    }
    OpeningCalls();
    var prepared := session.Prepare(hooks.prepare);
    clock.Elapse();
    if SuiteOver(limits, clock.instant) {
      return Fail(SuiteDeadline), sent;
    }
    if prepared.Err? {
      return Err(prepared.error), sent;
    }
    r, sent := CallStart(session, clock, limits);
  }

  /** The start was allowed, sent, answered as demanded and written, after the write that follows a prepare. */
  ghost predicate StartSucceeds(session: AdminSession, reading: u64, sent: seq<Exchange>, disk: seq<bool>)
    reads session`prepared
  {
    && session.MayStart(Ms(reading)) && sent != [] && session.StartAnswered(sent[0].reply)
    && Writes(AfterWrite(disk)) && Writes(AfterWrite(AfterWrite(disk)))
  }

  /** The driver's start under the suite deadline; its instant starts the operation's time. */
  method CallStart(session: AdminSession, clock: Clock, limits: Limits) returns (r: Result<nat>, ghost sent: seq<Exchange>)
    requires session.Disciplined() && session.Tracked() && session.Unused() && session.ownership.NotStarted?
    requires !SuiteOver(limits, clock.instant)
    modifies session`pending, session`log, session`transcript, session`ownership, session`disk, session`calls, session`opening, clock
    ensures clock.readings >= old(clock.readings)
    ensures session.log == old(session.log) + sent && |sent| <= 1 && (sent != [] ==> sent[0].kind.StartSent?)
    ensures session.Disciplined() && session.Tracked()
    ensures old(session.CapturedLive()) ==> session.CapturedLive()
    ensures session.calls == old(session.calls) + [StartCalled]
    ensures r.Ok? ==>
              && Underway(session) && sent != [] && session.RunningOn() && OpenedByItsStart(session)
              && old(clock.instant) + limits.operationTimeout <= r.value <= clock.instant + limits.operationTimeout
    ensures sent != [] <==> session.MayStart(Ms(clock.wall(old(clock.readings))))
    ensures r.Ok? <==>
              && sent != [] && session.StartAnswered(sent[0].reply) && !SuiteOver(limits, clock.instant)
              && Writes(old(session.disk)) && Writes(AfterWrite(old(session.disk)))
    ensures r.Err? && SuiteOver(limits, clock.instant) ==> r == Fail(SuiteDeadline)
    ensures !session.ownership.NotStarted? ==> session.Equipped()
  {
    hide AdminSession.StartAnswered, PreStartSnapshotFresh, OwnerDisciplined, Tracks, ControlValid, IsBlank, AllCapturedAfter, RunsOn, IsStatus;
    var now := clock.NowMs();
    var attemptedAt := clock.NowMs();
    clock.Elapse();
    var startedAt := clock.instant;
    var started;
    started, sent := session.Start(now, attemptedAt);
    clock.Elapse();
    if SuiteOver(limits, clock.instant) {
      return Fail(SuiteDeadline), sent;
    }
    if started.Err? {
      return Err(started.error), sent;
    }
    return Ok(startedAt + limits.operationTimeout), sent;
  }

  lemma OpeningCalls()
    ensures forall ok :: [] + [PrepareReturned(ok)] == [PrepareReturned(ok)] && RunsInOrder([PrepareReturned(ok)], 1)
    ensures [PrepareReturned(true)] + [StartCalled] == [PrepareReturned(true), StartCalled]
    ensures RunsInOrder([PrepareReturned(true), StartCalled], 1)
  {
    assert PrepareReturned(true) in [PrepareReturned(true), StartCalled];
  }

  function Discard<T>(r: Result<T>): (u: Result<()>)
    ensures u.Ok? <==> r.Ok?
    ensures u.Err? ==> u.error == r.error
  {
    if r.Ok? then Ok(()) else Err(r.error)
  }

  /** The driver's cancel under the recovery timer; it runs before the cancel phase is timed. */
  method RunCancel(session: AdminSession, clock: Clock, limits: Limits)
    returns (r: Result<()>, attempted: bool, ghost sent: seq<Exchange>)
    requires session.Disciplined() && RunsInOrder(session.calls, 5)
    modifies session`pending, session`log, session`transcript, session`disk, session`calls
    modifies clock`steps, clock`instant
    ensures session.log == old(session.log) + sent && session.Disciplined()
    ensures RunsInOrder(session.calls, 6) && (forall c :: c in session.calls <==> c in old(session.calls) || c == CancelCalled)
    ensures r == Fail(RecoveryTimeout) || (r.Err? ==> attempted)
    ensures !attempted ==> r.Ok? && forall e :: e in sent ==> !IsControl(e.kind)
    ensures forall e :: e in sent && IsControl(e.kind) ==> session.ownership.Owned?
    ensures session.ownership.Owned? ==> ControlSafe(session.Driven(), session.proof, session.ownership.operationId, sent)
    ensures session.ownership.Owned? && session.Equipped() ==>
              && Carried(session.CancelPurpose(), session.proof, session.ownership.operationId, sent)
              && UsesUp(old(session.pending), sent, session.pending)
    ensures TimerRanOut(clock, limits.recoveryTimeout, old(clock.instant), old(clock.steps)) ==> r == Fail(RecoveryTimeout) && attempted
    ensures !TimerRanOut(clock, limits.recoveryTimeout, old(clock.instant), old(clock.steps)) ==>
              && (session.ownership.NotStarted? ==> r.Ok? && !attempted)
              && (session.ownership.Owned? && session.Equipped() ==>
                    && sent != []
                    && CancelReports(OutcomeOf(session.CancelPurpose(), session.proof, session.ownership.operationId, sent[|sent| - 1]), r))
  {
    hide OwnerDisciplined, ControlSafe, RunsInOrder, Carried, UsesUp, OutcomeOf;
    NextCall(session.calls, 5, CancelCalled);
    var canceled;
    canceled, sent := session.Cancel();
    if session.ownership.Owned? && session.Equipped() {
      FirstIsAStatus(session.CancelPurpose(), session.proof, session.ownership.operationId, sent);
    }
    var dropped := clock.Await(0, limits.recoveryTimeout);
    if dropped {
      canceled := Fail(RecoveryTimeout);
    }
    attempted := canceled != Ok(NoOwnedOperation);
    r := Discard(canceled);
  }

  /** A step that began then has outlasted its timer and was not found ready. */
  predicate TimerRanOut(clock: Clock, timer: nat, began: nat, step: nat)
    reads clock`instant
  {
    began + timer <= clock.instant && !clock.ready(step)
  }

  /** The cleanup phase. */
  method RunCleanup(phases: seq<PhaseEvidence>, session: AdminSession, clock: Clock, limits: Limits, hooks: Hooks, ghost spans: seq<Span>)
    returns (next: seq<PhaseEvidence>, cleaned: Result<()>, ghost longer: seq<Span>)
    requires Stamped(phases, spans, clock.wall, clock.readings) && RunsInOrder(session.calls, 6)
    modifies session`calls, clock
    ensures |next| == |phases| + 1 && next[..|phases|] == phases
    ensures next[|phases|].phase == CleanupPhase && next[|phases|].succeeded == cleaned.Ok?
    ensures Stamped(next, longer, clock.wall, clock.readings)
    ensures Failures(next) == Failures(phases) + if cleaned.Ok? then [] else [cleaned.error]
    ensures cleaned == if TimerRanOut(clock, limits.recoveryTimeout, old(clock.instant), old(clock.steps)) then Fail(RecoveryTimeout) else HookResult(hooks.cleanup)
    ensures RunsInOrder(session.calls, 7) && (forall c :: c in session.calls <==> c in old(session.calls) || c == CleanupCalled)
  {
    hide Stamped, Failures, RunsInOrder;
    NextCall(session.calls, 6, CleanupCalled);
    cleaned := session.Cleanup(hooks.cleanup);
    var dropped := clock.Await(0, limits.recoveryTimeout);
    if dropped {
      cleaned := Fail(RecoveryTimeout);
    }
    ghost var n := clock.readings;
    var startedAt := clock.NowMs();
    next, longer := EndPhase(phases, CleanupPhase, startedAt, cleaned, clock, spans, n);
  }

  // ------------------------------------------------------- the whole run

  /** The phases before cancel and cleanup: each ran because its predecessor passed. */
  predicate Forward(phases: seq<PhaseEvidence>) {
    && 1 <= |phases| <= 3
    && phases[0].phase.StartPhase? && (phases[0].succeeded <==> |phases| > 1)
    && (|phases| > 1 ==> phases[1].phase.OverlapPhase? && (phases[1].succeeded <==> |phases| > 2))
    && (|phases| > 2 ==> phases[2].phase.VerifyPhase?)
  }

  predicate ForwardPassed(phases: seq<PhaseEvidence>) {
    |phases| == 3 && phases[2].succeeded
  }

  /** Before cancel the session sends at most one start, after a successful prepare, and then only statuses. */
  ghost predicate StartThenStatuses(opening: seq<Exchange>, hooks: Hooks) {
    forall i :: 0 <= i < |opening| ==>
      if i == 0 then opening[i].kind.StartSent? && hooks.prepare.None? else opening[i].kind.StatusSent?
  }

  lemma StartAlone(sent: seq<Exchange>, hooks: Hooks)
    requires |sent| <= 1 && (sent != [] ==> sent[0].kind.StartSent? && hooks.prepare.None?)
    ensures StartThenStatuses(sent, hooks)
  {
  }

  lemma OpeningGrows(sent: seq<Exchange>, statuses: seq<Exchange>, hooks: Hooks)
    requires |sent| == 1 && sent[0].kind.StartSent? && hooks.prepare.None? && OnlyStatuses(statuses)
    ensures StartThenStatuses(sent + statuses, hooks)
  {
  }

  /** A live run in which captures follow one another sees its operation running or does not pass. */
  ghost predicate LiveRunSeesRunning(session: AdminSession, live: bool, seen: seq<Result<Observation>>) {
    SnapshotInOrder(session.proof, session.poolsBefore) && live ==> Waited(seen, true)
  }

  /** The start, overlap and verify phases, as far as they are reached. */
  method RunForward(session: AdminSession, clock: Clock, limits: Limits, hooks: Hooks)
    returns (phases: seq<PhaseEvidence>, primary: Option<Error>, ghost spans: seq<Span>, ghost opening: seq<Exchange>,
             ghost seen: seq<Result<Observation>>)
    requires session.Fresh()
    modifies session, clock
    ensures Forward(phases) && Stamped(phases, spans, clock.wall, clock.readings)
    ensures primary == Surviving(Failures(phases)) && (primary.None? <==> ForwardPassed(phases))
    ensures session.Disciplined() && session.log == old(session.log) + opening && StartThenStatuses(opening, hooks)
    ensures RunsInOrder(session.calls, 5) && (WorkloadBegan in session.calls ==> WorkloadReturned in session.calls)
    ensures VerifyCalled in session.calls ==> |phases| == 3
    ensures |phases| > 2 ==> SawOverlap(session, seen) && LiveRunSeesRunning(session, old(session.CapturedLive()), seen)
    ensures |phases| > 2 ==> session.RunOut() && OpenedByItsStart(session)
    ensures ForwardPassed(phases) ==> hooks.prepare.None? && hooks.workload.Ok? && hooks.verify.None?
    ensures seen != [] ==> Spacing(|seen| - 1, limits) < limits.operationTimeout
    ensures !session.ownership.NotStarted? ==> session.Equipped()
  {
    hide JoinFailed, StartSucceeds;
    hide OwnerDisciplined, Tracks, AllCapturedAfter, Stamped, SawOverlap, Failures, Surviving, OnlyStatuses, StartThenStatuses;
    hide RunsInOrder, SnapshotInOrder, Waited, Spacing, Underway, RunsOn, RanOut, IsStatus;
    FreshSession(session);
    NothingStamped(clock.wall, clock.readings);
    ghost var n := clock.readings;
    var startedAt := clock.NowMs();
    var start, sent := RunStart(session, clock, limits, hooks);
    phases, spans := EndPhase([], StartPhase, startedAt, Discard(start), clock, [], n);
    opening, seen := sent, [];
    StartAlone(sent, hooks);
    SoleFailure(Discard(start));
    NotYetCalled(session.calls, 1);
    if start.Err? {
      return phases, Some(start.error), spans, opening, seen;
    }
    ghost var statuses;
    phases, primary, spans, statuses, seen := RunBusy(session, clock, limits, hooks, start.value, phases, spans);
    OpeningGrows(sent, statuses, hooks);
    opening := sent + statuses;
  }

  /** The verify hook under the suite deadline. */
  method RunVerify(session: AdminSession, clock: Clock, limits: Limits, hooks: Hooks) returns (r: Result<()>)
    requires RunsInOrder(session.calls, 4)
    modifies session`disk, session`calls, clock`steps, clock`instant
    ensures RunsInOrder(session.calls, 5) && (forall c :: c in old(session.calls) ==> c in session.calls)
    ensures clock.instant >= old(clock.instant)
    ensures r.Ok? ==> hooks.verify.None? && VerifyCalled in session.calls
    ensures if SuiteOver(limits, old(clock.instant)) then r == Fail(SuiteDeadline) && session.calls == old(session.calls)
            else
              && session.calls == old(session.calls) + [VerifyCalled]
              && r == if SuiteOver(limits, clock.instant) then Fail(SuiteDeadline) else Combine(HookResult(hooks.verify), Writes(old(session.disk)))
  {
    hide RunsInOrder;
    NotYetCalled(session.calls, 4);
    r := Fail(SuiteDeadline);
    if !SuiteOver(limits, clock.instant) {
      NextCall(session.calls, 4, VerifyCalled);
      r := session.Verify(hooks.verify);
      clock.Elapse();
      if SuiteOver(limits, clock.instant) {
        r := Fail(SuiteDeadline);
      }
    }
  }

  lemma UnderwayIsDisciplined(session: AdminSession)
    requires Underway(session)
    ensures session.Disciplined()
  {
    hide OwnerDisciplined, Tracks;
  }

  /** The overlap phase and, if it passes, the verify phase. */
  method RunBusy(session: AdminSession, clock: Clock, limits: Limits, hooks: Hooks, deadline: nat, started: seq<PhaseEvidence>,
                 ghost stamps: seq<Span>)
    returns (phases: seq<PhaseEvidence>, primary: Option<Error>, ghost spans: seq<Span>, ghost statuses: seq<Exchange>,
             ghost seen: seq<Result<Observation>>)
    requires limits.pollInterval > 0 && Underway(session) && RunsInOrder(session.calls, 1)
    requires session.RunningOn()
    requires |started| == 1 && started[0].phase.StartPhase? && started[0].succeeded
    requires Stamped(started, stamps, clock.wall, clock.readings) && Failures(started) == []
    modifies session, clock
    ensures Forward(phases) && |phases| > 1 && Stamped(phases, spans, clock.wall, clock.readings)
    ensures primary == Surviving(Failures(phases)) && (primary.None? <==> ForwardPassed(phases))
    ensures session.Disciplined() && session.log == old(session.log) + statuses && OnlyStatuses(statuses)
    ensures RunsInOrder(session.calls, 5) && WorkloadReturned in session.calls
    ensures VerifyCalled in session.calls ==> |phases| == 3
    ensures |phases| > 2 ==> SawOverlap(session, seen) && LiveRunSeesRunning(session, old(session.CapturedLive()), seen)
    ensures |phases| > 2 ==> session.RunOut()
    ensures session.opening == old(session.opening)
    ensures ForwardPassed(phases) ==> hooks.workload.Ok? && hooks.verify.None?
    ensures seen != [] ==> Spacing(|seen| - 1, limits) < deadline - old(clock.instant)
    ensures session.prepared == old(session.prepared)
  {
    hide JoinFailed, Combine, HookResult, Writes, SuiteOver, TimeIsUp, Underway;
    hide OwnerDisciplined, Tracks, AllCapturedAfter, Stamped, SawOverlap, Waited, Failures, Surviving, OnlyStatuses, RunsInOrder;
    hide SnapshotInOrder, Spacing, RunsOn, RanOut;
    ghost var n := clock.readings;
    var startedAt := clock.NowMs();
    var overlap;
    overlap, seen, statuses := RunOverlap(session, clock, limits, hooks, deadline);
    UnderwayIsDisciplined(session);
    SoleFailure(overlap);
    phases, spans := EndPhase(started, OverlapPhase, startedAt, overlap, clock, stamps, n);
    assert phases[0] == phases[..1][0];
    NotYetCalled(session.calls, 4);
    if overlap.Err? {
      return phases, Some(overlap.error), spans, statuses, seen;
    }
    phases, primary, spans := EndWithVerify(session, clock, limits, hooks, phases, spans);
  }

  /** The verify phase, after two that passed. */
  method EndWithVerify(session: AdminSession, clock: Clock, limits: Limits, hooks: Hooks, passed: seq<PhaseEvidence>, ghost stamps: seq<Span>)
    returns (phases: seq<PhaseEvidence>, primary: Option<Error>, ghost spans: seq<Span>)
    requires RunsInOrder(session.calls, 4)
    requires |passed| == 2 && Passed(passed, [StartPhase, OverlapPhase])
    requires Stamped(passed, stamps, clock.wall, clock.readings) && Failures(passed) == []
    modifies session`disk, session`calls, clock
    ensures Forward(phases) && |phases| == 3 && Stamped(phases, spans, clock.wall, clock.readings)
    ensures primary == Surviving(Failures(phases)) && (primary.None? <==> ForwardPassed(phases))
    ensures RunsInOrder(session.calls, 5) && (forall c :: c in old(session.calls) ==> c in session.calls)
    ensures primary.None? ==> hooks.verify.None?
    ensures primary.Some? ==>
              || (primary.value.cause == SuiteDeadline && SuiteOver(limits, clock.instant)) || primary.value.cause == PersistFailed
              || (hooks.verify.Some? && primary.value.cause == hooks.verify.value)
  {
    hide Stamped, Failures, Surviving, RunsInOrder;
    ghost var n := clock.readings;
    var startedAt := clock.NowMs();
    var verified := RunVerify(session, clock, limits, hooks);
    SoleFailure(verified);
    phases, spans := EndPhase(passed, VerifyPhase, startedAt, verified, clock, stamps, n);
    assert phases[..2] == passed && phases[0] == passed[0] && phases[1] == passed[1];
    primary := if verified.Ok? then None else Some(verified.error);
  }

  lemma SoleFailure(result: Result<()>)
    ensures Surviving([] + if result.Ok? then [] else [result.error]) == if result.Ok? then None else Some(result.error)
  {
    if result.Err? {
      SurvivorsGrow([], result.error);
    }
  }

  lemma NothingStamped(wall: nat -> u64, n: nat)
    ensures Stamped([], [], wall, n) && Failures([]) == []
  {
  }

  /** The error so far with one more result taken in: the first failure leads. */
  function Joined(primary: Option<Error>, result: Result<()>, ghost failures: seq<Error>): (r: Option<Error>)
    requires primary == Surviving(failures)
    ensures r == Surviving(failures + if result.Ok? then [] else [result.error])
    ensures r.None? <==> primary.None? && result.Ok?
  {
    if result.Ok? then
      assert failures + [] == failures;
      primary
    else
      SurvivorsGrow(failures, result.error);
      Some(if primary.Some? then Attach(primary.value, result.error) else result.error)
  }

  /** execute_admin_workflow over a freshly built driver. */
  method ExecuteAdminWorkflow(scenario: string, runId: string, session: AdminSession, clock: Clock, limits: Limits, hooks: Hooks)
    returns (evidence: WorkflowEvidence, error: Option<Error>, ghost spans: seq<Span>, ghost opening: seq<Exchange>,
             ghost control: seq<Exchange>, ghost seen: seq<Result<Observation>>)
    requires session.Fresh()
    modifies session, clock
    ensures evidence.scenario == scenario && evidence.runId == runId && RunnerEvidence(evidence, error)
    ensures Stamped(evidence.phases, spans, clock.wall, clock.readings)
    ensures EvidenceValid(evidence) <==> !IsBlank(scenario) && !IsBlank(runId) && NeverBack(spans, clock.wall)
    ensures Steady(clock.wall) ==> NeverBack(spans, clock.wall)
    ensures HookOrder(session.calls, evidence.phases)
    ensures session.Disciplined() && session.log == opening + control && StartThenStatuses(opening, hooks)
    ensures session.ownership.Owned? ==> ControlSafe(session.Driven(), session.proof, session.ownership.operationId, control)
    ensures !evidence.cancelAttempted ==> forall e :: e in session.log ==> !IsControl(e.kind)
    ensures session.ownership.Owned? && |evidence.phases| > 1 && evidence.phases[|evidence.phases| - 2].phase.CancelPhase? ==>
              Carried(session.CancelPurpose(), session.proof, session.ownership.operationId, control)
    ensures seen != [] ==> Spacing(|seen| - 1, limits) < limits.operationTimeout
    ensures evidence.completed ==>
              && control == [] && hooks.prepare.None? && hooks.workload.Ok? && hooks.verify.None? && hooks.cleanup.None?
              && SawOverlap(session, seen) && LiveRunSeesRunning(session, old(session.CapturedLive()), seen)
              && session.RunOut() && OpenedByItsStart(session)
  {
    hide OwnerDisciplined, Tracks, AllCapturedAfter, Stamped, SawOverlap, LiveRunSeesRunning, Failures, Surviving, ControlSafe;
    hide EvidenceValid, IsBlank, Steady, NeverBack, Forward, FourShapes, HookOrder, RunnerEvidence, RunsInOrder, Spacing;
    hide StartThenStatuses, IsControl, RanOut, OpenedByItsStart, Carried;
    FreshSession(session);
    var forward, primary;
    forward, primary, spans, opening, seen := RunForward(session, clock, limits, hooks);
    OpeningHasNoControl(opening, hooks);
    var phases, attempted, cleaned;
    phases, error, attempted, cleaned, spans, control := RunRecovery(session, clock, limits, hooks, forward, primary, spans);
    evidence := WorkflowEvidence(1, scenario, runId, phases, error.None?, attempted, cleaned);
    EvidenceIsTheRunners(evidence, error, spans, clock.wall, clock.readings);
  }

  lemma OpeningHasNoControl(opening: seq<Exchange>, hooks: Hooks)
    requires StartThenStatuses(opening, hooks)
    ensures forall e :: e in opening ==> !IsControl(e.kind)
  {
  }

  /** The cancel phase, if a phase failed, and the cleanup phase. */
  method RunRecovery(session: AdminSession, clock: Clock, limits: Limits, hooks: Hooks, forward: seq<PhaseEvidence>,
                     primary: Option<Error>, ghost stamps: seq<Span>)
    returns (phases: seq<PhaseEvidence>, error: Option<Error>, attempted: bool, cleaned: bool, ghost spans: seq<Span>,
             ghost control: seq<Exchange>)
    requires Forward(forward) && Stamped(forward, stamps, clock.wall, clock.readings)
    requires primary == Surviving(Failures(forward)) && (primary.None? <==> ForwardPassed(forward))
    requires session.Disciplined() && RunsInOrder(session.calls, 5) && (WorkloadBegan in session.calls ==> WorkloadReturned in session.calls)
    requires VerifyCalled in session.calls ==> |forward| == 3
    modifies session`pending, session`log, session`transcript, session`disk, session`calls, clock
    ensures FourShapes(phases) && Stamped(phases, spans, clock.wall, clock.readings) && HookOrder(session.calls, phases)
    ensures error == Surviving(Failures(phases)) && (error.None? ==> ForwardPassed(forward) && hooks.cleanup.None?)
    ensures cleaned <==> phases[|phases| - 1].succeeded
    ensures attempted ==> |phases| > 1 && phases[|phases| - 2].phase.CancelPhase?
    ensures session.Disciplined() && session.log == old(session.log) + control
    ensures session.ownership.Owned? ==> ControlSafe(session.Driven(), session.proof, session.ownership.operationId, control)
    ensures !attempted ==> forall e :: e in control ==> !IsControl(e.kind)
    ensures primary.None? ==> control == [] && session.transcript == old(session.transcript)
    ensures session.ownership.Owned? && session.Equipped() && |phases| > 1 && phases[|phases| - 2].phase.CancelPhase? ==>
              Carried(session.CancelPurpose(), session.proof, session.ownership.operationId, control)
  {
    hide Carried, UsesUp, OutcomeOf;
    hide OwnerDisciplined, Stamped, Failures, Surviving, ControlSafe, Forward, FourShapes, HookOrder, RunsInOrder, IsControl;
    attempted, phases, spans, control, error := false, forward, stamps, [], primary;
    NotYetCalled(session.calls, 5);
    if primary.Some? {
      var canceled;
      canceled, attempted, control := RunCancel(session, clock, limits);
      ghost var n := clock.readings;
      var startedAt := clock.NowMs();
      phases, spans := EndPhase(forward, CancelPhase, startedAt, canceled, clock, stamps, n);
      error := Joined(primary, canceled, Failures(forward));
    } else {
      NothingToControl(session.Driven(), session.proof);
      NotYetCalled(session.calls, 5);
    }
    var result;
    ghost var before := phases;
    phases, result, spans := RunCleanup(phases, session, clock, limits, hooks, spans);
    error, cleaned := Joined(error, result, Failures(before)), result.Ok?;
    assert phases[..|forward|] == forward;
    RunCloses(forward, phases);
    OrderCloses(session.calls, phases);
  }

  /** Cancel, when it ran, and cleanup close the run into one of the four shapes. */
  lemma RunCloses(forward: seq<PhaseEvidence>, phases: seq<PhaseEvidence>)
    requires Forward(forward)
    requires |phases| == |forward| + if ForwardPassed(forward) then 1 else 2
    requires phases[..|forward|] == forward && phases[|phases| - 1].phase.CleanupPhase?
    requires !ForwardPassed(forward) ==> phases[|phases| - 2].phase.CancelPhase?
    ensures FourShapes(phases) && |phases| > 1
    ensures phases[|phases| - 2].phase.CancelPhase? <==> !ForwardPassed(forward)
    ensures |forward| == 3 ==> phases[1].phase.OverlapPhase? && phases[1].succeeded
  {
    assert forall i :: 0 <= i < |forward| ==> phases[i] == forward[i];
  }

  lemma OrderCloses(calls: seq<HookCall>, phases: seq<PhaseEvidence>)
    requires RunsInOrder(calls, 7) && (WorkloadBegan in calls ==> WorkloadReturned in calls)
    requires VerifyCalled in calls ==> |phases| > 1 && phases[1].phase.OverlapPhase? && phases[1].succeeded
    requires CancelCalled in calls <==> |phases| > 1 && phases[|phases| - 2].phase.CancelPhase?
    requires CleanupCalled in calls
    ensures HookOrder(calls, phases)
  {
    hide InSequence, HookOrder;
    SequenceGivesOrder(calls, phases);
  }

  lemma EvidenceIsTheRunners(e: WorkflowEvidence, error: Option<Error>, spans: seq<Span>, wall: nat -> u64, n: nat)
    requires FourShapes(e.phases) && Stamped(e.phases, spans, wall, n)
    requires e.schemaVersion == 1 && (e.completed <==> error.None?) && error == Surviving(Failures(e.phases))
    requires e.cleanupSucceeded <==> e.phases[|e.phases| - 1].succeeded
    requires e.cancelAttempted ==> e.phases[|e.phases| - 2].phase.CancelPhase?
    ensures RunnerEvidence(e, error)
    ensures EvidenceValid(e) <==> !IsBlank(e.scenario) && !IsBlank(e.runId) && NeverBack(spans, wall)
    ensures Steady(wall) ==> NeverBack(spans, wall)
  {
    hide EvidenceValid, NeverBack, IsBlank, PhaseValid, Failures, Surviving, BeganAt, EndedAt, Steady;
    RunnerEvidenceValidates(e, error, spans, wall, n);
    if Steady(wall) {
      SteadyClockNeverGoesBack(e.phases, spans, wall, n);
    }
  }
}
