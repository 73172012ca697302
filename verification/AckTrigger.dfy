/** The ACK-to-fault trigger (src/fault/acknowledged_mutation.rs): a fault is
    activated only after a definite, timely, versioned commit. */
module AckTrigger {
  import opened Basics
  import opened History

  datatype MutationKind = Put | Overwrite | DeleteMarker | ZeroBytePut | MultipartComplete

  function OperationKindOf(k: MutationKind): OperationKind {
    match k
    case DeleteMarker => DeleteObject
    case MultipartComplete => CompleteMultipart
    case _ => PutObject
  }

  datatype TriggerError =
    | InvalidConfiguration | OperationInterrupted | WorkloadFailed | NoSignal
    | UnexpectedOperation(id: string) | IneligibleOutcome(id: string) | InvalidAcknowledgement(id: string)
    | FaultActivationFailed(id: string) | FaultPredatesAcknowledgement(id: string) | AckToFaultDeadlineExceeded(id: string)

  datatype Checked<T> = Good(value: T) | Bad(error: TriggerError)

  // ----------------------------------------------------------- durations

  const NANOS_PER_MS: int := 1_000_000

  /** duration_ms: the whole milliseconds of a duration given in nanoseconds. */
  function DurationMs(nanos: nat): (r: Checked<u64>)
    ensures r.Good? <==> exists ms: u64 :: 1 <= ms && Milliseconds(ms) == nanos
    ensures r.Good? ==> 1 <= r.value && Milliseconds(r.value) == nanos
  {
    var ms := nanos / NANOS_PER_MS;
    if ms > U64_MAX || ms == 0 || ms * NANOS_PER_MS != nanos then Bad(InvalidConfiguration)
    else assert Milliseconds(ms) == nanos; Good(ms)
  }

  function Milliseconds(ms: u64): nat {
    ms * NANOS_PER_MS
  }

  // ------------------------------------------------------ acknowledgement

  datatype Acknowledged = Acknowledged(id: string, kind: MutationKind, key: string, version: string, at: u64, max: u64)

  datatype AckToFault = AckToFault(
    id: string, kind: MutationKind, key: string, version: string, acknowledgedAt: u64, faultAt: u64, ackToFault: u64, max: u64)

  predicate NonEmpty(s: Option<string>) {
    s.Some? && s.value != ""
  }

  /** AcknowledgedMutation::from_record */
  function FromRecord(kind: MutationKind, r: Record, max: u64): Checked<Acknowledged> {
    if r.kind != OperationKindOf(kind) then Bad(UnexpectedOperation(r.id))
    else if !r.outcome.Ok? then Bad(IneligibleOutcome(r.id))
    else if !(r.httpStatus.Some? && 200 <= r.httpStatus.value < 300) then Bad(InvalidAcknowledgement(r.id))
    else if r.endedAt < r.startedAt then Bad(InvalidAcknowledgement(r.id))
    else if !NonEmpty(r.key) || !NonEmpty(r.versionId) then Bad(InvalidAcknowledgement(r.id))
    else if Trim(r.versionId.value) == "" || r.versionId.value == "null" then Bad(InvalidAcknowledgement(r.id))
    else if kind.ZeroBytePut? && r.sizeBytes != Some(0) then Bad(InvalidAcknowledgement(r.id))
    else Good(Acknowledged(r.id, kind, r.key.value, r.versionId.value, r.endedAt, max))
  }

  /** The record is of the operation that such a mutation sends. */
  predicate RecordsKind(kind: MutationKind, r: Record) {
    || (r.kind == PutObject && (kind == Put || kind == Overwrite || kind == ZeroBytePut))
    || (r.kind == DeleteObject && kind == DeleteMarker)
    || (r.kind == CompleteMultipart && kind == MultipartComplete)
  }

  /** A definite versioned commit of the expected kind. */
  predicate Eligible(kind: MutationKind, r: Record) {
    && RecordsKind(kind, r) && r.outcome.Ok?
    && r.httpStatus.Some? && 200 <= r.httpStatus.value < 300
    && r.startedAt <= r.endedAt
    && r.key.Some? && |r.key.value| > 0
    && Present(r.versionId) && r.versionId != Some("null")
    && (kind.ZeroBytePut? ==> r.sizeBytes == Some(0))
  }

  lemma OnlyEligibleRecordsAcknowledge(kind: MutationKind, r: Record, max: u64)
    ensures FromRecord(kind, r, max).Good? <==> Eligible(kind, r)
    ensures Eligible(kind, r) ==> IsVersion(r.versionId)
    ensures Eligible(kind, r) ==> FromRecord(kind, r, max).value == Acknowledged(r.id, kind, r.key.value, r.versionId.value, r.endedAt, max)
    ensures FromRecord(kind, r, max) == Bad(UnexpectedOperation(r.id)) <==> !RecordsKind(kind, r)
    ensures FromRecord(kind, r, max) == Bad(IneligibleOutcome(r.id)) <==> RecordsKind(kind, r) && r.outcome != Ok
    ensures FromRecord(kind, r, max) == Bad(InvalidAcknowledgement(r.id)) <==> RecordsKind(kind, r) && r.outcome == Ok && !Eligible(kind, r)
  {
    if r.versionId.Some? {
      BlankMeansTrimsToNothing(r.versionId.value);
    }
  }

  /** AcknowledgedMutation::fault_activated_at */
  function FaultActivatedAt(a: Acknowledged, at: u64): Checked<AckToFault> {
    if at < a.at then Bad(FaultPredatesAcknowledgement(a.id))
    else if at - a.at > a.max then Bad(AckToFaultDeadlineExceeded(a.id))
    else Good(AckToFault(a.id, a.kind, a.key, a.version, a.at, at, at - a.at, a.max))
  }

  // ----------------------------------------------------------- the attempt

  /** What the S3 client returns: an error, or a record if the mutation was recorded. */
  datatype Attempt = AttemptFailed | Finished(record: Option<Record>)

  predicate Committed(a: Attempt) {
    a.Finished? && a.record.Some? && a.record.value.outcome.Ok?
  }

  datatype Mutation = Plain(kind: MutationKind) | Staged {
    function Kind(): MutationKind {
      if Plain? then kind else MultipartComplete
    }
  }

  /** The client of one quiet mutation: any answer is possible, and an abort may fail. */
  class QuietClient {
    const answer: Attempt
    const abortSucceeds: bool
    var aborts: nat

    constructor (answer: Attempt, abortSucceeds: bool)
      ensures this.answer == answer && this.abortSucceeds == abortSucceeds && aborts == 0
    {
      this.answer, this.abortSucceeds, aborts := answer, abortSucceeds, 0;
    }

    /** QuietMutationWorkload::execute: a staged upload that did not commit is aborted. */
    method Execute(m: Mutation) returns (r: Attempt)
      modifies this`aborts
      ensures aborts == old(aborts) + if m.Staged? && (answer.AttemptFailed? || answer.record.None? || answer.record.value.outcome != Ok) then 1 else 0
      ensures r == if m.Staged? && !Committed(answer) && !abortSucceeds then AttemptFailed else answer
    {
      r := answer;
      if m.Staged? && !Committed(r) {
        aborts := aborts + 1;
        if !abortSucceeds {
          r := AttemptFailed;
        }
      }
    }
  }

  /** The fault actuator: it reports when the fault became effective, or fails. */
  class Actuator {
    const effectiveAt: Option<u64>
    var activations: nat

    constructor (effectiveAt: Option<u64>)
      ensures this.effectiveAt == effectiveAt && activations == 0
    {
      this.effectiveAt, activations := effectiveAt, 0;
    }

    method Activate() returns (at: Option<u64>)
      modifies this`activations
      ensures activations == old(activations) + 1 && at == effectiveAt
    {
      activations := activations + 1;
      at := effectiveAt;
    }
  }

  /** The attempt ended in time with an eligible record. */
  predicate Armed(m: Mutation, a: Attempt, inTime: bool) {
    a.Finished? && inTime && a.record.Some? && Eligible(m.Kind(), a.record.value)
  }

  predicate AfterActivation(e: TriggerError) {
    e.FaultActivationFailed? || e.FaultPredatesAcknowledgement? || e.AckToFaultDeadlineExceeded?
  }

  /** The evidence names the committed version and bounds the fault by it. */
  predicate Bounded(e: AckToFault, r: Record, max: u64) {
    && e.id == r.id && Some(e.key) == r.key && Some(e.version) == r.versionId
    && e.acknowledgedAt == r.endedAt && e.max == max
    && e.acknowledgedAt <= e.faultAt <= e.acknowledgedAt + max
    && e.ackToFault == e.faultAt - e.acknowledgedAt
  }

  /** execute_and_activate_fault: the fault is activated exactly when the mutation
      is acknowledged in time, and then at most once; an aborted upload never is. */
  method ExecuteAndActivateFault(m: Mutation, max: u64, client: QuietClient, actuator: Actuator, inTime: bool)
    returns (r: Checked<AckToFault>)
    modifies client`aborts, actuator`activations
    ensures actuator.activations == old(actuator.activations) + if Armed(m, client.answer, inTime) then 1 else 0
    ensures actuator.activations > old(actuator.activations) ==> client.aborts == old(client.aborts)
    ensures m.Staged? && client.aborts == old(client.aborts) ==>
              client.answer.Finished? && client.answer.record.Some? && client.answer.record.value.outcome == Ok
    ensures r.Good? <==>
              && Armed(m, client.answer, inTime) && actuator.effectiveAt.Some?
              && client.answer.record.value.endedAt <= actuator.effectiveAt.value <= client.answer.record.value.endedAt + max
    ensures r.Good? ==> Bounded(r.value, client.answer.record.value, max)
    ensures r.Good? ==> r.value.kind == m.Kind() && Some(r.value.faultAt) == actuator.effectiveAt
    ensures r.Bad? ==> (AfterActivation(r.error) <==> Armed(m, client.answer, inTime))
    ensures Armed(m, client.answer, inTime) && r.Bad? ==>
              && var id, ended := client.answer.record.value.id, client.answer.record.value.endedAt;
              && r.error == if actuator.effectiveAt.None? then FaultActivationFailed(id)
                            else if actuator.effectiveAt.value < ended then FaultPredatesAcknowledgement(id)
                            else AckToFaultDeadlineExceeded(id)
    ensures r == Bad(WorkloadFailed) <==> client.answer.AttemptFailed? || (m.Staged? && !Committed(client.answer) && !client.abortSucceeds)
    ensures r == Bad(OperationInterrupted) <==>
              client.answer.Finished? && (m.Staged? && !Committed(client.answer) ==> client.abortSucceeds) && !inTime
    ensures r == Bad(NoSignal) <==>
              client.answer.Finished? && (m.Staged? ==> client.abortSucceeds) && inTime && client.answer.record.None?
  {
    var attempt := client.Execute(m);
    if attempt.AttemptFailed? {
      return Bad(WorkloadFailed);
    }
    if !inTime {
      return Bad(OperationInterrupted);
    }
    if attempt.record.None? {
      return Bad(NoSignal);
    }
    OnlyEligibleRecordsAcknowledge(m.Kind(), attempt.record.value, max);
    var acknowledged := FromRecord(m.Kind(), attempt.record.value, max);
    if acknowledged.Bad? {
      return Bad(acknowledged.error);
    }
    var at := actuator.Activate();
    if at.None? {
      return Bad(FaultActivationFailed(acknowledged.value.id));
    }
    r := FaultActivatedAt(acknowledged.value, at.value);
  }

  // ---------------------------------------------------- calibration mode

  type Variable = (string, string)

  const NAMES: seq<string> := ["RUSTFS_DURABILITY_MODE", "RUSTFS_NEW_BUCKET_DURABILITY_MODE"]

  datatype Mode = Strict | Relaxed

  function Text(m: Mode): string {
    if m.Strict? then "strict" else "relaxed"
  }

  function KeyIs(name: string): Variable -> bool {
    (v: Variable) => v.0 == name
  }

  function Settings(name: string, env: seq<Variable>): seq<Variable> {
    Filter(KeyIs(name), env)
  }

  /** At most one setting of the name, and that one with the value. */
  predicate Unambiguous(name: string, value: string, env: seq<Variable>) {
    Settings(name, env) == [] || Settings(name, env) == [(name, value)]
  }

  predicate Pinned(name: string, value: string, env: seq<Variable>) {
    Settings(name, env) == [(name, value)]
  }

  function Missing(name: string, value: string, env: seq<Variable>): seq<Variable> {
    if Settings(name, env) == [] then [(name, value)] else []
  }

  /** The environment after the names were settled in turn, up to the first conflict. */
  function Configured(names: seq<string>, value: string, env: seq<Variable>): (bool, seq<Variable>) {
    if names == [] then (true, env)
    else if !Unambiguous(names[0], value, env) then (false, env)
    else Configured(names[1..], value, env + Missing(names[0], value, env))
  }

  /** Settling one name pins it and leaves every other name alone. */
  lemma SettleOne(name: string, value: string, env: seq<Variable>)
    ensures Unambiguous(name, value, env) ==> Pinned(name, value, env + Missing(name, value, env))
    ensures forall other :: other != name ==> Settings(other, env + Missing(name, value, env)) == Settings(other, env)
  {
    hide Filter;
    var added := Missing(name, value, env);
    assert env + [] == env;
    if added != [] {
      FilterAppend(KeyIs(name), env, added);
      FilterAll(KeyIs(name), added);
    }
    forall other | other != name ensures Settings(other, env + added) == Settings(other, env) {
      if added != [] {
        FilterAppend(KeyIs(other), env, added);
        FilterNone(KeyIs(other), added);
      }
    }
  }

  /** Configuring succeeds exactly when every name was unambiguous; it then pins
      them all.  Success or not, entries are only added and no other name is touched. */
  lemma {:induction false} ConfiguringPins(names: seq<string>, value: string, env: seq<Variable>)
    requires Distinct(names)
    ensures var (ok, after) := Configured(names, value, env);
            && (ok <==> forall n :: n in names ==> Unambiguous(n, value, env))
            && (ok ==> forall n :: n in names ==> Pinned(n, value, after))
            && |after| >= |env| && after[..|env|] == env
            && forall other :: other !in names ==> Settings(other, after) == Settings(other, env)
  {
    hide Settings;
    if names != [] && Unambiguous(names[0], value, env) {
      var next := env + Missing(names[0], value, env);
      SettleOne(names[0], value, env);
      RestIsDistinct(names);
      ConfiguringPins(names[1..], value, next);
      assert next[..|env|] == env;
      assert forall n :: n in names <==> n == names[0] || n in names[1..];
    } else if names != [] {
      assert names[0] in names;
    }
  }

  lemma RestIsDistinct(names: seq<string>)
    requires Distinct(names) && names != []
    ensures Distinct(names[1..]) && names[0] !in names[1..]
  {
    forall i | 0 <= i < |names[1..]| ensures names[1..][i] != names[0] {
      assert names[1..][i] == names[i + 1];
    }
  }

  /** A second configuration changes nothing, whether the first succeeded or not. */
  lemma {:induction false} ConfiguringIsIdempotent(names: seq<string>, value: string, env: seq<Variable>)
    requires Distinct(names)
    ensures Configured(names, value, Configured(names, value, env).1) == Configured(names, value, env)
  {
    hide Settings;
    if names != [] && Unambiguous(names[0], value, env) {
      var next := env + Missing(names[0], value, env);
      var after := Configured(names, value, env).1;
      SettleOne(names[0], value, env);
      RestIsDistinct(names);
      ConfiguringPins(names[1..], value, next);
      ConfiguringIsIdempotent(names[1..], value, next);
      assert Pinned(names[0], value, after);
      assert after + Missing(names[0], value, after) == after;
    }
  }

  /** An environment pinned to one value refuses every other. */
  lemma ModesExclude(names: seq<string>, value: string, other: string, env: seq<Variable>)
    requires Distinct(names) && names != [] && value != other && Configured(names, value, env).0
    ensures !Configured(names, other, Configured(names, value, env).1).0
  {
    hide Settings;
    ConfiguringPins(names, value, env);
    var after := Configured(names, value, env).1;
    assert names[0] in names && Pinned(names[0], value, after);
  }

  lemma NamesAreDistinct()
    ensures Distinct(NAMES)
  {
    assert |NAMES[0]| != |NAMES[1]|;
  }

  /** AckCalibrationMode::configure */
  method Configure(mode: Mode, env: seq<Variable>) returns (ok: bool, after: seq<Variable>)
    ensures (ok, after) == Configured(NAMES, Text(mode), env)
    ensures ok <==> forall n :: n in NAMES ==> Unambiguous(n, Text(mode), env)
    ensures ok ==> forall n :: n in NAMES ==> Pinned(n, Text(mode), after)
    ensures |after| >= |env| && after[..|env|] == env
  {
    hide Filter;
    NamesAreDistinct();
    ConfiguringPins(NAMES, Text(mode), env);
    after := env;
    for i := 0 to |NAMES|
      invariant Configured(NAMES, Text(mode), env) == Configured(NAMES[i..], Text(mode), after)
    {
      var configured := Filter(KeyIs(NAMES[i]), after);
      AtMostOne(NAMES[i], Text(mode), after);
      assert NAMES[i..][1..] == NAMES[i + 1..];
      if |configured| > 1 || !(forall v :: v in configured ==> v.1 == Text(mode)) {
        return false, after;
      }
      if configured == [] {
        after := after + [(NAMES[i], Text(mode))];
      } else {
        assert after + [] == after;
      }
    }
    ok := true;
  }

  lemma AtMostOne(name: string, value: string, env: seq<Variable>)
    ensures var s := Settings(name, env);
            Unambiguous(name, value, env) <==> |s| <= 1 && forall v :: v in s ==> v.1 == value
  {
    hide Filter;
    var s := Settings(name, env);
    if |s| == 1 {
      assert s[0] in s && s == [s[0]];
      assert KeyIs(name)(s[0]);
    }
  }
}
