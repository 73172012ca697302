/** The recorded S3 history and its scope-and-order validator
    (src/fault/history.rs).  The validator walks the records once with sets and
    a per-key map; what it accepts is an order on all pairs of records, and the
    contiguity check makes the recorder sequences exactly 1..2n. */
module History {
  import opened Basics
  import Receipts

  datatype OperationKind =
    | CreateBucket | PutBucketVersioning | PutObject | GetObject | HeadObject | ListObjects | ListVersions
    | DeleteObject | CreateMultipart | UploadPart | CompleteMultipart | AbortMultipart

  datatype Outcome = Ok | NotFound | FailedOutcome | TimedOut | UnknownOutcome

  datatype ReadPurpose = CohortProbe | MutationVerification(operationId: string)

  datatype Record = Record(
    id: string, scenario: Receipts.Scenario, runId: Option<string>, kind: OperationKind, bucket: string,
    key: Option<string>, sizeBytes: Option<nat>, versionId: Option<string>, requestVersionId: Option<string>,
    isDeleteMarker: Option<bool>, readPurpose: Option<ReadPurpose>, ranged: bool,
    attempts: Option<nat>, maxAttempts: Option<nat>,
    startedSequence: Option<u64>, endedSequence: Option<u64>, startedAt: u64, endedAt: u64,
    outcome: Outcome, httpStatus: Option<nat>)

  predicate IsMutation(k: OperationKind) {
    k.PutObject? || k.DeleteObject? || k.CompleteMultipart?
  }

  predicate IsVersion(v: Option<string>) {
    v.Some? && v.value != "" && v.value != "null"
  }

  predicate InScope(r: Record, scenario: Receipts.Scenario, runId: string, bucket: string) {
    r.scenario == scenario && r.runId == Some(runId) && r.bucket == bucket
  }

  // ------------------------------------------------ version identities

  /** A successful mutation that creates an identified immutable version. */
  predicate CreatesVersion(r: Record) {
    && r.outcome.Ok?
    && (r.kind.PutObject? || r.kind.CompleteMultipart?
        || (r.kind.DeleteObject? && r.requestVersionId.None? && r.isDeleteMarker != Some(false)))
    && IsVersion(r.versionId)
  }

  function VersionIdentity(r: Record): (string, Option<string>, Option<string>) {
    (r.bucket, r.key, r.versionId)
  }

  predicate VersionsUnique(records: seq<Record>) {
    && (forall r :: r in records && CreatesVersion(r) ==> r.key.Some?)
    && forall i, j :: 0 <= i < j < |records| && CreatesVersion(records[i]) && CreatesVersion(records[j]) ==>
         VersionIdentity(records[i]) != VersionIdentity(records[j])
  }

  /** validate_successful_version_identity_uniqueness */
  method ValidateVersions(records: seq<Record>) returns (ok: bool)
    ensures ok <==> VersionsUnique(records)
  {
    var seen: set<(string, Option<string>, Option<string>)> := {};
    for i := 0 to |records|
      invariant forall k :: 0 <= k < i && CreatesVersion(records[k]) ==>
                  records[k].key.Some? && VersionIdentity(records[k]) in seen
      invariant forall v :: v in seen ==> exists k :: 0 <= k < i && CreatesVersion(records[k]) && VersionIdentity(records[k]) == v
      invariant forall j, k :: 0 <= j < k < i && CreatesVersion(records[j]) && CreatesVersion(records[k]) ==>
                  VersionIdentity(records[j]) != VersionIdentity(records[k])
    {
      if CreatesVersion(records[i]) {
        assert records[i] in records;
        if records[i].key.None? || VersionIdentity(records[i]) in seen {
          return false;
        }
        seen := seen + {VersionIdentity(records[i])};
      }
    }
    return true;
  }

  // ---------------------------------------------------- scope and order

  predicate ReadPurposeValid(r: Record) {
    r.readPurpose.Some? ==>
      && r.kind.GetObject? && !r.ranged && r.versionId.None?
      && (r.readPurpose.value.MutationVerification? ==> !IsBlank(r.readPurpose.value.operationId))
  }

  predicate AttemptsValid(r: Record) {
    r.attempts.Some? ==>
      && IsMutation(r.kind)
      && (r.maxAttempts.Some? ==> r.attempts.value <= r.maxAttempts.value)
      && (r.attempts.value > 0 || !r.outcome.Ok?)
  }

  /** Everything checked about one record of a history of n. */
  predicate RecordValid(r: Record, n: nat) {
    && !IsBlank(r.id)
    && r.startedSequence.Some? && r.endedSequence.Some?
    && 0 < r.startedSequence.value < r.endedSequence.value <= 2 * n
    && ReadPurposeValid(r) && AttemptsValid(r)
    && (IsMutation(r.kind) ==> r.key.Some?)
  }

  /** Everything required of an earlier and a later record: distinct IDs and
      event sequences, completion order, and no overlap of mutations of a key. */
  predicate PairOrdered(a: Record, b: Record) {
    && a.id != b.id
    && a.startedSequence != b.startedSequence && a.startedSequence != b.endedSequence
    && a.endedSequence != b.startedSequence && a.endedSequence != b.endedSequence
    && a.endedSequence.Some? && b.endedSequence.Some? && b.startedSequence.Some?
    && a.endedSequence.value < b.endedSequence.value
    && (IsMutation(a.kind) && IsMutation(b.kind) && a.key == b.key ==> a.endedSequence.value < b.startedSequence.value)
  }

  predicate Ordered(records: seq<Record>) {
    && 2 * |records| <= U64_MAX
    && (forall i :: 0 <= i < |records| ==> RecordValid(records[i], |records|))
    && (forall i, j :: 0 <= i < j < |records| ==> PairOrdered(records[i], records[j]))
  }

  predicate ScopeAndOrder(records: seq<Record>, scenario: Receipts.Scenario, runId: string, bucket: string) {
    && (forall r :: r in records ==> InScope(r, scenario, runId, bucket))
    && VersionsUnique(records)
    && Ordered(records)
  }

  /** A successful record that made an immutable version: a write, or a delete that names no version and left a marker. */
  ghost predicate MadeVersion(r: Record) {
    && r.outcome == Ok && r.versionId.Some? && |r.versionId.value| > 0 && r.versionId.value != "null"
    && (|| r.kind == PutObject || r.kind == CompleteMultipart
        || (r.kind == DeleteObject && r.requestVersionId == None && (r.isDeleteMarker.Some? ==> r.isDeleteMarker.value)))
  }

  /** One record, in its fields. */
  ghost predicate RecordSound(r: Record, n: nat) {
    var mutation := r.kind == PutObject || r.kind == DeleteObject || r.kind == CompleteMultipart;
    && !IsBlank(r.id) && (mutation || MadeVersion(r) ==> r.key.Some?)
    && r.startedSequence.Some? && r.endedSequence.Some? && 0 < r.startedSequence.value < r.endedSequence.value <= 2 * n
    && (r.readPurpose.Some? ==> r.kind == GetObject && !r.ranged && r.versionId == None)
    && (r.readPurpose.Some? && r.readPurpose.value.MutationVerification? ==> !IsBlank(r.readPurpose.value.operationId))
    && (r.attempts.Some? ==> mutation && (r.outcome == Ok ==> r.attempts.value > 0))
    && (r.attempts.Some? && r.maxAttempts.Some? ==> r.attempts.value <= r.maxAttempts.value)
  }

  /** An earlier and a later record: they end in this order, share no event and no
      identity, made different versions, and two mutations of one key do not overlap. */
  ghost predicate PairSound(a: Record, b: Record)
    requires a.startedSequence.Some? && a.endedSequence.Some? && b.startedSequence.Some? && b.endedSequence.Some?
  {
    && a.id != b.id && a.endedSequence.value < b.endedSequence.value
    && a.startedSequence != b.startedSequence && a.endedSequence != b.startedSequence && a.startedSequence != b.endedSequence
    && (MadeVersion(a) && MadeVersion(b) && a.bucket == b.bucket && a.key == b.key ==> a.versionId != b.versionId)
    && ((a.kind == PutObject || a.kind == DeleteObject || a.kind == CompleteMultipart)
        && (b.kind == PutObject || b.kind == DeleteObject || b.kind == CompleteMultipart) && a.key == b.key ==>
          a.endedSequence.value < b.startedSequence.value)
  }

  /** The history check, record by record and pair by pair. */
  lemma HistoryReads(records: seq<Record>, scenario: Receipts.Scenario, runId: string, bucket: string)
    ensures ScopeAndOrder(records, scenario, runId, bucket) <==>
              && 2 * |records| <= U64_MAX
              && (forall r :: r in records ==> r.scenario == scenario && r.runId == Some(runId) && r.bucket == bucket)
              && (forall i :: 0 <= i < |records| ==> RecordSound(records[i], |records|))
              && (forall i, j :: 0 <= i < j < |records| ==> PairSound(records[i], records[j]))
  {
    hide RecordValid, PairOrdered, CreatesVersion, VersionIdentity, RecordSound, PairSound, MadeVersion;
    var n := |records|;
    forall i | 0 <= i < n
      ensures RecordValid(records[i], n) && (CreatesVersion(records[i]) ==> records[i].key.Some?) <==> RecordSound(records[i], n)
      ensures RecordValid(records[i], n) ==> records[i].startedSequence.Some? && records[i].endedSequence.Some?
    {
      RecordReads(records[i], n);
    }
    forall i, j | 0 <= i < j < n && RecordValid(records[i], n) && RecordValid(records[j], n)
      ensures PairSound(records[i], records[j]) <==>
                && PairOrdered(records[i], records[j])
                && (CreatesVersion(records[i]) && CreatesVersion(records[j]) ==> VersionIdentity(records[i]) != VersionIdentity(records[j]))
    {
      RecordReads(records[i], n);
      RecordReads(records[j], n);
      PairReads(records[i], records[j]);
    }
    assert forall i :: 0 <= i < n ==> records[i] in records;
  }

  lemma RecordReads(r: Record, n: nat)
    ensures RecordValid(r, n) && (CreatesVersion(r) ==> r.key.Some?) <==> RecordSound(r, n)
    ensures RecordValid(r, n) ==> r.startedSequence.Some? && r.endedSequence.Some?
    ensures RecordSound(r, n) ==> r.startedSequence.Some? && r.endedSequence.Some?
  {
    hide IsBlank;
  }

  lemma PairReads(a: Record, b: Record)
    requires a.startedSequence.Some? && a.endedSequence.Some? && b.startedSequence.Some? && b.endedSequence.Some?
    ensures PairSound(a, b) <==>
              PairOrdered(a, b) && (CreatesVersion(a) && CreatesVersion(b) ==> VersionIdentity(a) != VersionIdentity(b))
  {
    hide MadeVersion, CreatesVersion;
    VersionReads(a);
    VersionReads(b);
    assert VersionIdentity(a) == VersionIdentity(b) <==> a.bucket == b.bucket && a.key == b.key && a.versionId == b.versionId;
  }

  lemma VersionReads(r: Record)
    ensures MadeVersion(r) <==> CreatesVersion(r)
  {
  }

  datatype Walk = Walk(ids: set<string>, events: set<u64>, lastEnd: Option<u64>, lastByKey: map<Option<string>, u64>)

  /** The checks of one turn of the loop, against what it has accumulated. */
  predicate TurnAccepted(r: Record, n: nat, walk: Walk) {
    && RecordValid(r, n)
    && r.id !in walk.ids
    && r.startedSequence.value !in walk.events && r.endedSequence.value !in walk.events
    && (walk.lastEnd.Some? ==> walk.lastEnd.value < r.endedSequence.value)
    && (IsMutation(r.kind) && r.key in walk.lastByKey ==> walk.lastByKey[r.key] < r.startedSequence.value)
  }

  function Advance(r: Record, walk: Walk): Walk
    requires r.startedSequence.Some? && r.endedSequence.Some?
  {
    Walk(walk.ids + {r.id}, walk.events + {r.startedSequence.value, r.endedSequence.value}, r.endedSequence,
         if IsMutation(r.kind) then walk.lastByKey[r.key := r.endedSequence.value] else walk.lastByKey)
  }

  /** The walk summarises the records it has passed. */
  ghost predicate Summarises(walk: Walk, passed: seq<Record>) {
    && (forall r :: r in passed ==> r.startedSequence.Some? && r.endedSequence.Some?)
    && (forall id :: id in walk.ids <==> exists r :: r in passed && r.id == id)
    && (forall e :: e in walk.events <==>
          exists r :: r in passed && (r.startedSequence == Some(e) || r.endedSequence == Some(e)))
    && (passed == [] ==> walk.lastEnd.None?)
    && (passed != [] ==> walk.lastEnd == passed[|passed| - 1].endedSequence)
    && (forall r :: r in passed ==> r.endedSequence.value <= walk.lastEnd.value)
    && (forall r :: r in passed && IsMutation(r.kind) ==>
          r.key in walk.lastByKey && r.endedSequence.value <= walk.lastByKey[r.key])
    && (forall key :: key in walk.lastByKey ==>
          exists r :: r in passed && IsMutation(r.kind) && r.key == key && r.endedSequence == Some(walk.lastByKey[key]))
  }

  /** One turn of the walk decides order against every earlier record at once. */
  lemma TurnDecidesOrder(r: Record, n: nat, walk: Walk, passed: seq<Record>)
    requires Summarises(walk, passed) && RecordValid(r, n)
    ensures TurnAccepted(r, n, walk) <==> forall p :: p in passed ==> PairOrdered(p, r)
  {
    if TurnAccepted(r, n, walk) {
      forall p | p in passed ensures PairOrdered(p, r) {
        assert p.id in walk.ids && p.startedSequence.value in walk.events && p.endedSequence.value in walk.events;
        assert p.endedSequence.value <= walk.lastEnd.value;
      }
    } else if r.id in walk.ids {
      var p :| p in passed && p.id == r.id;
      assert !PairOrdered(p, r);
    } else if r.startedSequence.value in walk.events {
      var p :| p in passed && (p.startedSequence == r.startedSequence || p.endedSequence == r.startedSequence);
      assert !PairOrdered(p, r);
    } else if r.endedSequence.value in walk.events {
      var p :| p in passed && (p.startedSequence == r.endedSequence || p.endedSequence == r.endedSequence);
      assert !PairOrdered(p, r);
    } else if walk.lastEnd.Some? && walk.lastEnd.value >= r.endedSequence.value {
      assert passed[|passed| - 1] in passed && !PairOrdered(passed[|passed| - 1], r);
    } else {
      var p :| p in passed && IsMutation(p.kind) && p.key == r.key && p.endedSequence == Some(walk.lastByKey[r.key]);
      assert !PairOrdered(p, r);
    }
  }

  lemma AdvanceSummarises(r: Record, n: nat, walk: Walk, passed: seq<Record>)
    requires Summarises(walk, passed) && TurnAccepted(r, n, walk)
    ensures Summarises(Advance(r, walk), passed + [r])
  {
    hide ReadPurposeValid, AttemptsValid, IsBlank, IsMutation;
    AdvanceKeepsOrder(r, n, walk, passed);
    AdvanceKeepsKeys(r, n, walk, passed);
    AdvanceKeepsEvents(r, walk, passed);
    var all := passed + [r];
    assert all[|all| - 1] == r;
  }

  lemma AdvanceKeepsEvents(r: Record, walk: Walk, passed: seq<Record>)
    requires Summarises(walk, passed) && r.startedSequence.Some? && r.endedSequence.Some?
    ensures var next, all := Advance(r, walk), passed + [r];
            && (forall p :: p in all ==> p.startedSequence.Some? && p.endedSequence.Some?)
            && (forall id :: id in next.ids <==> exists p :: p in all && p.id == id)
            && (forall e :: e in next.events <==>
                  exists p :: p in all && (p.startedSequence == Some(e) || p.endedSequence == Some(e)))
  {
    hide IsMutation;
    var next, all := Advance(r, walk), passed + [r];
    assert forall p :: p in all <==> p in passed || p == r;
    forall id | id in next.ids ensures exists p :: p in all && p.id == id {
      if id in walk.ids {
        var p :| p in passed && p.id == id;
        assert p in all;
      } else {
        assert r in all;
      }
    }
    forall e | e in next.events ensures exists p :: p in all && (p.startedSequence == Some(e) || p.endedSequence == Some(e)) {
      if e in walk.events {
        var p :| p in passed && (p.startedSequence == Some(e) || p.endedSequence == Some(e));
        assert p in all;
      } else {
        assert r in all;
      }
    }
  }

  lemma AdvanceKeepsOrder(r: Record, n: nat, walk: Walk, passed: seq<Record>)
    requires Summarises(walk, passed) && TurnAccepted(r, n, walk)
    ensures forall p :: p in passed + [r] ==> p.endedSequence.Some? && p.endedSequence.value <= r.endedSequence.value
  {
    hide IsMutation;
    forall p | p in passed + [r] ensures p.endedSequence.Some? && p.endedSequence.value <= r.endedSequence.value {
      if p in passed { assert p.endedSequence.value <= walk.lastEnd.value; }
    }
  }

  lemma AdvanceKeepsKeys(r: Record, n: nat, walk: Walk, passed: seq<Record>)
    requires Summarises(walk, passed) && TurnAccepted(r, n, walk)
    requires forall p :: p in passed + [r] ==> p.endedSequence.Some? && p.endedSequence.value <= r.endedSequence.value
    ensures var next, all := Advance(r, walk), passed + [r];
            && (forall p :: p in all && IsMutation(p.kind) ==> p.key in next.lastByKey && p.endedSequence.value <= next.lastByKey[p.key])
            && (forall key :: key in next.lastByKey ==>
                  exists p :: p in all && IsMutation(p.kind) && p.key == key && p.endedSequence == Some(next.lastByKey[key]))
  {
    hide ReadPurposeValid, AttemptsValid, IsBlank, IsMutation;
    var next, all := Advance(r, walk), passed + [r];
    forall p | p in all && IsMutation(p.kind)
      ensures p.key in next.lastByKey && p.endedSequence.value <= next.lastByKey[p.key]
    {
      if p in passed { assert p.endedSequence.value <= walk.lastByKey[p.key]; }
    }
    forall key | key in next.lastByKey
      ensures exists p :: p in all && IsMutation(p.kind) && p.key == key && p.endedSequence == Some(next.lastByKey[key])
    {
      if IsMutation(r.kind) && key == r.key {
        assert r in all;
      } else {
        var p :| p in passed && IsMutation(p.kind) && p.key == key && p.endedSequence == Some(walk.lastByKey[key]);
        assert p in all;
      }
    }
  }

  /** The record loop of validate_history_scope_and_order. */
  method ValidateOrder(records: seq<Record>) returns (ok: bool)
    requires 2 * |records| <= U64_MAX
    ensures ok <==> Ordered(records)
  {
    hide TurnAccepted, PairOrdered, RecordValid, Summarises, Advance;
    var walk := Walk({}, {}, None, map[]);
    EmptyWalk();
    for i := 0 to |records|
      invariant Summarises(walk, records[..i])
      invariant forall k :: 0 <= k < i ==> RecordValid(records[k], |records|)
      invariant forall j, k :: 0 <= j < k < i ==> PairOrdered(records[j], records[k])
    {
      if !TurnAccepted(records[i], |records|, walk) {
        TurnRejects(records[i], |records|, walk, records, i);
        return false;
      }
      TurnAccepts(records[i], |records|, walk, records, i);
      assert records[..i + 1] == records[..i] + [records[i]];
      walk := Advance(records[i], walk);
    }
    return true;
  }

  /** validate_history_scope_and_order */
  method ValidateHistory(records: seq<Record>, scenario: Receipts.Scenario, runId: string, bucket: string) returns (ok: bool)
    ensures ok <==> ScopeAndOrder(records, scenario, runId, bucket)
  {
    if !(forall r :: r in records ==> InScope(r, scenario, runId, bucket)) { return false; }
    var unique := ValidateVersions(records);
    if !unique || 2 * |records| > U64_MAX { return false; }
    ok := ValidateOrder(records);
  }

  lemma EmptyWalk()
    ensures Summarises(Walk({}, {}, None, map[]), [])
  {
  }

  lemma TurnRejects(r: Record, n: nat, walk: Walk, records: seq<Record>, i: nat)
    requires i < |records| && records[i] == r && n == |records|
    requires Summarises(walk, records[..i]) && !TurnAccepted(r, n, walk)
    ensures !Ordered(records)
  {
    if Ordered(records) {
      assert RecordValid(records[i], n);
      forall p | p in records[..i] ensures PairOrdered(p, r) {
        var k :| 0 <= k < i && records[k] == p;
        assert PairOrdered(records[k], records[i]);
      }
      TurnDecidesOrder(r, n, walk, records[..i]);
      assert false;
    }
  }

  lemma TurnAccepts(r: Record, n: nat, walk: Walk, records: seq<Record>, i: nat)
    requires i < |records| && records[i] == r
    requires Summarises(walk, records[..i]) && TurnAccepted(r, n, walk)
    ensures RecordValid(r, n) && r.startedSequence.Some? && r.endedSequence.Some?
    ensures forall k :: 0 <= k < i ==> PairOrdered(records[k], r)
    ensures Summarises(Advance(r, walk), records[..i] + [r])
  {
    TurnDecidesOrder(r, n, walk, records[..i]);
    AdvanceSummarises(r, n, walk, records[..i]);
    forall k | 0 <= k < i ensures PairOrdered(records[k], r) {
      assert records[..i][k] in records[..i];
    }
  }

  // ------------------------------------- sequences are exactly 1..2n

  function StartEvent(r: Record): int {
    if r.startedSequence.Some? then r.startedSequence.value else 0
  }

  function EndEvent(r: Record): int {
    if r.endedSequence.Some? then r.endedSequence.value else 0
  }

  function Events(records: seq<Record>): seq<int> {
    Map(StartEvent, records) + Map(EndEvent, records)
  }

  function UpTo(n: nat): set<int> {
    if n == 0 then {} else UpTo(n - 1) + {n}
  }

  lemma {:induction false} UpToIsTheRange(n: nat)
    ensures |UpTo(n)| == n
    ensures forall x :: x in UpTo(n) <==> 1 <= x <= n
  {
    if n > 0 {
      UpToIsTheRange(n - 1);
    }
  }

  lemma EventsAreDistinct(records: seq<Record>)
    requires Ordered(records)
    ensures Distinct(Events(records))
    ensures forall x :: x in Events(records) ==> 1 <= x <= 2 * |records|
  {
    var n, events := |records|, Events(records);
    forall i, j | 0 <= i < j < |events| ensures events[i] != events[j] {
      EventsDiffer(records, i, j);
    }
    forall x | x in events ensures 1 <= x <= 2 * n {
      var i :| 0 <= i < |events| && events[i] == x;
      assert RecordValid(records[if i < n then i else i - n], n);
    }
  }

  lemma EventsDiffer(records: seq<Record>, i: nat, j: nat)
    requires Ordered(records) && i < j < 2 * |records|
    ensures Events(records)[i] != Events(records)[j]
  {
    var n := |records|;
    var a, b := if i < n then i else i - n, if j < n then j else j - n;
    assert RecordValid(records[a], n) && RecordValid(records[b], n);
    if a < b {
      assert PairOrdered(records[a], records[b]);
    } else if b < a {
      assert PairOrdered(records[b], records[a]);
    }
  }

  ghost predicate HasEvent(records: seq<Record>, x: int) {
    exists r :: r in records && (StartEvent(r) == x || EndEvent(r) == x)
  }

  lemma EventHasARecord(records: seq<Record>, x: int)
    requires x in Events(records)
    ensures HasEvent(records, x)
  {
    var n := |records|;
    var i :| 0 <= i < |Events(records)| && Events(records)[i] == x;
    var r := if i < n then records[i] else records[i - n];
    assert r in records;
  }

  /** Pigeonhole: 2n distinct events within 1..2n leave no gap. */
  lemma EventsAreContiguous(records: seq<Record>)
    requires Ordered(records)
    ensures forall x :: 1 <= x <= 2 * |records| ==> HasEvent(records, x)
  {
    hide Ordered;
    var n := 2 * |records|;
    EventsAreDistinct(records);
    FullCardinalityIffDistinct(Events(records));
    UpToIsTheRange(n);
    assert Elements(Events(records)) <= UpTo(n);
    SameSizeSubsetIsEqual(Elements(Events(records)), UpTo(n));
    forall x | 1 <= x <= n ensures HasEvent(records, x) {
      assert x in Elements(Events(records));
      EventHasARecord(records, x);
    }
  }

  /** When a valid history grows into a valid history, every added record lies
      wholly after all the events it had. */
  lemma GrowthComesAfter(history: seq<Record>, suffix: seq<Record>, r: Record)
    requires Ordered(history) && Ordered(history + suffix) && r in suffix
    ensures r.startedSequence.Some? && r.endedSequence.Some?
    ensures 2 * |history| < r.startedSequence.value < r.endedSequence.value
  {
    var all := history + suffix;
    var k :| 0 <= k < |suffix| && suffix[k] == r;
    assert all[|history| + k] == r && RecordValid(all[|history| + k], |all|);
    forall h | h in history ensures StartEvent(h) != StartEvent(r) && EndEvent(h) != StartEvent(r) {
      var i :| 0 <= i < |history| && history[i] == h;
      assert all[i] == h && RecordValid(all[i], |all|);
      assert PairOrdered(all[i], all[|history| + k]);
    }
    assert !HasEvent(history, StartEvent(r));
    EventsAreContiguous(history);
  }
}
