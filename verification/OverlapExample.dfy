/** A small history whose workload overlaps a decommission, and the evidence of
    it.  Both requests carry the capture of the topology proof, as the
    fast-completion path demands. */
module OverlapExample {
  import opened Basics
  import opened Receipts
  import opened TopologyProof
  import opened StatusProjection
  import opened History
  import opened Evidence
  import opened Overlap
  import opened FastPath
  import opened ExampleCluster

  const PROOF := ProofOf(Decommission)
  const ATTEMPT := AttemptOf(Decommission)

  /** The i-th letter, as a name. */
  function Letter(i: nat): string
    requires i < 7
  {
    [['a', 'b', 'c', 'd', 'e', 'f', 'g'][i]]
  }

  function Entry(i: nat, kind: OperationKind, key: string, size: nat): Record
    requires i < 7
  {
    var at := if i < 2 then 5 else 17;
    Record(Letter(i), Decommission, Some("run"), kind, "bucket", Some(key), Some(size), Some(Letter(i)), None, Some(true), None, false,
           None, None, Some(2 * i + 1), Some(2 * i + 2), at, at + 1, Ok, Some(200))
  }

  /** Versioning and an empty object first; then, as the workload, a new object,
      an overwrite, a delete and a finished and an aborted upload. */
  function Recorded(): (h: seq<Record>)
    ensures |h| == 7
  {
    [
      Entry(0, PutBucketVersioning, "k", 0), Entry(1, PutObject, "k", 0),
      Entry(2, PutObject, "x", 1), Entry(3, PutObject, "k", 1), Entry(4, DeleteObject, "k", 0),
      Entry(5, CompleteMultipart, "m", 1), Entry(6, AbortMultipart, "m", 0)]
  }

  function Workload(): WorkloadReceipt {
    WorkloadReceipt(10, 40, 5, 14, Recorded())
  }

  lemma EntriesAreDistinct(i: nat, j: nat)
    requires i < j < 7
    ensures Letter(i) != Letter(j)
  {
    assert Letter(i)[0] != Letter(j)[0];
  }

  lemma HistoryShape(i: nat)
    requires i < 7
    ensures Recorded()[i].id == Letter(i) && Recorded()[i].versionId == Some(Letter(i))
    ensures Recorded()[i].startedSequence == Some(2 * i + 1) && Recorded()[i].endedSequence == Some(2 * i + 2)
    ensures Recorded()[i].scenario == Decommission && Recorded()[i].runId == Some("run") && Recorded()[i].bucket == "bucket"
    ensures Recorded()[i].key.Some? && Recorded()[i].readPurpose.None? && Recorded()[i].attempts.None? && Recorded()[i].outcome.Ok?
    ensures Recorded()[i].startedAt == (if i < 2 then 5 else 17) && Recorded()[i].endedAt == Recorded()[i].startedAt + 1
  {
  }

  lemma LetterIsAName(i: nat)
    requires i < 7
    ensures !IsBlank(Letter(i)) && Letter(i) != "" && Letter(i) != "null"
  {
    BeginsVisibly(Letter(i));
  }

  lemma HistoryIsOrdered()
    ensures Ordered(Recorded())
  {
    forall i | 0 <= i < 7 ensures RecordValid(Recorded()[i], 7) {
      OneRecordIsValid(i);
    }
    forall i, j | 0 <= i < j < 7 ensures PairOrdered(Recorded()[i], Recorded()[j]) {
      TwoRecordsAreOrdered(i, j);
    }
  }

  lemma OneRecordIsValid(i: nat)
    requires i < 7
    ensures RecordValid(Recorded()[i], 7)
  {
    hide Entry, IsBlank;
    HistoryShape(i);
    LetterIsAName(i);
  }

  lemma TwoRecordsAreOrdered(i: nat, j: nat)
    requires i < j < 7
    ensures PairOrdered(Recorded()[i], Recorded()[j])
  {
    hide Entry, Letter;
    HistoryShape(i);
    HistoryShape(j);
    EntriesAreDistinct(i, j);
  }

  lemma HistoryIsScoped()
    ensures SelfScoped(Recorded())
    ensures forall r :: r in Recorded() ==> r.scenario == Decommission && r.runId == Some(ATTEMPT.runId)
  {
    hide Entry, Letter, Ordered;
    HistoryIsOrdered();
    forall i | 0 <= i < 7 ensures InScope(Recorded()[i], Decommission, "run", "bucket") && Recorded()[i].key.Some? {
      HistoryShape(i);
    }
    forall i, j | 0 <= i < j < 7 ensures VersionIdentity(Recorded()[i]) != VersionIdentity(Recorded()[j]) {
      HistoryShape(i);
      HistoryShape(j);
      EntriesAreDistinct(i, j);
    }
  }

  function Worked(): (h: seq<Record>)
    ensures |h| == 5 && forall i :: 0 <= i < 5 ==> h[i] == Recorded()[i + 2]
  {
    Recorded()[2..]
  }

  lemma SidesOfTheWindow(i: nat)
    requires i < 7
    ensures SidesAgree(Recorded()[i], Workload()) && (SliceTest(5, 14)(Recorded()[i]) <==> i >= 2)
  {
    hide Recorded;
    HistoryShape(i);
  }

  lemma SliceIsTheWorkload()
    ensures Slice(Workload()) == Worked()
  {
    hide Recorded, Filter, SliceTest;
    var test, h := SliceTest(5, 14), Recorded();
    forall i | 0 <= i < 7 ensures test(h[i]) <==> i >= 2 {
      SidesOfTheWindow(i);
    }
    assert h == h[..2] + h[2..];
    FilterAppend(test, h[..2], h[2..]);
    FilterNone(test, h[..2]);
    FilterAll(test, h[2..]);
  }

  lemma WindowIsCovered()
    ensures BoundaryHit(Worked(), Workload())
  {
    hide Recorded, Worked;
    HistoryShape(2);
    HistoryShape(6);
    assert Worked()[0] in Worked() && Worked()[4] in Worked();
  }

  lemma SliceIsValid()
    ensures SliceValid(Workload())
  {
    hide Recorded, Worked, SelfScoped, SidesAgree, Slice, BoundaryHit;
    HistoryIsScoped();
    SliceIsTheWorkload();
    WindowIsCovered();
    forall r | r in Recorded() ensures SidesAgree(r, Workload()) {
      var i :| 0 <= i < 7 && Recorded()[i] == r;
      SidesOfTheWindow(i);
    }
  }

  lemma NewObject()
    ensures !Overwrites(Recorded(), Recorded()[2])
  {
  }

  lemma OverwrittenObject()
    ensures Overwrites(Recorded(), Recorded()[3])
  {
    assert Recorded()[1] in Recorded();
  }

  lemma Committed(i: nat)
    requires i < 7
    ensures Recorded()[i] in Recorded() && Recorded()[i].outcome.Ok? && IsVersion(Recorded()[i].versionId)
  {
    hide Recorded, Letter;
    HistoryShape(i);
    LetterIsAName(i);
  }

  lemma Kinds()
    ensures var h := Recorded();
            && h[0].kind.PutBucketVersioning? && h[1].kind.PutObject? && h[1].sizeBytes == Some(0) && h[2].kind.PutObject?
            && h[3].kind.PutObject? && h[4].kind.DeleteObject? && h[5].kind.CompleteMultipart? && h[6].kind.AbortMultipart?
  {
  }

  lemma FamiliesAreThere()
    ensures FamiliesPresent(Recorded(), Worked())
  {
    hide Overwrites, Recorded, Worked, IsVersion;
    NewObject();
    OverwrittenObject();
    Kinds();
    forall i | 0 <= i < 7 ensures Recorded()[i] in Recorded() && Recorded()[i].outcome.Ok? && IsVersion(Recorded()[i].versionId) {
      Committed(i);
    }
    assert forall i :: 0 <= i < 5 ==> Worked()[i] in Worked();
    assert SuccessfulVersioned(Worked()[0]) && SuccessfulVersioned(Worked()[1]) && SuccessfulVersioned(Worked()[2]) && SuccessfulVersioned(Worked()[3]);
    assert Worked()[4].kind.AbortMultipart? && Worked()[4].outcome.Ok?;
    assert Recorded()[1].kind.PutObject? && Recorded()[0].kind.PutBucketVersioning?;
    forall r | r in Recorded() ensures CarriesVersion(r) {
      var i :| 0 <= i < 7 && Recorded()[i] == r;
    }
  }

  // -------------------------------------------------- the operation

  const ID := OperationId(1, "s")

  /** A request with the capture of the proof. */
  function CapturedWithProof(probed: bool, verb: Method, path: Path, startedAt: u64, observedAt: u64): Request {
    Request(TargetAt(2), if probed then Some(Probe(2)) else None, verb, path, map[], 200, startedAt, observedAt, Some("r"), None, None)
  }

  const START := CapturedWithProof(true, Post, PoolsDecommission, 12, 13)
  const TERMINAL := CapturedWithProof(false, Get, DecommissionStatus, 20, 30)
  function Sent(): seq<Request> {
    [START, TERMINAL]
  }

  const PROGRESS := [Sample(ATTEMPT, ID, "r", 30, Complete, true, false, false, Some(1), None, Some(1))]

  lemma TranscriptShape()
    ensures StartIndex(Sent(), Decommission) == 0 && AfterLast(StatusTest(Decommission), Sent()) == 2
    ensures Filter(StatusTest(Decommission), Sent()) == [TERMINAL]
  {
    var start, test := StartTest(Decommission), StatusTest(Decommission);
    assert start(START) && test(TERMINAL) && !test(START);
    assert Sent()[1..] == [TERMINAL] && [TERMINAL][1..] == [];
    assert Filter(test, []) == [] && Filter(test, [TERMINAL]) == [TERMINAL];
  }

  lemma ProgressIsBound()
    ensures OneSuccessfulRun(ATTEMPT, ID, PROGRESS) && ReceiptsBound(Decommission, Sent(), PROGRESS)
  {
    hide Filter, FirstIndex, AfterLast, OperationId, Decimal;
    TranscriptShape();
  }

  lemma NamesAreThere()
    ensures !IsBlank(ID) && Present(PROOF.targetExpression)
  {
    hide IsBlank, Cmdline;
    assert ID[0] == 'd';
    BeginsVisibly(ID);
    ShortNamesAreNotBlank();
    CmdlineShape(TARGET);
  }

  lemma OperationIsBeside()
    ensures StartIndex(Sent(), Decommission) == 0 && AfterLast(StatusTest(Decommission), Sent()) == 2
    ensures OperationBeside(ATTEMPT, ID, PROOF.targetExpression, Decommission, Sent(), PROGRESS, Workload())
  {
    hide IsBlank, Cmdline, FirstIndex, AfterLast, Filter, OneSuccessfulRun, ReceiptsBound, Present, OperationId, Recorded, Probe;
    TranscriptShape();
    ProgressIsBound();
    NamesAreThere();
    assert TERMINAL in Sent() && StatusBeside(Decommission, TERMINAL, 10, 40);
  }

  /** The workload lies beside every operation that runs while its objects are written. */
  lemma WorkloadIsBeside(startedAt: u64, completedAt: u64)
    requires startedAt < 18 && 17 < completedAt && startedAt < completedAt
    ensures WorkloadBeside("run", Decommission, startedAt, completedAt, Workload())
  {
    hide SliceValid, FamiliesPresent, Slice, Recorded, Worked;
    HistoryIsScoped();
    SliceIsTheWorkload();
    SliceIsValid();
    FamiliesAreThere();
    HistoryShape(2);
    assert Worked()[0] in Worked() && RecordBeside(Worked()[0], startedAt, completedAt);
  }

  /** The receipts prove the overlap, so evidence is built and is valid. */
  lemma EvidenceIsBuilt()
    ensures FromReceipts(ATTEMPT, ID, PROOF.targetExpression, Decommission, Sent(), PROGRESS, Workload()).Some?
  {
    hide OperationBeside, FromReceipts, OverlapValid, WorkloadBeside, FirstIndex, AfterLast, Cmdline, Workload;
    OperationIsBeside();
    WorkloadIsBeside(13, 30);
    EvidenceIsBuiltIffProven(ATTEMPT, ID, PROOF.targetExpression, Decommission, Sent(), PROGRESS, Workload());
  }

  lemma SentIsValid()
    ensures forall q :: q in Sent() ==> RequestValid(q) && q.target == PROOF.runtime.target && Successful(q.status)
  {
    hide Cmdline, IsBlank;
    ShortNamesAreNotBlank();
    EndpointIsValid(2);
  }

  lemma ProofFields()
    ensures PROOF.attempt == ATTEMPT && PROOF.targetId.Some? && PROOF.targetExpression.Some?
  {
  }

  /** And it passes the fast-completion path, whose captures no live adapter makes. */
  lemma FastPathAcceptsIt()
    ensures FastPathAccepts(PROOF, Decommission, ID, Sent(), PROGRESS, Workload())
    ensures forall q :: q in Sent() ==> RequestValid(q)
  {
    hide FastPathAccepts, FromReceipts, OverlapValid, Satisfied, ProofOf, AttemptOf, OperationId, Sent, RequestValid, Successful, Workload;
    ProofIsBuilt(Decommission);
    ProofFields();
    EvidenceIsBuilt();
    SentIsValid();
    FastPathFrom(PROOF, ID, Sent(), PROGRESS, Workload());
  }
}
