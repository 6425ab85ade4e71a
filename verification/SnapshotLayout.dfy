/** The worker snapshot byte by byte: every field at its offset, by its value. */
module SnapshotLayout {
  import opened Wrappers
  import opened Bytes
  import opened ByteLayout
  import opened EngineTypes
  import opened Journal
  import opened SnapshotFormat
  import Utf8

  predicate BoundaryByte(v: byte, boundary: Boundary) {
    v == if boundary == InputRequested then 1 else 2
  }

  /** "ZVDORKWS", version 1, and the number of all bytes. */
  predicate PrologueLaid(b: seq<byte>) {
    && |b| >= 16
    && b[..8] == [0x5A, 0x56, 0x44, 0x4F, 0x52, 0x4B, 0x57, 0x53]
    && b[8] == 0 && b[9] == 1 && b[10] == 0 && b[11] == 0
    && Big32(b, 12) == |b|
  }

  predicate FieldsLaid(b: seq<byte>, e: Envelope) {
    && |b| >= 44
    && Big64(b, 16) == e.revision
    && BoundaryByte(b[24], e.boundary) && b[25] == 0 && b[26] == 0 && b[27] == 0
    && Big32(b, 28) == |Utf8.Encode(e.lastOutput)|
    && Big32(b, 32) == |e.innerCheckpoint|
    && Big16(b, 36) == |e.receipts| && b[38] == 0 && b[39] == 0
    && Big32(b, 40) == |b| - 44 - |Utf8.Encode(e.lastOutput)| - |e.innerCheckpoint|
  }

  predicate StatusBytes(status: byte, rejection: byte, s: Status) {
    match s
    case Committed => status == 1 && rejection == 0
    case Rejected(StaleRevision) => status == 2 && rejection == 1
    case Rejected(Duplicate) => status == 2 && rejection == 2
    case Rejected(InvalidCommand) => status == 2 && rejection == 3
    case Rejected(ReceiptCapacity) => status == 2 && rejection == 4
  }

  /** The fixed 44 bytes of the record at `at`, its length prefix among them. */
  predicate RecordFixed(b: seq<byte>, at: nat, r: Receipt) {
    && at + 44 <= |b|
    && Big16(b, at + 4) == |Utf8.Encode(r.requestId)|
    && Big16(b, at + 6) == |Utf8.Encode(r.command)|
    && Big16(b, at + 8) == |Utf8.Encode(r.result.requestId)|
    && Big16(b, at + 10) == |Utf8.Encode(r.result.command)|
    && Big32(b, at + 12) == |Utf8.Encode(r.result.output)|
    && Big64(b, at + 16) == r.expectedRevision
    && Big64(b, at + 24) == r.result.previousRevision
    && Big64(b, at + 32) == r.result.revision
    && b[at + 40] == 1 && BoundaryByte(b[at + 41], r.result.boundary)
    && StatusBytes(b[at + 42], b[at + 43], r.result.status)
  }

  function TextsOf(r: Receipt): seq<byte> {
    Utf8.Encode(r.requestId) + Utf8.Encode(r.command) + Utf8.Encode(r.result.requestId)
    + Utf8.Encode(r.result.command) + Utf8.Encode(r.result.output)
  }

  predicate RecordLaid(b: seq<byte>, at: nat, r: Receipt) {
    && RecordFixed(b, at, r)
    && Big32(b, at) == 40 + |TextsOf(r)|
    && At(b, at + 44, TextsOf(r))
  }

  /** From `at` to the end, one record after the other. */
  predicate JournalLaid(b: seq<byte>, at: nat, rs: seq<Receipt>)
    decreases |rs|
  {
    if rs == [] then at == |b| else RecordLaid(b, at, rs[0]) && JournalLaid(b, at + 4 + Big32(b, at), rs[1..])
  }

  /** The whole snapshot: header, fixed fields, last output, inner checkpoint, journal. */
  predicate Laid(b: seq<byte>, e: Envelope) {
    && PrologueLaid(b) && FieldsLaid(b, e)
    && At(b, 44, Utf8.Encode(e.lastOutput))
    && At(b, 44 + |Utf8.Encode(e.lastOutput)|, e.innerCheckpoint)
    && JournalLaid(b, 44 + |Utf8.Encode(e.lastOutput)| + |e.innerCheckpoint|, e.receipts)
  }

  // The encoding is laid out so

  lemma PutPrologueLaid(b: seq<byte>, total: nat)
    requires total < U32_FACTOR && At(b, 0, PutPrologue(total)) && total == |b|
    ensures PrologueLaid(b)
  {
    hide PutU16, PutU32, At, Big32;
    var t2 := PutU16(0) + PutU32(total);
    var t1 := PutU16(SCHEMA_VERSION) + t2;
    Split(b, 0, MAGIC, t1);
    Split(b, 8, PutU16(SCHEMA_VERSION), t2);
    Split(b, 10, PutU16(0), PutU32(total));
    Inside(b, 12, PutU32(total));
    U16At(b, 8, SCHEMA_VERSION);
    U16At(b, 10, 0);
    U32At(b, 12, total);
    MagicAt(b);
    SmallU16(b, 8);
    SmallU16(b, 10);
  }

  lemma MagicAt(b: seq<byte>)
    requires At(b, 0, MAGIC)
    ensures |b| >= 8 && b[..8] == [0x5A, 0x56, 0x44, 0x4F, 0x52, 0x4B, 0x57, 0x53]
  {
    assert b[0..8] == b[..8];
  }

  lemma SmallU16(b: seq<byte>, at: nat)
    requires at + 2 <= |b| && Big16(b, at) < 256
    ensures b[at] == 0 && b[at + 1] as int == Big16(b, at)
  {
  }

  lemma PutPublicLaid(b: seq<byte>, revision: nat, boundary: Boundary)
    requires revision <= MAX_SAFE && At(b, 16, PutPublic(revision, boundary))
    ensures |b| >= 28 && Big64(b, 16) == revision
    ensures BoundaryByte(b[24], boundary) && b[25] == 0 && b[26] == 0 && b[27] == 0
  {
    hide PutU8, PutU16, PutU64, At, Big64;
    var t2 := PutU8(0) + PutU16(0);
    var t1 := PutU8(BoundaryMarker(boundary)) + t2;
    Split(b, 16, PutU64(revision), t1);
    Split(b, 24, PutU8(BoundaryMarker(boundary)), t2);
    Split(b, 25, PutU8(0), PutU16(0));
    Inside(b, 26, PutU16(0));
    U64At(b, 16, revision);
    U8At(b, 24, BoundaryMarker(boundary));
    U8At(b, 25, 0);
    U16At(b, 26, 0);
    SmallU16(b, 26);
  }

  lemma PutSizesLaid(b: seq<byte>, z: Sizes)
    requires z.Fits() && At(b, 28, PutSizes(z))
    ensures |b| >= 44 && Big32(b, 28) == z.outputLength && Big32(b, 32) == z.innerLength
    ensures Big16(b, 36) == z.receiptCount && b[38] == 0 && b[39] == 0 && Big32(b, 40) == z.journalLength
  {
    hide PutU16, PutU32, At, Big32;
    var t3 := PutU16(0) + PutU32(z.journalLength);
    var t2 := PutU16(z.receiptCount) + t3;
    var t1 := PutU32(z.innerLength) + t2;
    Split(b, 28, PutU32(z.outputLength), t1);
    Split(b, 32, PutU32(z.innerLength), t2);
    Split(b, 36, PutU16(z.receiptCount), t3);
    Split(b, 38, PutU16(0), PutU32(z.journalLength));
    Inside(b, 40, PutU32(z.journalLength));
    U32At(b, 28, z.outputLength);
    U32At(b, 32, z.innerLength);
    U16At(b, 36, z.receiptCount);
    U16At(b, 38, 0);
    SmallU16(b, 38);
    U32At(b, 40, z.journalLength);
  }

  lemma PutLengthsLaid(b: seq<byte>, at: nat, n: Lengths)
    requires n.Fits() && At(b, at, PutLengths(n))
    ensures at + 12 <= |b|
    ensures Big16(b, at) == n.id && Big16(b, at + 2) == n.command && Big16(b, at + 4) == n.resultId
    ensures Big16(b, at + 6) == n.resultCommand && Big32(b, at + 8) == n.output
  {
    hide PutU16, PutU32, At, Big16, Big32;
    var t3 := PutU16(n.resultCommand) + PutU32(n.output);
    var t2 := PutU16(n.resultId) + t3;
    var t1 := PutU16(n.command) + t2;
    Split(b, at, PutU16(n.id), t1);
    Split(b, at + 2, PutU16(n.command), t2);
    Split(b, at + 4, PutU16(n.resultId), t3);
    Split(b, at + 6, PutU16(n.resultCommand), PutU32(n.output));
    Inside(b, at + 8, PutU32(n.output));
    U16At(b, at, n.id);
    U16At(b, at + 2, n.command);
    U16At(b, at + 4, n.resultId);
    U16At(b, at + 6, n.resultCommand);
    U32At(b, at + 8, n.output);
  }

  lemma PutRevisionsLaid(b: seq<byte>, at: nat, v: Revisions)
    requires v.Fits() && At(b, at, PutRevisions(v))
    ensures at + 24 <= |b|
    ensures Big64(b, at) == v.expected && Big64(b, at + 8) == v.previous && Big64(b, at + 16) == v.revision
  {
    hide PutU64, At, Big64;
    Split(b, at, PutU64(v.expected), PutU64(v.previous) + PutU64(v.revision));
    Split(b, at + 8, PutU64(v.previous), PutU64(v.revision));
    Inside(b, at + 16, PutU64(v.revision));
    U64At(b, at, v.expected);
    U64At(b, at + 8, v.previous);
    U64At(b, at + 16, v.revision);
  }

  lemma PutMarkersLaid(b: seq<byte>, at: nat, boundary: Boundary, status: Status)
    requires At(b, at, PutMarkers(boundary, status))
    ensures at + 4 <= |b| && b[at] == 1 && BoundaryByte(b[at + 1], boundary)
    ensures StatusBytes(b[at + 2], b[at + 3], status)
  {
    var part := PutMarkers(boundary, status);
    ElementsAt(b, at, part);
    assert b[at + 0] == part[0] && b[at + 1] == part[1] && b[at + 2] == part[2] && b[at + 3] == part[3];
  }

  lemma PutReceiptLaid(b: seq<byte>, at: nat, r: Receipt)
    requires ValidReceipt(r) && At(b, at, PutReceipt(r))
    ensures RecordLaid(b, at, r) && |PutReceipt(r)| == 4 + Big32(b, at)
  {
    hide PutU32, PutLengths, PutRevisions, PutMarkers, At, Big16, Big32, Big64, ValidReceipt, Utf8.Encode, BoundaryByte,
      StatusBytes;
    ReceiptBytesBounded(r);
    HeadFits(r);
    var h := HeadOf(r);
    Inside(b, at, PutReceipt(r));
    Split(b, at, PutU32(PayloadBytes(r)), PutRecord(r));
    U32At(b, at, PayloadBytes(r));
    Split(b, at + 4, PutHead(h), PutTexts(r));
    Split(b, at + 4, PutLengths(h.lengths), PutRevisions(h.revisions) + PutMarkers(h.boundary, h.status));
    Split(b, at + 16, PutRevisions(h.revisions), PutMarkers(h.boundary, h.status));
    PutLengthsLaid(b, at + 4, h.lengths);
    PutRevisionsLaid(b, at + 16, h.revisions);
    PutMarkersLaid(b, at + 40, h.boundary, h.status);
    assert PutTexts(r) == TextsOf(r);
  }

  lemma {:induction false} PutJournalLaid(b: seq<byte>, at: nat, rs: seq<Receipt>)
    requires ValidReceipts(rs) && At(b, at, PutJournal(rs)) && at + |PutJournal(rs)| == |b|
    ensures JournalLaid(b, at, rs)
    decreases |rs|
  {
    hide PutReceipt, ValidReceipt, At, RecordLaid;
    if rs != [] {
      Split(b, at, PutReceipt(rs[0]), PutJournal(rs[1..]));
      PutReceiptLaid(b, at, rs[0]);
      PutJournalLaid(b, at + 4 + Big32(b, at), rs[1..]);
    }
  }

  lemma FixedLaid(b: seq<byte>, e: Envelope)
    requires ValidEnvelope(e) && |b| == TotalBytes(e)
    requires At(b, 16, PutPublic(e.revision, e.boundary)) && At(b, 28, PutSizes(SizesOf(e)))
    ensures FieldsLaid(b, e)
  {
    hide PutPublic, PutSizes, Coherent, ValidReceipts, JournalBytes, Utf8.Encode, At, Big16, Big32, Big64, BoundaryByte;
    PutPublicLaid(b, e.revision, e.boundary);
    PutSizesLaid(b, SizesOf(e));
  }

  /** The encoding of a valid envelope has every field where the format puts it. */
  lemma WireLaid(e: Envelope)
    requires ValidEnvelope(e)
    ensures Laid(Wire(e), e)
  {
    hide PutPrologue, PutPublic, PutSizes, PutJournal, Coherent, ValidReceipts, Utf8.Encode, At, PrologueLaid, FieldsLaid,
      JournalLaid, JournalBytes;
    var b := Wire(e);
    var output, total := Utf8.Encode(e.lastOutput), TotalBytes(e);
    WireLength(e);
    Whole(b);
    Split(b, 0, PutPrologue(total), PutPublic(e.revision, e.boundary) + (PutSizes(SizesOf(e)) + PutBody(e)));
    Split(b, 16, PutPublic(e.revision, e.boundary), PutSizes(SizesOf(e)) + PutBody(e));
    Split(b, 28, PutSizes(SizesOf(e)), PutBody(e));
    Split(b, 44, output, e.innerCheckpoint + PutJournal(e.receipts));
    Split(b, 44 + |output|, e.innerCheckpoint, PutJournal(e.receipts));
    PutPrologueLaid(b, total);
    FixedLaid(b, e);
    PutJournalLength(e.receipts);
    PutJournalLaid(b, 44 + |output| + |e.innerCheckpoint|, e.receipts);
  }

  /** What the decoder accepts is laid out so as well, with the values of what it is decoded to. */
  lemma AcceptedLaid(b: seq<byte>)
    requires ParseEnvelope(b).Some?
    ensures Laid(b, ParseEnvelope(b).value)
  {
    hide ParseEnvelope, Wire, ValidEnvelope, Laid;
    ParseSound(b);
    WireLaid(ParseEnvelope(b).value);
  }
}
