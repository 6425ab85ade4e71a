/**
 The worker-snapshot wire format: what bytes an envelope has, and what the
 parser makes of bytes. `ParseEnvelope` accepts exactly the image of `Wire` on
 valid envelopes.
 */
module SnapshotFormat {
  import opened Wrappers
  import opened Bytes
  import opened EngineTypes
  import opened Journal
  import CanonicalCommand
  import Utf8

  const MAGIC: seq<byte> := [0x5A, 0x56, 0x44, 0x4F, 0x52, 0x4B, 0x57, 0x53]
  const SCHEMA_VERSION: nat := 1
  const MAX_TOTAL_BYTES: nat := 4 * 1024 * 1024
  const MIN_INNER_BYTES: nat := 16
  const MAX_INNER_BYTES: nat := 1024 * 1024
  const FIXED_BYTES: nat := 16 + 28

  datatype Envelope = Envelope(
    revision: nat,
    lastOutput: string,
    boundary: Boundary,
    innerCheckpoint: seq<byte>,
    receipts: seq<Receipt>)
  {
    function State(): PublicState {
      PublicState(revision, lastOutput, boundary)
    }
  }

  predicate ValidReceipts(rs: seq<Receipt>) {
    forall i :: 0 <= i < |rs| ==> ValidReceipt(rs[i])
  }

  ghost predicate ValidEnvelope(e: Envelope) {
    && e.revision <= MAX_SAFE
    && TextBytes(e.lastOutput) <= MAX_OUTPUT_BYTES
    && MIN_INNER_BYTES <= |e.innerCheckpoint| <= MAX_INNER_BYTES
    && |e.receipts| <= MAX_RECEIPTS
    && ValidReceipts(e.receipts)
    && JournalBytes(e.receipts) <= MAX_JOURNAL_BYTES
    && Coherent(e.receipts, e.State())
  }

  function TotalBytes(e: Envelope): nat {
    FIXED_BYTES + TextBytes(e.lastOutput) + |e.innerCheckpoint| + JournalBytes(e.receipts)
  }

  /** The per-field limits keep every snapshot under the total limit, so that guard never fires. */
  lemma CapsCompose(e: Envelope)
    requires ValidEnvelope(e)
    ensures TotalBytes(e) < MAX_TOTAL_BYTES
  {
  }

  // Markers

  function BoundaryMarker(b: Boundary): (m: nat)
    ensures m < 0x100
  {
    match b
    case InputRequested => 1
    case Terminated => 2
  }

  function BoundaryFromMarker(m: nat): (r: Option<Boundary>)
    ensures r.Some? ==> BoundaryMarker(r.value) == m
    ensures forall b :: BoundaryMarker(b) == m ==> r == Some(b)
  {
    if m == 1 then Some(InputRequested) else if m == 2 then Some(Terminated) else None
  }

  function StatusMarker(s: Status): (m: nat)
    ensures m < 0x100
  {
    if s == Committed then 1 else 2
  }

  function RejectionMarker(s: Status): (m: nat)
    ensures m < 0x100
  {
    match s
    case Committed => 0
    case Rejected(StaleRevision) => 1
    case Rejected(Duplicate) => 2
    case Rejected(InvalidCommand) => 3
    case Rejected(ReceiptCapacity) => 4
  }

  function StatusFromMarkers(status: nat, rejection: nat): (r: Option<Status>)
    ensures r.Some? ==> StatusMarker(r.value) == status && RejectionMarker(r.value) == rejection
    ensures forall s :: StatusMarker(s) == status && RejectionMarker(s) == rejection ==> r == Some(s)
  {
    if status == 1 then
      if rejection == 0 then Some(Committed) else None
    else if status != 2 then None
    else if rejection == 1 then Some(Rejected(StaleRevision))
    else if rejection == 2 then Some(Rejected(Duplicate))
    else if rejection == 3 then Some(Rejected(InvalidCommand))
    else if rejection == 4 then Some(Rejected(ReceiptCapacity))
    else None
  }

  // Header blocks

  function PutPrologue(total: nat): (b: seq<byte>)
    requires total < U32_FACTOR
    ensures |b| == 16
  {
    MAGIC + (PutU16(SCHEMA_VERSION) + (PutU16(0) + PutU32(total)))
  }

  function GetPrologue(b: seq<byte>): (r: Parsed<nat>) {
    var (magic, b1) :- GetBytes(b, 8);
    var (version, b2) :- GetU16(b1);
    var (reserved, b3) :- GetU16(b2);
    var (total, b4) :- GetU32(b3);
    if magic != MAGIC || version != SCHEMA_VERSION || reserved != 0 then NoParse else Got(total, b4)
  }

  lemma PrologueSound(b: seq<byte>)
    requires GetPrologue(b).Got?
    ensures var r := GetPrologue(b); r.value < U32_FACTOR && b == PutPrologue(r.value) + r.rest
  {
    hide PutU16, GetU16, PutU32, GetU32;
    var Got(total, rest) := GetPrologue(b);
    assert PutU16(0) + (PutU32(total) + rest) == (PutU16(0) + PutU32(total)) + rest;
  }

  lemma PrologueInverse(total: nat, s: seq<byte>)
    requires total < U32_FACTOR
    ensures GetPrologue(PutPrologue(total) + s) == Got(total, s)
  {
    hide PutU8, GetU8, PutU16, GetU16, PutU32, GetU32, PutU64, GetU64;
    var t4 := PutU32(total) + s;
    var t3 := PutU16(0) + t4;
    var t2 := PutU16(SCHEMA_VERSION) + t3;
    assert PutPrologue(total) + s == MAGIC + t2;
    U16Inverse(SCHEMA_VERSION, t3);
    U16Inverse(0, t4);
    U32Inverse(total, s);
  }

  function PutPublic(revision: nat, boundary: Boundary): (b: seq<byte>)
    requires revision <= MAX_SAFE
    ensures |b| == 12
  {
    PutU64(revision) + (PutU8(BoundaryMarker(boundary)) + (PutU8(0) + PutU16(0)))
  }

  function GetPublic(b: seq<byte>): (r: Parsed<(nat, Boundary)>) {
    var (revision, b1) :- GetU64(b);
    var (marker, b2) :- GetU8(b1);
    var (reserved1, b3) :- GetU8(b2);
    var (reserved2, b4) :- GetU16(b3);
    match BoundaryFromMarker(marker)
    case None => NoParse
    case Some(boundary) =>
      if reserved1 != 0 || reserved2 != 0 then NoParse else Got((revision, boundary), b4)
  }

  lemma PublicSound(b: seq<byte>)
    requires GetPublic(b).Got?
    ensures var r := GetPublic(b); r.value.0 <= MAX_SAFE && b == PutPublic(r.value.0, r.value.1) + r.rest
  {
    hide PutU8, GetU8, PutU16, GetU16, PutU64, GetU64, PutPublic, BoundaryFromMarker, BoundaryMarker;
    var Got(public, rest) := GetPublic(b);
    PublicTail(public.0, public.1, rest);
  }

  lemma PublicTail(revision: nat, boundary: Boundary, s: seq<byte>)
    requires revision <= MAX_SAFE
    ensures PutPublic(revision, boundary) + s ==
      PutU64(revision) + (PutU8(BoundaryMarker(boundary)) + (PutU8(0) + (PutU16(0) + s)))
  {
    hide PutU8, PutU16, PutU64;
  }

  lemma PublicInverse(revision: nat, boundary: Boundary, s: seq<byte>)
    requires revision <= MAX_SAFE
    ensures GetPublic(PutPublic(revision, boundary) + s) == Got((revision, boundary), s)
  {
    hide PutU8, GetU8, PutU16, GetU16, PutU64, GetU64, PutPublic;
    PublicTail(revision, boundary, s);
    var t3 := PutU16(0) + s;
    var t2 := PutU8(0) + t3;
    var t1 := PutU8(BoundaryMarker(boundary)) + t2;
    U64Inverse(revision, t1);
    U8Inverse(BoundaryMarker(boundary), t2);
    U8Inverse(0, t3);
    U16Inverse(0, s);
  }

  /** The declared sizes of the parts that follow the fixed fields. */
  datatype Sizes = Sizes(outputLength: nat, innerLength: nat, receiptCount: nat, journalLength: nat)
  {
    predicate Fits() {
      && outputLength < U32_FACTOR && innerLength < U32_FACTOR
      && receiptCount < 0x1_0000 && journalLength < U32_FACTOR
    }

    predicate Allowed() {
      && outputLength <= MAX_OUTPUT_BYTES
      && MIN_INNER_BYTES <= innerLength <= MAX_INNER_BYTES
      && receiptCount <= MAX_RECEIPTS
      && journalLength <= MAX_JOURNAL_BYTES
    }
  }

  function PutSizes(z: Sizes): (b: seq<byte>)
    requires z.Fits()
    ensures |b| == 16
  {
    PutU32(z.outputLength) + (PutU32(z.innerLength) + (PutU16(z.receiptCount) + (PutU16(0) + PutU32(z.journalLength))))
  }

  function GetSizes(b: seq<byte>): (r: Parsed<Sizes>)
    ensures r.Got? ==> r.value.Fits() && b == PutSizes(r.value) + r.rest
  {
    hide PutU16, GetU16, PutU32, GetU32;
    var (outputLength, b1) :- GetU32(b);
    var (innerLength, b2) :- GetU32(b1);
    var (receiptCount, b3) :- GetU16(b2);
    var (reserved, b4) :- GetU16(b3);
    var (journalLength, b5) :- GetU32(b4);
    if reserved != 0 then NoParse
    else
      var z := Sizes(outputLength, innerLength, receiptCount, journalLength);
      SizesTail(z, b5);
      Got(z, b5)
  }

  lemma SizesTail(z: Sizes, s: seq<byte>)
    requires z.Fits()
    ensures PutSizes(z) + s ==
      PutU32(z.outputLength) + (PutU32(z.innerLength) + (PutU16(z.receiptCount) + (PutU16(0) + (PutU32(z.journalLength) + s))))
  {
    hide PutU16, PutU32;
  }

  lemma SizesInverse(z: Sizes, s: seq<byte>)
    requires z.Fits()
    ensures GetSizes(PutSizes(z) + s) == Got(z, s)
  {
    hide PutU16, GetU16, PutU32, GetU32, PutSizes;
    SizesTail(z, s);
    var t4 := PutU32(z.journalLength) + s;
    var t3 := PutU16(0) + t4;
    var t2 := PutU16(z.receiptCount) + t3;
    var t1 := PutU32(z.innerLength) + t2;
    U32Inverse(z.outputLength, t1);
    U32Inverse(z.innerLength, t2);
    U16Inverse(z.receiptCount, t3);
    U16Inverse(0, t4);
    U32Inverse(z.journalLength, s);
  }

  // Texts

  /** A text of `n` declared bytes, at most `max` and, unless allowed, not empty. */
  function GetText(b: seq<byte>, n: nat, max: nat, allowEmpty: bool): (r: Parsed<string>)
    ensures r.Got? ==> b == Utf8.Encode(r.value) + r.rest
    ensures r.Got? ==> TextBytes(r.value) == n <= max && (allowEmpty || n > 0)
  {
    if n > max || (!allowEmpty && n == 0) then NoParse
    else
      var (bytes, rest) :- GetBytes(b, n);
      match Utf8.Decode(bytes)
      case None => NoParse
      case Some(text) => Got(text, rest)
  }

  lemma TextInverse(text: string, max: nat, allowEmpty: bool, s: seq<byte>)
    requires TextBytes(text) <= max && (allowEmpty || TextBytes(text) > 0)
    ensures GetText(Utf8.Encode(text) + s, TextBytes(text), max, allowEmpty) == Got(text, s)
  {
    Utf8.DecodeEncode(text);
  }

  // One receipt record

  datatype Lengths = Lengths(id: nat, command: nat, resultId: nat, resultCommand: nat, output: nat)
  {
    predicate Fits() {
      && id < 0x1_0000 && command < 0x1_0000 && resultId < 0x1_0000 && resultCommand < 0x1_0000
      && output < U32_FACTOR
    }
  }

  function PutLengths(n: Lengths): (b: seq<byte>)
    requires n.Fits()
    ensures |b| == 12
  {
    PutU16(n.id) + (PutU16(n.command) + (PutU16(n.resultId) + (PutU16(n.resultCommand) + PutU32(n.output))))
  }

  lemma LengthsTail(n: Lengths, s: seq<byte>)
    requires n.Fits()
    ensures PutLengths(n) + s ==
      PutU16(n.id) + (PutU16(n.command) + (PutU16(n.resultId) + (PutU16(n.resultCommand) + (PutU32(n.output) + s))))
  {
    hide PutU16, PutU32;
  }

  function GetLengths(b: seq<byte>): (r: Parsed<Lengths>)
    ensures r.Got? ==> r.value.Fits() && b == PutLengths(r.value) + r.rest
  {
    hide PutU16, GetU16, PutU32, GetU32;
    var (id, b1) :- GetU16(b);
    var (command, b2) :- GetU16(b1);
    var (resultId, b3) :- GetU16(b2);
    var (resultCommand, b4) :- GetU16(b3);
    var (output, b5) :- GetU32(b4);
    var n := Lengths(id, command, resultId, resultCommand, output);
    LengthsTail(n, b5);
    Got(n, b5)
  }

  lemma LengthsInverse(n: Lengths, s: seq<byte>)
    requires n.Fits()
    ensures GetLengths(PutLengths(n) + s) == Got(n, s)
  {
    hide PutU16, GetU16, PutU32, GetU32, PutLengths;
    LengthsTail(n, s);
    var t4 := PutU32(n.output) + s;
    var t3 := PutU16(n.resultCommand) + t4;
    var t2 := PutU16(n.resultId) + t3;
    var t1 := PutU16(n.command) + t2;
    U16Inverse(n.id, t1);
    U16Inverse(n.command, t2);
    U16Inverse(n.resultId, t3);
    U16Inverse(n.resultCommand, t4);
    U32Inverse(n.output, s);
  }

  datatype Revisions = Revisions(expected: nat, previous: nat, revision: nat)
  {
    predicate Fits() {
      expected <= MAX_SAFE && previous <= MAX_SAFE && revision <= MAX_SAFE
    }
  }

  function PutRevisions(v: Revisions): (b: seq<byte>)
    requires v.Fits()
    ensures |b| == 24
  {
    PutU64(v.expected) + (PutU64(v.previous) + PutU64(v.revision))
  }

  lemma RevisionsTail(v: Revisions, s: seq<byte>)
    requires v.Fits()
    ensures PutRevisions(v) + s == PutU64(v.expected) + (PutU64(v.previous) + (PutU64(v.revision) + s))
  {
    hide PutU64;
  }

  function GetRevisions(b: seq<byte>): (r: Parsed<Revisions>) {
    var (expected, b1) :- GetU64(b);
    var (previous, b2) :- GetU64(b1);
    var (revision, b3) :- GetU64(b2);
    Got(Revisions(expected, previous, revision), b3)
  }

  lemma RevisionsSound(b: seq<byte>)
    requires GetRevisions(b).Got?
    ensures var r := GetRevisions(b); r.value.Fits() && b == PutRevisions(r.value) + r.rest
  {
    hide PutU64, GetU64, PutRevisions;
    var Got(v, rest) := GetRevisions(b);
    RevisionsTail(v, rest);
  }

  lemma RevisionsInverse(v: Revisions, s: seq<byte>)
    requires v.Fits()
    ensures GetRevisions(PutRevisions(v) + s) == Got(v, s)
  {
    hide PutU64, GetU64, PutRevisions;
    RevisionsTail(v, s);
    var t2 := PutU64(v.revision) + s;
    var t1 := PutU64(v.previous) + t2;
    U64Inverse(v.expected, t1);
    U64Inverse(v.previous, t2);
    U64Inverse(v.revision, s);
  }

  /** The turn-complete flag, the boundary and the status pair. */
  function PutMarkers(boundary: Boundary, status: Status): (b: seq<byte>)
    ensures |b| == 4
  {
    PutU8(1) + (PutU8(BoundaryMarker(boundary)) + (PutU8(StatusMarker(status)) + PutU8(RejectionMarker(status))))
  }

  lemma MarkersTail(boundary: Boundary, status: Status, s: seq<byte>)
    ensures PutMarkers(boundary, status) + s ==
      PutU8(1) + (PutU8(BoundaryMarker(boundary)) + (PutU8(StatusMarker(status)) + (PutU8(RejectionMarker(status)) + s)))
  {
    hide PutU8, BoundaryMarker, StatusMarker, RejectionMarker;
  }

  function GetMarkers(b: seq<byte>): (r: Parsed<(Boundary, Status)>)
    ensures r.Got? ==> b == PutMarkers(r.value.0, r.value.1) + r.rest
  {
    hide PutU8, GetU8, BoundaryFromMarker, BoundaryMarker, StatusFromMarkers, StatusMarker, RejectionMarker;
    var (turnComplete, b1) :- GetU8(b);
    var (boundaryMarker, b2) :- GetU8(b1);
    var (statusMarker, b3) :- GetU8(b2);
    var (rejectionMarker, b4) :- GetU8(b3);
    var boundary := BoundaryFromMarker(boundaryMarker);
    var status := StatusFromMarkers(statusMarker, rejectionMarker);
    if turnComplete != 1 || boundary.None? || status.None? then NoParse
    else
      MarkersTail(boundary.value, status.value, b4);
      Got((boundary.value, status.value), b4)
  }

  lemma MarkersInverse(boundary: Boundary, status: Status, s: seq<byte>)
    ensures GetMarkers(PutMarkers(boundary, status) + s) == Got((boundary, status), s)
  {
    hide PutU8, GetU8, BoundaryFromMarker, BoundaryMarker, StatusFromMarkers, StatusMarker, RejectionMarker, PutMarkers;
    MarkersTail(boundary, status, s);
    var t3 := PutU8(RejectionMarker(status)) + s;
    var t2 := PutU8(StatusMarker(status)) + t3;
    var t1 := PutU8(BoundaryMarker(boundary)) + t2;
    U8Inverse(1, t1);
    U8Inverse(BoundaryMarker(boundary), t2);
    U8Inverse(StatusMarker(status), t3);
    U8Inverse(RejectionMarker(status), s);
  }

  /** The fixed part of a record. */
  datatype Head = Head(lengths: Lengths, revisions: Revisions, boundary: Boundary, status: Status)
  {
    predicate Fits() {
      lengths.Fits() && revisions.Fits()
    }
  }

  function HeadOf(r: Receipt): Head {
    Head(
      Lengths(
        TextBytes(r.requestId), TextBytes(r.command), TextBytes(r.result.requestId),
        TextBytes(r.result.command), TextBytes(r.result.output)),
      Revisions(r.expectedRevision, r.result.previousRevision, r.result.revision),
      r.result.boundary, r.result.status)
  }

  function PutHead(h: Head): (b: seq<byte>)
    requires h.Fits()
    ensures |b| == RECEIPT_FIXED_BYTES
  {
    PutLengths(h.lengths) + (PutRevisions(h.revisions) + PutMarkers(h.boundary, h.status))
  }

  function GetHead(b: seq<byte>): (r: Parsed<Head>) {
    var (lengths, b1) :- GetLengths(b);
    var (revisions, b2) :- GetRevisions(b1);
    var (markers, b3) :- GetMarkers(b2);
    Got(Head(lengths, revisions, markers.0, markers.1), b3)
  }

  lemma HeadSound(b: seq<byte>)
    requires GetHead(b).Got?
    ensures var r := GetHead(b); r.value.Fits() && b == PutHead(r.value) + r.rest
  {
    hide PutLengths, GetLengths, PutRevisions, GetRevisions, PutMarkers, GetMarkers;
    var Got(lengths, b1) := GetLengths(b);
    RevisionsSound(b1);
    var Got(revisions, b2) := GetRevisions(b1);
    var Got(markers, b3) := GetMarkers(b2);
    var m := PutMarkers(markers.0, markers.1);
    assert PutRevisions(revisions) + (m + b3) == (PutRevisions(revisions) + m) + b3;
    assert PutLengths(lengths) + ((PutRevisions(revisions) + m) + b3) == (PutLengths(lengths) + (PutRevisions(revisions) + m)) + b3;
  }

  lemma HeadInverse(h: Head, s: seq<byte>)
    requires h.Fits()
    ensures GetHead(PutHead(h) + s) == Got(h, s)
  {
    hide PutLengths, GetLengths, PutRevisions, GetRevisions, PutMarkers, GetMarkers;
    var t2 := PutMarkers(h.boundary, h.status) + s;
    var t1 := PutRevisions(h.revisions) + t2;
    assert PutHead(h) + s == PutLengths(h.lengths) + t1;
    LengthsInverse(h.lengths, t1);
    RevisionsInverse(h.revisions, t2);
    MarkersInverse(h.boundary, h.status, s);
  }

  lemma HeadFits(r: Receipt)
    requires ValidReceipt(r)
    ensures HeadOf(r).Fits()
  {
    CanonicalCommand.CanonicalBytes(r.command);
  }

  function PutTexts(r: Receipt): (b: seq<byte>)
    ensures |b| == PayloadBytes(r) - RECEIPT_FIXED_BYTES
  {
    Utf8.Encode(r.requestId) + (Utf8.Encode(r.command) + (Utf8.Encode(r.result.requestId)
    + (Utf8.Encode(r.result.command) + Utf8.Encode(r.result.output))))
  }

  /** Reads the texts that `h` declares; the record must end with the last of them. */
  function ParseTexts(h: Head, b: seq<byte>): (r: Option<Receipt>)
    ensures r.Some? ==> HeadOf(r.value) == h && b == PutTexts(r.value)
  {
    hide GetText;
    match GetText(b, h.lengths.id, MAX_REQUEST_ID_BYTES, false)
    case NoParse => None
    case Got(requestId, b1) =>
    match GetText(b1, h.lengths.command, MAX_COMMAND_BYTES, false)
    case NoParse => None
    case Got(command, b2) =>
    match GetText(b2, h.lengths.resultId, MAX_REQUEST_ID_BYTES, false)
    case NoParse => None
    case Got(resultId, b3) =>
    match GetText(b3, h.lengths.resultCommand, MAX_COMMAND_BYTES, false)
    case NoParse => None
    case Got(resultCommand, b4) =>
    match GetText(b4, h.lengths.output, MAX_OUTPUT_BYTES, true)
    case NoParse => None
    case Got(output, b5) =>
      if b5 != [] then None
      else
        assert b4 == Utf8.Encode(output);
        Some(Receipt(requestId, h.revisions.expected, command,
          ExecuteResult(resultId, h.revisions.previous, h.revisions.revision, resultCommand, output, h.boundary, h.status)))
  }

  /** A whole record: the fixed fields, the texts, and the checks on the receipt they make. */
  function ParseRecord(b: seq<byte>): (r: Option<Receipt>)
    ensures r.Some? ==> ValidReceipt(r.value)
  {
    match GetHead(b)
    case NoParse => None
    case Got(h, rest) =>
      var r :- ParseTexts(h, rest);
      if ValidReceipt(r) then Some(r) else None
  }

  /** The bytes of a record without its length prefix. */
  function PutRecord(r: Receipt): (b: seq<byte>)
    requires ValidReceipt(r)
    ensures |b| == PayloadBytes(r)
  {
    HeadFits(r);
    PutHead(HeadOf(r)) + PutTexts(r)
  }

  lemma RecordSound(b: seq<byte>)
    requires ParseRecord(b).Some?
    ensures b == PutRecord(ParseRecord(b).value)
  {
    hide GetHead, PutHead, ParseTexts, PutTexts, ValidReceipt;
    HeadSound(b);
  }

  lemma TextsInverse(r: Receipt)
    requires ValidReceipt(r)
    ensures ParseTexts(HeadOf(r), PutTexts(r)) == Some(r)
  {
    hide GetText, Utf8.Encode, CanonicalCommand.IsCanonical;
    CanonicalCommand.CanonicalBytes(r.command);
    var t4 := Utf8.Encode(r.result.output);
    var t3 := Utf8.Encode(r.result.command) + t4;
    var t2 := Utf8.Encode(r.result.requestId) + t3;
    var t1 := Utf8.Encode(r.command) + t2;
    TextInverse(r.requestId, MAX_REQUEST_ID_BYTES, false, t1);
    TextInverse(r.command, MAX_COMMAND_BYTES, false, t2);
    TextInverse(r.result.requestId, MAX_REQUEST_ID_BYTES, false, t3);
    TextInverse(r.result.command, MAX_COMMAND_BYTES, false, t4);
    TextInverse(r.result.output, MAX_OUTPUT_BYTES, true, []);
    assert t4 + [] == t4;
  }

  lemma RecordInverse(r: Receipt)
    requires ValidReceipt(r)
    ensures ParseRecord(PutRecord(r)) == Some(r)
  {
    hide GetHead, PutHead, ParseTexts, PutTexts, ValidReceipt;
    HeadFits(r);
    HeadInverse(HeadOf(r), PutTexts(r));
    TextsInverse(r);
  }

  // The journal

  /** The length-prefixed bytes of one receipt. */
  function PutReceipt(r: Receipt): (b: seq<byte>)
    requires ValidReceipt(r)
    ensures |b| == ReceiptBytes(r)
  {
    ReceiptBytesBounded(r);
    PutU32(PayloadBytes(r)) + PutRecord(r)
  }

  /** Reads one length-prefixed receipt. */
  function GetReceipt(b: seq<byte>): (r: Parsed<Receipt>)
    ensures r.Got? ==> ValidReceipt(r.value)
  {
    var (length, b1) :- GetU32(b);
    if length < RECEIPT_FIXED_BYTES then NoParse
    else
      var (record, b2) :- GetBytes(b1, length);
      match ParseRecord(record)
      case None => NoParse
      case Some(r) => Got(r, b2)
  }

  lemma ReceiptSound(b: seq<byte>)
    requires GetReceipt(b).Got?
    ensures b == PutReceipt(GetReceipt(b).value) + GetReceipt(b).rest
  {
    hide PutU32, GetU32, ParseRecord, PutRecord, ValidReceipt, PayloadBytes;
    var Got(length, b1) := GetU32(b);
    var Got(record, b2) := GetBytes(b1, length);
    RecordSound(record);
    assert PutU32(length) + (record + b2) == (PutU32(length) + record) + b2;
  }

  lemma ReceiptInverse(r: Receipt, s: seq<byte>)
    requires ValidReceipt(r)
    ensures GetReceipt(PutReceipt(r) + s) == Got(r, s)
  {
    hide PutU32, GetU32, ParseRecord, PutRecord, ValidReceipt, PayloadBytes;
    ReceiptBytesBounded(r);
    RecordInverse(r);
    var record := PutRecord(r);
    assert PutReceipt(r) + s == PutU32(PayloadBytes(r)) + (record + s);
    U32Inverse(PayloadBytes(r), record + s);
  }

  function PutJournal(rs: seq<Receipt>): (b: seq<byte>)
    requires ValidReceipts(rs)
  {
    if rs == [] then [] else PutReceipt(rs[0]) + PutJournal(rs[1..])
  }

  /** Exactly `count` receipts and nothing after them. */
  function ParseJournal(b: seq<byte>, count: nat): (r: Option<seq<Receipt>>)
    decreases count
  {
    if count == 0 then
      if b == [] then Some([]) else None
    else
      match GetReceipt(b)
      case NoParse => None
      case Got(first, rest) =>
        var others :- ParseJournal(rest, count - 1);
        Some([first] + others)
  }

  lemma {:induction false} JournalSound(b: seq<byte>, count: nat)
    requires ParseJournal(b, count).Some?
    ensures var rs := ParseJournal(b, count).value; |rs| == count && ValidReceipts(rs) && b == PutJournal(rs)
    decreases count
  {
    hide GetReceipt, PutReceipt, ValidReceipt;
    if count > 0 {
      var Got(first, rest) := GetReceipt(b);
      ReceiptSound(b);
      JournalSound(rest, count - 1);
      var others := ParseJournal(rest, count - 1).value;
      assert ([first] + others)[1..] == others;
    }
  }

  lemma {:induction false} JournalInverse(rs: seq<Receipt>)
    requires ValidReceipts(rs)
    ensures ParseJournal(PutJournal(rs), |rs|) == Some(rs)
    decreases |rs|
  {
    hide GetReceipt, PutReceipt, ValidReceipt;
    if rs != [] {
      ReceiptInverse(rs[0], PutJournal(rs[1..]));
      JournalInverse(rs[1..]);
      assert [rs[0]] + rs[1..] == rs;
    }
  }

  lemma {:induction false} PutJournalSnoc(rs: seq<Receipt>, r: Receipt)
    requires ValidReceipts(rs) && ValidReceipt(r)
    ensures ValidReceipts(rs + [r])
    ensures PutJournal(rs + [r]) == PutJournal(rs) + PutReceipt(r)
    decreases |rs|
  {
    hide PutReceipt, ValidReceipt;
    if rs == [] {
      assert [] + [r] == [r];
      assert PutJournal([r]) == PutReceipt(r) + [];
    } else {
      assert (rs + [r])[1..] == rs[1..] + [r];
      PutJournalSnoc(rs[1..], r);
    }
  }

  lemma {:induction false} PutJournalLength(rs: seq<Receipt>)
    requires ValidReceipts(rs)
    ensures |PutJournal(rs)| == JournalBytes(rs)
    decreases |rs|
  {
    hide PutReceipt, ValidReceipt;
    if rs != [] {
      var init, last := rs[..|rs| - 1], rs[|rs| - 1];
      assert rs == init + [last];
      PutJournalLength(init);
      PutJournalSnoc(init, last);
    }
  }

  // The envelope

  function SizesOf(e: Envelope): Sizes {
    Sizes(TextBytes(e.lastOutput), |e.innerCheckpoint|, |e.receipts|, JournalBytes(e.receipts))
  }

  function PutBody(e: Envelope): (b: seq<byte>)
    requires ValidReceipts(e.receipts)
  {
    Utf8.Encode(e.lastOutput) + (e.innerCheckpoint + PutJournal(e.receipts))
  }

  /** The bytes of a valid envelope. */
  ghost function Wire(e: Envelope): (b: seq<byte>)
    requires ValidEnvelope(e)
  {
    PutPrologue(TotalBytes(e)) + (PutPublic(e.revision, e.boundary) + (PutSizes(SizesOf(e)) + PutBody(e)))
  }

  lemma BodyLength(e: Envelope)
    requires ValidReceipts(e.receipts)
    ensures |PutBody(e)| == TotalBytes(e) - FIXED_BYTES
  {
    PutJournalLength(e.receipts);
  }

  /** The precomputed total is the number of bytes written. */
  lemma WireLength(e: Envelope)
    requires ValidEnvelope(e)
    ensures |Wire(e)| == TotalBytes(e) < MAX_TOTAL_BYTES
  {
    hide PutPrologue, PutPublic, PutSizes, PutBody, Coherent, ValidReceipts;
    BodyLength(e);
  }

  /** What follows the fixed fields: the last output, the inner checkpoint and the journal. */
  function ParseBody(revision: nat, boundary: Boundary, z: Sizes, b: seq<byte>): (r: Option<Envelope>)
  {
    match GetText(b, z.outputLength, MAX_OUTPUT_BYTES, true)
    case NoParse => None
    case Got(lastOutput, b1) =>
    match GetBytes(b1, z.innerLength)
    case NoParse => None
    case Got(inner, b2) =>
    match GetBytes(b2, z.journalLength)
    case NoParse => None
    case Got(journal, b3) =>
      var receipts :- ParseJournal(journal, z.receiptCount);
      if b3 != [] then None
      else
        Some(Envelope(revision, lastOutput, boundary, inner, receipts))
  }

  lemma BodySound(revision: nat, boundary: Boundary, z: Sizes, b: seq<byte>)
    requires ParseBody(revision, boundary, z, b).Some?
    ensures var e := ParseBody(revision, boundary, z, b).value;
      && ValidReceipts(e.receipts) && b == PutBody(e) && SizesOf(e) == z && e.revision == revision && e.boundary == boundary
      && TextBytes(e.lastOutput) <= MAX_OUTPUT_BYTES
  {
    hide GetText, ParseJournal, PutJournal, ValidReceipts;
    var Got(lastOutput, b1) := GetText(b, z.outputLength, MAX_OUTPUT_BYTES, true);
    var Got(inner, b2) := GetBytes(b1, z.innerLength);
    var Got(journal, b3) := GetBytes(b2, z.journalLength);
    JournalSound(journal, z.receiptCount);
    PutJournalLength(ParseJournal(journal, z.receiptCount).value);
    assert b2 == journal;
  }

  lemma BodyInverse(e: Envelope)
    requires ValidReceipts(e.receipts) && TextBytes(e.lastOutput) <= MAX_OUTPUT_BYTES
    ensures ParseBody(e.revision, e.boundary, SizesOf(e), PutBody(e)) == Some(e)
  {
    hide GetText, ParseJournal, PutJournal, ValidReceipts;
    PutJournalLength(e.receipts);
    var journal := PutJournal(e.receipts);
    TextInverse(e.lastOutput, MAX_OUTPUT_BYTES, true, e.innerCheckpoint + journal);
    assert journal + [] == journal;
    JournalInverse(e.receipts);
  }

  ghost function ParseEnvelope(b: seq<byte>): (r: Option<Envelope>) {
    if |b| > MAX_TOTAL_BYTES then None
    else
      match GetPrologue(b)
      case NoParse => None
      case Got(total, b1) =>
      match GetPublic(b1)
      case NoParse => None
      case Got(public, b2) =>
      match GetSizes(b2)
      case NoParse => None
      case Got(z, b3) =>
        if total != |b| || !z.Allowed() then None
        else
          var e :- ParseBody(public.0, public.1, z, b3);
          if Coherent(e.receipts, e.State()) then Some(e) else None
  }

  /** Whatever is accepted is the encoding of the envelope it is decoded to. */
  lemma ParseSound(b: seq<byte>)
    requires ParseEnvelope(b).Some?
    ensures ValidEnvelope(ParseEnvelope(b).value)
    ensures b == Wire(ParseEnvelope(b).value)
  {
    hide GetPrologue, PutPrologue, GetPublic, PutPublic, GetSizes, PutSizes, ParseBody, PutBody, Coherent,
      ValidReceipts;
    var e := ParseEnvelope(b).value;
    PrologueSound(b);
    var Got(total, b1) := GetPrologue(b);
    PublicSound(b1);
    var Got(public, b2) := GetPublic(b1);
    var Got(z, b3) := GetSizes(b2);
    BodySound(public.0, public.1, z, b3);
    BodyLength(e);
  }

  /** Decoding what was encoded gives back the envelope. */
  lemma EnvelopeInverse(e: Envelope)
    requires ValidEnvelope(e)
    ensures ParseEnvelope(Wire(e)) == Some(e)
  {
    hide GetPrologue, PutPrologue, GetPublic, PutPublic, GetSizes, PutSizes, ParseBody, PutBody, Coherent,
      ValidReceipts;
    WireLength(e);
    var t2 := PutSizes(SizesOf(e)) + PutBody(e);
    PrologueInverse(TotalBytes(e), PutPublic(e.revision, e.boundary) + t2);
    PublicInverse(e.revision, e.boundary, t2);
    SizesInverse(SizesOf(e), PutBody(e));
    BodyInverse(e);
  }

  /** The codec is canonical: accepted bytes are exactly the encodings of valid envelopes. */
  lemma Canonical(b: seq<byte>, e: Envelope)
    ensures ParseEnvelope(b) == Some(e) <==> ValidEnvelope(e) && b == Wire(e)
  {
    hide ParseEnvelope, Wire, ValidEnvelope;
    if ParseEnvelope(b) == Some(e) {
      ParseSound(b);
    } else if ValidEnvelope(e) && b == Wire(e) {
      EnvelopeInverse(e);
    }
  }
}
