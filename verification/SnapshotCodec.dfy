/**
 The worker-snapshot encoder and decoder as they run: a presized writer, a
 cursor reader, and the loops over the receipt journal.
 */
module SnapshotCodec {
  import opened Wrappers
  import opened Bytes
  import opened Binary
  import opened EngineTypes
  import opened Journal
  import opened SnapshotFormat
  import CanonicalCommand
  import SnapshotLayout
  import Utf8

  // Preparation

  /** Refuses by UTF-16 length before encoding, then by the bytes themselves. */
  function EncodeBounded(value: string, max: nat, allowEmpty: bool): (r: Option<seq<byte>>)
    ensures r.Some? <==> TextBytes(value) <= max && (allowEmpty || TextBytes(value) > 0)
    ensures r.Some? ==> r.value == Utf8.Encode(value)
  {
    Utf8.Utf16NeverLonger(value);
    if !allowEmpty && value == "" then None
    else if Utf8.Utf16Length(value) > max then None
    else
      var bytes := Utf8.Encode(value);
      if |bytes| > max then None else Some(bytes)
  }

  /** `None` is the limit error. */
  function AddSize(total: nat, amount: nat, max: nat): (r: Option<nat>)
    ensures r == if total + amount <= max then Some(total + amount) else None
  {
    if total + amount > max then None else Some(total + amount)
  }

  datatype PreparedReceipt = PreparedReceipt(
    value: Receipt,
    requestId: seq<byte>, command: seq<byte>, resultId: seq<byte>, resultCommand: seq<byte>, output: seq<byte>,
    payloadBytes: nat, encodedBytes: nat)

  /** The prepared form of `r`: its texts as bytes and its exact sizes. */
  ghost predicate Prepares(p: PreparedReceipt, r: Receipt) {
    && p.value == r
    && p.requestId == Utf8.Encode(r.requestId) && p.command == Utf8.Encode(r.command)
    && p.resultId == Utf8.Encode(r.result.requestId) && p.resultCommand == Utf8.Encode(r.result.command)
    && p.output == Utf8.Encode(r.result.output)
    && p.payloadBytes == PayloadBytes(r) && p.encodedBytes == ReceiptBytes(r)
  }

  function PrepareCommand(command: string): (r: Option<seq<byte>>)
    ensures r.Some? <==> CanonicalCommand.IsCanonical(command)
    ensures r.Some? ==> r.value == Utf8.Encode(command)
  {
    CanonicalCommand.CanonicalShape(command);
    if Utf8.Utf16Length(command) > CanonicalCommand.MAX_LENGTH then None
    else if CanonicalCommand.Canonicalize(command) != Some(command) then None
    else
      CanonicalCommand.CanonicalBytes(command);
      EncodeBounded(command, MAX_COMMAND_BYTES, false)
  }

  /** The status-dependent part of the result check. */
  predicate AdvancesProperly(r: ExecuteResult) {
    match r.status
    case Committed => r.revision == r.previousRevision + 1 && r.previousRevision + 1 <= MAX_SAFE
    case Rejected(_) => r.previousRevision == r.revision
  }

  predicate AgreesWithResult(r: Receipt) {
    && r.requestId == r.result.requestId
    && r.command == r.result.command
    && !(r.result.status == Committed && r.expectedRevision != r.result.previousRevision)
    && !(r.result.status == Rejected(StaleRevision) && r.expectedRevision == r.result.revision)
  }

  /** The sizes of a record and of its length-prefixed form. */
  function SizeReceipt(id: nat, command: nat, resultId: nat, resultCommand: nat, output: nat): (r: Option<(nat, nat)>)
    ensures var n := RECEIPT_FIXED_BYTES + id + command + resultId + resultCommand + output;
      r == if LENGTH_PREFIX_BYTES + n <= MAX_JOURNAL_BYTES then Some((n, LENGTH_PREFIX_BYTES + n)) else None
  {
    var n1 :- AddSize(RECEIPT_FIXED_BYTES, id, MAX_JOURNAL_BYTES);
    var n2 :- AddSize(n1, command, MAX_JOURNAL_BYTES);
    var n3 :- AddSize(n2, resultId, MAX_JOURNAL_BYTES);
    var n4 :- AddSize(n3, resultCommand, MAX_JOURNAL_BYTES);
    var payload :- AddSize(n4, output, MAX_JOURNAL_BYTES);
    var encoded :- AddSize(LENGTH_PREFIX_BYTES, payload, MAX_JOURNAL_BYTES);
    Some((payload, encoded))
  }

  /** Validates one receipt, encodes its texts and sizes its record; `None` is any codec error. */
  function PrepareReceipt(r: Receipt): (p: Option<PreparedReceipt>)
    ensures p.Some? <==> ValidReceipt(r)
    ensures p.Some? ==> Prepares(p.value, r)
  {
    var requestId :- EncodeBounded(r.requestId, MAX_REQUEST_ID_BYTES, false);
    if r.expectedRevision > MAX_SAFE then None
    else
      var command :- PrepareCommand(r.command);
      var resultId :- EncodeBounded(r.result.requestId, MAX_REQUEST_ID_BYTES, false);
      var resultCommand :- PrepareCommand(r.result.command);
      var output :- EncodeBounded(r.result.output, MAX_OUTPUT_BYTES, true);
      if r.result.previousRevision > MAX_SAFE || r.result.revision > MAX_SAFE || !AdvancesProperly(r.result) then None
      else if !AgreesWithResult(r) then None
      else
        match SizeReceipt(|requestId|, |command|, |resultId|, |resultCommand|, |output|)
        case None => None
        case Some((payload, encoded)) =>
          Some(PreparedReceipt(r, requestId, command, resultId, resultCommand, output, payload, encoded))
  }

  // Validation of a journal against the public state

  ghost predicate ProducedOnce(rs: seq<Receipt>) {
    forall i, j, k :: Produces(rs, i, k) && Produces(rs, j, k) ==> i == j
  }

  predicate AllFit(rs: seq<Receipt>, s: PublicState) {
    forall i :: 0 <= i < |rs| ==> FitsState(rs[i].result, s)
  }

  /** Everything the journal check asks of receipts one by one and of pairs of receipts. */
  ghost predicate Consistent(rs: seq<Receipt>, s: PublicState) {
    DistinctIds(rs) && AllFit(rs, s) && ProducedOnce(rs)
  }

  lemma RequestIdsSnoc(rs: seq<Receipt>, r: Receipt)
    ensures RequestIds(rs + [r]) == RequestIds(rs) + {r.requestId}
  {
    var all, n := rs + [r], |rs|;
    forall id | id in RequestIds(rs) + {r.requestId}
      ensures id in RequestIds(all)
    {
      if id in RequestIds(rs) {
        var j :| 0 <= j < n && rs[j].requestId == id;
        assert all[j].requestId == id;
      } else {
        assert all[n].requestId == id;
      }
    }
  }

  lemma DistinctIdsSnoc(rs: seq<Receipt>, r: Receipt)
    requires DistinctIds(rs)
    ensures DistinctIds(rs + [r]) <==> r.requestId !in RequestIds(rs)
    ensures RequestIds(rs + [r]) == RequestIds(rs) + {r.requestId}
  {
    RequestIdsSnoc(rs, r);
    var all, n := rs + [r], |rs|;
    if r.requestId in RequestIds(rs) {
      var j :| 0 <= j < n && rs[j].requestId == r.requestId;
      assert all[j].requestId == all[n].requestId;
    } else {
      forall i, j | 0 <= i < j < |all|
        ensures all[i].requestId != all[j].requestId
      {
        assert rs[i].requestId in RequestIds(rs);
      }
    }
  }

  lemma ProducedOnceSnoc(rs: seq<Receipt>, r: Receipt)
    requires ProducedOnce(rs)
    ensures ProducedOnce(rs + [r]) <==> (r.result.status == Committed ==> r.result.revision !in CommittedRevisions(rs))
  {
    var all, n := rs + [r], |rs|;
    if r.result.status == Committed && r.result.revision in CommittedRevisions(rs) {
      var j :| 0 <= j < n && rs[j].result.status == Committed && rs[j].result.revision == r.result.revision;
      assert Produces(all, j, r.result.revision) && Produces(all, n, r.result.revision);
    } else {
      forall i, j, k | Produces(all, i, k) && Produces(all, j, k)
        ensures i == j
      {
        assert i < n ==> Produces(rs, i, k) && k in CommittedRevisions(rs);
        assert j < n ==> Produces(rs, j, k) && k in CommittedRevisions(rs);
      }
    }
  }

  lemma CommittedRevisionsSnoc(rs: seq<Receipt>, r: Receipt)
    ensures CommittedRevisions(rs + [r]) ==
      CommittedRevisions(rs) + if r.result.status == Committed then {r.result.revision} else {}
  {
    var all, n := rs + [r], |rs|;
    forall k | k in CommittedRevisions(rs)
      ensures k in CommittedRevisions(all)
    {
      var j :| 0 <= j < n && rs[j].result.status == Committed && rs[j].result.revision == k;
      assert all[j] == rs[j];
    }
    assert all[n] == r;
    forall k | k in CommittedRevisions(all) && k !in CommittedRevisions(rs)
      ensures r.result.status == Committed && k == r.result.revision
    {
      var j :| 0 <= j < |all| && all[j].result.status == Committed && all[j].result.revision == k;
      assert j < n ==> all[j] == rs[j];
    }
  }

  lemma AllFitSnoc(rs: seq<Receipt>, r: Receipt, s: PublicState)
    ensures AllFit(rs + [r], s) <==> AllFit(rs, s) && FitsState(r.result, s)
  {
    var all := rs + [r];
    assert forall i :: 0 <= i < |rs| ==> all[i] == rs[i];
    assert all[|rs|] == r;
  }

  lemma ConsistentPrefix(rs: seq<Receipt>, n: nat, s: PublicState)
    requires n <= |rs| && Consistent(rs, s)
    ensures Consistent(rs[..n], s)
  {
    assert forall i :: 0 <= i < n ==> rs[..n][i] == rs[i];
    forall i, j, k | Produces(rs[..n], i, k) && Produces(rs[..n], j, k)
      ensures i == j
    {
      assert Produces(rs, i, k) && Produces(rs, j, k);
    }
  }

  /** The first loop: the set of committed revisions, or `None` at the first inconsistent receipt. */
  method CollectCommitted(receipts: seq<Receipt>, state: PublicState) returns (r: Option<set<nat>>)
    ensures r.Some? <==> Consistent(receipts, state)
    ensures r.Some? ==> r.value == CommittedRevisions(receipts)
  {
    hide RequestIds, CommittedRevisions, DistinctIds, AllFit, ProducedOnce;
    var requestIds: set<string> := {};
    var committed: set<nat> := {};
    assert requestIds == RequestIds([]) && committed == CommittedRevisions([]) && Consistent([], state) by {
      EmptyJournal(state);
    }
    for i := 0 to |receipts|
      invariant requestIds == RequestIds(receipts[..i])
      invariant committed == CommittedRevisions(receipts[..i])
      invariant Consistent(receipts[..i], state)
    {
      var result := receipts[i].result;
      assert receipts[..i + 1] == receipts[..i] + [receipts[i]];
      DistinctIdsSnoc(receipts[..i], receipts[i]);
      ProducedOnceSnoc(receipts[..i], receipts[i]);
      CommittedRevisionsSnoc(receipts[..i], receipts[i]);
      AllFitSnoc(receipts[..i], receipts[i], state);
      if Consistent(receipts, state) {
        ConsistentPrefix(receipts, i + 1, state);
      }
      if receipts[i].requestId in requestIds {
        return None;
      }
      requestIds := requestIds + {receipts[i].requestId};
      if result.previousRevision > state.revision || result.revision > state.revision {
        return None;
      }
      if result.status == Committed {
        if result.revision in committed {
          return None;
        }
        committed := committed + {result.revision};
        if result.revision == state.revision && (result.output != state.lastOutput || result.boundary != state.boundary) {
          return None;
        }
      }
      if result.revision == state.revision && result.boundary != state.boundary {
        return None;
      }
    }
    assert receipts[..|receipts|] == receipts;
    return Some(committed);
  }

  lemma EmptyJournal(s: PublicState)
    ensures RequestIds([]) == {} && CommittedRevisions([]) == {} && Consistent([], s)
  {
  }

  /**
   The second loop runs over revisions that may be as large as the greatest
   safe integer, yet `probes` exceeds the number of committed revisions by at
   most one: a missing revision stops it.
   */
  method Covers(committed: set<nat>, revision: nat) returns (ok: bool, ghost probes: nat)
    ensures ok <==> Range(revision) <= committed
    ensures probes <= |committed| + 1
  {
    probes := 0;
    var k := 1;
    while k <= revision
      invariant 1 <= k <= revision + 1
      invariant Range(k - 1) <= committed
      invariant probes == k - 1
    {
      probes := probes + 1;
      CardinalityMonotone(Range(k - 1), committed);
      if k !in committed {
        assert k in Range(revision);
        return false, probes;
      }
      k := k + 1;
    }
    CardinalityMonotone(Range(k - 1), committed);
    return true, probes;
  }

  lemma CoherentParts(rs: seq<Receipt>, s: PublicState)
    ensures Coherent(rs, s) <==> Consistent(rs, s) && Range(s.revision) <= CommittedRevisions(rs)
  {
    forall k: nat | k in CommittedRevisions(rs)
      ensures Produced(rs, k)
    {
      var i :| 0 <= i < |rs| && rs[i].result.status == Committed && rs[i].result.revision == k;
      assert Produces(rs, i, k);
    }
    if Coherent(rs, s) {
      forall k | k in Range(s.revision)
        ensures k in CommittedRevisions(rs)
      {
        assert Produced(rs, k);
        var i :| Produces(rs, i, k);
      }
    } else if Consistent(rs, s) && Range(s.revision) <= CommittedRevisions(rs) {
      forall k: nat | 1 <= k <= s.revision
        ensures Produced(rs, k)
      {
        assert k in Range(s.revision);
      }
    }
  }

  /** The journal check: accepts exactly the coherent journals, within one probe more than there are receipts. */
  method ValidateReceipts(receipts: seq<Receipt>, state: PublicState) returns (ok: bool, ghost probes: nat)
    ensures ok <==> Coherent(receipts, state)
    ensures probes <= |receipts| + 1
  {
    hide Coherent, Consistent, CommittedRevisions;
    CoherentParts(receipts, state);
    CommittedAtMostReceipts(receipts);
    var committed := CollectCommitted(receipts, state);
    if committed == None {
      return false, 0;
    }
    ok, probes := Covers(committed.value, state.revision);
  }

  lemma {:induction false} CardinalityMonotone<T>(a: set<T>, b: set<T>)
    requires a <= b
    ensures |a| <= |b|
  {
    assert b == a + (b - a);
  }

  // Encoding

  datatype PreparedEnvelope = PreparedEnvelope(
    lastOutput: seq<byte>, receipts: seq<PreparedReceipt>, journalBytes: nat, totalBytes: nat)

  ghost predicate PreparesEnvelope(p: PreparedEnvelope, e: Envelope) {
    && p.lastOutput == Utf8.Encode(e.lastOutput)
    && |p.receipts| == |e.receipts|
    && (forall i :: 0 <= i < |e.receipts| ==> Prepares(p.receipts[i], e.receipts[i]))
    && p.journalBytes == JournalBytes(e.receipts)
    && p.totalBytes == TotalBytes(e)
  }

  /** Validates and sizes every receipt and adds up the journal; `None` is any codec error. */
  method PrepareJournal(receipts: seq<Receipt>) returns (r: Option<(seq<PreparedReceipt>, nat)>)
    ensures r.Some? <==> ValidReceipts(receipts) && JournalBytes(receipts) <= MAX_JOURNAL_BYTES
    ensures r.Some? ==>
      && |r.value.0| == |receipts|
      && (forall i :: 0 <= i < |receipts| ==> Prepares(r.value.0[i], receipts[i]))
      && r.value.1 == JournalBytes(receipts)
  {
    hide ValidReceipt, PrepareReceipt, Prepares;
    var prepared: seq<PreparedReceipt> := [];
    for i := 0 to |receipts|
      invariant |prepared| == i
      invariant forall j :: 0 <= j < i ==> ValidReceipt(receipts[j]) && Prepares(prepared[j], receipts[j])
    {
      var p := PrepareReceipt(receipts[i]);
      if p == None {
        return None;
      }
      prepared := prepared + [p.value];
    }
    var journalBytes := 0;
    for i := 0 to |receipts|
      invariant journalBytes == JournalBytes(receipts[..i]) <= MAX_JOURNAL_BYTES
    {
      assert prepared[i].encodedBytes == ReceiptBytes(receipts[i]) by { PreparedSize(prepared[i], receipts[i]); }
      assert receipts[..i + 1] == receipts[..i] + [receipts[i]];
      JournalBytesSnoc(receipts[..i], receipts[i]);
      JournalBytesPrefix(receipts, i + 1);
      var sum := AddSize(journalBytes, prepared[i].encodedBytes, MAX_JOURNAL_BYTES);
      if sum == None {
        return None;
      }
      journalBytes := sum.value;
    }
    assert receipts[..|receipts|] == receipts;
    return Some((prepared, journalBytes));
  }

  lemma PreparedSize(p: PreparedReceipt, r: Receipt)
    requires Prepares(p, r)
    ensures p.encodedBytes == ReceiptBytes(r)
  {
  }

  function SizeEnvelope(lastOutput: nat, inner: nat, journal: nat): (r: Option<nat>)
    ensures var n := FIXED_BYTES + lastOutput + inner + journal;
      r == if n <= MAX_TOTAL_BYTES then Some(n) else None
  {
    var n1 :- AddSize(FIXED_BYTES, lastOutput, MAX_TOTAL_BYTES);
    var n2 :- AddSize(n1, inner, MAX_TOTAL_BYTES);
    AddSize(n2, journal, MAX_TOTAL_BYTES)
  }

  method PrepareEnvelope(e: Envelope) returns (r: Option<PreparedEnvelope>)
    ensures r.Some? <==> ValidEnvelope(e)
    ensures r.Some? ==> PreparesEnvelope(r.value, e)
  {
    hide Prepares, Coherent, ValidReceipts, JournalBytes;
    if e.revision > MAX_SAFE {
      return None;
    }
    var lastOutput := EncodeBounded(e.lastOutput, MAX_OUTPUT_BYTES, true);
    if lastOutput == None || |e.innerCheckpoint| < MIN_INNER_BYTES || |e.innerCheckpoint| > MAX_INNER_BYTES
      || |e.receipts| > MAX_RECEIPTS {
      return None;
    }
    var journal := PrepareJournal(e.receipts);
    if journal == None {
      return None;
    }
    var coherent, _ := ValidateReceipts(e.receipts, e.State());
    if !coherent {
      return None;
    }
    var total := SizeEnvelope(|lastOutput.value|, |e.innerCheckpoint|, journal.value.1);
    if total == None {
      return None;
    }
    return Some(PreparedEnvelope(lastOutput.value, journal.value.0, journal.value.1, total.value));
  }

  method WriteLengths(w: BinaryWriter, n: Lengths)
    requires w.Valid() && w.Room(12) && n.Fits()
    modifies w, w.bytes
    ensures w.Valid() && w.Written() == old(w.Written()) + PutLengths(n)
  {
    hide PutU16, PutU32;
    w.U16(n.id);
    w.U16(n.command);
    w.U16(n.resultId);
    w.U16(n.resultCommand);
    w.U32(n.output);
  }

  method WriteRevisions(w: BinaryWriter, v: Revisions)
    requires w.Valid() && w.Room(24) && v.Fits()
    modifies w, w.bytes
    ensures w.Valid() && w.Written() == old(w.Written()) + PutRevisions(v)
  {
    hide PutU64;
    w.U64(v.expected);
    w.U64(v.previous);
    w.U64(v.revision);
  }

  method WriteMarkers(w: BinaryWriter, boundary: Boundary, status: Status)
    requires w.Valid() && w.Room(4)
    modifies w, w.bytes
    ensures w.Valid() && w.Written() == old(w.Written()) + PutMarkers(boundary, status)
  {
    hide PutU8, BoundaryMarker, StatusMarker, RejectionMarker;
    w.U8(1);
    w.U8(BoundaryMarker(boundary));
    w.U8(StatusMarker(status));
    w.U8(RejectionMarker(status));
  }

  method WriteTexts(w: BinaryWriter, p: PreparedReceipt, ghost r: Receipt)
    requires w.Valid() && Prepares(p, r) && w.Room(PayloadBytes(r) - RECEIPT_FIXED_BYTES)
    modifies w, w.bytes
    ensures w.Valid() && w.Written() == old(w.Written()) + PutTexts(r)
  {
    hide Utf8.Encode;
    w.Bytes(p.requestId);
    w.Bytes(p.command);
    w.Bytes(p.resultId);
    w.Bytes(p.resultCommand);
    w.Bytes(p.output);
  }

  /** Writes one length-prefixed record. */
  method WriteReceipt(w: BinaryWriter, p: PreparedReceipt, ghost r: Receipt)
    requires w.Valid() && ValidReceipt(r) && Prepares(p, r) && w.Room(ReceiptBytes(r))
    modifies w, w.bytes
    ensures w.Valid() && w.Written() == old(w.Written()) + PutReceipt(r)
  {
    hide ValidReceipt, PutU32, PutLengths, PutRevisions, PutMarkers, PutTexts, PutReceipt;
    HeadFits(r);
    ReceiptBytesBounded(r);
    JoinReceipt(w.Written(), r);
    w.U32(p.payloadBytes);
    WriteLengths(w, Lengths(|p.requestId|, |p.command|, |p.resultId|, |p.resultCommand|, |p.output|));
    WriteRevisions(w, Revisions(p.value.expectedRevision, p.value.result.previousRevision, p.value.result.revision));
    WriteMarkers(w, p.value.result.boundary, p.value.result.status);
    WriteTexts(w, p, r);
  }

  /** A record as the writer produces it, part after part. */
  lemma JoinReceipt(s: seq<byte>, r: Receipt)
    requires ValidReceipt(r)
    ensures HeadOf(r).Fits() && PayloadBytes(r) < U32_FACTOR
    ensures s + PutU32(PayloadBytes(r)) + PutLengths(HeadOf(r).lengths) + PutRevisions(HeadOf(r).revisions)
      + PutMarkers(r.result.boundary, r.result.status) + PutTexts(r) == s + PutReceipt(r)
  {
    hide ValidReceipt, PutU32, PutLengths, PutRevisions, PutMarkers, PutTexts;
    HeadFits(r);
    ReceiptBytesBounded(r);
    var h := HeadOf(r);
    var a, b, c := PutLengths(h.lengths), PutRevisions(h.revisions), PutMarkers(h.boundary, h.status);
    assert a + (b + (c + PutTexts(r))) == (a + (b + c)) + PutTexts(r);
  }

  lemma EmptyBytes()
    ensures PutJournal([]) == [] && JournalBytes([]) == 0
  {
  }

  method WriteJournal(w: BinaryWriter, prepared: seq<PreparedReceipt>, ghost rs: seq<Receipt>)
    requires ValidReceipts(rs) && |prepared| == |rs|
    requires forall i :: 0 <= i < |rs| ==> Prepares(prepared[i], rs[i])
    requires w.Valid() && w.Room(JournalBytes(rs))
    modifies w, w.bytes
    ensures w.Valid() && w.Written() == old(w.Written()) + PutJournal(rs)
    ensures w.offset == old(w.offset) + JournalBytes(rs)
  {
    hide Prepares, ValidReceipt, PutReceipt, ReceiptBytes, PutJournal, JournalBytes;
    ghost var before := w.Written();
    assert rs[..0] == [] && before + PutJournal([]) == before && JournalBytes([]) == 0 by {
      EmptyBytes();
    }
    for i := 0 to |prepared|
      invariant w.Valid()
      invariant w.Written() == before + PutJournal(rs[..i])
      invariant w.offset == |before| + JournalBytes(rs[..i])
    {
      assert rs[..i + 1] == rs[..i] + [rs[i]];
      JournalBytesSnoc(rs[..i], rs[i]);
      JournalBytesPrefix(rs, i + 1);
      PutJournalSnoc(rs[..i], rs[i]);
      WriteReceipt(w, prepared[i], rs[i]);
      assert w.Written() == before + (PutJournal(rs[..i]) + PutReceipt(rs[i]));
    }
    assert rs[..|rs|] == rs;
  }

  /**
   Encodes exactly the valid envelopes, each to its wire form; the presized buffer is filled exactly, with every field
   at its offset.
   */
  method Encode(e: Envelope) returns (r: Option<seq<byte>>)
    ensures r.Some? <==> ValidEnvelope(e)
    ensures r.Some? ==> r.value == Wire(e) && SnapshotLayout.Laid(r.value, e)
  {
    hide SnapshotLayout.Laid, Prepares, Coherent, ValidReceipts, JournalBytes, PutPrologue, PutPublic, PutSizes, PutJournal, Utf8.Encode;
    var prepared := PrepareEnvelope(e);
    if prepared == None {
      return None;
    }
    var p := prepared.value;
    CapsCompose(e);
    var w := new BinaryWriter(p.totalBytes);
    WritePrologue(w, p.totalBytes);
    WritePublic(w, e.revision, e.boundary);
    WriteSizes(w, Sizes(|p.lastOutput|, |e.innerCheckpoint|, |p.receipts|, p.journalBytes));
    w.Bytes(p.lastOutput);
    w.Bytes(e.innerCheckpoint);
    WriteJournal(w, p.receipts, e.receipts);
    JoinWire(e);
    SnapshotLayout.WireLaid(e);
    r := w.Finish();
  }

  /** The wire form as the writer produces it, part after part. */
  lemma JoinWire(e: Envelope)
    requires ValidEnvelope(e)
    ensures Wire(e) == [] + PutPrologue(TotalBytes(e)) + PutPublic(e.revision, e.boundary) + PutSizes(SizesOf(e))
      + Utf8.Encode(e.lastOutput) + e.innerCheckpoint + PutJournal(e.receipts)
  {
    hide Coherent, ValidReceipts, JournalBytes, PutPrologue, PutPublic, PutSizes, PutJournal, Utf8.Encode;
    var a, b, c := PutPrologue(TotalBytes(e)), PutPublic(e.revision, e.boundary), PutSizes(SizesOf(e));
    var x, y, z := Utf8.Encode(e.lastOutput), e.innerCheckpoint, PutJournal(e.receipts);
    assert [] + a == a;
  }

  method WritePrologue(w: BinaryWriter, total: nat)
    requires w.Valid() && w.Room(16) && total < U32_FACTOR
    modifies w, w.bytes
    ensures w.Valid() && w.Written() == old(w.Written()) + PutPrologue(total)
  {
    hide PutU16, PutU32;
    w.Bytes(MAGIC);
    w.U16(SCHEMA_VERSION);
    w.U16(0);
    w.U32(total);
  }

  method WritePublic(w: BinaryWriter, revision: nat, boundary: Boundary)
    requires w.Valid() && w.Room(12) && revision <= MAX_SAFE
    modifies w, w.bytes
    ensures w.Valid() && w.Written() == old(w.Written()) + PutPublic(revision, boundary)
  {
    hide PutU8, PutU16, PutU64, BoundaryMarker;
    w.U64(revision);
    w.U8(BoundaryMarker(boundary));
    w.U8(0);
    w.U16(0);
  }

  method WriteSizes(w: BinaryWriter, z: Sizes)
    requires w.Valid() && w.Room(16) && z.Fits()
    modifies w, w.bytes
    ensures w.Valid() && w.Written() == old(w.Written()) + PutSizes(z)
  {
    hide PutU16, PutU32;
    w.U32(z.outputLength);
    w.U32(z.innerLength);
    w.U16(z.receiptCount);
    w.U16(0);
    w.U32(z.journalLength);
  }

  // Decoding

  method ReadText(reader: BinaryReader, n: nat, max: nat, allowEmpty: bool) returns (r: Option<string>)
    requires reader.Valid()
    modifies reader
    ensures reader.Valid()
    ensures match GetText(old(reader.Rest()), n, max, allowEmpty)
      case NoParse => r == None
      case Got(value, rest) => r == Some(value) && reader.Rest() == rest
  {
    hide Utf8.Decode, Utf8.Encode;
    if n > max || (!allowEmpty && n == 0) {
      return None;
    }
    var bytes :- reader.Bytes(n);
    r := Utf8.Decode(bytes);
  }

  method ReadLengths(reader: BinaryReader) returns (r: Option<Lengths>)
    requires reader.Valid()
    modifies reader
    ensures reader.Valid()
    ensures match GetLengths(old(reader.Rest()))
      case NoParse => r == None
      case Got(value, rest) => r == Some(value) && reader.Rest() == rest
  {
    hide GetU16, GetU32;
    var id :- reader.U16();
    var command :- reader.U16();
    var resultId :- reader.U16();
    var resultCommand :- reader.U16();
    var output :- reader.U32();
    return Some(Lengths(id, command, resultId, resultCommand, output));
  }

  method ReadRevisions(reader: BinaryReader) returns (r: Option<Revisions>)
    requires reader.Valid()
    modifies reader
    ensures reader.Valid()
    ensures match GetRevisions(old(reader.Rest()))
      case NoParse => r == None
      case Got(value, rest) => r == Some(value) && reader.Rest() == rest
  {
    hide GetU64;
    var expected :- reader.SafeU64();
    var previous :- reader.SafeU64();
    var revision :- reader.SafeU64();
    return Some(Revisions(expected, previous, revision));
  }

  method ReadMarkers(reader: BinaryReader) returns (r: Option<(Boundary, Status)>)
    requires reader.Valid()
    modifies reader
    ensures reader.Valid()
    ensures match GetMarkers(old(reader.Rest()))
      case NoParse => r == None
      case Got(value, rest) => r == Some(value) && reader.Rest() == rest
  {
    hide GetU8, BoundaryFromMarker, StatusFromMarkers;
    var turnComplete :- reader.U8();
    var boundaryMarker :- reader.U8();
    var statusMarker :- reader.U8();
    var rejectionMarker :- reader.U8();
    if turnComplete != 1 {
      return None;
    }
    var boundary := BoundaryFromMarker(boundaryMarker);
    if boundary == None {
      return None;
    }
    var status := StatusFromMarkers(statusMarker, rejectionMarker);
    if status == None {
      return None;
    }
    return Some((boundary.value, status.value));
  }

  /** Reads the five texts, which must end the record. */
  method ReadTexts(reader: BinaryReader, h: Head) returns (r: Option<Receipt>)
    requires reader.Valid()
    modifies reader
    ensures r == ParseTexts(h, old(reader.Rest()))
  {
    hide GetText;
    var requestId :- ReadText(reader, h.lengths.id, MAX_REQUEST_ID_BYTES, false);
    var command :- ReadText(reader, h.lengths.command, MAX_COMMAND_BYTES, false);
    var resultId :- ReadText(reader, h.lengths.resultId, MAX_REQUEST_ID_BYTES, false);
    var resultCommand :- ReadText(reader, h.lengths.resultCommand, MAX_COMMAND_BYTES, false);
    var output :- ReadText(reader, h.lengths.output, MAX_OUTPUT_BYTES, true);
    var remaining := reader.Remaining();
    if remaining != 0 {
      return None;
    }
    return Some(Receipt(requestId, h.revisions.expected, command,
      ExecuteResult(resultId, h.revisions.previous, h.revisions.revision, resultCommand, output, h.boundary, h.status)));
  }

  /** Reads the record that `reader` was opened on, to its last byte. */
  method DecodeReceipt(reader: BinaryReader) returns (r: Option<PreparedReceipt>)
    requires reader.Valid()
    modifies reader
    ensures r.Some? <==> ParseRecord(old(reader.Rest())).Some?
    ensures r.Some? ==> Prepares(r.value, ParseRecord(old(reader.Rest())).value)
  {
    hide GetLengths, GetRevisions, GetMarkers, ParseTexts, ValidReceipt, Prepares, PrepareReceipt;
    var lengths :- ReadLengths(reader);
    var revisions :- ReadRevisions(reader);
    var markers :- ReadMarkers(reader);
    var receipt :- ReadTexts(reader, Head(lengths, revisions, markers.0, markers.1));
    r := PrepareReceipt(receipt);
  }

  /**
   Reads one length-prefixed record. The declared length of a record that
   parses is always its canonical length.
   */
  method ReadReceipt(journal: BinaryReader) returns (r: Option<Receipt>)
    requires journal.Valid()
    modifies journal
    ensures journal.Valid()
    ensures r == None ==> GetReceipt(old(journal.Rest())) == NoParse
    ensures r.Some? ==> GetReceipt(old(journal.Rest())) == Got(r.value, journal.Rest())
  {
    hide GetU32, ParseRecord, ValidReceipt, PutRecord;
    var length :- journal.U32();
    if length < RECEIPT_FIXED_BYTES {
      return None;
    }
    var payload :- journal.Bytes(length);
    var record := new BinaryReader(payload);
    var prepared :- DecodeReceipt(record);
    RecordSound(payload);
    if prepared.encodedBytes != LENGTH_PREFIX_BYTES + length {
      assert false;
    }
    return Some(prepared.value);
  }

  /** `first` has been decoded, and `left` more records are to be read from `rest`. */
  ghost predicate Decoding(bytes: seq<byte>, count: nat, first: seq<Receipt>, rest: seq<byte>, left: nat) {
    match ParseJournal(rest, left)
    case None => ParseJournal(bytes, count) == None
    case Some(others) => ParseJournal(bytes, count) == Some(first + others)
  }

  lemma DecodingStart(bytes: seq<byte>, count: nat)
    ensures Decoding(bytes, count, [], bytes, count)
  {
    var r := ParseJournal(bytes, count);
    assert r.Some? ==> [] + r.value == r.value;
  }

  lemma DecodingStep(bytes: seq<byte>, count: nat, first: seq<Receipt>, rest: seq<byte>, left: nat)
    requires left > 0 && Decoding(bytes, count, first, rest, left)
    ensures GetReceipt(rest).NoParse? ==> ParseJournal(bytes, count) == None
    ensures forall next, rest' :: GetReceipt(rest) == Got(next, rest') ==>
              Decoding(bytes, count, first + [next], rest', left - 1)
  {
    hide GetReceipt;
    if GetReceipt(rest).Got? {
      var Got(next, rest') := GetReceipt(rest);
      var r := ParseJournal(rest', left - 1);
      if r.Some? {
        assert first + ([next] + r.value) == first + [next] + r.value;
      }
    }
  }

  lemma DecodingDone(bytes: seq<byte>, count: nat, first: seq<Receipt>, rest: seq<byte>)
    requires Decoding(bytes, count, first, rest, 0)
    ensures ParseJournal(bytes, count) == if rest == [] then Some(first) else None
  {
    assert first + [] == first;
  }

  /** Reads `count` records and requires that nothing follows them. */
  method DecodeJournal(bytes: seq<byte>, count: nat) returns (r: Option<seq<Receipt>>)
    ensures r == ParseJournal(bytes, count)
  {
    hide GetReceipt, ParseJournal, Decoding, BinaryReader.Rest;
    var journal := new BinaryReader(bytes);
    var receipts: seq<Receipt> := [];
    DecodingStart(bytes, count);
    var index := 0;
    while index < count
      invariant index <= count
      invariant journal.Valid()
      invariant Decoding(bytes, count, receipts, journal.Rest(), count - index)
    {
      DecodingStep(bytes, count, receipts, journal.Rest(), count - index);
      var receipt := ReadReceipt(journal);
      if receipt == None {
        return None;
      }
      receipts := receipts + [receipt.value];
      index := index + 1;
    }
    DecodingDone(bytes, count, receipts, journal.Rest());
    var remaining := journal.Remaining();
    return if remaining != 0 then None else Some(receipts);
  }

  method ReadPrologue(reader: BinaryReader) returns (r: Option<nat>)
    requires reader.Valid()
    modifies reader
    ensures reader.Valid()
    ensures match GetPrologue(old(reader.Rest()))
      case NoParse => r == None
      case Got(value, rest) => r == Some(value) && reader.Rest() == rest
  {
    hide GetU16, GetU32;
    var magic :- reader.Bytes(8);
    if magic != MAGIC {
      return None;
    }
    var version :- reader.U16();
    if version != SCHEMA_VERSION {
      return None;
    }
    var reserved :- reader.U16();
    if reserved != 0 {
      return None;
    }
    r := reader.U32();
  }

  method ReadPublic(reader: BinaryReader) returns (r: Option<(nat, Boundary)>)
    requires reader.Valid()
    modifies reader
    ensures reader.Valid()
    ensures match GetPublic(old(reader.Rest()))
      case NoParse => r == None
      case Got(value, rest) => r == Some(value) && reader.Rest() == rest
  {
    hide GetU8, GetU16, GetU64, BoundaryFromMarker;
    var revision :- reader.SafeU64();
    var marker :- reader.U8();
    var boundary := BoundaryFromMarker(marker);
    if boundary == None {
      return None;
    }
    var reserved1 :- reader.U8();
    if reserved1 != 0 {
      return None;
    }
    var reserved2 :- reader.U16();
    if reserved2 != 0 {
      return None;
    }
    return Some((revision, boundary.value));
  }

  method ReadSizes(reader: BinaryReader) returns (r: Option<Sizes>)
    requires reader.Valid()
    modifies reader
    ensures reader.Valid()
    ensures match GetSizes(old(reader.Rest()))
      case NoParse => r == None
      case Got(value, rest) => r == Some(value) && reader.Rest() == rest
  {
    hide GetU16, GetU32;
    var outputLength :- reader.U32();
    var innerLength :- reader.U32();
    var receiptCount :- reader.U16();
    var reserved :- reader.U16();
    if reserved != 0 {
      return None;
    }
    var journalLength :- reader.U32();
    return Some(Sizes(outputLength, innerLength, receiptCount, journalLength));
  }

  /** Reads an envelope from bytes within the size limits. */
  method ReadEnvelope(bytes: seq<byte>) returns (r: Option<Envelope>)
    requires |bytes| <= MAX_TOTAL_BYTES
    ensures r == ParseEnvelope(bytes)
  {
    hide GetPrologue, GetPublic, GetSizes, GetText, ParseJournal, Coherent;
    var reader := new BinaryReader(bytes);
    var total :- ReadPrologue(reader);
    if total != |bytes| {
      return None;
    }
    var public :- ReadPublic(reader);
    var z :- ReadSizes(reader);
    if !z.Allowed() {
      return None;
    }
    var lastOutput :- ReadText(reader, z.outputLength, MAX_OUTPUT_BYTES, true);
    var inner :- reader.Bytes(z.innerLength);
    var journal :- reader.Bytes(z.journalLength);
    var receipts :- DecodeJournal(journal, z.receiptCount);
    var remaining := reader.Remaining();
    if remaining != 0 {
      return None;
    }
    var coherent, _ := ValidateReceipts(receipts, PublicState(public.0, lastOutput, public.1));
    if !coherent {
      return None;
    }
    return Some(Envelope(public.0, lastOutput, public.1, inner, receipts));
  }

  /** Accepts exactly the encodings of valid envelopes, and returns the envelope that was encoded. */
  method Decode(bytes: seq<byte>) returns (r: Option<Envelope>)
    ensures r == ParseEnvelope(bytes)
    ensures forall e :: r == Some(e) <==> ValidEnvelope(e) && bytes == Wire(e)
  {
    hide ParseEnvelope, ValidEnvelope, Wire;
    forall e
      ensures ParseEnvelope(bytes) == Some(e) <==> ValidEnvelope(e) && bytes == Wire(e)
    {
      Canonical(bytes, e);
    }
    if |bytes| > MAX_TOTAL_BYTES || |bytes| < 16 {
      OutsideLimits(bytes);
      return None;
    }
    r := ReadEnvelope(bytes);
  }

  lemma OutsideLimits(bytes: seq<byte>)
    requires |bytes| > MAX_TOTAL_BYTES || |bytes| < 16
    ensures ParseEnvelope(bytes) == None
  {
    hide GetPublic, GetSizes, ParseBody, Coherent, GetPrologue, PutPrologue;
    if GetPrologue(bytes).Got? {
      PrologueSound(bytes);
    }
  }
}
