/**
 The decoder in one line: bytes decode to an envelope exactly if the envelope is
 sound and every one of its fields stands where the format puts it. Nothing here
 is said through the writer or the parser.
 */
module SnapshotMeaning {
  import opened Wrappers
  import opened Bytes
  import opened ByteLayout
  import opened EngineTypes
  import opened Journal
  import opened SnapshotFormat
  import opened SnapshotLayout
  import CanonicalCommand
  import Text
  import Utf8

  // What a sound envelope is

  predicate SoundId(id: string) {
    1 <= |Utf8.Encode(id)| <= 128
  }

  /** A command in its normal form: 1 to 160 units, trimmed, single-spaced, of one sentence, without control characters. */
  predicate SoundCommand(command: string) {
    && command != "" && Utf8.Utf16Length(command) <= 160
    && Text.Trimmed(command) && CanonicalCommand.SingleSpaced(command)
    && !Text.HasControl(command) && !CanonicalCommand.HasSeparator(command)
  }

  /** A receipt answers its own request: by the commit right after the expected revision, or by a rejection that moves nothing. */
  predicate SoundReceipt(r: Receipt) {
    && SoundId(r.requestId) && SoundCommand(r.command) && r.expectedRevision <= 9_007_199_254_740_991
    && r.result.requestId == r.requestId && r.result.command == r.command
    && |Utf8.Encode(r.result.output)| <= 262_144
    && r.result.previousRevision <= 9_007_199_254_740_991 && r.result.revision <= 9_007_199_254_740_991
    && match r.result.status
       case Committed =>
         r.result.previousRevision == r.expectedRevision && r.result.revision == r.expectedRevision + 1
       case Rejected(reason) =>
         && r.result.revision == r.result.previousRevision
         && (reason == StaleRevision ==> r.expectedRevision != r.result.revision)
  }

  /** The receipt does not contradict where the story is now. */
  predicate SoundAt(r: ExecuteResult, revision: nat, lastOutput: string, boundary: Boundary) {
    && r.previousRevision <= revision && r.revision <= revision
    && (r.revision == revision ==>
      r.boundary == boundary && (r.status == Committed ==> r.output == lastOutput))
  }

  /** Receipt `i` is the commit that made revision `k`. */
  predicate Made(rs: seq<Receipt>, i: int, k: nat) {
    0 <= i < |rs| && rs[i].result.status == Committed && rs[i].result.revision == k
  }

  /** One receipt, and one only, made revision `k`. */
  ghost predicate MadeOnce(rs: seq<Receipt>, k: nat) {
    (exists i :: Made(rs, i, k)) && forall i, j :: Made(rs, i, k) && Made(rs, j, k) ==> i == j
  }

  function RecordBytes(rs: seq<Receipt>): nat {
    if rs == [] then 0 else 44 + |TextsOf(rs[0])| + RecordBytes(rs[1..])
  }

  ghost predicate Sound(e: Envelope) {
    && e.revision <= 9_007_199_254_740_991
    && |Utf8.Encode(e.lastOutput)| <= 262_144
    && 16 <= |e.innerCheckpoint| <= 1_048_576
    && |e.receipts| <= 32 && RecordBytes(e.receipts) <= 1_048_576
    && (forall i :: 0 <= i < |e.receipts| ==> SoundReceipt(e.receipts[i]))
    && (forall i :: 0 <= i < |e.receipts| ==>
      SoundAt(e.receipts[i].result, e.revision, e.lastOutput, e.boundary))
    && (forall i, j :: 0 <= i < j < |e.receipts| ==> e.receipts[i].requestId != e.receipts[j].requestId)
    && (forall k {:trigger MadeOnce(e.receipts, k)} :: 1 <= k <= e.revision ==> MadeOnce(e.receipts, k))
  }

  lemma SoundReceiptIff(r: Receipt)
    ensures ValidReceipt(r) <==> SoundReceipt(r)
  {
    hide CanonicalCommand.IsCanonical, Utf8.Utf16Length, Utf8.Encode, CanonicalCommand.SingleSpaced,
      CanonicalCommand.HasSeparator, Text.HasControl, Text.Trimmed;
    CanonicalCommand.CanonicalShape(r.command);
    CanonicalCommand.CanonicalShape(r.result.command);
  }

  lemma {:induction false} JournalBytesFirst(rs: seq<Receipt>)
    requires rs != []
    ensures JournalBytes(rs) == ReceiptBytes(rs[0]) + JournalBytes(rs[1..])
    decreases |rs|
  {
    hide ReceiptBytes;
    var init, last := rs[..|rs| - 1], rs[|rs| - 1];
    if init == [] {
      assert rs[1..] == [];
    } else {
      JournalBytesFirst(init);
      assert init[1..] == rs[1..][..|rs[1..]| - 1];
    }
  }

  lemma {:induction false} RecordBytesAre(rs: seq<Receipt>)
    ensures RecordBytes(rs) == JournalBytes(rs)
  {
    hide JournalBytes, Utf8.Encode;
    if rs == [] {
      NoJournal();
    } else {
      JournalBytesFirst(rs);
      RecordBytesAre(rs[1..]);
    }
  }

  lemma NoJournal()
    ensures JournalBytes([]) == 0
  {
  }

  lemma CoherentIff(rs: seq<Receipt>, s: PublicState)
    requires forall i :: 0 <= i < |rs| ==> ValidReceipt(rs[i]) && FitsState(rs[i].result, s)
    ensures (forall i, j, k :: Produces(rs, i, k) && Produces(rs, j, k) ==> i == j)
      && (forall k: nat {:trigger Produced(rs, k)} :: 1 <= k <= s.revision ==> Produced(rs, k))
      <==> (forall k {:trigger MadeOnce(rs, k)} :: 1 <= k <= s.revision ==> MadeOnce(rs, k))
  {
    hide ValidReceipt;
    forall i, k: nat | Made(rs, i, k)
      ensures 1 <= k <= s.revision
    {
      CommitMoves(rs[i]);
    }
    assert forall i, k :: Produces(rs, i, k) <==> Made(rs, i, k);
    if forall k {:trigger MadeOnce(rs, k)} :: 1 <= k <= s.revision ==> MadeOnce(rs, k) {
      forall i, j, k | Produces(rs, i, k) && Produces(rs, j, k)
        ensures i == j
      {
        assert MadeOnce(rs, k);
      }
      forall k: nat | 1 <= k <= s.revision
        ensures Produced(rs, k)
      {
        assert MadeOnce(rs, k);
      }
    } else if forall k: nat {:trigger Produced(rs, k)} :: 1 <= k <= s.revision ==> Produced(rs, k) {
      var k :| 1 <= k <= s.revision && !MadeOnce(rs, k);
      assert Produced(rs, k);
    }
  }

  lemma CommitMoves(r: Receipt)
    requires ValidReceipt(r) && r.result.status == Committed
    ensures r.result.revision >= 1
  {
  }

  /** The validity that the encoder and the decoder check is soundness. */
  lemma SoundIff(e: Envelope)
    ensures ValidEnvelope(e) <==> Sound(e)
  {
    hide ValidReceipt, SoundReceipt, Utf8.Encode, JournalBytes, RecordBytes, MadeOnce, Produced;
    RecordBytesAre(e.receipts);
    forall r: Receipt
      ensures ValidReceipt(r) <==> SoundReceipt(r)
    {
      SoundReceiptIff(r);
    }
    forall r
      ensures FitsState(r, e.State()) <==> SoundAt(r, e.revision, e.lastOutput, e.boundary)
    {
      FitsIff(r, e);
    }
    hide FitsState, SoundAt;
    if forall i :: 0 <= i < |e.receipts| ==> ValidReceipt(e.receipts[i]) && FitsState(e.receipts[i].result, e.State()) {
      CoherentIff(e.receipts, e.State());
    }
  }

  lemma FitsIff(r: ExecuteResult, e: Envelope)
    ensures FitsState(r, e.State()) <==> SoundAt(r, e.revision, e.lastOutput, e.boundary)
  {
  }

  // The layout leaves nothing open

  lemma HeaderAgrees(b: seq<byte>, c: seq<byte>, e: Envelope)
    requires PrologueLaid(b) && PrologueLaid(c) && FieldsLaid(b, e) && FieldsLaid(c, e) && |b| == |c|
    ensures Agree(b, c, 0, 44)
  {
    hide Big16, Big32, Big64, Utf8.Encode;
    assert Agree(b, c, 0, 12) by {
      assert forall i :: 0 <= i < 8 ==> b[i] == b[..8][i] && c[i] == c[..8][i];
    }
    Agree32(b, c, 12);
    Agree64(b, c, 16);
    Agree32(b, c, 28);
    Agree32(b, c, 32);
    Agree16(b, c, 36);
    Agree32(b, c, 40);
    assert Agree(b, c, 24, 28) && Agree(b, c, 38, 40);
  }

  lemma RecordAgrees(b: seq<byte>, c: seq<byte>, at: nat, r: Receipt)
    requires RecordLaid(b, at, r) && RecordLaid(c, at, r)
    ensures Big32(b, at) == Big32(c, at) && Agree(b, c, at, at + 4 + Big32(b, at))
  {
    hide Big16, Big32, Big64, Utf8.Encode, TextsOf, At;
    Agree32(b, c, at);
    Agree16(b, c, at + 4);
    Agree16(b, c, at + 6);
    Agree16(b, c, at + 8);
    Agree16(b, c, at + 10);
    Agree32(b, c, at + 12);
    Agree64(b, c, at + 16);
    Agree64(b, c, at + 24);
    Agree64(b, c, at + 32);
    assert Agree(b, c, at + 40, at + 44);
    PartsAgree(b, c, at + 44, TextsOf(r));
  }

  lemma {:induction false} JournalAgrees(b: seq<byte>, c: seq<byte>, at: nat, rs: seq<Receipt>)
    requires JournalLaid(b, at, rs) && JournalLaid(c, at, rs)
    ensures |b| == |c| && Agree(b, c, at, |b|)
    decreases |rs|
  {
    hide RecordLaid;
    if rs != [] {
      RecordAgrees(b, c, at, rs[0]);
      var next := at + 4 + Big32(b, at);
      JournalAgrees(b, c, next, rs[1..]);
      AgreeOn(b, c, at, next, |b|);
    }
  }

  /** Bytes that are laid out as the same envelope are the same bytes. */
  lemma LaidOnce(b: seq<byte>, c: seq<byte>, e: Envelope)
    requires Laid(b, e) && Laid(c, e)
    ensures b == c
  {
    hide PrologueLaid, FieldsLaid, JournalLaid, Agree, At, Utf8.Encode;
    var output, inner := Utf8.Encode(e.lastOutput), e.innerCheckpoint;
    var at := 44 + |output| + |inner|;
    JournalAgrees(b, c, at, e.receipts);
    HeaderAgrees(b, c, e);
    PartsAgree(b, c, 44, output);
    PartsAgree(b, c, 44 + |output|, inner);
    AgreeOn(b, c, 0, 44, 44 + |output|);
    AgreeOn(b, c, 0, 44 + |output|, at);
    AgreeOn(b, c, 0, at, |b|);
    AgreeWholly(b, c);
  }

  /** Bytes decode to an envelope exactly if it is sound and they are laid out as it. */
  lemma DecodesIff(b: seq<byte>, e: Envelope)
    ensures ParseEnvelope(b) == Some(e) <==> Sound(e) && Laid(b, e)
  {
    hide ParseEnvelope, Wire, ValidEnvelope, Sound, Laid;
    SoundIff(e);
    Canonical(b, e);
    if Sound(e) {
      WireLaid(e);
      if Laid(b, e) {
        LaidOnce(b, Wire(e), e);
      }
    }
  }
}
