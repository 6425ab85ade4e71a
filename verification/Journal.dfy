/**
 What makes one receipt well formed, and what makes a whole journal agree with
 the public state it is stored beside.
 */
module Journal {
  import opened Bytes
  import opened EngineTypes
  import CanonicalCommand
  import Utf8

  const MAX_OUTPUT_BYTES: nat := 256 * 1024
  const MAX_REQUEST_ID_BYTES: nat := 128
  const MAX_COMMAND_BYTES: nat := CanonicalCommand.MAX_LENGTH * 4
  const MAX_RECEIPTS: nat := 32
  const MAX_JOURNAL_BYTES: nat := 1024 * 1024
  const RECEIPT_FIXED_BYTES: nat := 40
  const LENGTH_PREFIX_BYTES: nat := 4

  function TextBytes(s: string): nat {
    |Utf8.Encode(s)|
  }

  predicate ValidRequestId(s: string) {
    0 < TextBytes(s) <= MAX_REQUEST_ID_BYTES
  }

  predicate ValidResult(r: ExecuteResult) {
    && ValidRequestId(r.requestId)
    && CanonicalCommand.IsCanonical(r.command)
    && TextBytes(r.output) <= MAX_OUTPUT_BYTES
    && r.previousRevision <= MAX_SAFE && r.revision <= MAX_SAFE
    && r.revision == if r.status == Committed then r.previousRevision + 1 else r.previousRevision
  }

  predicate ValidReceipt(r: Receipt) {
    && ValidRequestId(r.requestId)
    && r.expectedRevision <= MAX_SAFE
    && CanonicalCommand.IsCanonical(r.command)
    && ValidResult(r.result)
    && r.requestId == r.result.requestId
    && r.command == r.result.command
    && (r.result.status == Committed ==> r.expectedRevision == r.result.previousRevision)
    && (r.result.status == Rejected(StaleRevision) ==> r.expectedRevision != r.result.revision)
  }

  function PayloadBytes(r: Receipt): nat {
    RECEIPT_FIXED_BYTES + TextBytes(r.requestId) + TextBytes(r.command)
    + TextBytes(r.result.requestId) + TextBytes(r.result.command) + TextBytes(r.result.output)
  }

  function ReceiptBytes(r: Receipt): nat {
    LENGTH_PREFIX_BYTES + PayloadBytes(r)
  }

  function JournalBytes(rs: seq<Receipt>): nat {
    if rs == [] then 0 else JournalBytes(rs[..|rs| - 1]) + ReceiptBytes(rs[|rs| - 1])
  }

  predicate DistinctIds(rs: seq<Receipt>) {
    forall i, j :: 0 <= i < j < |rs| ==> rs[i].requestId != rs[j].requestId
  }

  /** The receipt of `rs` that produced revision `k` is at index `i`. */
  predicate Produces(rs: seq<Receipt>, i: int, k: nat) {
    0 <= i < |rs| && rs[i].result.status == Committed && rs[i].result.revision == k
  }

  ghost predicate Produced(rs: seq<Receipt>, k: nat) {
    exists i :: Produces(rs, i, k)
  }

  predicate FitsState(r: ExecuteResult, s: PublicState) {
    && r.previousRevision <= s.revision
    && r.revision <= s.revision
    && (r.revision == s.revision ==> r.boundary == s.boundary)
    && (r.revision == s.revision && r.status == Committed ==> r.output == s.lastOutput)
  }

  /**
   The journal accounts for the public state: ids are unique, no receipt is
   ahead of the state, receipts of the current revision agree with it, and
   every revision up to the current one was produced exactly once.
   */
  ghost predicate Coherent(rs: seq<Receipt>, s: PublicState) {
    && DistinctIds(rs)
    && (forall i :: 0 <= i < |rs| ==> FitsState(rs[i].result, s))
    && (forall i, j, k :: Produces(rs, i, k) && Produces(rs, j, k) ==> i == j)
    && (forall k: nat {:trigger Produced(rs, k)} :: 1 <= k <= s.revision ==> Produced(rs, k))
  }

  /** The revisions that the committed receipts of `rs` produced. */
  function CommittedRevisions(rs: seq<Receipt>): set<nat> {
    set i | 0 <= i < |rs| && rs[i].result.status == Committed :: rs[i].result.revision
  }

  function RequestIds(rs: seq<Receipt>): set<string> {
    set i | 0 <= i < |rs| :: rs[i].requestId
  }

  function Range(n: nat): (r: set<nat>)
    ensures forall k {:trigger k in r} :: k in r <==> 1 <= k <= n
    ensures |r| == n
  {
    if n == 0 then {} else Range(n - 1) + {n}
  }

  lemma {:induction false} CommittedAtMostReceipts(rs: seq<Receipt>)
    ensures |CommittedRevisions(rs)| <= |rs|
  {
    if rs != [] {
      var init, last := rs[..|rs| - 1], rs[|rs| - 1];
      CommittedAtMostReceipts(init);
      assert CommittedRevisions(rs) ==
        CommittedRevisions(init) + (if last.result.status == Committed then {last.result.revision} else {});
    }
  }

  /** Pigeonhole: a coherent journal of valid receipts covers exactly the revisions 1 to current. */
  lemma Pigeonhole(rs: seq<Receipt>, s: PublicState)
    requires Coherent(rs, s)
    requires forall i :: 0 <= i < |rs| ==> ValidReceipt(rs[i])
    ensures CommittedRevisions(rs) == Range(s.revision)
    ensures s.revision <= |rs|
  {
    forall k | k in Range(s.revision)
      ensures k in CommittedRevisions(rs)
    {
      assert Produced(rs, k);
      var i :| Produces(rs, i, k);
    }
    forall k | k in CommittedRevisions(rs)
      ensures k in Range(s.revision)
    {
      var i :| 0 <= i < |rs| && rs[i].result.status == Committed && rs[i].result.revision == k;
      assert ValidReceipt(rs[i]) && FitsState(rs[i].result, s);
    }
    CommittedAtMostReceipts(rs);
  }

  /** The field limits alone keep one receipt under the journal limit. */
  lemma ReceiptBytesBounded(r: Receipt)
    requires ValidReceipt(r)
    ensures RECEIPT_FIXED_BYTES < PayloadBytes(r)
    ensures ReceiptBytes(r) <= 44 + 2 * MAX_REQUEST_ID_BYTES + 6 * CanonicalCommand.MAX_LENGTH + MAX_OUTPUT_BYTES
              < MAX_JOURNAL_BYTES
  {
    CanonicalCommand.CanonicalBytes(r.command);
  }

  lemma JournalBytesSnoc(rs: seq<Receipt>, r: Receipt)
    ensures JournalBytes(rs + [r]) == JournalBytes(rs) + ReceiptBytes(r)
  {
    assert (rs + [r])[..|rs|] == rs;
  }

  lemma {:induction false} JournalBytesPrefix(rs: seq<Receipt>, n: nat)
    requires n <= |rs|
    ensures JournalBytes(rs[..n]) <= JournalBytes(rs)
    decreases |rs|
  {
    if n < |rs| {
      JournalBytesPrefix(rs[..|rs| - 1], n);
      assert rs[..|rs| - 1][..n] == rs[..n];
    } else {
      assert rs[..n] == rs;
    }
  }
}
