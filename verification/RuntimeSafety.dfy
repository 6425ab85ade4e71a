/** What every request keeps of the runtime, and what follows from it. */
module RuntimeSafety {
  import opened Wrappers
  import opened Bytes
  import opened EngineTypes
  import opened Journal
  import opened Messages
  import opened Runtime
  import opened SnapshotFormat
  import CanonicalCommand
  import Session
  import SnapshotCodec
  import Utf8

  /** The byte counter is the sum of the measured receipts, and both caps hold. */
  ghost predicate JournalInv<M>(c: Config<M>, s: RuntimeState<M>) {
    && ValidReceipts(s.receipts)
    && |s.receipts| <= c.maxReceipts
    && s.journalBytes == JournalBytes(s.receipts) <= c.maxJournalBytes
  }

  ghost predicate Inv<M>(c: Config<M>, s: RuntimeState<M>) {
    && JournalInv(c, s)
    && match s.session
       case None => s.receipts == []
       case Some(x) => Session.WellFormed(c.story, x) && Coherent(s.receipts, x.Public())
  }

  function Initial<M>(): RuntimeState<M> {
    RuntimeState(None, [], 0)
  }

  // One receipt more

  lemma RecordKeeps<M>(c: Config<M>, s: RuntimeState<M>, r: Receipt)
    requires JournalInv(c, s) && ValidReceipt(r)
    ensures Record(c, s, r).Some? ==> JournalInv(c, Record(c, s, r).value)
  {
    hide ValidReceipt;
    JournalBytesSnoc(s.receipts, r);
  }

  /** A rejection at the current state keeps the journal coherent with it. */
  lemma CoherentRejection(rs: seq<Receipt>, state: PublicState, r: Receipt)
    requires Coherent(rs, state) && r.requestId !in RequestIds(rs)
    requires r.result.status.Rejected?
    requires r.result.previousRevision == r.result.revision == state.revision && r.result.boundary == state.boundary
    ensures Coherent(rs + [r], state)
  {
    var all := rs + [r];
    SnapshotCodec.CoherentParts(rs, state);
    SnapshotCodec.DistinctIdsSnoc(rs, r);
    SnapshotCodec.ProducedOnceSnoc(rs, r);
    SnapshotCodec.CommittedRevisionsSnoc(rs, r);
    SnapshotCodec.AllFitSnoc(rs, r, state);
    SnapshotCodec.CoherentParts(all, state);
  }

  /** A commit on top of the current state makes the journal coherent with the next state. */
  lemma CoherentCommit(rs: seq<Receipt>, state: PublicState, r: Receipt)
    requires Coherent(rs, state) && r.requestId !in RequestIds(rs)
    requires r.result.status == Committed
    requires r.result.previousRevision == state.revision && r.result.revision == state.revision + 1
    requires ValidReceipts(rs)
    ensures Coherent(rs + [r], PublicState(r.result.revision, r.result.output, r.result.boundary))
  {
    hide ValidReceipt;
    var next := PublicState(r.result.revision, r.result.output, r.result.boundary);
    var all := rs + [r];
    SnapshotCodec.CoherentParts(rs, state);
    Pigeonhole(rs, state);
    SnapshotCodec.DistinctIdsSnoc(rs, r);
    SnapshotCodec.ProducedOnceSnoc(rs, r);
    SnapshotCodec.CommittedRevisionsSnoc(rs, r);
    assert SnapshotCodec.AllFit(rs, next) by {
      assert forall i :: 0 <= i < |rs| ==> FitsState(rs[i].result, state);
    }
    SnapshotCodec.AllFitSnoc(rs, r, next);
    SnapshotCodec.CoherentParts(all, next);
  }

  /** Revisions stay far below the largest safe integer: each one needs a receipt. */
  lemma RevisionBounded<M>(c: Config<M>, s: RuntimeState<M>)
    requires c.maxReceipts <= MAX_RECEIPTS && Inv(c, s) && s.session.Some?
    ensures s.session.value.revision <= |s.receipts| <= MAX_RECEIPTS
  {
    Pigeonhole(s.receipts, s.session.value.Public());
  }

  // The receipts that are recorded are valid

  predicate Admissible(input: ExecuteRequest) {
    BoundedId(input.requestId) && input.expectedRevision <= MAX_SAFE && CanonicalCommand.IsCanonical(input.command)
  }

  lemma RejectionReceiptValid(input: ExecuteRequest, state: PublicState, rejection: Rejection)
    requires Admissible(input) && state.revision <= MAX_SAFE
    requires rejection == StaleRevision ==> input.expectedRevision != state.revision
    ensures ValidReceipt(ReceiptOf(input, RejectedExecute(input, state, rejection)))
  {
    hide CanonicalCommand.IsCanonical;
    Session.EmptyText();
  }

  lemma CommitReceiptValid(input: ExecuteRequest, output: string, boundary: Boundary)
    requires Admissible(input) && input.expectedRevision < MAX_SAFE && TextBytes(output) <= MAX_OUTPUT_BYTES
    ensures ValidReceipt(ReceiptOf(input, ExecuteResult(
      input.requestId, input.expectedRevision, input.expectedRevision + 1, input.command, output, boundary, Committed)))
  {
    hide CanonicalCommand.IsCanonical, Utf8.Encode;
  }

  lemma WorstCaseValid(input: ExecuteRequest)
    requires Admissible(input) && input.expectedRevision < MAX_SAFE
    ensures ValidReceipt(WorstCase(input, input.expectedRevision))
  {
    hide ValidReceipt, TextBytes, CanonicalCommand.IsCanonical, BoundedId;
    var output := WorstCase(input, input.expectedRevision).result.output;
    AsciiBytes(MAX_OUTPUT_BYTES, output);
    CommitReceiptValid(input, output, InputRequested);
  }

  lemma {:induction false} AsciiBytes(n: nat, s: string)
    requires |s| == n && forall i :: 0 <= i < n ==> s[i] == 'x'
    ensures TextBytes(s) == n
  {
    if n > 0 {
      AsciiBytes(n - 1, s[1..]);
    }
  }

  /**
   The reservation is sound: a receipt of the same request, at the same revision, with any output that a turn can
   have, is no larger than the worst case that the preflight asks room for.
   */
  lemma WorstCaseCovers(input: ExecuteRequest, revision: nat, result: ExecuteResult)
    requires result.requestId == input.requestId && result.command == input.command
    requires TextBytes(result.output) <= MAX_OUTPUT_BYTES
    ensures ReceiptBytes(ReceiptOf(input, result)) <= ReceiptBytes(WorstCase(input, revision))
  {
    hide Utf8.Encode;
    AsciiBytes(MAX_OUTPUT_BYTES, WorstCase(input, revision).result.output);
  }

  // Preservation

  lemma JournalRejectionKeeps<M>(c: Config<M>, s: RuntimeState<M>, input: ExecuteRequest, rejection: Rejection)
    requires c.maxReceipts <= MAX_RECEIPTS && Inv(c, s) && s.session.Some? && Admissible(input)
    requires input.requestId !in RequestIds(s.receipts)
    requires rejection == StaleRevision ==> input.expectedRevision != s.session.value.revision
    ensures Inv(c, JournalRejection(c, s, input, s.session.value.Public(), rejection).0)
  {
    hide ValidReceipt, ValidReceipts, Coherent, Session.WellFormed, CanonicalCommand.IsCanonical;
    RevisionBounded(c, s);
    var state := s.session.value.Public();
    var r := ReceiptOf(input, RejectedExecute(input, state, rejection));
    RejectionReceiptValid(input, state, rejection);
    RecordKeeps(c, s, r);
    CoherentRejection(s.receipts, state, r);
  }

  /** What the preflight established before the request reaches the interpreter. */
  ghost predicate Reserved<M>(c: Config<M>, s: RuntimeState<M>, input: ExecuteRequest) {
    && c.maxReceipts <= MAX_RECEIPTS && Inv(c, s) && s.session.Some? && Admissible(input)
    && input.requestId !in RequestIds(s.receipts)
    && input.expectedRevision == s.session.value.revision < MAX_SAFE
    && CanRecord(c, s, ReceiptBytes(WorstCase(input, s.session.value.revision)))
  }

  /**
   No commit without its receipt. Whenever the interpreter takes the command, either the turn breaks and the public
   state stays, or the journal grows by exactly the receipt of the answer; the capacity errors cannot happen.
   */
  lemma CommitRecords<M>(c: Config<M>, s: RuntimeState<M>, input: ExecuteRequest)
    requires Reserved(c, s, input)
    ensures var (s', answer) := Commit(c, s, input);
      var executed := Session.AfterExecute(c.story, s.session.value, input.command);
      && s'.session == Some(executed.0)
      && (executed.1.Broken? ==>
        answer == Error(InternalError) && s'.receipts == s.receipts && executed.0.Public() == s.session.value.Public())
      && (!executed.1.Broken? ==>
        answer.ExecuteDone? && s'.receipts == s.receipts + [ReceiptOf(input, answer.result)])
      && (answer.ExecuteDone? && answer.result.status == Committed <==> executed.1.Turned?)
  {
    hide ValidReceipt, ValidReceipts, Coherent, Session.WellFormed, CanonicalCommand.IsCanonical, Utf8.Utf16Length;
    hide ReceiptBytes, TextBytes, Session.TurnOf, WorstCase, JournalBytes;
    Session.EmptyText();
    var before := s.session.value;
    var (after, executed) := Session.AfterExecute(c.story, before, input.command);
    if executed.TooLong? {
      WorstCaseCovers(input, before.revision, RejectedExecute(input, after.Public(), InvalidCommand));
    } else if executed.Turned? {
      WorstCaseCovers(input, before.revision, ExecuteResult(
        input.requestId, before.revision, after.revision, input.command, executed.turn.output, executed.turn.boundary,
        Committed));
    }
  }

  lemma CommitKeeps<M>(c: Config<M>, s: RuntimeState<M>, input: ExecuteRequest)
    requires Reserved(c, s, input)
    ensures Inv(c, Commit(c, s, input).0)
  {
    hide ValidReceipt, ValidReceipts, Coherent, Session.WellFormed, CanonicalCommand.IsCanonical, Utf8.Utf16Length;
    hide ReceiptBytes, TextBytes, Session.TurnOf, WorstCase, JournalBytes;
    var before := s.session.value;
    var (after, executed) := Session.AfterExecute(c.story, before, input.command);
    Session.ExecuteWellFormed(c.story, before, input.command);
    CommitRecords(c, s, input);
    var s1 := s.(session := Some(after));
    if executed.TooLong? {
      var r := ReceiptOf(input, RejectedExecute(input, after.Public(), InvalidCommand));
      RejectionReceiptValid(input, after.Public(), InvalidCommand);
      RecordKeeps(c, s1, r);
      CoherentRejection(s.receipts, before.Public(), r);
    } else if executed.Turned? {
      var t := executed.turn;
      var r := ReceiptOf(input, ExecuteResult(
        input.requestId, before.revision, after.revision, input.command, t.output, t.boundary, Committed));
      CommitReceiptValid(input, t.output, t.boundary);
      RecordKeeps(c, s1, r);
      CoherentCommit(s.receipts, before.Public(), r);
    }
  }

  lemma ExecuteKeeps<M>(c: Config<M>, s: RuntimeState<M>, input: ExecuteRequest)
    requires c.maxReceipts <= MAX_RECEIPTS && Inv(c, s)
    ensures Inv(c, ExecuteStep(c, s, input).0)
  {
    hide ValidReceipt, ValidReceipts, Coherent, Session.WellFormed, CanonicalCommand.IsCanonical, Commit,
      JournalRejection;
    hide BoundedId, Lookup, RequestIds, WorstCase, ReceiptBytes, JournalBytes;
    if s.session.Some? && Admissible(input) && Lookup(s.receipts, input.requestId) == None {
      var state := s.session.value.Public();
      if state.boundary == Terminated {
        JournalRejectionKeeps(c, s, input, InvalidCommand);
      } else if input.expectedRevision != state.revision {
        JournalRejectionKeeps(c, s, input, StaleRevision);
      } else if state.revision < MAX_SAFE && CanRecord(c, s, ReceiptBytes(WorstCase(input, state.revision))) {
        CommitKeeps(c, s, input);
      }
    }
  }

  lemma BootKeeps<M>(c: Config<M>, s: RuntimeState<M>, storyId: string, artifactSha256: string)
    requires Inv(c, s)
    ensures Inv(c, BootStep(c, s, storyId, artifactSha256).0)
  {
    hide BoundedId, IsSha256, TextBytes, Session.Concat;
    if s.session == None && Session.AfterBoot(c.story).Some? {
      SnapshotCodec.EmptyJournal(Session.AfterBoot(c.story).value.Public());
      SnapshotCodec.CoherentParts([], Session.AfterBoot(c.story).value.Public());
    }
  }

  lemma RestoredStateInv<M>(c: Config<M>, snapshot: EngineSnapshot)
    ensures RestoredState(c, snapshot).Some? ==> Inv(c, RestoredState(c, snapshot).value)
  {
    hide ParseEnvelope, Wire, Coherent, ValidReceipts, JournalBytes, TextBytes, Session.Concat;
    if RestoredState(c, snapshot).Some? {
      ParseSound(snapshot.bytes);
    }
  }

  lemma RestoreKeeps<M>(c: Config<M>, s: RuntimeState<M>, snapshot: EngineSnapshot)
    requires Inv(c, s)
    ensures Inv(c, RestoreStep(c, s, snapshot).0)
  {
    hide Inv, RestoredState, SnapshotShape;
    RestoredStateInv(c, snapshot);
  }

  /** Every request keeps the invariant. */
  lemma HandleKeeps<M>(c: Config<M>, s: RuntimeState<M>, m: RequestMessage)
    requires c.maxReceipts <= MAX_RECEIPTS && Inv(c, s)
    ensures Inv(c, Handle(c, s, m).0)
  {
    hide Inv, BoundedId, BootStep, ExecuteStep, RestoreStep, SnapshotStep;
    match m.request {
      case Boot(storyId, artifactSha256) => BootKeeps(c, s, storyId, artifactSha256);
      case Execute(input) => ExecuteKeeps(c, s, input);
      case Restore(snapshot) => RestoreKeeps(c, s, snapshot);
      case _ =>
    }
  }
}
