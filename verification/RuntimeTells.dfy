/** What the worker's answers tell: the texts that the interpreter printed, and where it stopped. */
module RuntimeTells {
  import opened Wrappers
  import opened EngineTypes
  import opened Messages
  import opened Machine
  import opened Runtime
  import opened RuntimeReplay
  import opened RuntimeSafety
  import opened RuntimeRestore
  import Bytes
  import CanonicalCommand
  import Journal
  import Session
  import SnapshotFormat
  import SnapshotLayout
  import Utf8

  /** The state that inspection reports is the one that this answer told. */
  predicate Reports<M>(s: RuntimeState<M>, told: PublicState) {
    s.session.Some? && s.session.value.Public() == told
  }

  /**
   Boot answers exactly to the configured story, once. The answer carries the texts that the story prints from its
   start, in order, and where it stops; the state afterwards is that answer, and the journal is untouched.
   */
  lemma BootAnswers<M>(c: Config<M>, s: RuntimeState<M>, messageId: string, storyId: string, artifactSha256: string)
    ensures var (s', answer) := Handle(c, s, RequestMessage(messageId, Boot(storyId, artifactSha256)));
      && (answer.BootDone? <==>
        && BoundedId(messageId) && s.session == None && BoundedId(storyId) && IsSha256(artifactSha256)
        && storyId == c.compatibility.storyId && artifactSha256 == c.compatibility.storySha256
        && Session.TurnOf(c.story, c.story.start).Some?)
      && (!answer.BootDone? ==> answer.Error? && s' == s)
      && (BoundedId(messageId) && s.session.Some? ==> answer == Error(AlreadyBooted))
      && (BoundedId(messageId) && s.session == None && storyId != c.compatibility.storyId ==> answer == Error(InvalidRequest))
      && (answer.BootDone? ==>
        && answer.revision == 0
        && answer.output == Session.Concat(c.story.start.prints)
        && Session.StopsAt(c.story.start, answer.boundary)
        && answer.compatibility == c.compatibility
        && Reports(s', PublicState(0, answer.output, answer.boundary))
        && s'.receipts == s.receipts && s'.journalBytes == s.journalBytes)
  {
    hide BoundedId, IsSha256, Session.TurnOf, Session.Concat, Session.StopsAt, Journal.TextBytes;
    Session.TurnTells(c.story, c.story.start);
  }

  /** An inspection straight after boot reports what boot answered. */
  lemma InspectedAfterBoot<M>(
    c: Config<M>, s: RuntimeState<M>, first: string, second: string, storyId: string, artifactSha256: string)
    requires BoundedId(second)
    ensures var (s', answer) := Handle(c, s, RequestMessage(first, Boot(storyId, artifactSha256)));
      answer.BootDone? ==>
        Handle(c, s', RequestMessage(second, Inspect)) ==
          (s', InspectDone(PublicState(answer.revision, answer.output, answer.boundary)))
  {
    hide BoundedId, BootStep;
    BootAnswers(c, s, first, storyId, artifactSha256);
  }

  /** A commit answers with the texts that the machine printed on its command, and leaves the state so. */
  lemma CommitTells<M>(c: Config<M>, s: RuntimeState<M>, messageId: string, input: ExecuteRequest)
    requires c.maxReceipts <= Journal.MAX_RECEIPTS && Inv(c, s)
    requires Resumed(c, s, RequestMessage(messageId, Execute(input))).Some?
    ensures s.session.Some? && s.session.value.io.Waiting?
    ensures var before := s.session.value;
      var run := c.story.resume(before.io.machine, input.command);
      var (s', answer) := Handle(c, s, RequestMessage(messageId, Execute(input)));
      answer.ExecuteDone? ==>
        && answer.result.requestId == input.requestId && answer.result.command == input.command
        && answer.result.previousRevision == input.expectedRevision == before.revision
        && answer.result.revision == before.revision + 1
        && answer.result.output == Session.Concat(run.prints) && Session.StopsAt(run, answer.result.boundary)
        && answer.result.status == Committed
        && Reports(s', PublicState(answer.result.revision, answer.result.output, answer.result.boundary))
  {
    hide Inv, Handle, Session.AfterExecute, Session.Concat, Session.StopsAt, BoundedId;
    var m := RequestMessage(messageId, Execute(input));
    ResumedIsInput(c, s, m);
    RunStep(c, s, m);
    if Handle(c, s, m).1.ExecuteDone? {
      Session.ExecuteTells(c.story, s.session.value, input.command);
    }
  }

  // Executes

  /** The journal has room for one more receipt of this request, with so many bytes of output. */
  predicate Room<M>(c: Config<M>, s: RuntimeState<M>, input: ExecuteRequest, outputBytes: nat) {
    && |s.receipts| < c.maxReceipts
    && s.journalBytes + 44 + 2 * Journal.TextBytes(input.requestId) + 2 * Journal.TextBytes(input.command) + outputBytes
      <= c.maxJournalBytes
  }

  /** The request is turned down in this state: silently, and with nothing changed. */
  predicate TurnsDown(answer: Response, input: ExecuteRequest, state: PublicState, rejection: Rejection) {
    && answer.ExecuteDone?
    && answer.result.requestId == input.requestId && answer.result.command == input.command
    && answer.result.previousRevision == state.revision && answer.result.revision == state.revision
    && answer.result.output == "" && answer.result.boundary == state.boundary
    && answer.result.status == Rejected(rejection)
  }

  /** It is turned down and journaled; without room, it is turned down for that, and not journaled. */
  ghost predicate Rejects<M>(
    c: Config<M>, s: RuntimeState<M>, s': RuntimeState<M>, answer: Response, input: ExecuteRequest, state: PublicState,
    rejection: Rejection)
  {
    && s'.session == s.session
    && if Room(c, s, input, 0) then
         TurnsDown(answer, input, state, rejection)
         && s'.receipts == s.receipts + [Receipt(input.requestId, input.expectedRevision, input.command, answer.result)]
       else TurnsDown(answer, input, state, ReceiptCapacity) && s'.receipts == s.receipts
  }

  lemma RoomIff<M>(c: Config<M>, s: RuntimeState<M>, input: ExecuteRequest, state: PublicState, rejection: Rejection)
    ensures CanRecord(c, s, Journal.ReceiptBytes(ReceiptOf(input, RejectedExecute(input, state, rejection))))
      <==> Room(c, s, input, 0)
    ensures CanRecord(c, s, Journal.ReceiptBytes(WorstCase(input, state.revision))) <==> Room(c, s, input, 262_144)
  {
    hide Utf8.Encode;
    Session.EmptyText();
    AsciiBytes(Journal.MAX_OUTPUT_BYTES, WorstCase(input, state.revision).result.output);
  }

  lemma RejectionTells<M>(c: Config<M>, s: RuntimeState<M>, input: ExecuteRequest, state: PublicState, rejection: Rejection)
    ensures var (s', answer) := JournalRejection(c, s, input, state, rejection);
      Rejects(c, s, s', answer, input, state, rejection)
  {
    hide Room, CanRecord, Journal.ReceiptBytes, WorstCase;
    RoomIff(c, s, input, state, rejection);
  }

  /** An execute that cannot be one is an error, and changes nothing. */
  lemma MalformedIsError<M>(c: Config<M>, s: RuntimeState<M>, messageId: string, input: ExecuteRequest)
    requires BoundedId(messageId)
    ensures var (s', answer) := Handle(c, s, RequestMessage(messageId, Execute(input)));
      var malformed := !BoundedId(input.requestId) || input.expectedRevision > Bytes.MAX_SAFE;
      var unsayable := !Known(s.receipts, input.requestId) && !CanonicalCommand.IsCanonical(input.command);
      && (s.session == None ==> answer == Error(NotBooted) && s' == s)
      && (s.session.Some? && (malformed || unsayable) ==> answer == Error(InvalidRequest) && s' == s)
  {
    hide BoundedId, CanonicalCommand.IsCanonical, WorstCase, Journal.ReceiptBytes;
    KnownIff(s.receipts, input.requestId);
  }

  predicate Known(rs: seq<Receipt>, id: string) {
    exists i :: 0 <= i < |rs| && rs[i].requestId == id
  }

  lemma KnownIff(rs: seq<Receipt>, id: string)
    ensures Known(rs, id) <==> Lookup(rs, id).Some?
  {
  }

  /** A journaled id is answered from the journal: the very request with its result, any other as a duplicate. */
  lemma KnownIsReplayed<M>(c: Config<M>, s: RuntimeState<M>, messageId: string, input: ExecuteRequest, i: nat)
    requires Inv(c, s) && s.session.Some? && BoundedId(messageId) && BoundedId(input.requestId)
    requires input.expectedRevision <= Bytes.MAX_SAFE
    requires i < |s.receipts| && s.receipts[i].requestId == input.requestId
    ensures var (s', answer) := Handle(c, s, RequestMessage(messageId, Execute(input)));
      && s' == s
      && (if s.receipts[i].expectedRevision == input.expectedRevision && s.receipts[i].command == input.command
        then answer == ExecuteDone(s.receipts[i].result)
        else TurnsDown(answer, input, s.session.value.Public(), Duplicate))
  {
    hide BoundedId, CanonicalCommand.IsCanonical, WorstCase, Journal.ReceiptBytes, Journal.FitsState, Journal.Produces,
      Journal.Produced, SnapshotFormat.ValidReceipts;
    KnownIff(s.receipts, input.requestId);
    var j :| 0 <= j < |s.receipts| && s.receipts[j] == Lookup(s.receipts, input.requestId).value;
    assert i == j;
  }

  /**
   What a new, well-formed execute comes to. It is turned down if the story has ended, if it is not of the current
   revision, or if the journal has no room for all that a turn can print. Otherwise it reaches the interpreter, where a
   command that is too long for the story is turned down, and a broken session answers nothing.
   */
  lemma ExecuteAnswers<M>(c: Config<M>, s: RuntimeState<M>, messageId: string, input: ExecuteRequest)
    requires c.maxReceipts <= 32 && Inv(c, s) && s.session.Some? && BoundedId(messageId) && Admissible(input)
    requires !Known(s.receipts, input.requestId)
    ensures var before := s.session.value;
      var state := before.Public();
      var (s', answer) := Handle(c, s, RequestMessage(messageId, Execute(input)));
      if state.boundary == Terminated then Rejects(c, s, s', answer, input, state, InvalidCommand)
      else if input.expectedRevision != state.revision then Rejects(c, s, s', answer, input, state, StaleRevision)
      else if !Room(c, s, input, 262_144) then s' == s && TurnsDown(answer, input, state, ReceiptCapacity)
      else if before.io.Failed? then s' == s && answer == Error(InternalError)
      else
        && before.io.Waiting?
        && if Utf8.Utf16Length(input.command) >= c.story.maxLength(before.io.machine)
           then Rejects(c, s, s', answer, input, state, InvalidCommand)
           else Resumed(c, s, RequestMessage(messageId, Execute(input))) == Some(input)
  {
    hide BoundedId, CanonicalCommand.IsCanonical, WorstCase, Journal.ReceiptBytes, Rejects, Room, JournalRejection,
      CanRecord, Lookup, SnapshotFormat.ValidReceipts, Journal.Coherent, Journal.TextBytes, Commit, Utf8.Utf16Length;
    var before := s.session.value;
    var state := before.Public();
    KnownIff(s.receipts, input.requestId);
    RevisionBounded(c, s);
    RoomIff(c, s, input, state, InvalidCommand);
    RejectionTells(c, s, input, state, InvalidCommand);
    RejectionTells(c, s, input, state, StaleRevision);
    if state.boundary == InputRequested && input.expectedRevision == state.revision && Room(c, s, input, 262_144) {
      ReachesCommit(c, s, input);
      CommitAnswers(c, s, input);
    }
  }

  /** Once there is room for any turn, a broken session is an error and a command that is too long is journaled. */
  lemma CommitAnswers<M>(c: Config<M>, s: RuntimeState<M>, input: ExecuteRequest)
    requires s.session.Some? && Admissible(input) && Room(c, s, input, 262_144)
    requires s.session.value.boundary == InputRequested && Session.WellFormed(c.story, s.session.value)
    ensures var before := s.session.value;
      var (s', answer) := Commit(c, s, input);
      if before.io.Failed? then s' == s && answer == Error(InternalError)
      else
        && before.io.Waiting?
        && (Utf8.Utf16Length(input.command) >= c.story.maxLength(before.io.machine) ==>
          Rejects(c, s, s', answer, input, before.Public(), InvalidCommand))
  {
    hide BoundedId, CanonicalCommand.IsCanonical, WorstCase, Journal.ReceiptBytes, CanRecord, Journal.TextBytes,
      Utf8.Utf16Length, Session.TurnOf;
    RoomIff(c, s, input, s.session.value.Public(), InvalidCommand);
    assert s.(session := Some(s.session.value)) == s;
  }

  // Snapshots and restores

  /** A message whose own id is not bounded is an error, whatever it asks, and changes nothing. */
  lemma UnaddressedIsError<M>(c: Config<M>, s: RuntimeState<M>, m: RequestMessage)
    requires !BoundedId(m.messageId)
    ensures Handle(c, s, m) == (s, Error(InvalidRequest))
  {
    hide BoundedId;
  }

  /** Inspection tells the public state, and changes nothing. */
  lemma InspectTells<M>(c: Config<M>, s: RuntimeState<M>, messageId: string)
    requires BoundedId(messageId)
    ensures Handle(c, s, RequestMessage(messageId, Inspect)) ==
      (s, if s.session == None then Error(NotBooted)
          else InspectDone(PublicState(s.session.value.revision, s.session.value.lastOutput, s.session.value.boundary)))
  {
    hide BoundedId;
  }

  /**
   A snapshot carries, byte by byte, the public state, the checkpoint and the journal, under its digest and the engine's
   compatibility; away from an input boundary there is none.
   */
  lemma SnapshotTells<M(!new)>(c: Config<M>, s: RuntimeState<M>, messageId: string)
    requires ValidConfig(c) && SavesFit(c.story) && Inv(c, s) && BoundedId(messageId)
    ensures var (s', answer) := Handle(c, s, RequestMessage(messageId, Snapshot));
      && s' == s
      && (s.session == None ==> answer == Error(NotBooted))
      && (s.session.Some? && (s.session.value.boundary == Terminated || s.session.value.io.Failed?) ==>
        answer == Error(InternalError))
      && (answer.SnapshotDone? ==>
        && s.session.Some? && s.session.value.io.Waiting?
        && var before := s.session.value;
          var checkpoint := c.story.save(before.io.machine, before.revision, before.lastOutput);
          && checkpoint.Some?
          && SnapshotLayout.Laid(answer.snapshot.bytes,
            SnapshotFormat.Envelope(before.revision, before.lastOutput, before.boundary, checkpoint.value, s.receipts))
          && answer.snapshot.sha256 == c.digest(answer.snapshot.bytes)
          && answer.snapshot.revision == before.revision && answer.snapshot.compatibility == c.compatibility)
  {
    hide BoundedId, SnapshotLayout.Laid, SnapshotFormat.ValidEnvelope, SnapshotFormat.Wire, SnapshotFormat.ParseEnvelope,
      Journal.Coherent, SnapshotFormat.ValidReceipts, WellFormedCompatibility, IsSha256;
    SnapshotSucceeds(c, s);
    if SnapshotStep(c, s).SnapshotDone? {
      SnapshotLayout.WireLaid(EnvelopeOf(s, Session.CheckpointOf(c.story, s.session.value).value));
    }
  }

  /** The snapshot holds this state and journal, and a checkpoint that the story relaunches silently into that state. */
  ghost predicate Holds<M>(c: Config<M>, snapshot: EngineSnapshot, s': RuntimeState<M>, checkpoint: seq<Bytes.byte>) {
    && s'.session.Some?
    && var after := s'.session.value;
      && SnapshotLayout.Laid(snapshot.bytes,
        SnapshotFormat.Envelope(after.revision, after.lastOutput, after.boundary, checkpoint, s'.receipts))
      && snapshot.revision == after.revision
      && c.story.load(checkpoint).Some?
      && var loaded := c.story.load(checkpoint).value;
        && loaded.revision == after.revision && loaded.lastOutput == after.lastOutput
        && Session.Concat(loaded.run.prints) == "" && loaded.run.stop.AwaitsInput?
        && after.io == Session.Waiting(loaded.run.stop.machine) && after.boundary == InputRequested
  }

  /**
   A restore that is accepted takes over exactly what the snapshot's bytes hold: they have their digest, the journal is
   within the limits, and the answer tells the state. One that is not tells the state that stays, and why.
   */
  lemma RestoreTells<M>(c: Config<M>, s: RuntimeState<M>, messageId: string, snapshot: EngineSnapshot)
    requires BoundedId(messageId)
    ensures var (s', answer) := Handle(c, s, RequestMessage(messageId, Restore(snapshot)));
      && (s.session == None ==> answer == Error(NotBooted) && s' == s)
      && (s.session.Some? ==>
        && answer.RestoreDone? && answer.output == ""
        && (answer.status == Restored ==>
          && c.digest(snapshot.bytes) == snapshot.sha256 && snapshot.compatibility == c.compatibility
          && (exists checkpoint :: Holds(c, snapshot, s', checkpoint))
          && |s'.receipts| <= c.maxReceipts && s'.journalBytes <= c.maxJournalBytes
          && answer.revision == s'.session.value.revision && answer.boundary == s'.session.value.boundary)
        && (answer.status.NotRestored? ==>
          && s' == s && answer.revision == s.session.value.revision && answer.boundary == s.session.value.boundary
          && (answer.status == NotRestored(IncompatibleSnapshot) <==>
            SnapshotShape(snapshot) && snapshot.compatibility != c.compatibility)))
  {
    hide BoundedId, SnapshotLayout.Laid, SnapshotFormat.ParseEnvelope, SnapshotShape, Holds;
    if s.session.Some? && RestoredState(c, snapshot).Some? {
      RestoredHolds(c, snapshot);
    }
  }

  lemma RestoredHolds<M>(c: Config<M>, snapshot: EngineSnapshot)
    requires RestoredState(c, snapshot).Some?
    ensures var s' := RestoredState(c, snapshot).value;
      && c.digest(snapshot.bytes) == snapshot.sha256
      && (exists checkpoint :: Holds(c, snapshot, s', checkpoint))
      && |s'.receipts| <= c.maxReceipts && s'.journalBytes <= c.maxJournalBytes
  {
    hide SnapshotLayout.Laid, SnapshotFormat.ParseEnvelope, Session.Concat, Journal.TextBytes, Journal.JournalBytes;
    var e := SnapshotFormat.ParseEnvelope(snapshot.bytes).value;
    SnapshotLayout.AcceptedLaid(snapshot.bytes);
    var s' := RestoredState(c, snapshot).value;
    var loaded := c.story.load(e.innerCheckpoint).value;
    Session.TurnTells(c.story, loaded.run);
    assert Holds(c, snapshot, s', e.innerCheckpoint);
  }
}
