/** The runtime object: each method makes exactly the step that its function describes. */
module WorkerRuntime {
  import opened Wrappers
  import opened Bytes
  import opened EngineTypes
  import opened Journal
  import opened Messages
  import opened Runtime
  import opened RuntimeSafety
  import opened SnapshotFormat
  import CanonicalCommand
  import Session
  import SnapshotCodec

  class DorkWorkerRuntime<M(!new)> {
    const config: Config<M>
    var session: Option<Session.DorkCandidateSession<M>>
    var receipts: seq<Receipt>
    var receiptJournalBytes: nat
    var operationInFlight: bool

    ghost function Repr(): set<object>
      reads this
    {
      {this} + if session.Some? then {session.value, session.value.io} else {}
    }

    ghost predicate Sound()
      reads Repr()
    {
      session.Some? ==> session.value.Resting() && session.value.story == config.story
    }

    ghost function Abstract(): RuntimeState<M>
      requires Sound()
      reads Repr()
    {
      RuntimeState(
        if session.Some? then Some(session.value.Abstract()) else None,
        receipts, receiptJournalBytes)
    }

    ghost predicate Valid()
      reads Repr()
    {
      Sound() && ValidConfig(config) && Inv(config, Abstract())
    }

    constructor (config: Config<M>)
      requires ValidConfig(config)
      ensures Valid() && Abstract() == Initial() && !operationInFlight
      ensures this.config == config && fresh(Repr())
    {
      this.config := config;
      session, receipts, receiptJournalBytes, operationInFlight := None, [], 0, false;
    }

    /** Takes a request in hand; while another one is in hand it is refused at once. */
    method Begin() returns (refusal: Option<Response>)
      modifies this`operationInFlight
      ensures operationInFlight
      ensures refusal == if old(operationInFlight) then Some(Error(InvalidRequest)) else None
    {
      if operationInFlight {
        return Some(Error(InvalidRequest));
      }
      operationInFlight := true;
      return None;
    }

    method CanRecordReceipt(receipt: Receipt) returns (fits: bool)
      requires ValidReceipt(receipt)
      ensures fits == (|receipts| < config.maxReceipts && receiptJournalBytes + ReceiptBytes(receipt) <= config.maxJournalBytes)
    {
      hide ValidReceipt, ReceiptBytes;
      var prepared := SnapshotCodec.PrepareReceipt(receipt);
      fits := |receipts| < config.maxReceipts && receiptJournalBytes + prepared.value.encodedBytes <= config.maxJournalBytes;
    }

    /** `false` is the thrown capacity error. */
    method RecordReceipt(receipt: Receipt) returns (ok: bool)
      requires ValidReceipt(receipt)
      modifies this`receipts, this`receiptJournalBytes
      ensures ok == (|old(receipts)| < config.maxReceipts
        && old(receiptJournalBytes) + ReceiptBytes(receipt) <= config.maxJournalBytes)
      ensures receipts == if ok then old(receipts) + [receipt] else old(receipts)
      ensures receiptJournalBytes == old(receiptJournalBytes) + if ok then ReceiptBytes(receipt) else 0
    {
      hide ValidReceipt, ReceiptBytes;
      ok := CanRecordReceipt(receipt);
      if ok {
        var prepared := SnapshotCodec.PrepareReceipt(receipt);
        receipts := receipts + [receipt];
        receiptJournalBytes := receiptJournalBytes + prepared.value.encodedBytes;
      }
    }

    method Boot(storyId: string, artifactSha256: string) returns (answer: Response)
      requires Valid()
      modifies Repr()
      ensures Sound() && fresh(Repr() - old(Repr())) && operationInFlight == old(operationInFlight)
      ensures (Abstract(), answer) == BootStep(config, old(Abstract()), storyId, artifactSha256)
    {
      hide Inv, BoundedId, IsSha256, Session.TurnOf;
      if session.Some? {
        return Error(AlreadyBooted);
      }
      if !BoundedId(storyId) || !IsSha256(artifactSha256) {
        return Error(InvalidRequest);
      }
      if storyId != config.compatibility.storyId || artifactSha256 != config.compatibility.storySha256 {
        return Error(InvalidRequest);
      }
      var candidate := new Session.DorkCandidateSession(config.story);
      var turn := candidate.Boot();
      if turn == None {
        candidate.Dispose();
        return Error(InternalError);
      }
      session := Some(candidate);
      return BootDone(0, turn.value.output, turn.value.boundary, config.compatibility);
    }

    method JournalOf(input: ExecuteRequest, state: PublicState, rejection: Rejection) returns (answer: Response)
      requires Valid() && session.Some? && state == Abstract().session.value.Public() && Admissible(input)
      requires rejection == StaleRevision ==> input.expectedRevision != state.revision
      modifies this`receipts, this`receiptJournalBytes
      ensures Sound()
      ensures (Abstract(), answer) == JournalRejection(config, old(Abstract()), input, state, rejection)
    {
      hide ValidReceipt, ReceiptBytes, Coherent, ValidReceipts, CanonicalCommand.IsCanonical, BoundedId;
      RevisionBounded(config, Abstract());
      RejectionReceiptValid(input, state, rejection);
      var result := RejectedExecute(input, state, rejection);
      var recorded := RecordReceipt(ReceiptOf(input, result));
      if !recorded {
        return ExecuteDone(RejectedExecute(input, state, ReceiptCapacity));
      }
      return ExecuteDone(result);
    }

    method RecordAnswer(input: ExecuteRequest, result: ExecuteResult) returns (answer: Response)
      requires Sound() && ValidReceipt(ReceiptOf(input, result))
      modifies this`receipts, this`receiptJournalBytes
      ensures Sound()
      ensures (Abstract(), answer) == RecordResult(config, old(Abstract()), input, result)
    {
      hide ValidReceipt, ReceiptBytes;
      var recorded := RecordReceipt(ReceiptOf(input, result));
      answer := if recorded then ExecuteDone(result) else Error(InternalError);
    }

    method CommitCommand(input: ExecuteRequest) returns (answer: Response)
      requires Valid() && Reserved(config, Abstract(), input)
      modifies Repr()
      ensures Sound() && Repr() == old(Repr()) && operationInFlight == old(operationInFlight)
      ensures (Abstract(), answer) == Commit(config, old(Abstract()), input)
    {
      hide Inv, ValidReceipt, ReceiptBytes, ValidConfig, CanonicalCommand.IsCanonical, BoundedId, WorstCase;
      hide Session.AfterExecute, RecordResult, CanRecord, RequestIds;
      ghost var s := Abstract();
      Session.ExecuteRevision(config.story, s.session.value, input.command);
      var before := session.value.InspectPublicState();
      var executed := session.value.Execute(input.command);
      var after := session.value.InspectPublicState();
      match executed {
        case Broken =>
          return Error(InternalError);
        case TooLong =>
          RejectionReceiptValid(input, after, InvalidCommand);
          answer := RecordAnswer(input, RejectedExecute(input, after, InvalidCommand));
        case Turned(turn) =>
          Session.TurnFits(config.story, s.session.value, input.command);
          CommitReceiptValid(input, turn.output, turn.boundary);
          answer := RecordAnswer(input, ExecuteResult(
            input.requestId, before.revision, after.revision, input.command, turn.output, turn.boundary, Committed));
      }
    }

    method Execute(input: ExecuteRequest) returns (answer: Response)
      requires Valid()
      modifies Repr()
      ensures Sound() && Repr() == old(Repr()) && operationInFlight == old(operationInFlight)
      ensures (Abstract(), answer) == ExecuteStep(config, old(Abstract()), input)
    {
      hide Inv, ValidReceipt, ReceiptBytes, ValidConfig, CanonicalCommand.IsCanonical, BoundedId, WorstCase, Lookup;
      hide Commit, JournalRejection, RequestIds;
      if session == None {
        return Error(NotBooted);
      }
      if !BoundedId(input.requestId) || input.expectedRevision > MAX_SAFE {
        return Error(InvalidRequest);
      }
      var state := session.value.InspectPublicState();
      var existing := Lookup(receipts, input.requestId);
      if existing.Some? {
        if existing.value.expectedRevision == input.expectedRevision && existing.value.command == input.command {
          return ExecuteDone(existing.value.result);
        }
        return ExecuteDone(RejectedExecute(input, state, Duplicate));
      }
      if !CanonicalCommand.IsCanonical(input.command) {
        return Error(InvalidRequest);
      }
      if state.boundary == Terminated {
        answer := JournalOf(input, state, InvalidCommand);
        return;
      }
      if input.expectedRevision != state.revision {
        answer := JournalOf(input, state, StaleRevision);
        return;
      }
      if state.revision >= MAX_SAFE {
        return Error(InternalError);
      }
      WorstCaseValid(input);
      var room := CanRecordReceipt(WorstCase(input, state.revision));
      if !room {
        return ExecuteDone(RejectedExecute(input, state, ReceiptCapacity));
      }
      assert config.maxReceipts <= MAX_RECEIPTS by {
        LimitsFit();
      }
      answer := CommitCommand(input);
    }

    lemma LimitsFit()
      requires ValidConfig(config)
      ensures config.maxReceipts <= MAX_RECEIPTS
    {
    }

    /** The running byte count of a restored journal; `None` when it is over a cap. */
    method ValidateRestored(rs: seq<Receipt>) returns (bytes: Option<nat>)
      requires ValidReceipts(rs)
      ensures bytes.Some? <==> |rs| <= config.maxReceipts && JournalBytes(rs) <= config.maxJournalBytes
      ensures bytes.Some? ==> bytes.value == JournalBytes(rs)
    {
      hide ValidReceipt, ReceiptBytes, JournalBytes;
      if |rs| > config.maxReceipts {
        return None;
      }
      var n: nat, i: nat := 0, 0;
      SummedStart(rs);
      while i < |rs|
        invariant 0 <= i <= |rs| && Summed(rs, i, n)
        invariant n <= config.maxJournalBytes
      {
        var prepared := SnapshotCodec.PrepareReceipt(rs[i]);
        SummedStep(rs, i, n);
        n := n + prepared.value.encodedBytes;
        i := i + 1;
        if n > config.maxJournalBytes {
          JournalBytesPrefix(rs, i);
          return None;
        }
      }
      assert rs[..i] == rs;
      return Some(n);
    }

    ghost predicate Summed(rs: seq<Receipt>, i: nat, n: nat)
      requires i <= |rs|
    {
      n == JournalBytes(rs[..i])
    }

    lemma SummedStart(rs: seq<Receipt>)
      ensures Summed(rs, 0, 0)
    {
      assert rs[..0] == [];
    }

    lemma SummedStep(rs: seq<Receipt>, i: nat, n: nat)
      requires i < |rs| && Summed(rs, i, n)
      ensures Summed(rs, i + 1, n + ReceiptBytes(rs[i]))
    {
      hide ReceiptBytes;
      assert rs[..i + 1] == rs[..i] + [rs[i]];
      JournalBytesSnoc(rs[..i], rs[i]);
    }

    method Stage(snapshot: EngineSnapshot) returns (staged: Option<(Session.DorkCandidateSession<M>, seq<Receipt>, nat)>)
      requires ValidConfig(config)
      ensures staged.Some? <==> RestoredState(config, snapshot).Some?
      ensures staged.Some? ==>
        var (candidate, rs, bytes) := staged.value;
        && fresh(candidate) && fresh(candidate.io) && candidate.Resting() && candidate.story == config.story
        && RestoredState(config, snapshot) == Some(RuntimeState(Some(candidate.Abstract()), rs, bytes))
    {
      hide ValidConfig, ValidReceipts, JournalBytes, Wire, Coherent, ParseEnvelope, Session.Restored;
      if config.digest(snapshot.bytes) != snapshot.sha256 {
        return None;
      }
      var decoded := SnapshotCodec.Decode(snapshot.bytes);
      if decoded == None || decoded.value.revision != snapshot.revision {
        return None;
      }
      var e := decoded.value;
      assert ValidReceipts(e.receipts);
      var bytes := ValidateRestored(e.receipts);
      if bytes == None {
        return None;
      }
      var candidate := Session.RestoreFromSnapshot(config.story, e.innerCheckpoint);
      if candidate == None {
        return None;
      }
      var state := candidate.value.InspectPublicState();
      if state.revision != e.revision || state.lastOutput != e.lastOutput || state.boundary != e.boundary {
        return None;
      }
      return Some((candidate.value, e.receipts, bytes.value));
    }

    /** The staged session takes over only when every check has passed; until then nothing is touched. */
    method Restore(snapshot: EngineSnapshot) returns (answer: Response)
      requires Valid()
      modifies Repr()
      ensures Sound() && fresh(Repr() - old(Repr())) && operationInFlight == old(operationInFlight)
      ensures (Abstract(), answer) == RestoreStep(config, old(Abstract()), snapshot)
    {
      hide Inv, RestoredState, SnapshotShape, ValidConfig, Session.DorkCandidateIo.Valid;
      if session == None {
        return Error(NotBooted);
      }
      var active := session.value.InspectPublicState();
      if !SnapshotShape(snapshot) {
        return RestoreDone(NotRestored(CorruptSnapshot), active.revision, "", active.boundary);
      }
      if snapshot.compatibility != config.compatibility {
        return RestoreDone(NotRestored(IncompatibleSnapshot), active.revision, "", active.boundary);
      }
      var staged := Stage(snapshot);
      if staged == None {
        return RestoreDone(NotRestored(CorruptSnapshot), active.revision, "", active.boundary);
      }
      var oldSession := session.value;
      session, receipts, receiptJournalBytes := Some(staged.value.0), staged.value.1, staged.value.2;
      oldSession.Dispose();
      var state := session.value.InspectPublicState();
      return RestoreDone(Restored, state.revision, "", state.boundary);
    }

    method Snapshot() returns (answer: Response)
      requires Valid()
      modifies Repr()
      ensures Sound() && Repr() == old(Repr()) && operationInFlight == old(operationInFlight)
      ensures Abstract() == old(Abstract()) && answer == SnapshotStep(config, Abstract())
    {
      hide Inv, ValidConfig, ValidEnvelope, Wire, Session.CheckpointOf;
      if session == None {
        return Error(NotBooted);
      }
      var checkpoint := session.value.Snapshot();
      if checkpoint == None {
        return Error(InternalError);
      }
      var state := session.value.InspectPublicState();
      var encoded := SnapshotCodec.Encode(
        Envelope(state.revision, state.lastOutput, state.boundary, checkpoint.value, receipts));
      if encoded == None {
        return Error(InternalError);
      }
      return SnapshotDone(EngineSnapshot(encoded.value, config.digest(encoded.value), state.revision, config.compatibility));
    }

    method Inspect() returns (answer: Response)
      requires Valid()
      ensures answer == InspectStep(Abstract())
    {
      if session == None {
        return Error(NotBooted);
      }
      var state := session.value.InspectPublicState();
      return InspectDone(state);
    }

    /** Finishes the request in hand. */
    method Complete(m: RequestMessage) returns (answer: Response)
      requires Valid() && operationInFlight
      modifies Repr()
      ensures Valid() && fresh(Repr() - old(Repr())) && !operationInFlight
      ensures (Abstract(), answer) == Handle(config, old(Abstract()), m)
    {
      hide Inv, ValidConfig, BoundedId, BootStep, ExecuteStep, SnapshotStep, RestoreStep, InspectStep;
      LimitsFit();
      HandleKeeps(config, Abstract(), m);
      if !BoundedId(m.messageId) {
        answer := Error(InvalidRequest);
      } else {
        match m.request {
          case Boot(storyId, artifactSha256) => answer := Boot(storyId, artifactSha256);
          case Execute(input) => answer := Execute(input);
          case Snapshot => answer := Snapshot();
          case Restore(snapshot) => answer := Restore(snapshot);
          case Inspect => answer := Inspect();
        }
      }
      operationInFlight := false;
    }
  }
}
