/**
 The worker-side runtime: one session, the journal of receipts, and what each
 request does to them. The functions say what a request does once it is
 accepted; the class does it.
 */
module Runtime {
  import opened Wrappers
  import opened Bytes
  import opened EngineTypes
  import opened Journal
  import opened Machine
  import opened Messages
  import Session
  import opened SnapshotFormat
  import CanonicalCommand

  datatype Config<!M> = Config(
    story: Story<M>,
    compatibility: Compatibility,
    maxReceipts: nat,
    maxJournalBytes: nat,
    digest: seq<byte> -> string)

  datatype RuntimeState<+M> = RuntimeState(session: Option<Session.State<M>>, receipts: seq<Receipt>, journalBytes: nat)

  /** What the runtime's constructor checks, and what SHA-256 guarantees. */
  ghost predicate ValidConfig<M(!new)>(c: Config<M>) {
    && 1 <= c.maxReceipts <= MAX_RECEIPTS
    && 1 <= c.maxJournalBytes <= MAX_JOURNAL_BYTES
    && WellFormedCompatibility(c.compatibility)
    && (forall b :: IsSha256(c.digest(b)))
  }

  // The journal

  function Lookup(rs: seq<Receipt>, id: string): (r: Option<Receipt>)
    ensures r == None <==> id !in RequestIds(rs)
    ensures r.Some? ==> r.value in rs && r.value.requestId == id
  {
    if rs == [] then None
    else if rs[0].requestId == id then Some(rs[0])
    else
      assert RequestIds(rs) == {rs[0].requestId} + RequestIds(rs[1..]) by {
        assert forall i :: 0 <= i < |rs[1..]| ==> rs[1..][i] == rs[i + 1];
        forall x | x in RequestIds(rs)
          ensures x in {rs[0].requestId} + RequestIds(rs[1..])
        {
          var i :| 0 <= i < |rs| && rs[i].requestId == x;
          if i > 0 {
            assert rs[1..][i - 1].requestId == x;
          }
        }
      }
      Lookup(rs[1..], id)
  }

  predicate CanRecord<M>(c: Config<M>, s: RuntimeState<M>, receiptBytes: nat) {
    |s.receipts| < c.maxReceipts && s.journalBytes + receiptBytes <= c.maxJournalBytes
  }

  /** `None` is the thrown capacity error. */
  function Record<M>(c: Config<M>, s: RuntimeState<M>, receipt: Receipt): Option<RuntimeState<M>> {
    var n := ReceiptBytes(receipt);
    if CanRecord(c, s, n) then Some(s.(receipts := s.receipts + [receipt], journalBytes := s.journalBytes + n)) else None
  }

  function RejectedExecute(input: ExecuteRequest, state: PublicState, rejection: Rejection): ExecuteResult {
    ExecuteResult(
      input.requestId, state.revision, state.revision, input.command, "", state.boundary, Status.Rejected(rejection))
  }

  function ReceiptOf(input: ExecuteRequest, result: ExecuteResult): Receipt {
    Receipt(input.requestId, input.expectedRevision, input.command, result)
  }

  /** The receipt that the preflight makes room for: a commit with as much output as a turn can have. */
  function WorstCase(input: ExecuteRequest, revision: nat): Receipt {
    ReceiptOf(input, ExecuteResult(
      input.requestId, revision, revision + 1, input.command,
      seq(MAX_OUTPUT_BYTES, _ => 'x'), InputRequested, Committed))
  }

  // Requests

  function BootStep<M>(c: Config<M>, s: RuntimeState<M>, storyId: string, artifactSha256: string): (RuntimeState<M>, Response) {
    if s.session.Some? then (s, Error(AlreadyBooted))
    else if !BoundedId(storyId) || !IsSha256(artifactSha256) then (s, Error(InvalidRequest))
    else if storyId != c.compatibility.storyId || artifactSha256 != c.compatibility.storySha256 then
      (s, Error(InvalidRequest))
    else
      match Session.AfterBoot(c.story)
      case None => (s, Error(InternalError))
      case Some(session) =>
        (s.(session := Some(session)), BootDone(0, session.lastOutput, session.boundary, c.compatibility))
  }

  /** A rejection is journaled while there is room; without room the answer says so and leaves no receipt. */
  function JournalRejection<M>(c: Config<M>, s: RuntimeState<M>, input: ExecuteRequest, state: PublicState, rejection: Rejection)
    : (RuntimeState<M>, Response)
  {
    var result := RejectedExecute(input, state, rejection);
    match Record(c, s, ReceiptOf(input, result))
    case None => (s, ExecuteDone(RejectedExecute(input, state, ReceiptCapacity)))
    case Some(s') => (s', ExecuteDone(result))
  }

  /** The interpreter has answered. A receipt that does not fit any more is an internal error. */
  function RecordResult<M>(c: Config<M>, s: RuntimeState<M>, input: ExecuteRequest, result: ExecuteResult)
    : (RuntimeState<M>, Response)
  {
    match Record(c, s, ReceiptOf(input, result))
    case None => (s, Error(InternalError))
    case Some(s') => (s', ExecuteDone(result))
  }

  /** The request reaches the interpreter. */
  function Commit<M>(c: Config<M>, s: RuntimeState<M>, input: ExecuteRequest): (RuntimeState<M>, Response)
    requires s.session.Some?
  {
    var before := s.session.value;
    var (after, executed) := Session.AfterExecute(c.story, before, input.command);
    var s1 := s.(session := Some(after));
    match executed
    case Broken => (s1, Error(InternalError))
    case TooLong => RecordResult(c, s1, input, RejectedExecute(input, after.Public(), InvalidCommand))
    case Turned(turn) =>
      RecordResult(c, s1, input, ExecuteResult(
        input.requestId, before.revision, after.revision, input.command, turn.output, turn.boundary, Committed))
  }

  function ExecuteStep<M>(c: Config<M>, s: RuntimeState<M>, input: ExecuteRequest): (RuntimeState<M>, Response) {
    if s.session == None then (s, Error(NotBooted))
    else if !BoundedId(input.requestId) || input.expectedRevision > MAX_SAFE then (s, Error(InvalidRequest))
    else
      var state := s.session.value.Public();
      var existing := Lookup(s.receipts, input.requestId);
      if existing.Some? then
        if existing.value.expectedRevision == input.expectedRevision && existing.value.command == input.command
        then (s, ExecuteDone(existing.value.result))
        else (s, ExecuteDone(RejectedExecute(input, state, Duplicate)))
      else if !CanonicalCommand.IsCanonical(input.command) then (s, Error(InvalidRequest))
      else if state.boundary == Terminated then JournalRejection(c, s, input, state, InvalidCommand)
      else if input.expectedRevision != state.revision then JournalRejection(c, s, input, state, StaleRevision)
      else if state.revision >= MAX_SAFE then (s, Error(InternalError))
      else if !CanRecord(c, s, ReceiptBytes(WorstCase(input, state.revision))) then
        (s, ExecuteDone(RejectedExecute(input, state, ReceiptCapacity)))
      else Commit(c, s, input)
  }

  function EnvelopeOf<M>(s: RuntimeState<M>, checkpoint: seq<byte>): Envelope
    requires s.session.Some?
  {
    var state := s.session.value.Public();
    Envelope(state.revision, state.lastOutput, state.boundary, checkpoint, s.receipts)
  }

  ghost function SnapshotStep<M>(c: Config<M>, s: RuntimeState<M>): Response {
    if s.session == None then Error(NotBooted)
    else
      match Session.CheckpointOf(c.story, s.session.value)
      case None => Error(InternalError)
      case Some(checkpoint) =>
        var e := EnvelopeOf(s, checkpoint);
        if !ValidEnvelope(e) then Error(InternalError)
        else SnapshotDone(EngineSnapshot(Wire(e), c.digest(Wire(e)), e.revision, c.compatibility))
  }

  /** The state that a snapshot of this engine brings back; `None` when any check refuses it. */
  ghost function RestoredState<M>(c: Config<M>, snapshot: EngineSnapshot): Option<RuntimeState<M>> {
    if c.digest(snapshot.bytes) != snapshot.sha256 then None
    else
      var e :- ParseEnvelope(snapshot.bytes);
      if e.revision != snapshot.revision || |e.receipts| > c.maxReceipts || JournalBytes(e.receipts) > c.maxJournalBytes
      then None
      else
        var session :- Session.Restored(c.story, e.innerCheckpoint);
        if session.Public() != e.State() then None
        else Some(RuntimeState(Some(session), e.receipts, JournalBytes(e.receipts)))
  }

  predicate SnapshotShape(snapshot: EngineSnapshot) {
    && 0 < |snapshot.bytes| <= MAX_TOTAL_BYTES
    && IsSha256(snapshot.sha256)
    && snapshot.revision <= MAX_SAFE
    && WellFormedCompatibility(snapshot.compatibility)
  }

  ghost function RestoreStep<M>(c: Config<M>, s: RuntimeState<M>, snapshot: EngineSnapshot): (RuntimeState<M>, Response) {
    if s.session == None then (s, Error(NotBooted))
    else
      var active := s.session.value;
      var Reject := (r: RestoreRejection) => (s, RestoreDone(NotRestored(r), active.revision, "", active.boundary));
      if !SnapshotShape(snapshot) then Reject(CorruptSnapshot)
      else if snapshot.compatibility != c.compatibility then Reject(IncompatibleSnapshot)
      else
        match RestoredState(c, snapshot)
        case None => Reject(CorruptSnapshot)
        case Some(s') =>
          (s', RestoreDone(Restored, s'.session.value.revision, "", s'.session.value.boundary))
  }

  function InspectStep<M>(s: RuntimeState<M>): Response {
    if s.session == None then Error(NotBooted) else InspectDone(s.session.value.Public())
  }

  /** What an accepted request does to the runtime, and its answer. */
  ghost function Handle<M>(c: Config<M>, s: RuntimeState<M>, m: RequestMessage): (RuntimeState<M>, Response) {
    if !BoundedId(m.messageId) then (s, Error(InvalidRequest))
    else
      match m.request
      case Boot(storyId, artifactSha256) => BootStep(c, s, storyId, artifactSha256)
      case Execute(input) => ExecuteStep(c, s, input)
      case Snapshot => (s, SnapshotStep(c, s))
      case Restore(snapshot) => RestoreStep(c, s, snapshot)
      case Inspect => (s, InspectStep(s))
  }
}
