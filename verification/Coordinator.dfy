/**
 The semantic turn coordinator: a journal of turns, one activity at a time, and
 the events that an activity emits. Every activity is cut where the program
 awaits the guide, the engine or the narrator; a stimulus is what ends one such
 wait. A generator that hands out a bad id makes the code throw.
 */
module Coordinator {
  import opened Wrappers
  import opened EngineTypes
  import opened EventLog
  import opened Messages
  import Narration
  import Text
  import Utf8

  const MAX_ID_LENGTH: nat := 160
  const MAX_TRANSCRIPT_LENGTH: nat := 2000

  /** `fingerprint` stands for the whole input: equal just for equal inputs. */
  datatype TurnInput = TurnInput(interactionId: string, fingerprint: string, transcript: string)

  datatype TurnOutcome =
    CommittedTurn | Clarified | Explained | RejectedTurn | CancelledTurn | FailedTurn | UncertainTurn

  datatype TurnResult = TurnResult(outcome: TurnOutcome, events: seq<Event>, engineResult: Option<ExecuteResult>)

  datatype Recovery = Recovery(request: ExecuteRequest, requestedEventId: string)

  datatype Stored =
    | Pending(fingerprint: string)
    | Complete(fingerprint: string, result: TurnResult)
    | Uncertain(fingerprint: string, result: TurnResult, recovery: Recovery)

  datatype Message = Message(role: Role, text: string)

  /** What a narration was started for. */
  datatype Purpose =
    | Reply(outcome: TurnOutcome)
    | Outcome(result: ExecuteResult)
    | OpeningStory
    | Introducing(rest: seq<Message>)

  datatype Step =
    | AwaitGuide(transcriptId: string)
    | AwaitInspection(acceptedId: string, command: string)
    | AwaitExecute(causeId: string, request: ExecuteRequest)
    | AwaitCheckpoint(outputId: string, result: ExecuteResult)
    | AwaitNarrator(
        requestedId: string, narrationId: string, role: Role, sourceId: string, rest: seq<string>, purpose: Purpose)
    | AwaitOpeningInspection

  /** The boot that an opening tells of, and the text that is narrated of it. */
  datatype OpeningInput = OpeningInput(revision: nat, output: string, compatibility: Compatibility, narrationText: string)

  datatype Kind =
    | NewTurn(fingerprint: string)
    | Recovering(stored: Stored)
    | Opening(input: OpeningInput)
    | Introduction(messages: seq<Message>)

  /** The one thing under way: whose it is, what it has emitted, and what it awaits. */
  datatype Activity = Activity(interactionId: string, kind: Kind, local: seq<Event>, step: Step)

  datatype OpeningState =
    NotOpened | Retryable(interactionId: string, input: OpeningInput, sourceEventId: string) | Opened

  datatype State = State(
    turns: map<string, Stored>,
    opening: OpeningState,
    introduced: bool,
    activity: Option<Activity>,
    log: seq<Event>,
    /** History: the engine requests that were allocated, and those that were sent, each with its interaction. */
    requested: seq<(string, ExecuteRequest)>,
    submitted: seq<(string, ExecuteRequest)>)

  const INITIAL: State := State(map[], NotOpened, false, None, [], [], [])

  datatype GuideAnswer =
    | GuideFailed
    | Refuse(providerFailed: bool, text: string)
    | Clarify(text: string)
    | Explain(text: string)
    | Command(command: string)

  /** `narrationId` is what the generator gives if one is asked for; `aborted` is the state of the caller's signal. */
  datatype Stimulus =
    | SubmitTurn(input: TurnInput, aborted: bool)
    | StartOpening(interactionId: string, opening: OpeningInput, narrationId: string, aborted: bool)
    | StartIntroduction(interactionId: string, messages: seq<Message>, narrationId: string)
    | GuideAnswers(answer: GuideAnswer, aborted: bool, narrationId: string)
    | EngineInspected(state: Option<PublicState>, aborted: bool, requestId: string, narrationId: string)
    | EngineAnswers(reply: EngineAnswer)
    | Checkpointed(ok: bool, aborted: bool, narrationId: string)
    | NarratorAnswers(ok: bool, aborted: bool, narrationId: string)
    /** A transcription or audio failure, recorded as a turn of its own. */
    | RecordFailure(interactionId: string, code: string)

  /** What a submitted turn comes to at once: an error, a stored result, or the wait for the one that is under way. */
  datatype Submission = Invalid | Conflict | Full | Busy | Told(result: TurnResult) | Awaited

  datatype EngineAnswer = NotSubmitted | Unknown | Answer(result: ExecuteResult)

  predicate ValidId(id: string) {
    0 < Utf8.Utf16Length(id) <= MAX_ID_LENGTH
  }

  predicate ValidTurnInput(i: TurnInput) {
    && ValidId(i.interactionId) && !Text.HasControl(i.interactionId)
    && Text.Trim(i.transcript) != "" && Utf8.Utf16Length(i.transcript) <= MAX_TRANSCRIPT_LENGTH
    && !Text.HasControl(i.transcript)
  }

  // Emitting

  /** The log with the events of the activity under way. */
  datatype Book = Book(log: seq<Event>, local: seq<Event>)

  /** The event ids in the order in which the generator hands them out. */
  type Ids = nat -> string

  function NextEvent(ids: Ids, b: Book, correlationId: string, cause: Option<string>, payload: Payload): Event {
    EventOf(Draft(correlationId, cause, payload), ids(|b.log|), |b.log| + 1)
  }

  function Emit(ids: Ids, b: Book, correlationId: string, cause: Option<string>, payload: Payload): Book {
    var e := NextEvent(ids, b, correlationId, cause, payload);
    Book(b.log + [e], b.local + [e])
  }

  /** The id of the event that was emitted last. */
  function LastId(b: Book): string {
    if b.log == [] then "" else b.log[|b.log| - 1].id
  }

  // The end of an activity

  function Finish(s: State, b: Book): State {
    s.(activity := None, log := b.log)
  }

  function Wait(s: State, a: Activity, b: Book, step: Step): State {
    s.(activity := Some(a.(local := b.local, step := step)), log := b.log)
  }

  function Store(s: State, id: string, stored: Stored): State {
    s.(turns := s.turns[id := stored])
  }

  function FingerprintOf(k: Kind): string {
    match k
    case NewTurn(fingerprint) => fingerprint
    case Recovering(stored) => stored.fingerprint
    case _ => ""
  }

  /** A turn comes to its end and is journaled. */
  function Completed(s: State, a: Activity, b: Book, outcome: TurnOutcome, result: Option<ExecuteResult>): State {
    Store(Finish(s, b), a.interactionId, Complete(FingerprintOf(a.kind), TurnResult(outcome, b.local, result)))
  }

  /** The code throws. A new turn that allocated no request is forgotten; a recovery stays uncertain as it was. */
  function Thrown(s: State, a: Activity, b: Book): State {
    match a.kind
    case NewTurn(_) => Finish(s, b).(turns := s.turns - {a.interactionId})
    case _ => Finish(s, b)
  }

  /** A new turn whose engine outcome is not known: after a lost reply, or when finishing a result throws. */
  function RecordedUncertain(ids: Ids, s: State, a: Activity, b: Book, causeId: string, request: ExecuteRequest): State {
    var b1 := Emit(ids, b, a.interactionId, Some(causeId), SystemError("engine-outcome-uncertain"));
    Store(Finish(s, b1), a.interactionId,
      Uncertain(FingerprintOf(a.kind), TurnResult(UncertainTurn, b1.local, None), Recovery(request, causeId)))
  }

  // Narration

  function SegmentsOf(text: string, segmented: bool): seq<string> {
    if segmented then Narration.NarrationSegments(text)
    else if Text.Trim(text) == "" then [] else [text]
  }

  /** Asks the narrator for the first of `segments`; the rest waits. */
  function Narrate(
    ids: Ids, s: State, a: Activity, b: Book, role: Role, segments: seq<string>, sourceId: string, purpose: Purpose,
    narrationId: string): State
  {
    if segments == [] then Narrated(ids, s, a, b, FailedNarration, purpose, sourceId)
    else if !ValidId(narrationId) then NarrationThrown(ids, s, a, b, purpose, sourceId)
    else
      var b1 := Emit(ids, b, a.interactionId, Some(sourceId), NarrationRequested(narrationId, role, segments[0], sourceId));
      Wait(s, a, b1, AwaitNarrator(LastId(b1), narrationId, role, sourceId, segments[1..], purpose))
  }

  datatype NarrationOutcome = ReadyNarration | CancelledNarration | FailedNarration

  /** The narration id was bad. After a commit the turn is recorded as uncertain, although it is not. */
  function NarrationThrown(ids: Ids, s: State, a: Activity, b: Book, purpose: Purpose, sourceId: string): State {
    match purpose
    case Outcome(result) => FinishThrown(ids, s, a, b)
    case OpeningStory => Finish(s, b).(opening := Retryable(a.interactionId, OpeningOf(a.kind), sourceId))
    case _ => Thrown(s, a, b)
  }

  function OpeningOf(k: Kind): OpeningInput {
    match k
    case Opening(input) => input
    case _ => OpeningInput(0, "", Compatibility("", "", "", "", "", "", "", 0), "")
  }

  /** Finishing an engine result throws. */
  function FinishThrown(ids: Ids, s: State, a: Activity, b: Book): State {
    match a.kind
    case NewTurn(_) =>
      (match RequestOf(b.local)
       case Some(r) => RecordedUncertain(ids, s, a, b, r.requestedEventId, r.request)
       case None => Thrown(s, a, b))
    case _ => Thrown(s, a, b)
  }

  /** The engine request among the events of a turn. */
  function RequestOf(local: seq<Event>): Option<Recovery> {
    if local == [] then None
    else
      match local[0].payload
      case CommandRequested(requestId, revision, command) =>
        Some(Recovery(ExecuteRequest(requestId, revision, command), local[0].id))
      case _ => RequestOf(local[1..])
  }

  /** A narration, all its segments, came to an end. */
  function Narrated(ids: Ids, s: State, a: Activity, b: Book, outcome: NarrationOutcome, purpose: Purpose, sourceId: string)
    : State
  {
    match purpose
    case Reply(turnOutcome) => Completed(s, a, b, turnOutcome, None)
    case Outcome(result) => Completed(s, a, b, CommittedTurn, Some(result))
    case OpeningStory =>
      Finish(s, b).(opening :=
        if outcome == ReadyNarration then Opened else Retryable(a.interactionId, OpeningOf(a.kind), sourceId))
    case Introducing(rest) => Finish(s, b).(introduced := true)
  }

  /** The next message of an introduction. */
  function Introduce(ids: Ids, s: State, a: Activity, b: Book, messages: seq<Message>, narrationId: string): State {
    if messages == [] then Finish(s, b).(introduced := true)
    else
      var m := messages[0];
      var b1 := Emit(ids, b, a.interactionId, None, RoleIntroduction(m.role, m.text));
      var segments := SegmentsOf(m.text, true);
      Narrate(ids, s, a, b1, m.role, segments, LastId(b1), Introducing(messages[1..]), narrationId)
  }

  function NarratorStep(ids: Ids, s: State, a: Activity, ok: bool, aborted: bool, nextId: string): State
    requires a.step.AwaitNarrator?
  {
    var AwaitNarrator(requestedId, narrationId, role, sourceId, rest, purpose) := a.step;
    var b := Book(s.log, a.local);
    var cause := Some(requestedId);
    if ok then
      var b1 := Emit(ids, b, a.interactionId, cause, NarrationReady(narrationId, role));
      if rest != [] then Narrate(ids, s, a, b1, role, rest, sourceId, purpose, nextId)
      else if purpose.Introducing? then Introduce(ids, s, a, b1, purpose.rest, nextId)
      else Narrated(ids, s, a, b1, ReadyNarration, purpose, sourceId)
    else if aborted then
      var b1 := Emit(ids, b, a.interactionId, cause, NarrationCancelled(narrationId, role));
      Narrated(ids, s, a, b1, CancelledNarration, purpose, sourceId)
    else
      var b1 := Emit(ids, b, a.interactionId, cause, NarrationFailed(narrationId, role));
      var b2 := Emit(ids, b1, a.interactionId, Some(LastId(b1)), SystemError("narration-failed"));
      Narrated(ids, s, a, b2, FailedNarration, purpose, sourceId)
  }

  // Turns

  function TurnFails(ids: Ids, s: State, a: Activity, b: Book, cause: string, code: string, outcome: TurnOutcome): State {
    Completed(s, a, Emit(ids, b, a.interactionId, Some(cause), SystemError(code)), outcome, None)
  }

  /** A reply of the guide: the decision, what it says, and its narration. */
  function GuideReply(
    ids: Ids, s: State, a: Activity, b: Book, cause: string, payload: Payload, text: string, outcome: TurnOutcome,
    narrationId: string): State
  {
    var b1 := Emit(ids, b, a.interactionId, Some(cause), payload);
    Narrate(ids, s, a, b1, GuideRole, SegmentsOf(text, false), LastId(b1), Reply(outcome), narrationId)
  }

  function GuideStep(ids: Ids, s: State, a: Activity, answer: GuideAnswer, aborted: bool, narrationId: string): State
    requires a.step.AwaitGuide?
  {
    var id := a.interactionId;
    var b := Book(s.log, a.local);
    var transcriptId := a.step.transcriptId;
    if answer.GuideFailed? then
      TurnFails(ids, s, a, b, transcriptId, if aborted then "cancelled" else "guide-failed",
        if aborted then CancelledTurn else FailedTurn)
    else
      var b1 := Emit(ids, b, id, Some(transcriptId), DecisionProposed);
      var proposedId := LastId(b1);
      match answer
      case Refuse(providerFailed, text) =>
        var b2 := Emit(ids, b1, id, Some(proposedId), DecisionRejected);
        GuideReply(ids, s, a, b2, LastId(b2), CannotComply(text), text,
          if providerFailed then FailedTurn else RejectedTurn, narrationId)
      case Clarify(text) =>
        var b2 := Emit(ids, b1, id, Some(proposedId), DecisionAccepted);
        GuideReply(ids, s, a, b2, LastId(b2), Clarification(text), text, Clarified, narrationId)
      case Explain(text) =>
        var b2 := Emit(ids, b1, id, Some(proposedId), DecisionAccepted);
        GuideReply(ids, s, a, b2, LastId(b2), Explanation(text), text, Explained, narrationId)
      case Command(command) =>
        var b2 := Emit(ids, b1, id, Some(proposedId), DecisionAccepted);
        if aborted then TurnFails(ids, s, a, b2, LastId(b2), "cancelled-before-engine-submit", CancelledTurn)
        else Wait(s, a, b2, AwaitInspection(LastId(b2), command))
  }

  function InspectionStep(ids: Ids, s: State, a: Activity, state: Option<PublicState>, aborted: bool, requestId: string): State
    requires a.step.AwaitInspection?
  {
    var AwaitInspection(acceptedId, command) := a.step;
    var b := Book(s.log, a.local);
    if state == None then TurnFails(ids, s, a, b, acceptedId, "engine-inspection-failed", FailedTurn)
    else if aborted then TurnFails(ids, s, a, b, acceptedId, "cancelled-before-engine-submit", CancelledTurn)
    else if !ValidId(requestId) then Thrown(s, a, b)
    else
      var request := ExecuteRequest(requestId, state.value.revision, command);
      var b1 := Emit(ids, b, a.interactionId, Some(acceptedId), CommandRequested(requestId, state.value.revision, command));
      Wait(s, a, b1, AwaitExecute(LastId(b1), request)).(
        requested := s.requested + [(a.interactionId, request)],
        submitted := s.submitted + [(a.interactionId, request)])
  }

  /** The engine gave a result, at first or on recovery. */
  function FinishResult(
    ids: Ids, s: State, a: Activity, b: Book, cause: string, request: ExecuteRequest, result: ExecuteResult): State
  {
    if result.status != Committed then
      Completed(s, a,
        Emit(ids, b, a.interactionId, Some(cause),
          CommandRejected(request.requestId, result.revision, request.command)),
        FailedTurn, Some(result))
    else
      var b1 := Emit(ids, b, a.interactionId, Some(cause),
        CommandCommitted(result.requestId, result.revision, result.command));
      var b2 := Emit(ids, b1, a.interactionId, Some(LastId(b1)), EngineOutput(result.revision, result.output));
      Wait(s, a, b2, AwaitCheckpoint(LastId(b2), result))
  }

  function ExecuteStep(ids: Ids, s: State, a: Activity, answer: EngineAnswer): State
    requires a.step.AwaitExecute?
  {
    var AwaitExecute(causeId, request) := a.step;
    var b := Book(s.log, a.local);
    match a.kind
    case Recovering(_) =>
      (match answer
       case Answer(result) =>
         var b1 := Emit(ids, b, a.interactionId, Some(causeId), SystemRecovered(request.requestId));
         FinishResult(ids, s, a, b1, LastId(b1), request, result)
       case _ => Finish(s, b))
    case _ =>
      (match answer
       case Answer(result) => FinishResult(ids, s, a, b, causeId, request, result)
       case NotSubmitted => TurnFails(ids, s, a, b, causeId, "cancelled-before-engine-submit", CancelledTurn)
       case Unknown => RecordedUncertain(ids, s, a, b, causeId, request))
  }

  function CheckpointStep(ids: Ids, s: State, a: Activity, ok: bool, aborted: bool, narrationId: string): State
    requires a.step.AwaitCheckpoint?
  {
    var AwaitCheckpoint(outputId, result) := a.step;
    var id := a.interactionId;
    var b := Book(s.log, a.local);
    var b1 :=
      if ok then Emit(ids, b, id, Some(outputId), SaveCheckpointed)
      else
        var failed := Emit(ids, b, id, Some(outputId), SaveFailed);
        Emit(ids, failed, id, Some(LastId(failed)), SystemError("checkpoint-failed"));
    if aborted then
      if !ValidId(narrationId) then FinishThrown(ids, s, a, b1)
      else
        Completed(s, a, Emit(ids, b1, id, Some(outputId), NarrationCancelled(narrationId, NarratorRole)),
          CommittedTurn, Some(result))
    else Narrate(ids, s, a, b1, NarratorRole, SegmentsOf(result.output, false), outputId, Outcome(result), narrationId)
  }

  function SubmitStep(ids: Ids, maxTurns: nat, s: State, i: TurnInput, aborted: bool): State {
    if !ValidTurnInput(i) then s
    else if i.interactionId in s.turns then
      var stored := s.turns[i.interactionId];
      if stored.fingerprint != i.fingerprint || !stored.Uncertain? || s.activity.Some? || aborted then s
      else
        s.(activity := Some(Activity(
             i.interactionId, Recovering(stored), stored.result.events,
             AwaitExecute(stored.recovery.requestedEventId, stored.recovery.request))),
           submitted := s.submitted + [(i.interactionId, stored.recovery.request)])
    else if |s.turns| >= maxTurns || s.activity.Some? then s
    else
      var b := Emit(ids, Book(s.log, []), i.interactionId, None, TranscriptFinal(i.transcript));
      Store(s, i.interactionId, Pending(i.fingerprint)).(
        activity := Some(Activity(i.interactionId, NewTurn(i.fingerprint), b.local, AwaitGuide(LastId(b)))),
        log := b.log)
  }

  function RecordFailureStep(ids: Ids, maxTurns: nat, s: State, id: string, code: string): State {
    if !ValidId(id) || Text.HasControl(id) || !ValidId(code) || Text.HasControl(code)
      || id in s.turns || |s.turns| >= maxTurns
    then s
    else
      var b := Emit(ids, Book(s.log, []), id, None, SystemError(code));
      Store(s.(log := b.log), id, Complete("failure:" + code, TurnResult(FailedTurn, b.local, None)))
  }

  // Opening and introduction

  /** An opening is tried again only with the very input that it began with. */
  function StartOpeningStep(ids: Ids, s: State, id: string, input: OpeningInput, narrationId: string): State {
    if !ValidId(id) || s.opening.Opened? || s.activity.Some? then s
    else
      var a := Activity(id, Opening(input), [], AwaitOpeningInspection);
      match s.opening
      case Retryable(interactionId, known, sourceId) =>
        if interactionId != id || known != input then s
        else
          Narrate(ids, s, a, Book(s.log, []), NarratorRole, SegmentsOf(input.narrationText, true), sourceId,
            OpeningStory, narrationId)
      case _ => s.(activity := Some(a))
  }

  function OpeningInspectionStep(
    ids: Ids, s: State, a: Activity, state: Option<PublicState>, aborted: bool, narrationId: string): State
    requires a.step.AwaitOpeningInspection?
  {
    var input := OpeningOf(a.kind);
    var b := Book(s.log, a.local);
    if aborted || state != Some(PublicState(input.revision, input.output, InputRequested)) then Finish(s, b)
    else
      var b1 := Emit(ids, b, a.interactionId, None, EngineOutput(input.revision, input.output));
      Narrate(ids, s, a, b1, NarratorRole, SegmentsOf(input.narrationText, true), LastId(b1), OpeningStory, narrationId)
  }

  function StartIntroductionStep(ids: Ids, s: State, id: string, messages: seq<Message>, narrationId: string): State {
    if !ValidId(id) || s.introduced || s.activity.Some? || !(1 <= |messages| <= 4) then s
    else
      var a := Activity(id, Introduction(messages), [], AwaitGuide(""));
      Introduce(ids, s, a, Book(s.log, []), messages, narrationId)
  }

  // Every stimulus

  /** A stimulus that nothing waits for changes nothing. */
  function Next(ids: Ids, maxTurns: nat, s: State, x: Stimulus): State {
    match x
    case SubmitTurn(input, aborted) => SubmitStep(ids, maxTurns, s, input, aborted)
    case StartOpening(id, input, narrationId, aborted) => StartOpeningStep(ids, s, id, input, narrationId)
    case StartIntroduction(id, messages, narrationId) => StartIntroductionStep(ids, s, id, messages, narrationId)
    case RecordFailure(id, code) => RecordFailureStep(ids, maxTurns, s, id, code)
    case _ => if s.activity == None then s else Continue(ids, s, s.activity.value, x)
  }

  function Continue(ids: Ids, s: State, a: Activity, x: Stimulus): State {
    match x
    case GuideAnswers(answer, aborted, narrationId) =>
      if a.step.AwaitGuide? then GuideStep(ids, s, a, answer, aborted, narrationId) else s
    case EngineInspected(state, aborted, requestId, narrationId) =>
      if a.step.AwaitInspection? then InspectionStep(ids, s, a, state, aborted, requestId)
      else if a.step.AwaitOpeningInspection? then OpeningInspectionStep(ids, s, a, state, aborted, narrationId)
      else s
    case EngineAnswers(reply) => if a.step.AwaitExecute? then ExecuteStep(ids, s, a, reply) else s
    case Checkpointed(ok, aborted, narrationId) =>
      if a.step.AwaitCheckpoint? then CheckpointStep(ids, s, a, ok, aborted, narrationId) else s
    case NarratorAnswers(ok, aborted, narrationId) =>
      if a.step.AwaitNarrator? then NarratorStep(ids, s, a, ok, aborted, narrationId) else s
    case _ => s
  }
}
