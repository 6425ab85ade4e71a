/**
 Event causality: the log is gap-free, and every event of a turn, an opening or
 an introduction is caused by an earlier event of the same interaction.
 */
module CoordinatorEvents {
  import opened Wrappers
  import opened EngineTypes
  import opened EventLog
  import opened Coordinator
  import opened Bytes
  import Projection

  predicate NamesAt(log: seq<Event>, j: int, interactionId: string, eventId: string) {
    0 <= j < |log| && log[j].id == eventId && log[j].correlationId == interactionId
  }

  /** Some event of this interaction has this id. */
  ghost predicate Names(log: seq<Event>, interactionId: string, eventId: string) {
    exists j :: NamesAt(log, j, interactionId, eventId)
  }

  /** Only what a player or the program begins with has no cause. */
  predicate IsRoot(p: Payload) {
    p.TranscriptFinal? || p.RoleIntroduction? || p.EngineOutput? || p.SystemError?
  }

  ghost predicate CausedAt(log: seq<Event>, i: int)
    requires 0 <= i < |log|
  {
    && log[i].correlationId != ""
    && match log[i].causationId
       case Some(cause) => Names(log[..i], log[i].correlationId, cause)
       case None => IsRoot(log[i].payload)
  }

  ghost predicate Caused(log: seq<Event>) {
    forall i :: 0 <= i < |log| ==> CausedAt(log, i)
  }

  /** The events of an activity are in the log, under its interaction. */
  ghost predicate LocalIn(local: seq<Event>, log: seq<Event>, interactionId: string) {
    forall e :: e in local ==> e in log && e.correlationId == interactionId
  }

  ghost predicate StoredSound(log: seq<Event>, id: string, t: Stored) {
    && id != ""
    && (t.Uncertain? ==> Names(log, id, t.recovery.requestedEventId) && LocalIn(t.result.events, log, id))
  }

  ghost predicate StoresSound(s: State) {
    && (forall id :: id in s.turns ==> StoredSound(s.log, id, s.turns[id]))
    && (s.opening.Retryable? ==> Names(s.log, s.opening.interactionId, s.opening.sourceEventId))
  }

  ghost predicate StepSound(log: seq<Event>, id: string, step: Step) {
    match step
    case AwaitGuide(transcriptId) => Names(log, id, transcriptId)
    case AwaitInspection(acceptedId, _) => Names(log, id, acceptedId)
    case AwaitExecute(causeId, _) => Names(log, id, causeId)
    case AwaitCheckpoint(outputId, _) => Names(log, id, outputId)
    case AwaitNarrator(requestedId, _, _, sourceId, _, _) => Names(log, id, requestedId) && Names(log, id, sourceId)
    case AwaitOpeningInspection => true
  }

  ghost predicate Sound(s: State) {
    && Contiguous(s.log, 1) && Caused(s.log)
    && StoresSound(s)
    && (s.activity.Some? ==>
      && s.activity.value.interactionId != ""
      && LocalIn(s.activity.value.local, s.log, s.activity.value.interactionId)
      && StepSound(s.log, s.activity.value.interactionId, s.activity.value.step))
  }

  /** In the middle of a step: the book is ahead of the state. */
  ghost predicate Writing(s: State, id: string, b: Book) {
    && Contiguous(b.log, 1) && Caused(b.log) && s.log <= b.log && id != ""
    && LocalIn(b.local, b.log, id) && StoresSound(s)
  }

  lemma NamesGrow(log: seq<Event>, more: seq<Event>, id: string, eventId: string)
    requires Names(log, id, eventId) && log <= more
    ensures Names(more, id, eventId)
  {
    var j :| NamesAt(log, j, id, eventId);
    assert NamesAt(more, j, id, eventId);
  }

  lemma LocalGrow(local: seq<Event>, log: seq<Event>, more: seq<Event>, id: string)
    requires LocalIn(local, log, id) && log <= more
    ensures LocalIn(local, more, id)
  {
    forall e | e in local
      ensures e in more
    {
      var i :| 0 <= i < |log| && log[i] == e;
      assert more[i] == e;
    }
  }

  lemma StoresGrow(s: State, s': State)
    requires StoresSound(s) && s.log <= s'.log && s'.turns == s.turns && s'.opening == s.opening
    ensures StoresSound(s')
  {
    forall id | id in s'.turns && s'.turns[id].Uncertain?
      ensures StoredSound(s'.log, id, s'.turns[id])
    {
      assert StoredSound(s.log, id, s.turns[id]);
      NamesGrow(s.log, s'.log, id, s.turns[id].recovery.requestedEventId);
      LocalGrow(s.turns[id].result.events, s.log, s'.log, id);
    }
    if s.opening.Retryable? {
      NamesGrow(s.log, s'.log, s.opening.interactionId, s.opening.sourceEventId);
    }
  }

  /** One more event, with no cause or a cause that is there. */
  lemma EmitKeeps(ids: Ids, s: State, b: Book, id: string, cause: Option<string>, payload: Payload)
    requires Writing(s, id, b) && (cause.Some? ==> Names(b.log, id, cause.value)) && (cause == None ==> IsRoot(payload))
    ensures var b' := Emit(ids, b, id, cause, payload);
      && Writing(s, id, b') && Names(b'.log, id, LastId(b')) && b.log <= b'.log
  {
    hide StoresSound, Names;
    var b' := Emit(ids, b, id, cause, payload);
    forall i | 0 <= i < |b'.log|
      ensures CausedAt(b'.log, i)
    {
      assert b'.log[..i] == b.log[..i];
      if i < |b.log| {
        assert CausedAt(b.log, i);
      } else {
        assert b.log[..i] == b.log;
      }
    }
    LastIsNamed(b'.log, id);
    LocalGrow(b.local, b.log, b'.log, id);
    assert b'.log[|b.log|] in b'.log;
  }

  lemma LastIsNamed(log: seq<Event>, id: string)
    requires log != [] && log[|log| - 1].correlationId == id
    ensures Names(log, id, log[|log| - 1].id)
  {
    assert NamesAt(log, |log| - 1, id, log[|log| - 1].id);
  }

  // The ways a step ends

  lemma FinishSound(s: State, id: string, b: Book)
    requires Writing(s, id, b)
    ensures Sound(Finish(s, b))
  {
    hide StoresSound, Caused, LocalIn;
    StoresGrow(s, Finish(s, b));
  }

  lemma WaitSound(s: State, a: Activity, b: Book, step: Step)
    requires Writing(s, a.interactionId, b) && StepSound(b.log, a.interactionId, step)
    ensures Sound(Wait(s, a, b, step))
  {
    hide StoresSound, Caused, LocalIn, StepSound;
    StoresGrow(s, Wait(s, a, b, step));
  }

  lemma CompletedSound(s: State, a: Activity, b: Book, outcome: TurnOutcome, result: Option<ExecuteResult>)
    requires Writing(s, a.interactionId, b)
    ensures Sound(Completed(s, a, b, outcome, result))
  {
    hide Caused, LocalIn, Names;
    FinishSound(s, a.interactionId, b);
  }

  lemma ThrownSound(s: State, a: Activity, b: Book)
    requires Writing(s, a.interactionId, b)
    ensures Sound(Thrown(s, a, b))
  {
    hide Caused, LocalIn, Names;
    FinishSound(s, a.interactionId, b);
  }

  lemma RecordedUncertainSound(ids: Ids, s: State, a: Activity, b: Book, causeId: string, request: ExecuteRequest)
    requires Writing(s, a.interactionId, b) && Names(b.log, a.interactionId, causeId)
    ensures Sound(RecordedUncertain(ids, s, a, b, causeId, request))
  {
    hide Caused, LocalIn, Names, Emit;
    EmitKeeps(ids, s, b, a.interactionId, Some(causeId), SystemError("engine-outcome-uncertain"));
    var b1 := Emit(ids, b, a.interactionId, Some(causeId), SystemError("engine-outcome-uncertain"));
    NamesGrow(b.log, b1.log, a.interactionId, causeId);
    FinishSound(s, a.interactionId, b1);
  }

  lemma {:induction false} RequestIsNamed(local: seq<Event>, log: seq<Event>, id: string)
    requires LocalIn(local, log, id) && RequestOf(local).Some?
    ensures Names(log, id, RequestOf(local).value.requestedEventId)
  {
    if local[0].payload.CommandRequested? {
      var e := local[0];
      assert e in local;
      var j :| 0 <= j < |log| && log[j] == e;
      assert NamesAt(log, j, id, e.id);
    } else {
      assert forall e :: e in local[1..] ==> e in local;
      RequestIsNamed(local[1..], log, id);
    }
  }

  lemma FinishThrownSound(ids: Ids, s: State, a: Activity, b: Book)
    requires Writing(s, a.interactionId, b)
    ensures Sound(FinishThrown(ids, s, a, b))
  {
    hide Sound, Writing, RecordedUncertain, Thrown;
    ThrownSound(s, a, b);
    if RequestOf(b.local).Some? {
      assert LocalIn(b.local, b.log, a.interactionId) by {
        WritingLocal(s, a, b);
      }
      RequestIsNamed(b.local, b.log, a.interactionId);
      RecordedUncertainSound(ids, s, a, b, RequestOf(b.local).value.requestedEventId, RequestOf(b.local).value.request);
    }
  }

  lemma WritingLocal(s: State, a: Activity, b: Book)
    requires Writing(s, a.interactionId, b)
    ensures LocalIn(b.local, b.log, a.interactionId) && s.log <= b.log
  {
  }

  lemma RetryableSound(s: State, a: Activity, b: Book, sourceId: string, input: OpeningInput)
    requires Writing(s, a.interactionId, b) && Names(b.log, a.interactionId, sourceId)
    ensures Sound(Finish(s, b).(opening := Retryable(a.interactionId, input, sourceId)))
  {
    hide Caused, LocalIn, Names;
    FinishSound(s, a.interactionId, b);
  }

  lemma FinishedSound(s: State, a: Activity, b: Book, opening: bool)
    requires Writing(s, a.interactionId, b)
    ensures opening ==> Sound(Finish(s, b).(opening := Opened))
    ensures !opening ==> Sound(Finish(s, b).(introduced := true))
  {
    hide Caused, LocalIn, Names;
    FinishSound(s, a.interactionId, b);
  }

  lemma NarratedSound(ids: Ids, s: State, a: Activity, b: Book, outcome: NarrationOutcome, purpose: Purpose, sourceId: string)
    requires Writing(s, a.interactionId, b) && Names(b.log, a.interactionId, sourceId)
    ensures Sound(Narrated(ids, s, a, b, outcome, purpose, sourceId))
  {
    hide Sound, Writing, Names, Completed;
    match purpose {
      case Reply(turnOutcome) => CompletedSound(s, a, b, turnOutcome, None);
      case Outcome(result) => CompletedSound(s, a, b, CommittedTurn, Some(result));
      case OpeningStory =>
        FinishedSound(s, a, b, true);
        RetryableSound(s, a, b, sourceId, OpeningOf(a.kind));
      case Introducing(rest) => FinishedSound(s, a, b, false);
    }
  }

  lemma NarrationThrownSound(ids: Ids, s: State, a: Activity, b: Book, purpose: Purpose, sourceId: string)
    requires Writing(s, a.interactionId, b) && Names(b.log, a.interactionId, sourceId)
    ensures Sound(NarrationThrown(ids, s, a, b, purpose, sourceId))
  {
    hide Sound, Writing, Names, FinishThrown, Thrown;
    match purpose {
      case Outcome(result) => FinishThrownSound(ids, s, a, b);
      case OpeningStory => RetryableSound(s, a, b, sourceId, OpeningOf(a.kind));
      case _ => ThrownSound(s, a, b);
    }
  }

  lemma NarrateSound(
    ids: Ids, s: State, a: Activity, b: Book, role: Role, segments: seq<string>, sourceId: string, purpose: Purpose,
    narrationId: string)
    requires Writing(s, a.interactionId, b) && Names(b.log, a.interactionId, sourceId)
    ensures Sound(Narrate(ids, s, a, b, role, segments, sourceId, purpose, narrationId))
  {
    hide Sound, Writing, Names, Emit, Wait, Narrated, NarrationThrown, LastId;
    if segments == [] {
      NarratedSound(ids, s, a, b, FailedNarration, purpose, sourceId);
    } else if !ValidId(narrationId) {
      NarrationThrownSound(ids, s, a, b, purpose, sourceId);
    } else {
      var payload := NarrationRequested(narrationId, role, segments[0], sourceId);
      EmitKeeps(ids, s, b, a.interactionId, Some(sourceId), payload);
      var b1 := Emit(ids, b, a.interactionId, Some(sourceId), payload);
      NamesGrow(b.log, b1.log, a.interactionId, sourceId);
      WaitSound(s, a, b1, AwaitNarrator(LastId(b1), narrationId, role, sourceId, segments[1..], purpose));
    }
  }

  lemma IntroduceSound(ids: Ids, s: State, a: Activity, b: Book, messages: seq<Message>, narrationId: string)
    requires Writing(s, a.interactionId, b)
    ensures Sound(Introduce(ids, s, a, b, messages, narrationId))
  {
    hide Sound, Writing, Names, Emit, Narrate, LastId, SegmentsOf;
    if messages == [] {
      FinishedSound(s, a, b, false);
    } else {
      var m := messages[0];
      EmitKeeps(ids, s, b, a.interactionId, None, RoleIntroduction(m.role, m.text));
      var b1 := Emit(ids, b, a.interactionId, None, RoleIntroduction(m.role, m.text));
      NarrateSound(ids, s, a, b1, m.role, SegmentsOf(m.text, true), LastId(b1), Introducing(messages[1..]), narrationId);
    }
  }

  lemma TurnFailsSound(ids: Ids, s: State, a: Activity, b: Book, cause: string, code: string, outcome: TurnOutcome)
    requires Writing(s, a.interactionId, b) && Names(b.log, a.interactionId, cause)
    ensures Sound(TurnFails(ids, s, a, b, cause, code, outcome))
  {
    hide Sound, Writing, Names, Emit, Completed;
    EmitKeeps(ids, s, b, a.interactionId, Some(cause), SystemError(code));
    CompletedSound(s, a, Emit(ids, b, a.interactionId, Some(cause), SystemError(code)), outcome, None);
  }

  lemma GuideReplySound(
    ids: Ids, s: State, a: Activity, b: Book, cause: string, payload: Payload, text: string, outcome: TurnOutcome,
    narrationId: string)
    requires Writing(s, a.interactionId, b) && Names(b.log, a.interactionId, cause)
    ensures Sound(GuideReply(ids, s, a, b, cause, payload, text, outcome, narrationId))
  {
    hide Sound, Writing, Names, Emit, Narrate, LastId, SegmentsOf;
    EmitKeeps(ids, s, b, a.interactionId, Some(cause), payload);
    var b1 := Emit(ids, b, a.interactionId, Some(cause), payload);
    NarrateSound(ids, s, a, b1, GuideRole, SegmentsOf(text, false), LastId(b1), Reply(outcome), narrationId);
  }

  /** The activity under way picks up the book where it left it. */
  lemma PickUp(s: State)
    requires Sound(s) && s.activity.Some?
    ensures var a := s.activity.value;
      Writing(s, a.interactionId, Book(s.log, a.local)) && StepSound(s.log, a.interactionId, a.step)
  {
  }

  lemma GuideStepSound(ids: Ids, s: State, answer: GuideAnswer, aborted: bool, narrationId: string)
    requires Sound(s) && s.activity.Some? && s.activity.value.step.AwaitGuide?
    ensures Sound(GuideStep(ids, s, s.activity.value, answer, aborted, narrationId))
  {
    hide Sound, Writing, Names, Emit, Wait, TurnFails, GuideReply, LastId;
    PickUp(s);
    var a := s.activity.value;
    var id, b, transcriptId := a.interactionId, Book(s.log, a.local), a.step.transcriptId;
    if answer.GuideFailed? {
      TurnFailsSound(ids, s, a, b, transcriptId, if aborted then "cancelled" else "guide-failed",
        if aborted then CancelledTurn else FailedTurn);
    } else {
      EmitKeeps(ids, s, b, id, Some(transcriptId), DecisionProposed);
      var b1 := Emit(ids, b, id, Some(transcriptId), DecisionProposed);
      var decided := if answer.Refuse? then DecisionRejected else DecisionAccepted;
      EmitKeeps(ids, s, b1, id, Some(LastId(b1)), decided);
      var b2 := Emit(ids, b1, id, Some(LastId(b1)), decided);
      match answer {
        case Refuse(providerFailed, text) =>
          GuideReplySound(ids, s, a, b2, LastId(b2), CannotComply(text), text,
            if providerFailed then FailedTurn else RejectedTurn, narrationId);
        case Clarify(text) =>
          GuideReplySound(ids, s, a, b2, LastId(b2), Clarification(text), text, Clarified, narrationId);
        case Explain(text) =>
          GuideReplySound(ids, s, a, b2, LastId(b2), Explanation(text), text, Explained, narrationId);
        case Command(command) =>
          TurnFailsSound(ids, s, a, b2, LastId(b2), "cancelled-before-engine-submit", CancelledTurn);
          WaitSound(s, a, b2, AwaitInspection(LastId(b2), command));
        case GuideFailed =>
      }
    }
  }

  lemma RequestsSound(s: State, requested: seq<(string, ExecuteRequest)>, submitted: seq<(string, ExecuteRequest)>)
    requires Sound(s)
    ensures Sound(s.(requested := requested, submitted := submitted))
  {
    hide Names, LocalIn, Caused;
  }

  lemma InspectionStepSound(ids: Ids, s: State, state: Option<PublicState>, aborted: bool, requestId: string)
    requires Sound(s) && s.activity.Some? && s.activity.value.step.AwaitInspection?
    ensures Sound(InspectionStep(ids, s, s.activity.value, state, aborted, requestId))
  {
    hide Sound, Writing, Names, Emit, Wait, TurnFails, Thrown, LastId;
    PickUp(s);
    var a := s.activity.value;
    var AwaitInspection(acceptedId, command) := a.step;
    var id, b := a.interactionId, Book(s.log, a.local);
    TurnFailsSound(ids, s, a, b, acceptedId, "engine-inspection-failed", FailedTurn);
    TurnFailsSound(ids, s, a, b, acceptedId, "cancelled-before-engine-submit", CancelledTurn);
    ThrownSound(s, a, b);
    if state.Some? {
      var request := ExecuteRequest(requestId, state.value.revision, command);
      var payload := CommandRequested(requestId, state.value.revision, command);
      EmitKeeps(ids, s, b, id, Some(acceptedId), payload);
      var b1 := Emit(ids, b, id, Some(acceptedId), payload);
      WaitSound(s, a, b1, AwaitExecute(LastId(b1), request));
      RequestsSound(Wait(s, a, b1, AwaitExecute(LastId(b1), request)),
        s.requested + [(id, request)], s.submitted + [(id, request)]);
    }
  }

  lemma FinishResultSound(
    ids: Ids, s: State, a: Activity, b: Book, cause: string, request: ExecuteRequest, result: ExecuteResult)
    requires Writing(s, a.interactionId, b) && Names(b.log, a.interactionId, cause)
    ensures Sound(FinishResult(ids, s, a, b, cause, request, result))
  {
    hide Sound, Writing, Names, Emit, Wait, Completed, LastId;
    var id := a.interactionId;
    var rejected := CommandRejected(request.requestId, result.revision, request.command);
    EmitKeeps(ids, s, b, id, Some(cause), rejected);
    CompletedSound(s, a, Emit(ids, b, id, Some(cause), rejected), FailedTurn, Some(result));
    var committed := CommandCommitted(result.requestId, result.revision, result.command);
    EmitKeeps(ids, s, b, id, Some(cause), committed);
    var b1 := Emit(ids, b, id, Some(cause), committed);
    EmitKeeps(ids, s, b1, id, Some(LastId(b1)), EngineOutput(result.revision, result.output));
    var b2 := Emit(ids, b1, id, Some(LastId(b1)), EngineOutput(result.revision, result.output));
    WaitSound(s, a, b2, AwaitCheckpoint(LastId(b2), result));
  }

  lemma ExecuteStepSound(ids: Ids, s: State, answer: EngineAnswer)
    requires Sound(s) && s.activity.Some? && s.activity.value.step.AwaitExecute?
    ensures Sound(ExecuteStep(ids, s, s.activity.value, answer))
  {
    hide Sound, Writing, Names, Emit, TurnFails, FinishResult, RecordedUncertain, LastId;
    PickUp(s);
    var a := s.activity.value;
    var AwaitExecute(causeId, request) := a.step;
    var id, b := a.interactionId, Book(s.log, a.local);
    if answer.Answer? {
      EmitKeeps(ids, s, b, id, Some(causeId), SystemRecovered(request.requestId));
      var b1 := Emit(ids, b, id, Some(causeId), SystemRecovered(request.requestId));
      FinishResultSound(ids, s, a, b1, LastId(b1), request, answer.result);
      FinishResultSound(ids, s, a, b, causeId, request, answer.result);
    }
    FinishSound(s, id, b);
    TurnFailsSound(ids, s, a, b, causeId, "cancelled-before-engine-submit", CancelledTurn);
    RecordedUncertainSound(ids, s, a, b, causeId, request);
  }

  lemma CheckpointStepSound(ids: Ids, s: State, ok: bool, aborted: bool, narrationId: string)
    requires Sound(s) && s.activity.Some? && s.activity.value.step.AwaitCheckpoint?
    ensures Sound(CheckpointStep(ids, s, s.activity.value, ok, aborted, narrationId))
  {
    hide Sound, Writing, Names, Emit, Completed, Narrate, FinishThrown, LastId, SegmentsOf;
    PickUp(s);
    var a := s.activity.value;
    var AwaitCheckpoint(outputId, result) := a.step;
    var id, b := a.interactionId, Book(s.log, a.local);
    EmitKeeps(ids, s, b, id, Some(outputId), SaveCheckpointed);
    EmitKeeps(ids, s, b, id, Some(outputId), SaveFailed);
    var failed := Emit(ids, b, id, Some(outputId), SaveFailed);
    EmitKeeps(ids, s, failed, id, Some(LastId(failed)), SystemError("checkpoint-failed"));
    var b1 := if ok then Emit(ids, b, id, Some(outputId), SaveCheckpointed)
      else Emit(ids, failed, id, Some(LastId(failed)), SystemError("checkpoint-failed"));
    NamesGrow(b.log, b1.log, id, outputId);
    if aborted {
      FinishThrownSound(ids, s, a, b1);
      var payload := NarrationCancelled(narrationId, NarratorRole);
      EmitKeeps(ids, s, b1, id, Some(outputId), payload);
      CompletedSound(s, a, Emit(ids, b1, id, Some(outputId), payload), CommittedTurn, Some(result));
    } else {
      NarrateSound(ids, s, a, b1, NarratorRole, SegmentsOf(result.output, false), outputId, Outcome(result), narrationId);
    }
  }

  lemma NarratorStepSound(ids: Ids, s: State, ok: bool, aborted: bool, nextId: string)
    requires Sound(s) && s.activity.Some? && s.activity.value.step.AwaitNarrator?
    ensures Sound(NarratorStep(ids, s, s.activity.value, ok, aborted, nextId))
  {
    hide Sound, Writing, Names, Emit, Narrated, Narrate, Introduce, LastId;
    PickUp(s);
    var a := s.activity.value;
    var AwaitNarrator(requestedId, narrationId, role, sourceId, rest, purpose) := a.step;
    var id, b := a.interactionId, Book(s.log, a.local);
    var cause := Some(requestedId);
    if ok || aborted {
      var payload := if ok then NarrationReady(narrationId, role) else NarrationCancelled(narrationId, role);
      EmitKeeps(ids, s, b, id, cause, payload);
      var b1 := Emit(ids, b, id, cause, payload);
      NamesGrow(b.log, b1.log, id, sourceId);
      NarratedSound(ids, s, a, b1, if ok then ReadyNarration else CancelledNarration, purpose, sourceId);
      NarrateSound(ids, s, a, b1, role, rest, sourceId, purpose, nextId);
      if purpose.Introducing? {
        IntroduceSound(ids, s, a, b1, purpose.rest, nextId);
      }
    } else {
      EmitKeeps(ids, s, b, id, cause, NarrationFailed(narrationId, role));
      var b1 := Emit(ids, b, id, cause, NarrationFailed(narrationId, role));
      EmitKeeps(ids, s, b1, id, Some(LastId(b1)), SystemError("narration-failed"));
      var b2 := Emit(ids, b1, id, Some(LastId(b1)), SystemError("narration-failed"));
      NamesGrow(b.log, b1.log, id, sourceId);
      NamesGrow(b1.log, b2.log, id, sourceId);
      NarratedSound(ids, s, a, b2, FailedNarration, purpose, sourceId);
    }
  }

  lemma ValidIds(id: string, i: TurnInput)
    ensures ValidId(id) ==> id != ""
    ensures ValidTurnInput(i) ==> i.interactionId != ""
  {
  }

  lemma Blank(s: State, id: string)
    requires Sound(s) && id != ""
    ensures Writing(s, id, Book(s.log, []))
  {
  }

  lemma SubmitSound(ids: Ids, maxTurns: nat, s: State, i: TurnInput, aborted: bool)
    requires Sound(s)
    ensures Sound(SubmitStep(ids, maxTurns, s, i, aborted))
  {
    hide Names, Caused, Contiguous, Emit, LastId, ValidTurnInput, Writing, LocalIn;
    var id := i.interactionId;
    ValidIds(id, i);
    if id in s.turns {
      assert StoredSound(s.log, id, s.turns[id]);
    } else if id != "" {
      Blank(s, id);
      EmitKeeps(ids, s, Book(s.log, []), id, None, TranscriptFinal(i.transcript));
      var b := Emit(ids, Book(s.log, []), id, None, TranscriptFinal(i.transcript));
      var a := Activity(id, NewTurn(i.fingerprint), b.local, AwaitGuide(LastId(b)));
      WaitSound(s, a, b, AwaitGuide(LastId(b)));
    }
  }

  lemma StartsSound(ids: Ids, maxTurns: nat, s: State, x: Stimulus)
    requires Sound(s) && (x.StartOpening? || x.StartIntroduction? || x.RecordFailure?)
    ensures Sound(Next(ids, maxTurns, s, x))
  {
    hide Names, Caused, Contiguous, Emit, LastId, Writing, LocalIn, Narrate, Introduce, SegmentsOf, ValidId;
    ValidIds(x.interactionId, TurnInput("", "", ""));
    if !ValidId(x.interactionId) {
      return;
    }
    match x {
      case StartOpening(id, input, narrationId, aborted) =>
        Blank(s, id);
        if s.opening.Retryable? && s.opening.interactionId == id {
          var a := Activity(id, Opening(input), [], AwaitOpeningInspection);
          NarrateSound(ids, s, a, Book(s.log, []), NarratorRole, SegmentsOf(input.narrationText, true),
            s.opening.sourceEventId, OpeningStory, narrationId);
        } else {
          NothingLocal(s.log, id);
        }
      case StartIntroduction(id, messages, narrationId) =>
        Blank(s, id);
        IntroduceSound(ids, s, Activity(id, Introduction(messages), [], AwaitGuide("")), Book(s.log, []), messages, narrationId);
      case RecordFailure(id, code) =>
        if id !in s.turns {
          Blank(s, id);
          EmitKeeps(ids, s, Book(s.log, []), id, None, SystemError(code));
          RecordSound(s, id, Emit(ids, Book(s.log, []), id, None, SystemError(code)), code);
        }
    }
  }

  lemma NothingLocal(log: seq<Event>, id: string)
    ensures LocalIn([], log, id)
  {
  }

  /** A record beside the activity: the activity keeps its place in the longer log. */
  lemma RecordSound(s: State, id: string, b: Book, code: string)
    requires Sound(s) && Writing(s, id, b) && id !in s.turns
    ensures Sound(Store(s.(log := b.log), id, Complete("failure:" + code, TurnResult(FailedTurn, b.local, None))))
  {
    hide Caused, LocalIn, Names;
    StoresGrow(s, s.(log := b.log));
    if s.activity.Some? {
      var a := s.activity.value;
      LocalGrow(a.local, s.log, b.log, a.interactionId);
      match a.step {
        case AwaitGuide(x) => NamesGrow(s.log, b.log, a.interactionId, x);
        case AwaitInspection(x, _) => NamesGrow(s.log, b.log, a.interactionId, x);
        case AwaitExecute(x, _) => NamesGrow(s.log, b.log, a.interactionId, x);
        case AwaitCheckpoint(x, _) => NamesGrow(s.log, b.log, a.interactionId, x);
        case AwaitNarrator(x, _, _, y, _, _) =>
          NamesGrow(s.log, b.log, a.interactionId, x);
          NamesGrow(s.log, b.log, a.interactionId, y);
        case AwaitOpeningInspection =>
      }
    }
  }

  lemma OpeningInspectionSound(ids: Ids, s: State, state: Option<PublicState>, aborted: bool, narrationId: string)
    requires Sound(s) && s.activity.Some? && s.activity.value.step.AwaitOpeningInspection?
    ensures Sound(OpeningInspectionStep(ids, s, s.activity.value, state, aborted, narrationId))
  {
    hide Sound, Writing, Names, Emit, Narrate, LastId, SegmentsOf;
    PickUp(s);
    var a := s.activity.value;
    var input, b := OpeningOf(a.kind), Book(s.log, a.local);
    FinishSound(s, a.interactionId, b);
    EmitKeeps(ids, s, b, a.interactionId, None, EngineOutput(input.revision, input.output));
    var b1 := Emit(ids, b, a.interactionId, None, EngineOutput(input.revision, input.output));
    NarrateSound(ids, s, a, b1, NarratorRole, SegmentsOf(input.narrationText, true), LastId(b1), OpeningStory, narrationId);
  }

  lemma NextSound(ids: Ids, maxTurns: nat, s: State, x: Stimulus)
    requires Sound(s)
    ensures Sound(Next(ids, maxTurns, s, x))
  {
    hide Sound, SubmitStep, GuideStep, InspectionStep, OpeningInspectionStep, ExecuteStep, CheckpointStep, NarratorStep;
    hide StartOpeningStep, StartIntroductionStep, RecordFailureStep;
    match x {
      case SubmitTurn(input, aborted) => SubmitSound(ids, maxTurns, s, input, aborted);
      case GuideAnswers(answer, aborted, narrationId) =>
        if s.activity.Some? && s.activity.value.step.AwaitGuide? {
          GuideStepSound(ids, s, answer, aborted, narrationId);
        }
      case EngineInspected(state, aborted, requestId, narrationId) =>
        if s.activity.Some? && s.activity.value.step.AwaitInspection? {
          InspectionStepSound(ids, s, state, aborted, requestId);
        } else if s.activity.Some? && s.activity.value.step.AwaitOpeningInspection? {
          OpeningInspectionSound(ids, s, state, aborted, narrationId);
        }
      case EngineAnswers(reply) =>
        if s.activity.Some? && s.activity.value.step.AwaitExecute? {
          ExecuteStepSound(ids, s, reply);
        }
      case Checkpointed(ok, aborted, narrationId) =>
        if s.activity.Some? && s.activity.value.step.AwaitCheckpoint? {
          CheckpointStepSound(ids, s, ok, aborted, narrationId);
        }
      case NarratorAnswers(ok, aborted, narrationId) =>
        if s.activity.Some? && s.activity.value.step.AwaitNarrator? {
          NarratorStepSound(ids, s, ok, aborted, narrationId);
        }
      case _ => StartsSound(ids, maxTurns, s, x);
    }
  }

  function Run(ids: Ids, maxTurns: nat, s: State, xs: seq<Stimulus>): State
    decreases |xs|
  {
    if xs == [] then s else Run(ids, maxTurns, Next(ids, maxTurns, s, xs[0]), xs[1..])
  }

  lemma {:induction false} RunSound(ids: Ids, maxTurns: nat, s: State, xs: seq<Stimulus>)
    requires Sound(s)
    ensures Sound(Run(ids, maxTurns, s, xs))
    decreases |xs|
  {
    hide Sound, Next;
    if xs != [] {
      NextSound(ids, maxTurns, s, xs[0]);
      RunSound(ids, maxTurns, Next(ids, maxTurns, s, xs[0]), xs[1..]);
    }
  }

  lemma InitialSound()
    ensures Sound(INITIAL)
  {
  }

  lemma SoundLog(s: State)
    requires Sound(s)
    ensures Contiguous(s.log, 1) && Caused(s.log)
  {
  }

  /**
   In every run the sequence numbers are 1, 2, 3 and so on, every event that does not begin something names an earlier
   event of its own interaction as its cause, and the projection of the log never meets an event out of order.
   */
  lemma EventsAreCausal(ids: Ids, maxTurns: nat, xs: seq<Stimulus>)
    ensures var log := Run(ids, maxTurns, INITIAL, xs).log;
      Contiguous(log, 1) && Caused(log) && Projection.Project(log).Some?
  {
    hide Sound, Next, Projection.Project;
    InitialSound();
    RunSound(ids, maxTurns, INITIAL, xs);
    SoundLog(Run(ids, maxTurns, INITIAL, xs));
    var log := Run(ids, maxTurns, INITIAL, xs).log;
    assert Projection.Ordered(log);
    Projection.ProjectWindow(log);
  }

  /** The appends that leave this log. */
  function Appends(log: seq<Event>): (ds: seq<(Draft, Supply)>)
    ensures |ds| == |log|
  {
    seq(|log|, i requires 0 <= i < |log| =>
      (Draft(log[i].correlationId, log[i].causationId, log[i].payload), Supply(log[i].id, true)))
  }

  lemma {:induction false} AllocatorLeaves(log: seq<Event>)
    requires Contiguous(log, 1) && Caused(log) && |log| <= MAX_SAFE
    requires forall i :: 0 <= i < |log| ==> log[i].id != ""
    ensures AppendAll(Some(1), Appends(log)).1 == log
    ensures AppendAll(Some(1), Appends(log)).0 == if |log| < MAX_SAFE then Some(|log| + 1) else None
  {
    if log != [] {
      var n := |log| - 1;
      var before := log[..n];
      assert Caused(before) by {
        forall i | 0 <= i < n
          ensures CausedAt(before, i)
        {
          assert before[..i] == log[..i] && CausedAt(log, i);
        }
      }
      AllocatorLeaves(before);
      assert Appends(log)[..n] == Appends(before);
      assert CausedAt(log, n);
      assert log == before + [log[n]];
    }
  }

  /** In every run, the allocator of sequence numbers is what numbers the log. */
  lemma LogIsAllocated(ids: Ids, maxTurns: nat, xs: seq<Stimulus>)
    requires var log := Run(ids, maxTurns, INITIAL, xs).log;
      |log| <= MAX_SAFE && forall i :: 0 <= i < |log| ==> log[i].id != ""
    ensures var log := Run(ids, maxTurns, INITIAL, xs).log;
      AppendAll(Some(1), Appends(log)).1 == log
  {
    hide Sound, Next;
    InitialSound();
    RunSound(ids, maxTurns, INITIAL, xs);
    SoundLog(Run(ids, maxTurns, INITIAL, xs));
    AllocatorLeaves(Run(ids, maxTurns, INITIAL, xs).log);
  }
}
