/** The coordinator object: it emits as it goes, and each method ends where the program awaits something or returns. */
module TurnCoordinator {
  import opened Wrappers
  import opened EngineTypes
  import opened EventLog
  import C = Coordinator
  import Text

  class SemanticTurnCoordinator {
    const ids: C.Ids
    const maxTurns: nat
    var turns: map<string, C.Stored>
    var opening: C.OpeningState
    var introduced: bool
    var activeInteractionId: Option<string>
    var kind: C.Kind
    var local: seq<Event>
    var step: C.Step
    var log: seq<Event>
    ghost var requested: seq<(string, ExecuteRequest)>
    ghost var submitted: seq<(string, ExecuteRequest)>

    ghost function Abstract(): C.State
      reads this
    {
      C.State(
        turns, opening, introduced,
        if activeInteractionId.Some? then Some(C.Activity(activeInteractionId.value, kind, local, step)) else None,
        log, requested, submitted)
    }

    /** The state that a step began with, as far as the step has not changed it. */
    ghost predicate During(s: C.State, a: C.Activity)
      reads this
    {
      && activeInteractionId == Some(a.interactionId) && kind == a.kind
      && s.turns == turns && s.opening == opening && s.introduced == introduced
      && s.requested == requested && s.submitted == submitted
    }

    ghost function Written(): C.Book
      reads this
    {
      C.Book(log, local)
    }

    constructor (ids: C.Ids, maxTurns: nat)
      requires maxTurns >= 1
      ensures Abstract() == C.INITIAL && this.ids == ids && this.maxTurns == maxTurns
    {
      this.ids, this.maxTurns := ids, maxTurns;
      turns, opening, introduced, activeInteractionId := map[], C.NotOpened, false, None;
      kind, local, step, log := C.Introduction([]), [], C.AwaitGuide(""), [];
      requested, submitted := [], [];
    }

    /** Appends to the log and to the events of the activity; the id of the event. */
    method Emit(cause: Option<string>, payload: Payload) returns (id: string)
      requires activeInteractionId.Some?
      modifies this`log, this`local
      ensures Written() == C.Emit(ids, old(Written()), activeInteractionId.value, cause, payload)
      ensures id == C.LastId(Written())
    {
      id := ids(|log|);
      var event := Event(id, |log| + 1, activeInteractionId.value, cause, payload);
      log, local := log + [event], local + [event];
    }

    method Complete(outcome: C.TurnOutcome, result: Option<ExecuteResult>, ghost s: C.State, ghost a: C.Activity)
      requires During(s, a)
      modifies this
      ensures Abstract() == C.Completed(s, a, old(Written()), outcome, result)
    {
      var fingerprint := match kind
        case NewTurn(fingerprint) => fingerprint
        case Recovering(stored) => stored.fingerprint
        case _ => "";
      turns := turns[activeInteractionId.value := C.Complete(fingerprint, C.TurnResult(outcome, local, result))];
      activeInteractionId := None;
    }

    /** An error leaves the activity: a new turn is forgotten. */
    method Throw(ghost s: C.State, ghost a: C.Activity)
      requires During(s, a)
      modifies this
      ensures Abstract() == C.Thrown(s, a, old(Written()))
    {
      if kind.NewTurn? {
        turns := turns - {activeInteractionId.value};
      }
      activeInteractionId := None;
    }

    method RecordUncertain(causeId: string, request: ExecuteRequest, ghost s: C.State, ghost a: C.Activity)
      requires During(s, a)
      modifies this
      ensures Abstract() == C.RecordedUncertain(ids, s, a, old(Written()), causeId, request)
    {
      var fingerprint := match kind
        case NewTurn(fingerprint) => fingerprint
        case Recovering(stored) => stored.fingerprint
        case _ => "";
      var _ := Emit(Some(causeId), SystemError("engine-outcome-uncertain"));
      turns := turns[activeInteractionId.value :=
        C.Uncertain(fingerprint, C.TurnResult(C.UncertainTurn, local, None), C.Recovery(request, causeId))];
      activeInteractionId := None;
    }

    /** An error while an engine result is finished: the handler around the execute takes it for a lost reply. */
    method ThrowAfterExecute(ghost s: C.State, ghost a: C.Activity)
      requires During(s, a)
      modifies this
      ensures Abstract() == C.FinishThrown(ids, s, a, old(Written()))
    {
      hide C.RequestOf;
      var request := C.RequestOf(local);
      if kind.NewTurn? && request.Some? {
        RecordUncertain(request.value.requestedEventId, request.value.request, s, a);
      } else {
        Throw(s, a);
      }
    }

    /** The narration of `purpose` is over. */
    method FinishNarration(
      outcome: C.NarrationOutcome, purpose: C.Purpose, sourceId: string, ghost s: C.State, ghost a: C.Activity)
      requires During(s, a)
      modifies this
      ensures Abstract() == C.Narrated(ids, s, a, old(Written()), outcome, purpose, sourceId)
    {
      match purpose {
        case Reply(turnOutcome) => Complete(turnOutcome, None, s, a);
        case Outcome(result) => Complete(C.CommittedTurn, Some(result), s, a);
        case OpeningStory =>
          opening := if outcome == C.ReadyNarration then C.Opened
            else C.Retryable(activeInteractionId.value, C.OpeningOf(kind), sourceId);
          activeInteractionId := None;
        case Introducing(_) =>
          introduced := true;
          activeInteractionId := None;
      }
    }

    method Narrate(
      role: Role, segments: seq<string>, sourceId: string, purpose: C.Purpose, narrationId: string,
      ghost s: C.State, ghost a: C.Activity)
      requires During(s, a)
      modifies this
      ensures Abstract() == C.Narrate(ids, s, a, old(Written()), role, segments, sourceId, purpose, narrationId)
    {
      hide C.Emit, C.LastId, C.ValidId, C.FinishThrown;
      if segments == [] {
        FinishNarration(C.FailedNarration, purpose, sourceId, s, a);
        return;
      }
      if !C.ValidId(narrationId) {
        match purpose {
          case Outcome(_) => ThrowAfterExecute(s, a);
          case OpeningStory =>
            opening := C.Retryable(activeInteractionId.value, C.OpeningOf(kind), sourceId);
            activeInteractionId := None;
          case _ => Throw(s, a);
        }
        return;
      }
      var requestedId := Emit(Some(sourceId), NarrationRequested(narrationId, role, segments[0], sourceId));
      step := C.AwaitNarrator(requestedId, narrationId, role, sourceId, segments[1..], purpose);
    }

    method Introduce(messages: seq<C.Message>, narrationId: string, ghost s: C.State, ghost a: C.Activity)
      requires During(s, a)
      modifies this
      ensures Abstract() == C.Introduce(ids, s, a, old(Written()), messages, narrationId)
    {
      hide C.Emit, C.LastId, C.Narrate, C.SegmentsOf;
      if messages == [] {
        introduced := true;
        activeInteractionId := None;
        return;
      }
      var sourceId := Emit(None, RoleIntroduction(messages[0].role, messages[0].text));
      Narrate(messages[0].role, C.SegmentsOf(messages[0].text, true), sourceId, C.Introducing(messages[1..]), narrationId, s, a);
    }

    method FailTurn(cause: string, code: string, outcome: C.TurnOutcome, ghost s: C.State, ghost a: C.Activity)
      requires During(s, a)
      modifies this
      ensures Abstract() == C.TurnFails(ids, s, a, old(Written()), cause, code, outcome)
    {
      hide C.Emit;
      var _ := Emit(Some(cause), SystemError(code));
      Complete(outcome, None, s, a);
    }

    /** A finished turn answers with its result, whatever goes on; an uncertain one does when aborted. */
    method SubmitTurn(input: C.TurnInput, aborted: bool) returns (submission: C.Submission)
      modifies this
      ensures Abstract() == C.Next(ids, maxTurns, old(Abstract()), C.SubmitTurn(input, aborted))
      ensures submission ==
        if !C.ValidTurnInput(input) then C.Invalid
        else if input.interactionId !in old(turns) then
          if |old(turns)| >= maxTurns then C.Full else if old(activeInteractionId).Some? then C.Busy else C.Awaited
        else if old(turns)[input.interactionId].fingerprint != input.fingerprint then C.Conflict
        else
          match old(turns)[input.interactionId]
          case Complete(_, result) => C.Told(result)
          case Pending(_) => C.Awaited
          case Uncertain(_, result, _) =>
            if old(activeInteractionId).Some? then C.Busy else if aborted then C.Told(result) else C.Awaited
    {
      hide C.ValidTurnInput, C.Emit, C.LastId;
      if !C.ValidTurnInput(input) {
        return C.Invalid;
      }
      if input.interactionId in turns {
        var existing := turns[input.interactionId];
        if existing.fingerprint != input.fingerprint {
          return C.Conflict;
        }
        match existing {
          case Complete(_, result) => return C.Told(result);
          case Pending(_) => return C.Awaited;
          case Uncertain(_, _, _) =>
            submission := Recover(input.interactionId, existing, aborted);
            return;
        }
      }
      if |turns| >= maxTurns {
        return C.Full;
      }
      if activeInteractionId.Some? {
        return C.Busy;
      }
      activeInteractionId, kind, local := Some(input.interactionId), C.NewTurn(input.fingerprint), [];
      turns := turns[input.interactionId := C.Pending(input.fingerprint)];
      var transcriptId := Emit(None, TranscriptFinal(input.transcript));
      step := C.AwaitGuide(transcriptId);
      return C.Awaited;
    }

    method Recover(interactionId: string, stored: C.Stored, aborted: bool) returns (submission: C.Submission)
      requires stored.Uncertain?
      modifies this
      ensures Abstract() ==
        if old(activeInteractionId).Some? || aborted then old(Abstract())
        else
          old(Abstract()).(
            activity := Some(C.Activity(
              interactionId, C.Recovering(stored), stored.result.events,
              C.AwaitExecute(stored.recovery.requestedEventId, stored.recovery.request))),
            submitted := old(submitted) + [(interactionId, stored.recovery.request)])
      ensures submission ==
        if old(activeInteractionId).Some? then C.Busy else if aborted then C.Told(stored.result) else C.Awaited
    {
      if activeInteractionId.Some? {
        return C.Busy;
      }
      if aborted {
        return C.Told(stored.result);
      }
      activeInteractionId, kind, local := Some(interactionId), C.Recovering(stored), stored.result.events;
      submitted := submitted + [(interactionId, stored.recovery.request)];
      step := C.AwaitExecute(stored.recovery.requestedEventId, stored.recovery.request);
      return C.Awaited;
    }

    method GuideAnswered(answer: C.GuideAnswer, aborted: bool, narrationId: string)
      requires activeInteractionId.Some? && step.AwaitGuide?
      modifies this
      ensures Abstract() == C.Next(ids, maxTurns, old(Abstract()), C.GuideAnswers(answer, aborted, narrationId))
    {
      hide C.Emit, C.LastId, C.Narrate, C.SegmentsOf, C.TurnFails;
      ghost var s, a := Abstract(), Abstract().activity.value;
      var transcriptId := step.transcriptId;
      if answer.GuideFailed? {
        FailTurn(transcriptId, if aborted then "cancelled" else "guide-failed",
          if aborted then C.CancelledTurn else C.FailedTurn, s, a);
        return;
      }
      var proposedId := Emit(Some(transcriptId), DecisionProposed);
      if answer.Refuse? {
        var rejectedId := Emit(Some(proposedId), DecisionRejected);
        Say(CannotComply(answer.text), answer.text, rejectedId,
          if answer.providerFailed then C.FailedTurn else C.RejectedTurn, narrationId, s, a);
        return;
      }
      var acceptedId := Emit(Some(proposedId), DecisionAccepted);
      if answer.Clarify? {
        Say(Clarification(answer.text), answer.text, acceptedId, C.Clarified, narrationId, s, a);
      } else if answer.Explain? {
        Say(Explanation(answer.text), answer.text, acceptedId, C.Explained, narrationId, s, a);
      } else if aborted {
        FailTurn(acceptedId, "cancelled-before-engine-submit", C.CancelledTurn, s, a);
      } else {
        step := C.AwaitInspection(acceptedId, answer.command);
      }
    }

    method Say(
      payload: Payload, text: string, cause: string, outcome: C.TurnOutcome, narrationId: string,
      ghost s: C.State, ghost a: C.Activity)
      requires During(s, a)
      modifies this
      ensures Abstract() == C.GuideReply(ids, s, a, old(Written()), cause, payload, text, outcome, narrationId)
    {
      hide C.Emit, C.LastId, C.Narrate, C.SegmentsOf;
      var sourceId := Emit(Some(cause), payload);
      Narrate(GuideRole, C.SegmentsOf(text, false), sourceId, C.Reply(outcome), narrationId, s, a);
    }

    method EngineInspected(state: Option<PublicState>, aborted: bool, requestId: string, narrationId: string)
      requires activeInteractionId.Some? && step.AwaitInspection?
      modifies this
      ensures Abstract() ==
        C.Next(ids, maxTurns, old(Abstract()), C.EngineInspected(state, aborted, requestId, narrationId))
    {
      hide C.Emit, C.LastId, C.TurnFails, C.ValidId;
      ghost var s, a := Abstract(), Abstract().activity.value;
      var acceptedId, command := step.acceptedId, step.command;
      if state == None {
        FailTurn(acceptedId, "engine-inspection-failed", C.FailedTurn, s, a);
        return;
      }
      if aborted {
        FailTurn(acceptedId, "cancelled-before-engine-submit", C.CancelledTurn, s, a);
        return;
      }
      if !C.ValidId(requestId) {
        Throw(s, a);
        return;
      }
      var request := ExecuteRequest(requestId, state.value.revision, command);
      var requestedId := Emit(Some(acceptedId), CommandRequested(requestId, state.value.revision, command));
      requested, submitted := requested + [(a.interactionId, request)], submitted + [(a.interactionId, request)];
      step := C.AwaitExecute(requestedId, request);
    }

    method FinishEngineResult(
      cause: string, request: ExecuteRequest, result: ExecuteResult, ghost s: C.State, ghost a: C.Activity)
      requires During(s, a)
      modifies this
      ensures Abstract() == C.FinishResult(ids, s, a, old(Written()), cause, request, result)
    {
      hide C.Emit, C.LastId;
      if result.status != Committed {
        var _ := Emit(Some(cause), CommandRejected(request.requestId, result.revision, request.command));
        Complete(C.FailedTurn, Some(result), s, a);
        return;
      }
      var committedId := Emit(Some(cause), CommandCommitted(result.requestId, result.revision, result.command));
      var outputId := Emit(Some(committedId), EngineOutput(result.revision, result.output));
      step := C.AwaitCheckpoint(outputId, result);
    }

    method EngineAnswered(reply: C.EngineAnswer)
      requires activeInteractionId.Some? && step.AwaitExecute?
      modifies this
      ensures Abstract() == C.Next(ids, maxTurns, old(Abstract()), C.EngineAnswers(reply))
    {
      hide C.Emit, C.LastId, C.TurnFails, C.FinishResult;
      ghost var s, a := Abstract(), Abstract().activity.value;
      var causeId, request := step.causeId, step.request;
      if kind.Recovering? {
        if reply.Answer? {
          var recoveredId := Emit(Some(causeId), SystemRecovered(request.requestId));
          FinishEngineResult(recoveredId, request, reply.result, s, a);
        } else {
          activeInteractionId := None;
        }
        return;
      }
      match reply {
        case Answer(result) => FinishEngineResult(causeId, request, result, s, a);
        case NotSubmitted => FailTurn(causeId, "cancelled-before-engine-submit", C.CancelledTurn, s, a);
        case Unknown => RecordUncertain(causeId, request, s, a);
      }
    }

    method CheckpointDone(ok: bool, aborted: bool, narrationId: string)
      requires activeInteractionId.Some? && step.AwaitCheckpoint?
      modifies this
      ensures Abstract() == C.Next(ids, maxTurns, old(Abstract()), C.Checkpointed(ok, aborted, narrationId))
    {
      hide C.Emit, C.LastId, C.FinishThrown, C.Narrate, C.ValidId, C.SegmentsOf;
      ghost var s, a := Abstract(), Abstract().activity.value;
      var outputId, result := step.outputId, step.result;
      if ok {
        var _ := Emit(Some(outputId), SaveCheckpointed);
      } else {
        var failedId := Emit(Some(outputId), SaveFailed);
        var _ := Emit(Some(failedId), SystemError("checkpoint-failed"));
      }
      if !aborted {
        Narrate(NarratorRole, C.SegmentsOf(result.output, false), outputId, C.Outcome(result), narrationId, s, a);
      } else if !C.ValidId(narrationId) {
        ThrowAfterExecute(s, a);
      } else {
        var _ := Emit(Some(outputId), NarrationCancelled(narrationId, NarratorRole));
        Complete(C.CommittedTurn, Some(result), s, a);
      }
    }

    method NarratorAnswered(ok: bool, aborted: bool, nextId: string)
      requires activeInteractionId.Some? && step.AwaitNarrator?
      modifies this
      ensures Abstract() == C.Next(ids, maxTurns, old(Abstract()), C.NarratorAnswers(ok, aborted, nextId))
    {
      hide C.Emit, C.LastId, C.Narrate, C.Narrated, C.Introduce;
      ghost var s, a := Abstract(), Abstract().activity.value;
      var AwaitNarrator(requestedId, narrationId, role, sourceId, rest, purpose) := step;
      if ok {
        var _ := Emit(Some(requestedId), NarrationReady(narrationId, role));
        if rest != [] {
          Narrate(role, rest, sourceId, purpose, nextId, s, a);
        } else if purpose.Introducing? {
          Introduce(purpose.rest, nextId, s, a);
        } else {
          FinishNarration(C.ReadyNarration, purpose, sourceId, s, a);
        }
      } else if aborted {
        var _ := Emit(Some(requestedId), NarrationCancelled(narrationId, role));
        FinishNarration(C.CancelledNarration, purpose, sourceId, s, a);
      } else {
        var failedId := Emit(Some(requestedId), NarrationFailed(narrationId, role));
        var _ := Emit(Some(failedId), SystemError("narration-failed"));
        FinishNarration(C.FailedNarration, purpose, sourceId, s, a);
      }
    }

    method PrepareOpening(interactionId: string, input: C.OpeningInput, narrationId: string, aborted: bool)
      modifies this
      ensures Abstract() == C.Next(ids, maxTurns, old(Abstract()),
        C.StartOpening(interactionId, input, narrationId, aborted))
    {
      hide C.ValidId, C.Narrate, C.SegmentsOf;
      if !C.ValidId(interactionId) || opening.Opened? || activeInteractionId.Some? {
        return;
      }
      if opening.Retryable? && (opening.interactionId != interactionId || opening.input != input) {
        return;
      }
      ghost var s := Abstract();
      activeInteractionId, kind, local := Some(interactionId), C.Opening(input), [];
      step := C.AwaitOpeningInspection;
      if opening.Retryable? {
        Narrate(NarratorRole, C.SegmentsOf(input.narrationText, true), opening.sourceEventId, C.OpeningStory, narrationId,
          s, C.Activity(interactionId, kind, [], step));
      }
    }

    method OpeningInspected(state: Option<PublicState>, aborted: bool, requestId: string, narrationId: string)
      requires activeInteractionId.Some? && step.AwaitOpeningInspection?
      modifies this
      ensures Abstract() ==
        C.Next(ids, maxTurns, old(Abstract()), C.EngineInspected(state, aborted, requestId, narrationId))
    {
      hide C.Emit, C.LastId, C.Narrate, C.SegmentsOf;
      ghost var s, a := Abstract(), Abstract().activity.value;
      var input := C.OpeningOf(kind);
      if aborted || state != Some(PublicState(input.revision, input.output, InputRequested)) {
        activeInteractionId := None;
        return;
      }
      var sourceId := Emit(None, EngineOutput(input.revision, input.output));
      Narrate(NarratorRole, C.SegmentsOf(input.narrationText, true), sourceId, C.OpeningStory, narrationId, s, a);
    }

    method PrepareRoleIntroduction(interactionId: string, messages: seq<C.Message>, narrationId: string)
      modifies this
      ensures Abstract() == C.Next(ids, maxTurns, old(Abstract()),
        C.StartIntroduction(interactionId, messages, narrationId))
    {
      hide C.ValidId, C.Introduce;
      if !C.ValidId(interactionId) || introduced || activeInteractionId.Some? || |messages| < 1 || |messages| > 4 {
        return;
      }
      ghost var s := Abstract();
      activeInteractionId, kind, local, step := Some(interactionId), C.Introduction(messages), [], C.AwaitGuide("");
      Introduce(messages, narrationId, s, C.Activity(interactionId, kind, [], step));
    }

    /** A transcription or audio failure, recorded beside whatever is under way. */
    method RecordFailure(interactionId: string, code: string)
      modifies this`turns, this`log
      ensures Abstract() == C.Next(ids, maxTurns, old(Abstract()), C.RecordFailure(interactionId, code))
    {
      hide C.ValidId;
      if !C.ValidId(interactionId) || Text.HasControl(interactionId) || !C.ValidId(code) || Text.HasControl(code)
        || interactionId in turns || |turns| >= maxTurns
      {
        return;
      }
      var event := Event(ids(|log|), |log| + 1, interactionId, None, SystemError(code));
      assert [] + [event] == [event];
      log := log + [event];
      turns := turns[interactionId := C.Complete("failure:" + code, C.TurnResult(C.FailedTurn, [event], None))];
    }
  }
}
