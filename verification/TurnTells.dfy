/**
 What each stimulus makes of a turn: the very events that it adds, what caused
 each of them, and what is stored of a turn that ends.
 */
module TurnTells {
  import opened Wrappers
  import opened EngineTypes
  import opened EventLog
  import opened Coordinator
  import Narration
  import Text
  import Utf8

  /** The id of the event that comes `k` after the log. */
  function Id(ids: Ids, s: State, k: nat): string {
    ids(|s.log| + k)
  }

  /** The event of the activity that comes `k` after the log. */
  function Ev(ids: Ids, s: State, a: Activity, k: nat, cause: string, payload: Payload): Event {
    Event(Id(ids, s, k), |s.log| + k + 1, a.interactionId, Some(cause), payload)
  }

  /** The activity is a turn of this input. */
  predicate TurnOf(a: Activity, fingerprint: string) {
    match a.kind
    case NewTurn(f) => f == fingerprint
    case Recovering(stored) => stored.fingerprint == fingerprint
    case _ => false
  }

  /** The turn is over, with these events added; it is stored under its input, with all its events. */
  predicate Ends(
    s: State, s': State, a: Activity, fingerprint: string, events: seq<Event>, outcome: TurnOutcome,
    result: Option<ExecuteResult>)
  {
    s' == s.(
      activity := None, log := s.log + events,
      turns := s.turns[a.interactionId := Complete(fingerprint, TurnResult(outcome, a.local + events, result))])
  }

  /** The activity goes on, with these events added. */
  predicate GoesOn(s: State, s': State, a: Activity, events: seq<Event>, step: Step) {
    s' == s.(activity := Some(a.(local := a.local + events, step := step)), log := s.log + events)
  }

  /** The activity is given up: a new turn is forgotten, anything else is as it was. */
  predicate Drops(s: State, s': State, a: Activity, events: seq<Event>) {
    s' == s.(
      activity := None, log := s.log + events,
      turns := if a.kind.NewTurn? then s.turns - {a.interactionId} else s.turns)
  }

  /** The guide's text is narrated whole in the guide's role, if it is more than white space; if not, the turn is over. */
  predicate Replies(
    ids: Ids, s: State, s': State, a: Activity, fingerprint: string, events: seq<Event>, text: string,
    outcome: TurnOutcome, narrationId: string)
  {
    var n := |events|;
    if Text.Trim(text) == "" then Ends(s, s', a, fingerprint, events, outcome, None)
    else if n == 0 || !(1 <= Utf8.Utf16Length(narrationId) <= 160) then Drops(s, s', a, events)
    else
      var source := events[n - 1].id;
      var request := Ev(ids, s, a, n, source, NarrationRequested(narrationId, GuideRole, text, source));
      GoesOn(s, s', a, events + [request], AwaitNarrator(request.id, narrationId, GuideRole, source, [], Reply(outcome)))
  }

  // Emitting

  lemma OneEmitted(ids: Ids, s: State, a: Activity, cause: string, p: Payload)
    ensures var b := Emit(ids, Book(s.log, a.local), a.interactionId, Some(cause), p);
      && b == Book(s.log + [Ev(ids, s, a, 0, cause, p)], a.local + [Ev(ids, s, a, 0, cause, p)])
      && LastId(b) == Id(ids, s, 0)
  {
  }

  lemma MoreEmitted(ids: Ids, s: State, a: Activity, events: seq<Event>, cause: string, p: Payload)
    ensures var e := Ev(ids, s, a, |events|, cause, p);
      var b := Emit(ids, Book(s.log + events, a.local + events), a.interactionId, Some(cause), p);
      b == Book(s.log + (events + [e]), a.local + (events + [e])) && LastId(b) == Id(ids, s, |events|)
  {
    var e := Ev(ids, s, a, |events|, cause, p);
    assert s.log + events + [e] == s.log + (events + [e]);
    assert a.local + events + [e] == a.local + (events + [e]);
  }

  lemma Failing(
    ids: Ids, s: State, a: Activity, fingerprint: string, events: seq<Event>, cause: string, code: string,
    outcome: TurnOutcome)
    requires TurnOf(a, fingerprint)
    ensures Ends(s, TurnFails(ids, s, a, Book(s.log + events, a.local + events), cause, code, outcome), a, fingerprint,
      events + [Ev(ids, s, a, |events|, cause, SystemError(code))], outcome, None)
  {
    hide Emit, LastId;
    MoreEmitted(ids, s, a, events, cause, SystemError(code));
  }

  lemma FailingFirst(
    ids: Ids, s: State, a: Activity, fingerprint: string, cause: string, code: string, outcome: TurnOutcome)
    requires TurnOf(a, fingerprint)
    ensures Ends(s, TurnFails(ids, s, a, Book(s.log, a.local), cause, code, outcome), a, fingerprint,
      [Ev(ids, s, a, 0, cause, SystemError(code))], outcome, None)
  {
    hide Emit, LastId;
    OneEmitted(ids, s, a, cause, SystemError(code));
  }

  lemma Replying(
    ids: Ids, s: State, a: Activity, fingerprint: string, events: seq<Event>, text: string, outcome: TurnOutcome,
    narrationId: string)
    requires TurnOf(a, fingerprint) && events != []
    ensures var b := Book(s.log + events, a.local + events);
      var s' := Narrate(ids, s, a, b, GuideRole, SegmentsOf(text, false), events[|events| - 1].id, Reply(outcome), narrationId);
      Replies(ids, s, s', a, fingerprint, events, text, outcome, narrationId)
  {
    hide Emit, LastId, Text.Trim, Utf8.Utf16Length;
    var source := events[|events| - 1].id;
    assert [text][1..] == [];
    MoreEmitted(ids, s, a, events, source, NarrationRequested(narrationId, GuideRole, text, source));
  }

  // The guide

  /**
   What the guide's answer makes of a turn. A failure ends it; a decision is recorded as proposed and then as accepted
   or rejected; what the guide says is recorded and narrated; a command goes on to the engine, unless cancelled before.
   */
  lemma GuideTells(
    ids: Ids, maxTurns: nat, s: State, a: Activity, fingerprint: string, answer: GuideAnswer, aborted: bool,
    narrationId: string)
    requires s.activity == Some(a) && TurnOf(a, fingerprint) && a.step.AwaitGuide?
    ensures var s' := Next(ids, maxTurns, s, GuideAnswers(answer, aborted, narrationId));
      var transcript, proposed, decided := a.step.transcriptId, Id(ids, s, 0), Id(ids, s, 1);
      var accepted := [
        Ev(ids, s, a, 0, transcript, DecisionProposed), Ev(ids, s, a, 1, proposed, DecisionAccepted)];
      var rejected := [
        Ev(ids, s, a, 0, transcript, DecisionProposed), Ev(ids, s, a, 1, proposed, DecisionRejected)];
      match answer
      case GuideFailed =>
        Ends(s, s', a, fingerprint,
          [Ev(ids, s, a, 0, transcript, SystemError(if aborted then "cancelled" else "guide-failed"))],
          if aborted then CancelledTurn else FailedTurn, None)
      case Refuse(providerFailed, text) =>
        Replies(ids, s, s', a, fingerprint, rejected + [Ev(ids, s, a, 2, decided, CannotComply(text))], text,
          if providerFailed then FailedTurn else RejectedTurn, narrationId)
      case Clarify(text) =>
        Replies(ids, s, s', a, fingerprint, accepted + [Ev(ids, s, a, 2, decided, Clarification(text))], text,
          Clarified, narrationId)
      case Explain(text) =>
        Replies(ids, s, s', a, fingerprint, accepted + [Ev(ids, s, a, 2, decided, Explanation(text))], text,
          Explained, narrationId)
      case Command(command) =>
        if aborted then
          Ends(s, s', a, fingerprint,
            accepted + [Ev(ids, s, a, 2, decided, SystemError("cancelled-before-engine-submit"))], CancelledTurn, None)
        else GoesOn(s, s', a, accepted, AwaitInspection(decided, command))
  {
    hide Emit, LastId, Narrate, TurnFails, Replies, Ends, GuideReply;
    var transcript, proposed, decided := a.step.transcriptId, Id(ids, s, 0), Id(ids, s, 1);
    if answer.GuideFailed? {
      FailingFirst(ids, s, a, fingerprint, transcript, if aborted then "cancelled" else "guide-failed",
        if aborted then CancelledTurn else FailedTurn);
    } else {
      var decision := if answer.Refuse? then DecisionRejected else DecisionAccepted;
      var two := Decided(ids, s, a, transcript, decision);
      match answer {
        case Refuse(providerFailed, text) =>
          Speaking(ids, s, a, fingerprint, two, decided, CannotComply(text), text,
            if providerFailed then FailedTurn else RejectedTurn, narrationId);
        case Clarify(text) =>
          Speaking(ids, s, a, fingerprint, two, decided, Clarification(text), text, Clarified, narrationId);
        case Explain(text) =>
          Speaking(ids, s, a, fingerprint, two, decided, Explanation(text), text, Explained, narrationId);
        case Command(_) =>
          Failing(ids, s, a, fingerprint, two, decided, "cancelled-before-engine-submit", CancelledTurn);
      }
    }
  }

  lemma Decided(ids: Ids, s: State, a: Activity, transcript: string, decision: Payload) returns (two: seq<Event>)
    ensures two == [Ev(ids, s, a, 0, transcript, DecisionProposed), Ev(ids, s, a, 1, Id(ids, s, 0), decision)]
    ensures var b1 := Emit(ids, Book(s.log, a.local), a.interactionId, Some(transcript), DecisionProposed);
      var b2 := Emit(ids, b1, a.interactionId, Some(Id(ids, s, 0)), decision);
      && LastId(b1) == Id(ids, s, 0) && LastId(b2) == Id(ids, s, 1)
      && b2 == Book(s.log + two, a.local + two)
  {
    hide Emit, LastId;
    OneEmitted(ids, s, a, transcript, DecisionProposed);
    var one := [Ev(ids, s, a, 0, transcript, DecisionProposed)];
    MoreEmitted(ids, s, a, one, Id(ids, s, 0), decision);
    two := one + [Ev(ids, s, a, 1, Id(ids, s, 0), decision)];
  }

  lemma Speaking(
    ids: Ids, s: State, a: Activity, fingerprint: string, events: seq<Event>, cause: string, p: Payload, text: string,
    outcome: TurnOutcome, narrationId: string)
    requires TurnOf(a, fingerprint)
    ensures Replies(ids, s,
      GuideReply(ids, s, a, Book(s.log + events, a.local + events), cause, p, text, outcome, narrationId), a, fingerprint,
      events + [Ev(ids, s, a, |events|, cause, p)], text, outcome, narrationId)
  {
    hide Emit, LastId, Narrate, Replies;
    MoreEmitted(ids, s, a, events, cause, p);
    Replying(ids, s, a, fingerprint, events + [Ev(ids, s, a, |events|, cause, p)], text, outcome, narrationId);
  }

  // The engine

  /**
   An accepted command is asked of the engine at the revision that was just inspected, under the given id, and this is
   recorded before it is sent. Without a state, or cancelled before, the turn ends.
   */
  lemma InspectionTells(
    ids: Ids, maxTurns: nat, s: State, a: Activity, fingerprint: string, state: Option<PublicState>, aborted: bool,
    requestId: string, narrationId: string)
    requires s.activity == Some(a) && TurnOf(a, fingerprint) && a.step.AwaitInspection?
    ensures var s' := Next(ids, maxTurns, s, EngineInspected(state, aborted, requestId, narrationId));
      var accepted, command := a.step.acceptedId, a.step.command;
      if state == None then
        Ends(s, s', a, fingerprint, [Ev(ids, s, a, 0, accepted, SystemError("engine-inspection-failed"))], FailedTurn, None)
      else if aborted then
        Ends(s, s', a, fingerprint,
          [Ev(ids, s, a, 0, accepted, SystemError("cancelled-before-engine-submit"))], CancelledTurn, None)
      else if !(1 <= Utf8.Utf16Length(requestId) <= 160) then Drops(s, s', a, [])
      else
        var request := ExecuteRequest(requestId, state.value.revision, command);
        && s'.requested == s.requested + [(a.interactionId, request)]
        && s'.submitted == s.submitted + [(a.interactionId, request)]
        && GoesOn(s, s'.(requested := s.requested, submitted := s.submitted), a,
             [Ev(ids, s, a, 0, accepted, CommandRequested(requestId, state.value.revision, command))],
             AwaitExecute(Id(ids, s, 0), request))
  {
    hide Emit, LastId, TurnFails, Utf8.Utf16Length, Ends;
    var accepted := a.step.acceptedId;
    if state == None {
      FailingFirst(ids, s, a, fingerprint, accepted, "engine-inspection-failed", FailedTurn);
    } else if aborted {
      FailingFirst(ids, s, a, fingerprint, accepted, "cancelled-before-engine-submit", CancelledTurn);
    } else {
      OneEmitted(ids, s, a, accepted, CommandRequested(requestId, state.value.revision, a.step.command));
      assert s.log + [] == s.log;
    }
  }

  /** A result was given: a rejection ends the turn as failed, a commit is recorded with its output and then saved. */
  predicate Results(
    ids: Ids, s: State, s': State, a: Activity, fingerprint: string, before: seq<Event>, cause: string,
    request: ExecuteRequest, result: ExecuteResult)
  {
    var n := |before|;
    if result.status != Committed then
      Ends(s, s', a, fingerprint,
        before + [Ev(ids, s, a, n, cause, CommandRejected(request.requestId, result.revision, request.command))],
        FailedTurn, Some(result))
    else
      GoesOn(s, s', a,
        before + [
          Ev(ids, s, a, n, cause, CommandCommitted(result.requestId, result.revision, result.command)),
          Ev(ids, s, a, n + 1, Id(ids, s, n), EngineOutput(result.revision, result.output))],
        AwaitCheckpoint(Id(ids, s, n + 1), result))
  }

  /** A reply was lost: the request stays with the turn, to be sent again. */
  predicate LeavesUncertain(
    ids: Ids, s: State, s': State, a: Activity, fingerprint: string, cause: string, request: ExecuteRequest)
  {
    var lost := Ev(ids, s, a, 0, cause, SystemError("engine-outcome-uncertain"));
    s' == s.(
      activity := None, log := s.log + [lost],
      turns := s.turns[a.interactionId :=
        Uncertain(fingerprint, TurnResult(UncertainTurn, a.local + [lost], None), Recovery(request, cause))])
  }

  /**
   What the engine's answer makes of a turn, at first and on recovery. A recovery records that the request was recovered
   before what came of it; a recovery without an answer leaves the turn uncertain as it was.
   */
  lemma EngineTells(ids: Ids, maxTurns: nat, s: State, a: Activity, fingerprint: string, answer: EngineAnswer)
    requires s.activity == Some(a) && TurnOf(a, fingerprint) && a.step.AwaitExecute?
    ensures var s' := Next(ids, maxTurns, s, EngineAnswers(answer));
      var cause, request := a.step.causeId, a.step.request;
      match answer
      case Answer(result) =>
        if a.kind.Recovering? then
          Results(ids, s, s', a, fingerprint, [Ev(ids, s, a, 0, cause, SystemRecovered(request.requestId))],
            Id(ids, s, 0), request, result)
        else Results(ids, s, s', a, fingerprint, [], cause, request, result)
      case NotSubmitted =>
        if a.kind.Recovering? then s' == s.(activity := None)
        else
          Ends(s, s', a, fingerprint,
            [Ev(ids, s, a, 0, cause, SystemError("cancelled-before-engine-submit"))], CancelledTurn, None)
      case Unknown =>
        if a.kind.Recovering? then s' == s.(activity := None)
        else LeavesUncertain(ids, s, s', a, fingerprint, cause, request)
  {
    hide Emit, LastId, TurnFails, Results, FinishResult, Ends;
    var cause, request := a.step.causeId, a.step.request;
    assert s.log + [] == s.log && a.local + [] == a.local;
    match answer {
      case Answer(result) =>
        OneEmitted(ids, s, a, cause, SystemRecovered(request.requestId));
        Resulting(ids, s, a, fingerprint, [Ev(ids, s, a, 0, cause, SystemRecovered(request.requestId))], Id(ids, s, 0),
          request, result);
        Resulting(ids, s, a, fingerprint, [], cause, request, result);
      case NotSubmitted => FailingFirst(ids, s, a, fingerprint, cause, "cancelled-before-engine-submit", CancelledTurn);
      case Unknown => OneEmitted(ids, s, a, cause, SystemError("engine-outcome-uncertain"));
    }
  }

  lemma Resulting(
    ids: Ids, s: State, a: Activity, fingerprint: string, before: seq<Event>, cause: string, request: ExecuteRequest,
    result: ExecuteResult)
    requires TurnOf(a, fingerprint)
    ensures Results(ids, s, FinishResult(ids, s, a, Book(s.log + before, a.local + before), cause, request, result), a,
      fingerprint, before, cause, request, result)
  {
    hide Emit, LastId;
    var n := |before|;
    if result.status != Committed {
      MoreEmitted(ids, s, a, before, cause, CommandRejected(request.requestId, result.revision, request.command));
    } else {
      var committed := Ev(ids, s, a, n, cause, CommandCommitted(result.requestId, result.revision, result.command));
      var output := Ev(ids, s, a, n + 1, Id(ids, s, n), EngineOutput(result.revision, result.output));
      MoreEmitted(ids, s, a, before, cause, committed.payload);
      MoreEmitted(ids, s, a, before + [committed], Id(ids, s, n), output.payload);
      assert before + [committed] + [output] == before + [committed, output];
    }
  }

  // The checkpoint and the narration

  /** The save was made or failed, and this is recorded. */
  function SaveEvents(ids: Ids, s: State, a: Activity, ok: bool, output: string): seq<Event> {
    if ok then [Ev(ids, s, a, 0, output, SaveCheckpointed)]
    else
      [ Ev(ids, s, a, 0, output, SaveFailed),
        Ev(ids, s, a, 1, Id(ids, s, 0), SystemError("checkpoint-failed"))]
  }

  /**
   After a commit the turn stays committed, whether or not it could be saved: its output is narrated whole, or recorded
   as a cancelled narration, or has nothing to narrate. (`SpoiltTells` is the case of a bad id.)
   */
  lemma CheckpointTells(
    ids: Ids, maxTurns: nat, s: State, a: Activity, fingerprint: string, ok: bool, aborted: bool, narrationId: string)
    requires s.activity == Some(a) && TurnOf(a, fingerprint) && a.step.AwaitCheckpoint?
    requires 1 <= Utf8.Utf16Length(narrationId) <= 160 || (!aborted && Text.Trim(a.step.result.output) == "")
    ensures var s' := Next(ids, maxTurns, s, Checkpointed(ok, aborted, narrationId));
      var output, result := a.step.outputId, a.step.result;
      var saved := SaveEvents(ids, s, a, ok, output);
      var n := |saved|;
      if aborted then
        Ends(s, s', a, fingerprint,
          saved + [Ev(ids, s, a, n, output, NarrationCancelled(narrationId, NarratorRole))], CommittedTurn, Some(result))
      else if Text.Trim(result.output) == "" then Ends(s, s', a, fingerprint, saved, CommittedTurn, Some(result))
      else
        GoesOn(s, s', a,
          saved + [Ev(ids, s, a, n, output, NarrationRequested(narrationId, NarratorRole, result.output, output))],
          AwaitNarrator(Id(ids, s, n), narrationId, NarratorRole, output, [], Outcome(result)))
  {
    hide Emit, LastId, Text.Trim, Utf8.Utf16Length;
    assert [a.step.result.output][1..] == [];
    var output, result := a.step.outputId, a.step.result;
    var saved := SaveEvents(ids, s, a, ok, output);
    if ok {
      OneEmitted(ids, s, a, output, SaveCheckpointed);
    } else {
      OneEmitted(ids, s, a, output, SaveFailed);
      MoreEmitted(ids, s, a, [saved[0]], Id(ids, s, 0), SystemError("checkpoint-failed"));
      assert [saved[0]] + [saved[1]] == saved;
    }
    MoreEmitted(ids, s, a, saved, output, NarrationCancelled(narrationId, NarratorRole));
    MoreEmitted(ids, s, a, saved, output, NarrationRequested(narrationId, NarratorRole, result.output, output));
  }

  /** Event `k` is the first request of the engine among these. */
  predicate FirstRequest(events: seq<Event>, k: nat) {
    && k < |events| && events[k].payload.CommandRequested?
    && forall i :: 0 <= i < k ==> !events[i].payload.CommandRequested?
  }

  /** The turn is uncertain of the request at `k`, although it was answered. */
  predicate Spoils(
    ids: Ids, s: State, s': State, a: Activity, fingerprint: string, events: seq<Event>, k: nat)
    requires FirstRequest(a.local + events, k)
  {
    var requested := (a.local + events)[k];
    var CommandRequested(requestId, revision, command) := requested.payload;
    var lost := Ev(ids, s, a, |events|, requested.id, SystemError("engine-outcome-uncertain"));
    s' == s.(
      activity := None, log := s.log + (events + [lost]),
      turns := s.turns[a.interactionId :=
        Uncertain(fingerprint, TurnResult(UncertainTurn, a.local + (events + [lost]), None),
          Recovery(ExecuteRequest(requestId, revision, command), requested.id))])
  }

  lemma {:induction false} RequestIsFirst(events: seq<Event>)
    ensures RequestOf(events) == None <==> forall k: nat :: !FirstRequest(events, k)
    ensures forall k: nat :: FirstRequest(events, k) ==>
              var CommandRequested(requestId, revision, command) := events[k].payload;
              RequestOf(events) == Some(Recovery(ExecuteRequest(requestId, revision, command), events[k].id))
  {
    if events != [] {
      RequestIsFirst(events[1..]);
      if events[0].payload.CommandRequested? {
        assert FirstRequest(events, 0);
      } else {
        forall k: nat
          ensures FirstRequest(events, k) <==> k > 0 && FirstRequest(events[1..], k - 1)
        {
          assert forall i :: 0 <= i < |events[1..]| ==> events[1..][i] == events[i + 1];
        }
        forall k: nat | FirstRequest(events[1..], k)
          ensures FirstRequest(events, k + 1)
        {
        }
      }
    }
  }

  /** A bad id that is asked for spoils the turn: a new one becomes uncertain of its request, a recovery ends as it was. */
  lemma SpoiltTells(
    ids: Ids, maxTurns: nat, s: State, a: Activity, fingerprint: string, ok: bool, aborted: bool, narrationId: string)
    requires s.activity == Some(a) && TurnOf(a, fingerprint) && a.step.AwaitCheckpoint?
    requires !(1 <= Utf8.Utf16Length(narrationId) <= 160) && (aborted || Text.Trim(a.step.result.output) != "")
    ensures var s' := Next(ids, maxTurns, s, Checkpointed(ok, aborted, narrationId));
      var saved := SaveEvents(ids, s, a, ok, a.step.outputId);
      && (a.kind.Recovering? || (forall k: nat :: !FirstRequest(a.local + saved, k)) ==> Drops(s, s', a, saved))
      && (forall k: nat :: a.kind.NewTurn? && FirstRequest(a.local + saved, k) ==>
        Spoils(ids, s, s', a, fingerprint, saved, k))
  {
    hide Emit, LastId, Text.Trim, Utf8.Utf16Length, RequestOf, FirstRequest;
    var output := a.step.outputId;
    var saved := SaveEvents(ids, s, a, ok, output);
    if ok {
      OneEmitted(ids, s, a, output, SaveCheckpointed);
    } else {
      OneEmitted(ids, s, a, output, SaveFailed);
      MoreEmitted(ids, s, a, [saved[0]], Id(ids, s, 0), SystemError("checkpoint-failed"));
      assert [saved[0]] + [saved[1]] == saved;
    }
    Spoiling(ids, s, a, fingerprint, saved);
  }

  lemma Spoiling(ids: Ids, s: State, a: Activity, fingerprint: string, saved: seq<Event>)
    requires TurnOf(a, fingerprint)
    ensures var s' := FinishThrown(ids, s, a, Book(s.log + saved, a.local + saved));
      && (a.kind.Recovering? || (forall k: nat :: !FirstRequest(a.local + saved, k)) ==> Drops(s, s', a, saved))
      && (forall k: nat :: a.kind.NewTurn? && FirstRequest(a.local + saved, k) ==>
        Spoils(ids, s, s', a, fingerprint, saved, k))
  {
    hide Emit, LastId, RequestOf;
    RequestIsFirst(a.local + saved);
    if a.kind.NewTurn? && RequestOf(a.local + saved).Some? {
      MoreEmitted(ids, s, a, saved, RequestOf(a.local + saved).value.requestedEventId,
        SystemError("engine-outcome-uncertain"));
    }
  }

  /** The events of a narration that ended. */
  function Ending(ids: Ids, s: State, a: Activity, ok: bool, aborted: bool): seq<Event>
    requires a.step.AwaitNarrator?
  {
    var requested, narrationId, role := a.step.requestedId, a.step.narrationId, a.step.role;
    if ok then [Ev(ids, s, a, 0, requested, NarrationReady(narrationId, role))]
    else if aborted then [Ev(ids, s, a, 0, requested, NarrationCancelled(narrationId, role))]
    else
      [ Ev(ids, s, a, 0, requested, NarrationFailed(narrationId, role)),
        Ev(ids, s, a, 1, Id(ids, s, 0), SystemError("narration-failed"))]
  }

  /**
   However its one narration ends, the turn ends as it was decided before: a reply of the guide with its own outcome,
   a commit as committed, with the engine's result.
   */
  lemma NarratorTells(
    ids: Ids, maxTurns: nat, s: State, a: Activity, fingerprint: string, ok: bool, aborted: bool, nextId: string)
    requires s.activity == Some(a) && TurnOf(a, fingerprint) && a.step.AwaitNarrator? && a.step.rest == []
    requires a.step.purpose.Reply? || a.step.purpose.Outcome?
    ensures var s' := Next(ids, maxTurns, s, NarratorAnswers(ok, aborted, nextId));
      match a.step.purpose
      case Reply(outcome) => Ends(s, s', a, fingerprint, Ending(ids, s, a, ok, aborted), outcome, None)
      case Outcome(result) => Ends(s, s', a, fingerprint, Ending(ids, s, a, ok, aborted), CommittedTurn, Some(result))
      case _ => true
  {
    hide Emit, LastId;
    var requested, narrationId, role := a.step.requestedId, a.step.narrationId, a.step.role;
    if ok {
      OneEmitted(ids, s, a, requested, NarrationReady(narrationId, role));
    } else if aborted {
      OneEmitted(ids, s, a, requested, NarrationCancelled(narrationId, role));
    } else {
      OneEmitted(ids, s, a, requested, NarrationFailed(narrationId, role));
      var events := Ending(ids, s, a, ok, aborted);
      MoreEmitted(ids, s, a, [events[0]], Id(ids, s, 0), SystemError("narration-failed"));
      assert [events[0]] + [events[1]] == events;
    }
  }

  // What begins

  /** A submitted turn as the program takes it: an id and a transcript, bounded and without control characters. */
  predicate Submittable(i: TurnInput) {
    && 1 <= Utf8.Utf16Length(i.interactionId) <= 160 && !Text.HasControl(i.interactionId)
    && Utf8.Utf16Length(i.transcript) <= 2000 && !Text.HasControl(i.transcript)
    && exists k :: 0 <= k < |i.transcript| && !Text.IsSpace(i.transcript[k])
  }

  /** A turn under an id that is not taken begins with its transcript; nothing causes that. */
  predicate BeginsTurn(ids: Ids, s: State, s': State, i: TurnInput) {
    var transcript := Event(ids(|s.log|), |s.log| + 1, i.interactionId, None, TranscriptFinal(i.transcript));
    s' == s.(
      turns := s.turns[i.interactionId := Pending(i.fingerprint)], log := s.log + [transcript],
      activity := Some(Activity(i.interactionId, NewTurn(i.fingerprint), [transcript], AwaitGuide(transcript.id))))
  }

  /** An uncertain turn sends its one request again, under all the events that it has. */
  predicate SendsAgain(s: State, s': State, i: TurnInput, stored: Stored)
    requires stored.Uncertain?
  {
    s' == s.(
      submitted := s.submitted + [(i.interactionId, stored.recovery.request)],
      activity := Some(Activity(i.interactionId, Recovering(stored), stored.result.events,
        AwaitExecute(stored.recovery.requestedEventId, stored.recovery.request))))
  }

  lemma BlankIff(text: string)
    ensures Text.Trim(text) != "" <==> exists k :: 0 <= k < |text| && !Text.IsSpace(text[k])
  {
    var t := Text.TrimStart(text);
    if t != "" {
      assert text[|text| - |t|] == t[0];
      assert Text.TrimEnd(t) != "";
    }
  }

  /** What a submitted turn begins, if it begins anything. */
  lemma SubmitTells(ids: Ids, maxTurns: nat, s: State, i: TurnInput, aborted: bool)
    ensures var s' := Next(ids, maxTurns, s, SubmitTurn(i, aborted));
      if !Submittable(i) || s.activity.Some? then s' == s
      else if i.interactionId !in s.turns then
        if |s.turns| < maxTurns then BeginsTurn(ids, s, s', i) else s' == s
      else
        var stored := s.turns[i.interactionId];
        if stored.Uncertain? && stored.fingerprint == i.fingerprint && !aborted then SendsAgain(s, s', i, stored)
        else s' == s
  {
    hide Utf8.Utf16Length, Text.HasControl, Text.Trim, Text.IsSpace;
    BlankIff(i.transcript);
    var transcript := Event(ids(|s.log|), |s.log| + 1, i.interactionId, None, TranscriptFinal(i.transcript));
    assert [] + [transcript] == [transcript];
  }

  /** A failure in front of the guide is a finished turn of one event, beside whatever is under way. */
  lemma FailureTells(ids: Ids, maxTurns: nat, s: State, id: string, code: string)
    ensures var s' := Next(ids, maxTurns, s, RecordFailure(id, code));
      var failure := Event(ids(|s.log|), |s.log| + 1, id, None, SystemError(code));
      if 1 <= Utf8.Utf16Length(id) <= 160 && !Text.HasControl(id) && 1 <= Utf8.Utf16Length(code) <= 160
        && !Text.HasControl(code) && id !in s.turns && |s.turns| < maxTurns
      then
        s' == s.(
          log := s.log + [failure],
          turns := s.turns[id := Complete("failure:" + code, TurnResult(FailedTurn, [failure], None))])
      else s' == s
  {
    hide Utf8.Utf16Length, Text.HasControl;
    assert [] + [Event(ids(|s.log|), |s.log| + 1, id, None, SystemError(code))] ==
      [Event(ids(|s.log|), |s.log| + 1, id, None, SystemError(code))];
  }

  /** The first sentence of the opening is asked for; if there is none, or no good id for it, the opening can be retried. */
  predicate AsksOpening(
    ids: Ids, s: State, s': State, a: Activity, events: seq<Event>, input: OpeningInput, source: string,
    narrationId: string)
  {
    var segments := Narration.NarrationSegments(input.narrationText);
    if segments == [] || !(1 <= Utf8.Utf16Length(narrationId) <= 160) then
      s' == s.(activity := None, log := s.log + events, opening := Retryable(a.interactionId, input, source))
    else
      var request := Ev(ids, s, a, |events|, source, NarrationRequested(narrationId, NarratorRole, segments[0], source));
      GoesOn(s, s', a, events + [request],
        AwaitNarrator(request.id, narrationId, NarratorRole, source, segments[1..], OpeningStory))
  }

  lemma Asking(
    ids: Ids, s: State, a: Activity, events: seq<Event>, input: OpeningInput, source: string, narrationId: string)
    requires a.kind == Opening(input)
    ensures AsksOpening(ids, s,
      Narrate(ids, s, a, Book(s.log + events, a.local + events), NarratorRole, SegmentsOf(input.narrationText, true), source,
        OpeningStory, narrationId), a, events, input, source, narrationId)
  {
    hide Emit, LastId, Utf8.Utf16Length, Narration.NarrationSegments;
    var segments := Narration.NarrationSegments(input.narrationText);
    if segments != [] {
      MoreEmitted(ids, s, a, events, source, NarrationRequested(narrationId, NarratorRole, segments[0], source));
    }
  }

  /**
   An opening begins with a look at the engine, or, tried again with the very same id and input, with its narration, which
   is of the output that was recorded the first time.
   */
  lemma OpeningTells(
    ids: Ids, maxTurns: nat, s: State, id: string, input: OpeningInput, narrationId: string, aborted: bool)
    ensures var s' := Next(ids, maxTurns, s, StartOpening(id, input, narrationId, aborted));
      var a := Activity(id, Opening(input), [], AwaitOpeningInspection);
      if !(1 <= Utf8.Utf16Length(id) <= 160) || s.activity.Some? then s' == s
      else
        match s.opening
        case NotOpened => s' == s.(activity := Some(a))
        case Retryable(first, known, source) =>
          if first == id && known == input then AsksOpening(ids, s, s', a, [], input, source, narrationId) else s' == s
        case Opened => s' == s
  {
    hide Utf8.Utf16Length, Narrate, AsksOpening, SegmentsOf;
    if s.opening.Retryable? {
      var a := Activity(id, Opening(input), [], AwaitOpeningInspection);
      Asking(ids, s, a, [], input, s.opening.sourceEventId, narrationId);
      assert s.log + [] == s.log && a.local + [] == a.local;
    }
  }

  /** Only an engine that is just where the boot left it is told of: its output is recorded and narrated. */
  lemma OpeningInspectionTells(
    ids: Ids, maxTurns: nat, s: State, a: Activity, input: OpeningInput, state: Option<PublicState>, aborted: bool,
    requestId: string, narrationId: string)
    requires s.activity == Some(a) && a.kind == Opening(input) && a.step.AwaitOpeningInspection?
    ensures var s' := Next(ids, maxTurns, s, EngineInspected(state, aborted, requestId, narrationId));
      if !aborted && state.Some? && state.value.revision == input.revision && state.value.lastOutput == input.output
        && state.value.boundary == InputRequested
      then
        var output := Event(ids(|s.log|), |s.log| + 1, a.interactionId, None, EngineOutput(input.revision, input.output));
        AsksOpening(ids, s, s', a, [output], input, output.id, narrationId)
      else s' == s.(activity := None)
  {
    hide LastId, Narrate, AsksOpening, SegmentsOf;
    var output := Event(ids(|s.log|), |s.log| + 1, a.interactionId, None, EngineOutput(input.revision, input.output));
    Asking(ids, s, a, [output], input, output.id, narrationId);
    Last(s.log + [output], a.local + [output]);
    assert s == s.(log := s.log);
  }

  lemma Last(log: seq<Event>, local: seq<Event>)
    requires log != []
    ensures LastId(Book(log, local)) == log[|log| - 1].id
  {
  }

  /** Whether the guide and the narrator may introduce themselves: once, with one to four messages, beside nothing else. */
  lemma IntroductionTells(ids: Ids, maxTurns: nat, s: State, id: string, messages: seq<Message>, narrationId: string)
    ensures var s' := Next(ids, maxTurns, s, StartIntroduction(id, messages, narrationId));
      if 1 <= Utf8.Utf16Length(id) <= 160 && !s.introduced && s.activity == None && 1 <= |messages| <= 4 then
        var said := Event(ids(|s.log|), |s.log| + 1, id, None, RoleIntroduction(messages[0].role, messages[0].text));
        && |s'.log| > |s.log| && s'.log[..|s.log| + 1] == s.log + [said]
        && (s'.activity.Some? ==> s'.activity.value.kind == Introduction(messages) && s'.activity.value.interactionId == id)
      else s' == s
  {
    hide Utf8.Utf16Length, LastId, SegmentsOf;
  }
}
