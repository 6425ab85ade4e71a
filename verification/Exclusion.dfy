/**
 One thing at a time. The coordinator keeps this by an active id and by the
 pending states of its turns, its opening and its introduction, each method
 testing some of them. Here these are kept apart from what really runs: a
 body runs from its start to its `finally`, and what it leaves pending is
 settled only later, so that other calls may come in between.
 */
module Exclusion {
  import opened Wrappers
  import opened EngineTypes
  import opened EventLog
  import C = Coordinator
  import CoordinatorEvents
  import L = CoordinatorLedger

  datatype Body = TurnBody(id: string) | RecoveryBody(id: string) | OpeningBody(id: string) | IntroductionBody(id: string)

  datatype Turn = TurnPending | TurnComplete | TurnUncertain

  datatype Slot = Vacant | Pending | Again | Done

  datatype Guards = Guards(
    active: Option<string>,
    turns: map<string, Turn>,
    opening: Slot,
    introduction: Slot,
    bodies: seq<Body>)

  const INITIAL: Guards := Guards(None, map[], Vacant, Vacant, [])

  /** `admitted`: the checks that concern no other activity pass (the input, its fingerprint, capacity, the signal). */
  datatype Event =
    | SubmitTurn(id: string, admitted: bool)
    | PrepareOpening(id: string, admitted: bool)
    | PrepareIntroduction(id: string, admitted: bool)
    | RecordFailure(id: string)
    /** A body comes to its `finally`. */
    | Finally(index: nat)
    /** What a body that has ended left pending is settled; a turn that threw is forgotten. */
    | SettleTurn(id: string, turn: Option<Turn>)
    | SettleOpening(slot: Slot)
    | SettleIntroduction(slot: Slot)
    /** A recovery records its result while it runs. */
    | SettleRecovery(id: string)

  function Started(g: Guards, body: Body): Guards {
    g.(active := Some(body.id), bodies := g.bodies + [body])
  }

  function Submitted(g: Guards, id: string): Guards {
    if id in g.turns && g.turns[id] != TurnUncertain then g
    else if g.active.Some? || g.opening == Pending then g
    else if id in g.turns then Started(g, RecoveryBody(id))
    else Started(g, TurnBody(id)).(turns := g.turns[id := TurnPending])
  }

  function Next(g: Guards, event: Event): Guards {
    match event
    case SubmitTurn(id, admitted) => if admitted then Submitted(g, id) else g
    case PrepareOpening(id, admitted) =>
      if !admitted || g.opening == Done || g.opening == Pending || g.active.Some? then g
      else Started(g, OpeningBody(id)).(opening := Pending)
    case PrepareIntroduction(id, admitted) =>
      if !admitted || g.introduction != Vacant || g.active.Some? then g
      else Started(g, IntroductionBody(id)).(introduction := Pending)
    case RecordFailure(id) => if id in g.turns then g else g.(turns := g.turns[id := TurnComplete])
    case Finally(i) =>
      if i < |g.bodies| then g.(active := None, bodies := g.bodies[..i] + g.bodies[i + 1..]) else g
    case SettleTurn(id, turn) =>
      if id in g.turns && g.turns[id] == TurnPending && TurnBody(id) !in g.bodies && turn != Some(TurnPending) then
        g.(turns := if turn == None then g.turns - {id} else g.turns[id := turn.value])
      else g
    case SettleOpening(slot) =>
      if g.opening == Pending && (forall b :: b in g.bodies ==> !b.OpeningBody?) && slot != Pending then g.(opening := slot)
      else g
    case SettleIntroduction(slot) =>
      if g.introduction == Pending && (forall b :: b in g.bodies ==> !b.IntroductionBody?) && slot != Pending then
        g.(introduction := slot)
      else g
    case SettleRecovery(id) =>
      if RecoveryBody(id) in g.bodies && id in g.turns then g.(turns := g.turns[id := TurnComplete]) else g
  }

  function Run(g: Guards, events: seq<Event>): Guards
    decreases |events|
  {
    if events == [] then g else Run(Next(g, events[0]), events[1..])
  }

  /** What runs is pending, under the active id. */
  predicate Inv(g: Guards) {
    && (g.active == None <==> g.bodies == [])
    && |g.bodies| <= 1
    && (g.bodies != [] ==>
      && g.active == Some(g.bodies[0].id)
      && match g.bodies[0]
         case TurnBody(id) => id in g.turns && g.turns[id] == TurnPending && g.opening != Pending
         case RecoveryBody(id) => id in g.turns && g.turns[id] != TurnPending && g.opening != Pending
         case OpeningBody(_) => g.opening == Pending
         case IntroductionBody(_) => g.introduction == Pending)
  }

  lemma NextKeeps(g: Guards, event: Event)
    requires Inv(g)
    ensures Inv(Next(g, event))
  {
  }

  lemma {:induction false} RunKeeps(g: Guards, events: seq<Event>)
    requires Inv(g)
    ensures Inv(Run(g, events))
    decreases |events|
  {
    hide Inv, Next;
    if events != [] {
      NextKeeps(g, events[0]);
      RunKeeps(Next(g, events[0]), events[1..]);
    }
  }

  /**
   At most one turn, recovery, opening or introduction runs, in whatever order calls come in, bodies end and pending
   states are settled; what runs is pending under the active id, and no turn runs while an opening is pending.
   */
  lemma OneAtATime(events: seq<Event>)
    ensures var g := Run(INITIAL, events);
      && |g.bodies| <= 1 && (g.active == None <==> g.bodies == [])
      && (forall b :: b in g.bodies ==>
        && g.active == Some(b.id)
        && (b.TurnBody? ==> b.id in g.turns && g.turns[b.id] == TurnPending)
        && (b.TurnBody? || b.RecoveryBody? ==> g.opening != Pending)
        && (b.OpeningBody? ==> g.opening == Pending)
        && (b.IntroductionBody? ==> g.introduction == Pending))
  {
    hide Run;
    RunKeeps(INITIAL, events);
  }

  /** An introduction does not test the opening: it can run while an opening that has ended is not settled yet. */
  lemma IntroductionInTheGap()
    ensures var g := Run(INITIAL, [PrepareOpening("o", true), Finally(0), PrepareIntroduction("i", true)]);
      g.bodies == [IntroductionBody("i")] && g.opening == Pending
  {
    var g1 := Next(INITIAL, PrepareOpening("o", true));
    var g2 := Next(g1, Finally(0));
    var g3 := Next(g2, PrepareIntroduction("i", true));
    var xs := [PrepareOpening("o", true), Finally(0), PrepareIntroduction("i", true)];
    assert Run(INITIAL, xs) == Run(g1, xs[1..]) == Run(g2, xs[1..][1..]) == Run(g3, xs[1..][1..][1..]);
  }

  // The coordinator's runs

  function BodyOf(a: C.Activity): Body {
    match a.kind
    case NewTurn(_) => TurnBody(a.interactionId)
    case Recovering(_) => RecoveryBody(a.interactionId)
    case Opening(_) => OpeningBody(a.interactionId)
    case Introduction(_) => IntroductionBody(a.interactionId)
  }

  function TurnOf(t: C.Stored): Turn {
    match t
    case Pending(_) => TurnPending
    case Complete(_, _) => TurnComplete
    case Uncertain(_, _, _) => TurnUncertain
  }

  function SlotOf(opening: C.OpeningState): Slot {
    match opening
    case NotOpened => Vacant
    case Retryable(_, _, _) => Again
    case Opened => Done
  }

  /** The guards of a coordinator between two awaits, when all that has ended is settled. */
  function Of(s: C.State): Guards {
    Guards(
      if s.activity == None then None else Some(s.activity.value.interactionId),
      map id | id in s.turns :: TurnOf(s.turns[id]),
      if s.activity.Some? && s.activity.value.kind.Opening? then Pending else SlotOf(s.opening),
      if s.activity.Some? && s.activity.value.kind.Introduction? then Pending else if s.introduced then Done else Vacant,
      if s.activity == None then [] else [BodyOf(s.activity.value)])
  }

  /** How activity `a` can go on: it awaits something else, or it ends and leaves its result. */
  predicate Stays(s: C.State, a: C.Activity, s': C.State) {
    && s'.activity.Some? && s'.activity.value.interactionId == a.interactionId && s'.activity.value.kind == a.kind
    && s'.turns == s.turns && s'.opening == s.opening && s'.introduced == s.introduced
  }

  predicate Leaves(s: C.State, a: C.Activity, s': C.State) {
    && s'.activity == None
    && match a.kind
       case NewTurn(_) =>
         && s'.opening == s.opening && s'.introduced == s.introduced
         && (s'.turns == s.turns - {a.interactionId}
           || (a.interactionId in s'.turns && !s'.turns[a.interactionId].Pending?
             && s'.turns == s.turns[a.interactionId := s'.turns[a.interactionId]]))
       case Recovering(_) =>
         && s'.opening == s.opening && s'.introduced == s.introduced
         && (s'.turns == s.turns
           || (a.interactionId in s'.turns && s'.turns[a.interactionId].Complete?
             && s'.turns == s.turns[a.interactionId := s'.turns[a.interactionId]]))
       case Opening(_) => s'.turns == s.turns && s'.introduced == s.introduced
       case Introduction(_) => s'.turns == s.turns && s'.opening == s.opening
  }

  predicate GoesOn(s: C.State, a: C.Activity, s': C.State) {
    Stays(s, a, s') || Leaves(s, a, s')
  }

  predicate Suits(k: C.Kind, p: C.Purpose) {
    match p
    case Reply(_) => L.ForTurn(k)
    case Outcome(_) => L.ForTurn(k)
    case OpeningStory => k.Opening?
    case Introducing(_) => k.Introduction?
  }

  lemma CompletedGoesOn(s: C.State, a: C.Activity, b: C.Book, outcome: C.TurnOutcome, result: Option<ExecuteResult>)
    requires L.ForTurn(a.kind)
    ensures GoesOn(s, a, C.Completed(s, a, b, outcome, result))
  {
  }

  lemma ThrownGoesOn(s: C.State, a: C.Activity, b: C.Book)
    requires L.ForTurn(a.kind) || a.kind.Introduction?
    ensures GoesOn(s, a, C.Thrown(s, a, b))
  {
  }

  lemma FinishThrownGoesOn(ids: C.Ids, s: C.State, a: C.Activity, b: C.Book)
    requires L.ForTurn(a.kind)
    ensures GoesOn(s, a, C.FinishThrown(ids, s, a, b))
  {
    hide C.RequestOf;
  }

  lemma NarratedGoesOn(
    ids: C.Ids, s: C.State, a: C.Activity, b: C.Book, outcome: C.NarrationOutcome, purpose: C.Purpose, sourceId: string)
    requires Suits(a.kind, purpose)
    ensures GoesOn(s, a, C.Narrated(ids, s, a, b, outcome, purpose, sourceId))
  {
    hide C.Completed;
    match purpose {
      case Reply(turnOutcome) => CompletedGoesOn(s, a, b, turnOutcome, None);
      case Outcome(result) => CompletedGoesOn(s, a, b, C.CommittedTurn, Some(result));
      case _ =>
    }
  }

  lemma NarrateGoesOn(
    ids: C.Ids, s: C.State, a: C.Activity, b: C.Book, role: Role, segments: seq<string>, sourceId: string,
    purpose: C.Purpose, narrationId: string)
    requires Suits(a.kind, purpose)
    ensures GoesOn(s, a, C.Narrate(ids, s, a, b, role, segments, sourceId, purpose, narrationId))
  {
    hide C.Narrated, C.FinishThrown, C.Thrown, C.ValidId, C.LastId, C.Emit, GoesOn;
    NarratedGoesOn(ids, s, a, b, C.FailedNarration, purpose, sourceId);
    if segments != [] {
      if !C.ValidId(narrationId) {
        match purpose {
          case Outcome(_) => FinishThrownGoesOn(ids, s, a, b);
          case OpeningStory => RetryGoesOn(s, a, b, sourceId);
          case _ => ThrownGoesOn(s, a, b);
        }
      } else {
        var payload := NarrationRequested(narrationId, role, segments[0], sourceId);
        var b1 := C.Emit(ids, b, a.interactionId, Some(sourceId), payload);
        WaitGoesOn(s, a, b1, C.AwaitNarrator(C.LastId(b1), narrationId, role, sourceId, segments[1..], purpose));
      }
    }
  }

  lemma RetryGoesOn(s: C.State, a: C.Activity, b: C.Book, sourceId: string)
    requires a.kind.Opening?
    ensures GoesOn(s, a, C.Finish(s, b).(opening := C.Retryable(a.interactionId, C.OpeningOf(a.kind), sourceId)))
  {
  }

  /** The activity that a step waits with keeps its id and its kind. */
  lemma WaitGoesOn(s: C.State, a: C.Activity, b: C.Book, step: C.Step)
    ensures GoesOn(s, a, C.Wait(s, a, b, step))
  {
  }

  lemma IntroduceGoesOn(ids: C.Ids, s: C.State, a: C.Activity, b: C.Book, messages: seq<C.Message>, narrationId: string)
    requires a.kind.Introduction?
    ensures GoesOn(s, a, C.Introduce(ids, s, a, b, messages, narrationId))
  {
    hide C.Narrate, C.Emit, C.LastId, C.SegmentsOf;
    if messages != [] {
      hide GoesOn;
      var m := messages[0];
      var b1 := C.Emit(ids, b, a.interactionId, None, RoleIntroduction(m.role, m.text));
      NarrateGoesOn(ids, s, a, b1, m.role, C.SegmentsOf(m.text, true), C.LastId(b1), C.Introducing(messages[1..]),
        narrationId);
    }
  }

  /** What an activity awaits suits its kind. */
  predicate Apt(a: C.Activity) {
    match a.step
    case AwaitNarrator(_, _, _, _, _, purpose) => Suits(a.kind, purpose)
    case AwaitOpeningInspection => a.kind.Opening?
    case _ => L.ForTurn(a.kind)
  }

  lemma TurnFailsGoesOn(
    ids: C.Ids, s: C.State, a: C.Activity, b: C.Book, cause: string, code: string, outcome: C.TurnOutcome)
    requires L.ForTurn(a.kind)
    ensures GoesOn(s, a, C.TurnFails(ids, s, a, b, cause, code, outcome))
  {
    hide C.Emit, C.Completed, GoesOn;
    CompletedGoesOn(s, a, C.Emit(ids, b, a.interactionId, Some(cause), SystemError(code)), outcome, None);
  }

  lemma GuideReplyGoesOn(
    ids: C.Ids, s: C.State, a: C.Activity, b: C.Book, cause: string, payload: Payload, text: string,
    outcome: C.TurnOutcome, narrationId: string)
    requires L.ForTurn(a.kind)
    ensures GoesOn(s, a, C.GuideReply(ids, s, a, b, cause, payload, text, outcome, narrationId))
  {
    hide C.Emit, C.Narrate, C.LastId, C.SegmentsOf, GoesOn;
    var b1 := C.Emit(ids, b, a.interactionId, Some(cause), payload);
    NarrateGoesOn(ids, s, a, b1, GuideRole, C.SegmentsOf(text, false), C.LastId(b1), C.Reply(outcome), narrationId);
  }

  lemma GuideGoesOn(ids: C.Ids, s: C.State, a: C.Activity, answer: C.GuideAnswer, aborted: bool, narrationId: string)
    requires Apt(a) && a.step.AwaitGuide?
    ensures GoesOn(s, a, C.GuideStep(ids, s, a, answer, aborted, narrationId))
  {
    hide C.Emit, C.TurnFails, C.GuideReply, C.Wait, C.LastId, GoesOn;
    var id, b, transcriptId := a.interactionId, C.Book(s.log, a.local), a.step.transcriptId;
    if answer.GuideFailed? {
      TurnFailsGoesOn(ids, s, a, b, transcriptId, if aborted then "cancelled" else "guide-failed",
        if aborted then C.CancelledTurn else C.FailedTurn);
    } else {
      var b1 := C.Emit(ids, b, id, Some(transcriptId), DecisionProposed);
      var decided := if answer.Refuse? then DecisionRejected else DecisionAccepted;
      var b2 := C.Emit(ids, b1, id, Some(C.LastId(b1)), decided);
      match answer {
        case Refuse(providerFailed, text) =>
          GuideReplyGoesOn(ids, s, a, b2, C.LastId(b2), CannotComply(text), text,
            if providerFailed then C.FailedTurn else C.RejectedTurn, narrationId);
        case Clarify(text) =>
          GuideReplyGoesOn(ids, s, a, b2, C.LastId(b2), Clarification(text), text, C.Clarified, narrationId);
        case Explain(text) =>
          GuideReplyGoesOn(ids, s, a, b2, C.LastId(b2), Explanation(text), text, C.Explained, narrationId);
        case Command(command) =>
          TurnFailsGoesOn(ids, s, a, b2, C.LastId(b2), "cancelled-before-engine-submit", C.CancelledTurn);
          WaitGoesOn(s, a, b2, C.AwaitInspection(C.LastId(b2), command));
        case GuideFailed =>
      }
    }
  }

  lemma InspectionGoesOn(
    ids: C.Ids, s: C.State, a: C.Activity, state: Option<PublicState>, aborted: bool, requestId: string)
    requires Apt(a) && a.step.AwaitInspection?
    ensures GoesOn(s, a, C.InspectionStep(ids, s, a, state, aborted, requestId))
  {
    hide C.Emit, C.TurnFails, C.Thrown, C.LastId, C.ValidId;
    var b := C.Book(s.log, a.local);
    TurnFailsGoesOn(ids, s, a, b, a.step.acceptedId, "engine-inspection-failed", C.FailedTurn);
    TurnFailsGoesOn(ids, s, a, b, a.step.acceptedId, "cancelled-before-engine-submit", C.CancelledTurn);
    ThrownGoesOn(s, a, b);
  }

  lemma FinishResultGoesOn(
    ids: C.Ids, s: C.State, a: C.Activity, b: C.Book, cause: string, request: ExecuteRequest, result: ExecuteResult)
    requires L.ForTurn(a.kind)
    ensures GoesOn(s, a, C.FinishResult(ids, s, a, b, cause, request, result))
  {
    hide C.Emit, C.Completed, C.Wait, C.LastId, GoesOn;
    var rejected := CommandRejected(request.requestId, result.revision, request.command);
    CompletedGoesOn(s, a, C.Emit(ids, b, a.interactionId, Some(cause), rejected), C.FailedTurn, Some(result));
    var b1 := C.Emit(ids, b, a.interactionId, Some(cause),
      CommandCommitted(result.requestId, result.revision, result.command));
    var b2 := C.Emit(ids, b1, a.interactionId, Some(C.LastId(b1)), EngineOutput(result.revision, result.output));
    WaitGoesOn(s, a, b2, C.AwaitCheckpoint(C.LastId(b2), result));
  }

  lemma ExecuteGoesOn(ids: C.Ids, s: C.State, a: C.Activity, answer: C.EngineAnswer)
    requires Apt(a) && a.step.AwaitExecute?
    ensures GoesOn(s, a, C.ExecuteStep(ids, s, a, answer))
  {
    hide C.Emit, C.TurnFails, C.FinishResult, C.LastId;
    var id, causeId, request := a.interactionId, a.step.causeId, a.step.request;
    var b := C.Book(s.log, a.local);
    if answer.Answer? {
      var b1 := C.Emit(ids, b, id, Some(causeId), SystemRecovered(request.requestId));
      FinishResultGoesOn(ids, s, a, b1, C.LastId(b1), request, answer.result);
      FinishResultGoesOn(ids, s, a, b, causeId, request, answer.result);
    }
    TurnFailsGoesOn(ids, s, a, b, causeId, "cancelled-before-engine-submit", C.CancelledTurn);
  }

  lemma CheckpointGoesOn(ids: C.Ids, s: C.State, a: C.Activity, ok: bool, aborted: bool, narrationId: string)
    requires Apt(a) && a.step.AwaitCheckpoint?
    ensures GoesOn(s, a, C.CheckpointStep(ids, s, a, ok, aborted, narrationId))
  {
    hide C.Emit, C.Completed, C.Narrate, C.FinishThrown, C.LastId, C.SegmentsOf, C.ValidId, GoesOn;
    var outputId, result := a.step.outputId, a.step.result;
    var id, b := a.interactionId, C.Book(s.log, a.local);
    var failed := C.Emit(ids, b, id, Some(outputId), SaveFailed);
    var b1 := if ok then C.Emit(ids, b, id, Some(outputId), SaveCheckpointed)
      else C.Emit(ids, failed, id, Some(C.LastId(failed)), SystemError("checkpoint-failed"));
    FinishThrownGoesOn(ids, s, a, b1);
    CompletedGoesOn(s, a, C.Emit(ids, b1, id, Some(outputId), NarrationCancelled(narrationId, NarratorRole)),
      C.CommittedTurn, Some(result));
    NarrateGoesOn(ids, s, a, b1, NarratorRole, C.SegmentsOf(result.output, false), outputId, C.Outcome(result),
      narrationId);
  }

  lemma NarratorGoesOn(ids: C.Ids, s: C.State, a: C.Activity, ok: bool, aborted: bool, nextId: string)
    requires Apt(a) && a.step.AwaitNarrator?
    ensures GoesOn(s, a, C.NarratorStep(ids, s, a, ok, aborted, nextId))
  {
    hide C.Emit, C.Narrated, C.Narrate, C.Introduce, C.LastId, GoesOn;
    var AwaitNarrator(requestedId, narrationId, role, sourceId, rest, purpose) := a.step;
    var id, b := a.interactionId, C.Book(s.log, a.local);
    var payload := if ok then NarrationReady(narrationId, role)
      else if aborted then NarrationCancelled(narrationId, role) else NarrationFailed(narrationId, role);
    var b1 := C.Emit(ids, b, id, Some(requestedId), payload);
    var b2 := C.Emit(ids, b1, id, Some(C.LastId(b1)), SystemError("narration-failed"));
    NarrateGoesOn(ids, s, a, b1, role, rest, sourceId, purpose, nextId);
    NarratedGoesOn(ids, s, a, b1, if ok then C.ReadyNarration else C.CancelledNarration, purpose, sourceId);
    NarratedGoesOn(ids, s, a, b2, C.FailedNarration, purpose, sourceId);
    if purpose.Introducing? {
      IntroduceGoesOn(ids, s, a, b1, purpose.rest, nextId);
    }
  }

  lemma OpeningGoesOn(
    ids: C.Ids, s: C.State, a: C.Activity, state: Option<PublicState>, aborted: bool, narrationId: string)
    requires Apt(a) && a.step.AwaitOpeningInspection?
    ensures GoesOn(s, a, C.OpeningInspectionStep(ids, s, a, state, aborted, narrationId))
  {
    hide C.Emit, C.Narrate, C.LastId, C.SegmentsOf;
    var input := C.OpeningOf(a.kind);
    var b1 := C.Emit(ids, C.Book(s.log, a.local), a.interactionId, None, EngineOutput(input.revision, input.output));
    NarrateGoesOn(ids, s, a, b1, NarratorRole, C.SegmentsOf(input.narrationText, true), C.LastId(b1), C.OpeningStory,
      narrationId);
  }

  lemma ContinueGoesOn(ids: C.Ids, s: C.State, a: C.Activity, x: C.Stimulus)
    requires s.activity == Some(a) && Apt(a)
    ensures GoesOn(s, a, C.Continue(ids, s, a, x))
  {
    hide C.GuideStep, C.InspectionStep, C.OpeningInspectionStep, C.ExecuteStep, C.CheckpointStep, C.NarratorStep, Apt;
    match x {
      case GuideAnswers(answer, aborted, narrationId) =>
        if a.step.AwaitGuide? {
          GuideGoesOn(ids, s, a, answer, aborted, narrationId);
        }
      case EngineInspected(state, aborted, requestId, narrationId) =>
        if a.step.AwaitInspection? {
          InspectionGoesOn(ids, s, a, state, aborted, requestId);
        } else if a.step.AwaitOpeningInspection? {
          OpeningGoesOn(ids, s, a, state, aborted, narrationId);
        }
      case EngineAnswers(reply) =>
        if a.step.AwaitExecute? {
          ExecuteGoesOn(ids, s, a, reply);
        }
      case Checkpointed(ok, aborted, narrationId) =>
        if a.step.AwaitCheckpoint? {
          CheckpointGoesOn(ids, s, a, ok, aborted, narrationId);
        }
      case NarratorAnswers(ok, aborted, narrationId) =>
        if a.step.AwaitNarrator? {
          NarratorGoesOn(ids, s, a, ok, aborted, narrationId);
        }
      case _ =>
    }
  }

  // The simulation

  /** The entry of the activity under way, as far as the guards look at it. */
  predicate Entered(s: C.State) {
    s.activity.Some? ==>
      && var a := s.activity.value;
      && Apt(a)
      && (a.kind.NewTurn? ==> a.interactionId in s.turns && s.turns[a.interactionId].Pending?)
      && (a.kind.Recovering? ==> a.interactionId in s.turns && s.turns[a.interactionId].Uncertain?)
  }

  lemma LedgerEntered(s: C.State, w: L.Watch)
    requires L.Ledger(s, w)
    ensures Entered(s)
  {
    hide L.OnePair, L.NoPair, L.Rooted, L.Commits, L.Due, L.Accounted, L.Entries, C.RequestOf;
  }

  lemma RunCons(g: Guards, x: Event, xs: seq<Event>)
    ensures Run(g, [x] + xs) == Run(Next(g, x), xs)
  {
    hide Next;
    assert ([x] + xs)[1..] == xs;
  }

  lemma RunTwo(g: Guards, x: Event, y: Event)
    ensures Run(g, [x]) == Next(g, x) && Run(g, [x, y]) == Next(Next(g, x), y)
  {
    hide Next;
    RunCons(g, x, []);
    RunCons(g, x, [y]);
    RunCons(Next(g, x), y, []);
    assert [x] + [] == [x] && [y] + [] == [y] && [x] + [y] == [x, y];
  }

  lemma TurnLeaves(s: C.State, a: C.Activity, s': C.State) returns (events: seq<Event>)
    requires s.activity == Some(a) && Entered(s) && Leaves(s, a, s') && a.kind.NewTurn?
    ensures Run(Of(s), events) == Of(s')
  {
    var id := a.interactionId;
    var turn := if id in s'.turns then Some(TurnOf(s'.turns[id])) else None;
    events := [Finally(0), SettleTurn(id, turn)];
    RunTwo(Of(s), Finally(0), SettleTurn(id, turn));
    hide Run;
  }

  lemma RecoveryLeaves(s: C.State, a: C.Activity, s': C.State) returns (events: seq<Event>)
    requires s.activity == Some(a) && Entered(s) && Leaves(s, a, s') && a.kind.Recovering?
    ensures Run(Of(s), events) == Of(s')
  {
    var id := a.interactionId;
    if s'.turns == s.turns {
      events := [Finally(0)];
      RunTwo(Of(s), Finally(0), Finally(0));
    } else {
      events := [SettleRecovery(id), Finally(0)];
      RunTwo(Of(s), SettleRecovery(id), Finally(0));
    }
    hide Run;
  }

  /** An activity that ends is a body that comes to its `finally`, and then its pending state is settled. */
  lemma LeavesRun(s: C.State, a: C.Activity, s': C.State) returns (events: seq<Event>)
    requires s.activity == Some(a) && Entered(s) && Leaves(s, a, s')
    ensures Run(Of(s), events) == Of(s')
  {
    match a.kind {
      case NewTurn(_) => events := TurnLeaves(s, a, s');
      case Recovering(_) => events := RecoveryLeaves(s, a, s');
      case Opening(_) =>
        events := [Finally(0), SettleOpening(SlotOf(s'.opening))];
        RunTwo(Of(s), Finally(0), SettleOpening(SlotOf(s'.opening)));
      case Introduction(_) =>
        var slot := if s'.introduced then Done else Vacant;
        events := [Finally(0), SettleIntroduction(slot)];
        RunTwo(Of(s), Finally(0), SettleIntroduction(slot));
    }
    hide Run;
  }

  lemma GoesOnRun(s: C.State, a: C.Activity, s': C.State) returns (events: seq<Event>)
    requires s.activity == Some(a) && Entered(s) && GoesOn(s, a, s')
    ensures Run(Of(s), events) == Of(s')
  {
    if Leaves(s, a, s') {
      events := LeavesRun(s, a, s');
    } else {
      events := [];
    }
  }

  /** An opening or an introduction begins; it may end at once. */
  lemma BeginsRun(s: C.State, a: C.Activity, s': C.State, x: Event) returns (events: seq<Event>)
    requires s.activity == None && GoesOn(s, a, s') && Entered(s.(activity := Some(a)))
    requires Next(Of(s), x) == Of(s.(activity := Some(a)))
    ensures Run(Of(s), events) == Of(s')
  {
    var begun := s.(activity := Some(a));
    var later := GoesOnRun(begun, a, s');
    events := [x] + later;
    RunCons(Of(s), x, later);
  }

  lemma SubmitRun(ids: C.Ids, maxTurns: nat, s: C.State, i: C.TurnInput, aborted: bool) returns (events: seq<Event>)
    ensures Run(Of(s), events) == Of(C.SubmitStep(ids, maxTurns, s, i, aborted))
  {
    hide C.ValidTurnInput, C.Emit, C.LastId;
    var id := i.interactionId;
    events := [];
    if C.ValidTurnInput(i) && s.activity == None {
      RunTwo(Of(s), SubmitTurn(id, true), SubmitTurn(id, true));
      if id in s.turns {
        if s.turns[id].fingerprint == i.fingerprint && s.turns[id].Uncertain? && !aborted {
          events := [SubmitTurn(id, true)];
        }
      } else if |s.turns| < maxTurns {
        events := [SubmitTurn(id, true)];
      }
    }
  }

  lemma RecordRun(ids: C.Ids, maxTurns: nat, s: C.State, id: string, code: string) returns (events: seq<Event>)
    ensures Run(Of(s), events) == Of(C.RecordFailureStep(ids, maxTurns, s, id, code))
  {
    hide C.ValidId, C.Emit;
    var s' := C.RecordFailureStep(ids, maxTurns, s, id, code);
    if s' == s {
      events := [];
    } else {
      events := [RecordFailure(id)];
      RunTwo(Of(s), RecordFailure(id), RecordFailure(id));
    }
  }

  lemma StartOpeningRun(ids: C.Ids, s: C.State, id: string, input: C.OpeningInput, narrationId: string)
    returns (events: seq<Event>)
    ensures Run(Of(s), events) == Of(C.StartOpeningStep(ids, s, id, input, narrationId))
  {
    hide C.ValidId, C.Narrate, C.SegmentsOf;
    var s' := C.StartOpeningStep(ids, s, id, input, narrationId);
    var a := C.Activity(id, C.Opening(input), [], C.AwaitOpeningInspection);
    if s' == s {
      events := [];
    } else {
      if s.opening.Retryable? {
        NarrateGoesOn(ids, s, a, C.Book(s.log, []), NarratorRole, C.SegmentsOf(input.narrationText, true),
          s.opening.sourceEventId, C.OpeningStory, narrationId);
      }
      events := BeginsRun(s, a, s', PrepareOpening(id, true));
    }
  }

  lemma StartIntroductionRun(ids: C.Ids, s: C.State, id: string, messages: seq<C.Message>, narrationId: string)
    returns (events: seq<Event>)
    ensures Run(Of(s), events) == Of(C.StartIntroductionStep(ids, s, id, messages, narrationId))
  {
    hide C.ValidId, C.Introduce;
    var s' := C.StartIntroductionStep(ids, s, id, messages, narrationId);
    var a := C.Activity(id, C.Introduction(messages), [], C.AwaitNarrator("", "", GuideRole, "", [], C.Introducing([])));
    if s' == s {
      events := [];
    } else {
      var began := C.Activity(id, C.Introduction(messages), [], C.AwaitGuide(""));
      IntroduceGoesOn(ids, s, began, C.Book(s.log, []), messages, narrationId);
      events := BeginsRun(s, a, s', PrepareIntroduction(id, true));
    }
  }

  /** Every step of the coordinator is a run of the guards: what the one activity allows, they allow. */
  lemma StepSimulated(ids: C.Ids, maxTurns: nat, s: C.State, x: C.Stimulus, w: L.Watch) returns (events: seq<Event>)
    requires L.Ledger(s, w)
    ensures Run(Of(s), events) == Of(C.Next(ids, maxTurns, s, x))
  {
    hide L.Ledger, C.SubmitStep, C.StartOpeningStep, C.StartIntroductionStep, C.RecordFailureStep, C.Continue, Of, Run,
      GoesOn, Entered, Apt;
    LedgerEntered(s, w);
    match x {
      case SubmitTurn(input, aborted) => events := SubmitRun(ids, maxTurns, s, input, aborted);
      case StartOpening(id, input, narrationId, _) => events := StartOpeningRun(ids, s, id, input, narrationId);
      case StartIntroduction(id, messages, narrationId) =>
        events := StartIntroductionRun(ids, s, id, messages, narrationId);
      case RecordFailure(id, code) => events := RecordRun(ids, maxTurns, s, id, code);
      case _ =>
        if s.activity == None {
          events := [];
          RunNothing(Of(s));
        } else {
          var a := s.activity.value;
          IsApt(s);
          ContinueGoesOn(ids, s, a, x);
          events := GoesOnRun(s, a, C.Continue(ids, s, a, x));
        }
    }
  }

  lemma IsApt(s: C.State)
    requires Entered(s) && s.activity.Some?
    ensures Apt(s.activity.value)
  {
  }

  lemma RunNothing(g: Guards)
    ensures Run(g, []) == g
  {
  }

  lemma {:induction false} RunAppend(g: Guards, xs: seq<Event>, ys: seq<Event>)
    ensures Run(g, xs + ys) == Run(Run(g, xs), ys)
    decreases |xs|
  {
    hide Next;
    if xs == [] {
      assert xs + ys == ys;
    } else {
      assert (xs + ys)[1..] == xs[1..] + ys;
      RunAppend(Next(g, xs[0]), xs[1..], ys);
    }
  }

  lemma {:induction false} RunSimulated(ids: C.Ids, maxTurns: nat, s: C.State, xs: seq<C.Stimulus>, w: L.Watch)
    returns (events: seq<Event>)
    requires L.Ledger(s, w)
    ensures Run(Of(s), events) == Of(CoordinatorEvents.Run(ids, maxTurns, s, xs))
    decreases |xs|
  {
    hide L.Ledger, C.Next, Of, Run;
    if xs == [] {
      events := [];
      RunNothing(Of(s));
    } else {
      var first := StepSimulated(ids, maxTurns, s, xs[0], w);
      L.NextLedger(ids, maxTurns, s, xs[0], w);
      var rest := RunSimulated(ids, maxTurns, C.Next(ids, maxTurns, s, xs[0]), xs[1..], L.After(s, xs[0], w));
      events := first + rest;
      RunAppend(Of(s), first, rest);
    }
  }

  /** So every run of the coordinator, whose state has room for one activity, is a run of the guards, which has not. */
  lemma CoordinatorSimulated(ids: C.Ids, maxTurns: nat, xs: seq<C.Stimulus>) returns (events: seq<Event>)
    ensures Run(INITIAL, events) == Of(CoordinatorEvents.Run(ids, maxTurns, C.INITIAL, xs))
  {
    hide L.Ledger, C.Next, Run;
    L.InitialLedger("");
    events := RunSimulated(ids, maxTurns, C.INITIAL, xs, L.Watch("", 0, None));
    assert Of(C.INITIAL) == INITIAL;
  }
}
