/**
 Every segment is narrated: over any run, what an opening, an introduction or a
 turn asks of the narrator is its text, segment after segment in order, each
 answered before the next is asked for.
 */
module CoordinatorNarration {
  import opened Wrappers
  import opened EngineTypes
  import opened EventLog
  import opened Coordinator
  import CoordinatorEvents
  import CoordinatorLedger
  import Exclusion
  import Narration

  // What the events of an activity say

  datatype Line = Shows(text: string) | Says(role: Role, text: string) | Asks(role: Role, text: string) | Answered(role: Role)
    | Other

  function LineOf(e: Event): Line {
    match e.payload
    case EngineOutput(_, text) => Shows(text)
    case RoleIntroduction(role, text) => Says(role, text)
    case NarrationRequested(_, role, text, _) => Asks(role, text)
    case NarrationReady(_, role) => Answered(role)
    case _ => Other
  }

  function Lines(events: seq<Event>): (lines: seq<Line>)
    ensures |lines| == |events|
  {
    seq(|events|, i requires 0 <= i < |events| => LineOf(events[i]))
  }

  lemma LinesSnoc(events: seq<Event>, e: Event)
    ensures Lines(events + [e]) == Lines(events) + [LineOf(e)]
  {
  }

  /** Each segment is asked for, and then answered. */
  function Asked(role: Role, segments: seq<string>): seq<Line> {
    if segments == [] then []
    else Asked(role, segments[..|segments| - 1]) + [Asks(role, segments[|segments| - 1]), Answered(role)]
  }

  lemma AskedSnoc(role: Role, segments: seq<string>, segment: string)
    ensures Asked(role, segments + [segment]) == Asked(role, segments) + [Asks(role, segment), Answered(role)]
  {
    assert (segments + [segment])[..|segments|] == segments;
  }

  /** An introduction: each message is said, and then narrated sentence by sentence. */
  function Script(messages: seq<Message>): seq<Line> {
    if messages == [] then []
    else
      var m := messages[|messages| - 1];
      Script(messages[..|messages| - 1]) + [Says(m.role, m.text)] + Asked(m.role, Narration.NarrationSegments(m.text))
  }

  lemma ScriptSnoc(messages: seq<Message>, m: Message)
    ensures Script(messages + [m]) ==
      Script(messages) + [Says(m.role, m.text)] + Asked(m.role, Narration.NarrationSegments(m.text))
  {
    assert (messages + [m])[..|messages|] == messages;
  }

  /** An answer follows the very request that it answers. */
  predicate AnswersAt(events: seq<Event>, i: nat)
    requires i < |events|
  {
    events[i].payload.NarrationReady? ==>
      && i > 0 && events[i - 1].payload.NarrationRequested?
      && events[i].payload.narrationId == events[i - 1].payload.narrationId
      && events[i].payload.role == events[i - 1].payload.role
      && events[i].causationId == Some(events[i - 1].id)
  }

  predicate Paired(events: seq<Event>) {
    forall i :: 0 <= i < |events| ==> AnswersAt(events, i)
  }

  lemma PairedSnoc(events: seq<Event>, e: Event)
    requires Paired(events) && AnswersAt(events + [e], |events|)
    ensures Paired(events + [e])
  {
    forall i | 0 <= i < |events|
      ensures AnswersAt(events + [e], i)
    {
      assert AnswersAt(events, i);
    }
  }

  /** The last event is the request that the activity awaits the answer to. */
  predicate Awaited(local: seq<Event>, step: Step) {
    && step.AwaitNarrator? && local != []
    && var e := local[|local| - 1];
      && e.id == step.requestedId && e.payload.NarrationRequested?
      && e.payload.narrationId == step.narrationId && e.payload.role == step.role
      && e.payload.sourceEventId == step.sourceId
  }

  /** All segments but the `rest` are asked for, and all of these but the last are answered. */
  predicate Reached(lines: seq<Line>, before: seq<Line>, role: Role, segments: seq<string>, rest: seq<string>) {
    && |rest| < |segments| && rest == segments[|segments| - |rest|..]
    && var k := |segments| - |rest|;
      lines == before + Asked(role, segments[..k - 1]) + [Asks(role, segments[k - 1])]
  }

  /** A first narration of an opening follows its output; one that is tried again has nothing in front. */
  predicate Before(before: seq<Line>, input: OpeningInput) {
    before == [] || before == [Shows(input.output)]
  }

  ghost predicate OpeningTold(a: Activity, input: OpeningInput)
    requires a.step.AwaitNarrator?
  {
    && a.step.purpose == OpeningStory && a.step.role == NarratorRole
    && Paired(a.local) && Awaited(a.local, a.step)
    && exists before :: OpeningAt(a, input, before)
  }

  predicate OpeningAt(a: Activity, input: OpeningInput, before: seq<Line>)
    requires a.step.AwaitNarrator?
  {
    && Before(before, input)
    && Reached(Lines(a.local), before, NarratorRole, Narration.NarrationSegments(input.narrationText), a.step.rest)
  }

  /** Of the messages, all but the `rest` of the purpose are said, and all of these but the last are narrated. */
  ghost predicate IntroductionTold(a: Activity, messages: seq<Message>)
    requires a.step.AwaitNarrator?
  {
    && a.step.purpose.Introducing? && |a.step.purpose.rest| < |messages|
    && var j := |messages| - |a.step.purpose.rest| - 1;
      && a.step.purpose.rest == messages[j + 1..] && a.step.role == messages[j].role
      && Paired(a.local) && Awaited(a.local, a.step)
      && Reached(Lines(a.local), Script(messages[..j]) + [Says(messages[j].role, messages[j].text)], messages[j].role,
        Narration.NarrationSegments(messages[j].text), a.step.rest)
  }

  /** What the guide says in this event. */
  function Speech(p: Payload): Option<string> {
    match p
    case Clarification(text) => Some(text)
    case Explanation(text) => Some(text)
    case CannotComply(text) => Some(text)
    case _ => None
  }

  /** A turn asks once, for what the guide says or for the output of the engine, whole. */
  predicate TurnTold(a: Activity)
    requires a.step.AwaitNarrator?
  {
    && a.step.rest == [] && Awaited(a.local, a.step)
    && match a.step.purpose
       case Outcome(result) => LineOf(a.local[|a.local| - 1]) == Asks(NarratorRole, result.output)
       case Reply(_) =>
         && |a.local| >= 2 && Speech(a.local[|a.local| - 2].payload).Some?
         && LineOf(a.local[|a.local| - 1]) == Asks(GuideRole, Speech(a.local[|a.local| - 2].payload).value)
       case _ => false
  }

  ghost predicate Told(a: Activity) {
    && (a.step.AwaitOpeningInspection? ==> a.local == [])
    && (a.step.AwaitNarrator? ==>
      match a.kind
      case Opening(input) => OpeningTold(a, input)
      case Introduction(messages) => IntroductionTold(a, messages)
      case _ => TurnTold(a))
  }

  ghost predicate AllTold(s: State) {
    s.activity.Some? ==> Told(s.activity.value)
  }

  // Asking for one segment more

  lemma NextReached(
    local: seq<Event>, e: Event, before: seq<Line>, role: Role, segments: seq<string>, rest: seq<string>)
    requires rest != [] && |rest| <= |segments| && rest == segments[|segments| - |rest|..]
    requires Lines(local) == before + Asked(role, segments[..|segments| - |rest|])
    requires LineOf(e) == Asks(role, rest[0])
    ensures Reached(Lines(local + [e]), before, role, segments, rest[1..])
  {
    LinesSnoc(local, e);
    var k := |segments| - |rest|;
    assert segments[k] == rest[0] && rest[1..] == segments[k + 1..];
  }

  lemma AnsweredReached(
    local: seq<Event>, e: Event, before: seq<Line>, role: Role, segments: seq<string>, rest: seq<string>)
    requires Reached(Lines(local), before, role, segments, rest) && LineOf(e) == Answered(role)
    ensures Lines(local + [e]) == before + Asked(role, segments[..|segments| - |rest|])
  {
    LinesSnoc(local, e);
    var k := |segments| - |rest|;
    assert segments[..k] == segments[..k - 1] + [segments[k - 1]];
    AskedSnoc(role, segments[..k - 1], segments[k - 1]);
    var asked := before + Asked(role, segments[..k - 1]);
    assert asked + [Asks(role, segments[k - 1])] + [Answered(role)] ==
      before + (Asked(role, segments[..k - 1]) + [Asks(role, segments[k - 1]), Answered(role)]);
  }

  lemma RequestAwaited(ids: Ids, b: Book, id: string, role: Role, text: string, sourceId: string, narrationId: string,
    rest: seq<string>, purpose: Purpose)
    ensures var b1 := Emit(ids, b, id, Some(sourceId), NarrationRequested(narrationId, role, text, sourceId));
      var e := b1.local[|b.local|];
      && b1.local == b.local + [e] && LineOf(e) == Asks(role, text)
      && Awaited(b1.local, AwaitNarrator(LastId(b1), narrationId, role, sourceId, rest, purpose))
      && (Paired(b.local) ==> Paired(b1.local))
  {
    var e := NextEvent(ids, b, id, Some(sourceId), NarrationRequested(narrationId, role, text, sourceId));
    if Paired(b.local) {
      PairedSnoc(b.local, e);
    }
  }

  /** The event that ends the wait for a request. */
  lemma AnswerPaired(ids: Ids, s: State, a: Activity, payload: Payload)
    requires a.step.AwaitNarrator? && Awaited(a.local, a.step) && Paired(a.local)
    requires payload.NarrationReady? ==> payload == NarrationReady(a.step.narrationId, a.step.role)
    ensures var b1 := Emit(ids, Book(s.log, a.local), a.interactionId, Some(a.step.requestedId), payload);
      && Paired(b1.local) && b1.local == a.local + [b1.local[|a.local|]] && b1.local[|a.local|].payload == payload
      && b1.log == s.log + [b1.local[|a.local|]]
  {
    var e := NextEvent(ids, Book(s.log, a.local), a.interactionId, Some(a.step.requestedId), payload);
    PairedSnoc(a.local, e);
  }

  // Openings

  lemma NarrateOpening(
    ids: Ids, s: State, a: Activity, b: Book, segments: seq<string>, sourceId: string, narrationId: string,
    before: seq<Line>)
    requires a.kind.Opening? && Before(before, a.kind.input) && Paired(b.local)
    requires var all := Narration.NarrationSegments(a.kind.input.narrationText);
      && |segments| <= |all| && segments == all[|all| - |segments|..]
      && Lines(b.local) == before + Asked(NarratorRole, all[..|all| - |segments|])
    ensures AllTold(Narrate(ids, s, a, b, NarratorRole, segments, sourceId, OpeningStory, narrationId))
  {
    hide Emit, LastId, ValidId, Lines, Asked, Paired, Awaited, Reached, Narration.NarrationSegments;
    if segments != [] && ValidId(narrationId) {
      var payload := NarrationRequested(narrationId, NarratorRole, segments[0], sourceId);
      var b1 := Emit(ids, b, a.interactionId, Some(sourceId), payload);
      RequestAwaited(ids, b, a.interactionId, NarratorRole, segments[0], sourceId, narrationId, segments[1..], OpeningStory);
      NextReached(b.local, b1.local[|b.local|], before, NarratorRole,
        Narration.NarrationSegments(a.kind.input.narrationText), segments);
      var step := AwaitNarrator(LastId(b1), narrationId, NarratorRole, sourceId, segments[1..], OpeningStory);
      assert OpeningAt(a.(local := b1.local, step := step), a.kind.input, before);
    }
  }

  // Introductions

  lemma NarrateMessage(
    ids: Ids, s: State, a: Activity, b: Book, j: nat, segments: seq<string>, sourceId: string, narrationId: string)
    requires a.kind.Introduction? && j < |a.kind.messages| && Paired(b.local)
    requires var m := a.kind.messages[j];
      var all := Narration.NarrationSegments(m.text);
      && |segments| <= |all| && segments == all[|all| - |segments|..]
      && Lines(b.local) ==
        Script(a.kind.messages[..j]) + [Says(m.role, m.text)] + Asked(m.role, all[..|all| - |segments|])
    ensures AllTold(
      Narrate(ids, s, a, b, a.kind.messages[j].role, segments, sourceId, Introducing(a.kind.messages[j + 1..]), narrationId))
  {
    hide Emit, LastId, ValidId, Lines, Asked, Script, Paired, Awaited, Reached, Narration.NarrationSegments;
    var m, purpose := a.kind.messages[j], Introducing(a.kind.messages[j + 1..]);
    if segments != [] && ValidId(narrationId) {
      var payload := NarrationRequested(narrationId, m.role, segments[0], sourceId);
      var b1 := Emit(ids, b, a.interactionId, Some(sourceId), payload);
      RequestAwaited(ids, b, a.interactionId, m.role, segments[0], sourceId, narrationId, segments[1..], purpose);
      NextReached(b.local, b1.local[|b.local|], Script(a.kind.messages[..j]) + [Says(m.role, m.text)], m.role,
        Narration.NarrationSegments(m.text), segments);
    }
  }

  lemma IntroduceTold(ids: Ids, s: State, a: Activity, b: Book, messages: seq<Message>, narrationId: string)
    requires a.kind.Introduction? && Paired(b.local) && |messages| <= |a.kind.messages|
    requires var j := |a.kind.messages| - |messages|;
      messages == a.kind.messages[j..] && Lines(b.local) == Script(a.kind.messages[..j])
    ensures AllTold(Introduce(ids, s, a, b, messages, narrationId))
  {
    hide Emit, Lines, Asked, Script, Paired, Narrate, AllTold, SegmentsOf, LastId, Narration.NarrationSegments, Finish;
    if messages == [] {
      NothingUnderWay(s, b);
    } else {
      var j := |a.kind.messages| - |messages|;
      var m := messages[0];
      var segments := SegmentsOf(m.text, true);
      var b1 := Emit(ids, b, a.interactionId, None, RoleIntroduction(m.role, m.text));
      Said(ids, b, a.interactionId, m);
      Segmented(m.text);
      NothingYet(Script(a.kind.messages[..j]) + [Says(m.role, m.text)], m.role, segments);
      assert a.kind.messages[j] == m && messages[1..] == a.kind.messages[j + 1..];
      NarrateMessage(ids, s, a, b1, j, segments, LastId(b1), narrationId);
    }
  }

  lemma NothingUnderWay(s: State, b: Book)
    ensures AllTold(Finish(s, b).(introduced := true))
  {
  }

  lemma NothingYet(before: seq<Line>, role: Role, segments: seq<string>)
    ensures segments[|segments| - |segments|..] == segments
    ensures before + Asked(role, segments[..|segments| - |segments|]) == before
  {
    assert segments[..0] == [];
  }

  lemma Segmented(text: string)
    ensures SegmentsOf(text, true) == Narration.NarrationSegments(text)
  {
  }

  lemma NothingAsked(role: Role)
    ensures Asked(role, []) == [] && Script([]) == [] && Lines([]) == [] && Paired([])
  {
  }

  lemma Said(ids: Ids, b: Book, id: string, m: Message)
    requires Paired(b.local)
    ensures var b1 := Emit(ids, b, id, None, RoleIntroduction(m.role, m.text));
      Paired(b1.local) && Lines(b1.local) == Lines(b.local) + [Says(m.role, m.text)]
  {
    var e := NextEvent(ids, b, id, None, RoleIntroduction(m.role, m.text));
    PairedSnoc(b.local, e);
    LinesSnoc(b.local, e);
  }

  // Turns

  lemma NarrateTurn(
    ids: Ids, s: State, a: Activity, b: Book, role: Role, segments: seq<string>, sourceId: string, purpose: Purpose,
    narrationId: string)
    requires Exclusion.Suits(a.kind, purpose) && CoordinatorLedger.ForTurn(a.kind) && |segments| <= 1
    requires segments != [] ==>
      match purpose
      case Outcome(result) => role == NarratorRole && segments[0] == result.output
      case Reply(_) => role == GuideRole && b.local != [] && Speech(b.local[|b.local| - 1].payload) == Some(segments[0])
      case _ => false
    ensures AllTold(Narrate(ids, s, a, b, role, segments, sourceId, purpose, narrationId))
  {
    hide Emit, LastId, ValidId, Awaited, RequestOf;
    if segments != [] && ValidId(narrationId) {
      RequestAwaited(ids, b, a.interactionId, role, segments[0], sourceId, narrationId, segments[1..], purpose);
    }
  }

  lemma Whole(text: string)
    ensures |SegmentsOf(text, false)| <= 1 && (SegmentsOf(text, false) != [] ==> SegmentsOf(text, false)[0] == text)
  {
  }

  lemma GuideReplyTold(
    ids: Ids, s: State, a: Activity, b: Book, cause: string, payload: Payload, text: string, outcome: TurnOutcome,
    narrationId: string)
    requires CoordinatorLedger.ForTurn(a.kind) && Speech(payload) == Some(text)
    ensures AllTold(GuideReply(ids, s, a, b, cause, payload, text, outcome, narrationId))
  {
    hide Narrate, AllTold, SegmentsOf, LastId;
    Whole(text);
    var b1 := Emit(ids, b, a.interactionId, Some(cause), payload);
    NarrateTurn(ids, s, a, b1, GuideRole, SegmentsOf(text, false), LastId(b1), Reply(outcome), narrationId);
  }

  lemma GuideTold(ids: Ids, s: State, a: Activity, answer: GuideAnswer, aborted: bool, narrationId: string)
    requires CoordinatorLedger.ForTurn(a.kind) && a.step.AwaitGuide?
    ensures AllTold(GuideStep(ids, s, a, answer, aborted, narrationId))
  {
    hide GuideReply, Emit, LastId;
    var id, b := a.interactionId, Book(s.log, a.local);
    if !answer.GuideFailed? {
      var b1 := Emit(ids, b, id, Some(a.step.transcriptId), DecisionProposed);
      var b2 := Emit(ids, b1, id, Some(LastId(b1)), if answer.Refuse? then DecisionRejected else DecisionAccepted);
      match answer {
        case Refuse(providerFailed, text) =>
          GuideReplyTold(ids, s, a, b2, LastId(b2), CannotComply(text), text,
            if providerFailed then FailedTurn else RejectedTurn, narrationId);
        case Clarify(text) =>
          GuideReplyTold(ids, s, a, b2, LastId(b2), Clarification(text), text, Clarified, narrationId);
        case Explain(text) =>
          GuideReplyTold(ids, s, a, b2, LastId(b2), Explanation(text), text, Explained, narrationId);
        case _ =>
      }
    }
  }

  lemma CheckpointTold(ids: Ids, s: State, a: Activity, ok: bool, aborted: bool, narrationId: string)
    requires CoordinatorLedger.ForTurn(a.kind) && a.step.AwaitCheckpoint?
    ensures AllTold(CheckpointStep(ids, s, a, ok, aborted, narrationId))
  {
    hide Narrate, Emit, LastId, SegmentsOf, ValidId, RequestOf;
    var outputId, result := a.step.outputId, a.step.result;
    var id, b := a.interactionId, Book(s.log, a.local);
    var failed := Emit(ids, b, id, Some(outputId), SaveFailed);
    var b1 := if ok then Emit(ids, b, id, Some(outputId), SaveCheckpointed)
      else Emit(ids, failed, id, Some(LastId(failed)), SystemError("checkpoint-failed"));
    Whole(result.output);
    NarrateTurn(ids, s, a, b1, NarratorRole, SegmentsOf(result.output, false), outputId, Outcome(result), narrationId);
  }

  // The narrator answers

  lemma NarratorTold(ids: Ids, s: State, a: Activity, ok: bool, aborted: bool, nextId: string)
    requires Exclusion.Apt(a) && a.step.AwaitNarrator? && Told(a)
    ensures AllTold(NarratorStep(ids, s, a, ok, aborted, nextId))
  {
    hide Emit, Narrate, Narrated, Introduce, LastId, AllTold, Paired, Awaited, Lines, Asked, Script, Reached, Before,
      Narration.NarrationSegments;
    var AwaitNarrator(requestedId, narrationId, role, sourceId, rest, purpose) := a.step;
    var b := Book(s.log, a.local);
    var payload := NarrationReady(narrationId, role);
    var b1 := Emit(ids, b, a.interactionId, Some(requestedId), payload);
    forall b', outcome
      ensures AllTold(Narrated(ids, s, a, b', outcome, purpose, sourceId))
    {
      NarratedTold(ids, s, a, b', outcome, purpose, sourceId);
    }
    if ok {
      match a.kind {
        case Opening(input) =>
          var before :| OpeningAt(a, input, before);
          var all := Narration.NarrationSegments(input.narrationText);
          AnswerPaired(ids, s, a, payload);
          AnsweredReached(a.local, b1.local[|a.local|], before, NarratorRole, all, rest);
          RestOf(Lines(a.local), before, NarratorRole, all, rest);
          NarrateOpening(ids, s, a, b1, rest, sourceId, nextId, before);
        case Introduction(messages) =>
          IntroductionAnswered(ids, s, a, messages, nextId);
        case _ =>
      }
    }
  }

  lemma RestOf(lines: seq<Line>, before: seq<Line>, role: Role, segments: seq<string>, rest: seq<string>)
    requires Reached(lines, before, role, segments, rest)
    ensures |rest| < |segments| && rest == segments[|segments| - |rest|..]
  {
  }

  lemma IntroductionAnswered(ids: Ids, s: State, a: Activity, messages: seq<Message>, nextId: string)
    requires a.step.AwaitNarrator? && a.kind == Introduction(messages) && IntroductionTold(a, messages)
    ensures var b1 := Emit(ids, Book(s.log, a.local), a.interactionId, Some(a.step.requestedId),
        NarrationReady(a.step.narrationId, a.step.role));
      && AllTold(Narrate(ids, s, a, b1, a.step.role, a.step.rest, a.step.sourceId, a.step.purpose, nextId))
      && (a.step.rest == [] ==>
        AllTold(Introduce(ids, s, a, b1, a.step.purpose.rest, nextId))
        && Lines(b1.local) == Script(messages[..|messages| - |a.step.purpose.rest|]) && Paired(b1.local))
  {
    hide Emit, Narrate, Introduce, AllTold, Paired, Awaited, Lines, Asked, Script, Reached, Narration.NarrationSegments;
    var rest, later := a.step.rest, a.step.purpose.rest;
    var j := |messages| - |later| - 1;
    var m := messages[j];
    var all := Narration.NarrationSegments(m.text);
    var before := Script(messages[..j]) + [Says(m.role, m.text)];
    var payload := NarrationReady(a.step.narrationId, a.step.role);
    var b1 := Emit(ids, Book(s.log, a.local), a.interactionId, Some(a.step.requestedId), payload);
    AnswerPaired(ids, s, a, payload);
    AnsweredReached(a.local, b1.local[|a.local|], before, m.role, all, rest);
    RestOf(Lines(a.local), before, m.role, all, rest);
    NarrateMessage(ids, s, a, b1, j, rest, a.step.sourceId, nextId);
    if rest == [] {
      assert all[..|all|] == all && messages[..j + 1] == messages[..j] + [m];
      ScriptSnoc(messages[..j], m);
      IntroduceTold(ids, s, a, b1, later, nextId);
    }
  }

  lemma NarratedTold(ids: Ids, s: State, a: Activity, b: Book, outcome: NarrationOutcome, purpose: Purpose, sourceId: string)
    ensures AllTold(Narrated(ids, s, a, b, outcome, purpose, sourceId))
  {
  }

  // Every step

  lemma OpeningInspectedTold(
    ids: Ids, s: State, a: Activity, state: Option<PublicState>, aborted: bool, narrationId: string)
    requires Exclusion.Apt(a) && a.step.AwaitOpeningInspection? && Told(a)
    ensures AllTold(OpeningInspectionStep(ids, s, a, state, aborted, narrationId))
  {
    hide Narrate, LastId, SegmentsOf, Asked, Narration.NarrationSegments;
    var input := OpeningOf(a.kind);
    var b1 := Emit(ids, Book(s.log, a.local), a.interactionId, None, EngineOutput(input.revision, input.output));
    var segments := SegmentsOf(input.narrationText, true);
    Segmented(input.narrationText);
    NothingYet([Shows(input.output)], NarratorRole, segments);
    assert Lines(b1.local) == [Shows(input.output)];
    hide AllTold, Paired;
    assert Paired(b1.local) by {
      OnePaired(b1.local);
    }
    NarrateOpening(ids, s, a, b1, segments, LastId(b1), narrationId, [Shows(input.output)]);
  }

  lemma OnePaired(events: seq<Event>)
    requires |events| == 1 && !events[0].payload.NarrationReady?
    ensures Paired(events)
  {
  }

  lemma ContinueTold(ids: Ids, s: State, a: Activity, x: Stimulus)
    requires s.activity == Some(a) && Exclusion.Apt(a) && Told(a)
    ensures AllTold(Continue(ids, s, a, x))
  {
    hide GuideStep, OpeningInspectionStep, CheckpointStep, NarratorStep, RequestOf, Emit, ValidId, LastId;
    match x {
      case GuideAnswers(answer, aborted, narrationId) =>
        if a.step.AwaitGuide? {
          GuideTold(ids, s, a, answer, aborted, narrationId);
        }
      case EngineInspected(state, aborted, requestId, narrationId) =>
        if a.step.AwaitOpeningInspection? {
          OpeningInspectedTold(ids, s, a, state, aborted, narrationId);
        }
      case Checkpointed(ok, aborted, narrationId) =>
        if a.step.AwaitCheckpoint? {
          CheckpointTold(ids, s, a, ok, aborted, narrationId);
        }
      case NarratorAnswers(ok, aborted, narrationId) =>
        if a.step.AwaitNarrator? {
          NarratorTold(ids, s, a, ok, aborted, narrationId);
        }
      case _ =>
    }
  }

  lemma StartsTold(ids: Ids, maxTurns: nat, s: State, x: Stimulus)
    requires AllTold(s) && (x.StartOpening? || x.StartIntroduction? || x.RecordFailure? || x.SubmitTurn?)
    ensures AllTold(Next(ids, maxTurns, s, x))
  {
    hide Narrate, Introduce, SegmentsOf, ValidId, ValidTurnInput, Emit, LastId, Asked, Narration.NarrationSegments;
    match x {
      case StartOpening(id, input, narrationId, _) =>
        if s.activity == None && s.opening.Retryable? {
          var a := Activity(id, Opening(input), [], AwaitOpeningInspection);
          var segments := SegmentsOf(input.narrationText, true);
          Segmented(input.narrationText);
          NothingYet([], NarratorRole, segments);
          NothingAsked(NarratorRole);
          NarrateOpening(ids, s, a, Book(s.log, []), segments, s.opening.sourceEventId, narrationId, []);
        }
      case StartIntroduction(id, messages, narrationId) =>
        if s.activity == None {
          assert messages[..0] == [] && messages[0..] == messages;
          NothingAsked(NarratorRole);
          IntroduceTold(ids, s, Activity(id, Introduction(messages), [], AwaitGuide("")), Book(s.log, []), messages, narrationId);
        }
      case _ =>
    }
  }

  lemma NextTold(ids: Ids, maxTurns: nat, s: State, x: Stimulus)
    requires AllTold(s) && Exclusion.Entered(s)
    ensures AllTold(Next(ids, maxTurns, s, x))
  {
    hide SubmitStep, StartOpeningStep, StartIntroductionStep, RecordFailureStep, Continue, Exclusion.Apt, Told;
    match x {
      case SubmitTurn(_, _) => StartsTold(ids, maxTurns, s, x);
      case StartOpening(_, _, _, _) => StartsTold(ids, maxTurns, s, x);
      case StartIntroduction(_, _, _) => StartsTold(ids, maxTurns, s, x);
      case RecordFailure(_, _) => StartsTold(ids, maxTurns, s, x);
      case _ =>
        if s.activity.Some? {
          ContinueTold(ids, s, s.activity.value, x);
        }
    }
  }

  lemma {:induction false} RunTold(
    ids: Ids, maxTurns: nat, s: State, xs: seq<Stimulus>, w: CoordinatorLedger.Watch)
    requires AllTold(s) && CoordinatorLedger.Ledger(s, w)
    ensures AllTold(CoordinatorEvents.Run(ids, maxTurns, s, xs))
    ensures Exclusion.Entered(CoordinatorEvents.Run(ids, maxTurns, s, xs))
    decreases |xs|
  {
    hide AllTold, CoordinatorLedger.Ledger, Exclusion.Entered, Next;
    Exclusion.LedgerEntered(s, w);
    if xs != [] {
      NextTold(ids, maxTurns, s, xs[0]);
      CoordinatorLedger.NextLedger(ids, maxTurns, s, xs[0], w);
      RunTold(ids, maxTurns, Next(ids, maxTurns, s, xs[0]), xs[1..], CoordinatorLedger.After(s, xs[0], w));
    }
  }

  // What it comes to, in every run

  /** The texts that are asked for, in order. */
  function TextsAsked(lines: seq<Line>): seq<string> {
    if lines == [] then []
    else
      var last := lines[|lines| - 1];
      TextsAsked(lines[..|lines| - 1]) + if last.Asks? then [last.text] else []
  }

  lemma TextsAskedSnoc(lines: seq<Line>, line: Line)
    ensures TextsAsked(lines + [line]) == TextsAsked(lines) + if line.Asks? then [line.text] else []
  {
    assert (lines + [line])[..|lines|] == lines;
  }

  lemma {:induction false} TextsOfAsked(before: seq<Line>, role: Role, segments: seq<string>)
    ensures TextsAsked(before + Asked(role, segments)) == TextsAsked(before) + segments
    decreases |segments|
  {
    hide TextsAsked;
    if segments == [] {
      assert before + Asked(role, segments) == before;
    } else {
      var init, last := segments[..|segments| - 1], segments[|segments| - 1];
      var lines := before + Asked(role, init);
      TextsOfAsked(before, role, init);
      TextsAskedSnoc(lines, Asks(role, last));
      TextsAskedSnoc(lines + [Asks(role, last)], Answered(role));
      assert before + Asked(role, segments) == lines + [Asks(role, last)] + [Answered(role)];
      assert segments == init + [last];
    }
  }

  lemma TextsReached(lines: seq<Line>, before: seq<Line>, role: Role, segments: seq<string>, rest: seq<string>)
    requires Reached(lines, before, role, segments, rest)
    ensures TextsAsked(lines) == TextsAsked(before) + segments[..|segments| - |rest|]
  {
    hide TextsAsked, Asked;
    var k := |segments| - |rest|;
    TextsOfAsked(before, role, segments[..k - 1]);
    TextsAskedSnoc(before + Asked(role, segments[..k - 1]), Asks(role, segments[k - 1]));
    assert segments[..k] == segments[..k - 1] + [segments[k - 1]];
  }

  lemma BeforeAsksNothing(before: seq<Line>, input: OpeningInput)
    requires Before(before, input)
    ensures TextsAsked(before) == []
  {
    if before != [] {
      assert before[..0] == [];
    }
  }

  lemma InRun(ids: Ids, maxTurns: nat, xs: seq<Stimulus>)
    ensures AllTold(CoordinatorEvents.Run(ids, maxTurns, INITIAL, xs))
    ensures Exclusion.Entered(CoordinatorEvents.Run(ids, maxTurns, INITIAL, xs))
  {
    hide CoordinatorLedger.Ledger, Told, Next;
    CoordinatorLedger.InitialLedger("");
    RunTold(ids, maxTurns, INITIAL, xs, CoordinatorLedger.Watch("", 0, None));
  }

  /**
   In every run, while an opening awaits the narrator, what it has asked for is exactly the first segments of its text,
   in order, up to the one awaited: so a narration that fails or is cancelled there has asked for those and no more.
   */
  lemma OpeningAsksInOrder(ids: Ids, maxTurns: nat, xs: seq<Stimulus>)
    requires var s := CoordinatorEvents.Run(ids, maxTurns, INITIAL, xs);
      s.activity.Some? && s.activity.value.kind.Opening? && s.activity.value.step.AwaitNarrator?
    ensures var a := CoordinatorEvents.Run(ids, maxTurns, INITIAL, xs).activity.value;
      var segments := Narration.NarrationSegments(a.kind.input.narrationText);
      && |a.step.rest| < |segments|
      && TextsAsked(Lines(a.local)) == segments[..|segments| - |a.step.rest|]
      && LineOf(a.local[|a.local| - 1]) == Asks(NarratorRole, segments[|segments| - |a.step.rest| - 1])
  {
    hide TextsAsked, Asked, Paired, Narration.NarrationSegments, Next;
    InRun(ids, maxTurns, xs);
    var a := CoordinatorEvents.Run(ids, maxTurns, INITIAL, xs).activity.value;
    hide CoordinatorEvents.Run;
    var before :| OpeningAt(a, a.kind.input, before);
    BeforeAsksNothing(before, a.kind.input);
    TextsReached(Lines(a.local), before, NarratorRole, Narration.NarrationSegments(a.kind.input.narrationText), a.step.rest);
    assert Lines(a.local)[|a.local| - 1] == LineOf(a.local[|a.local| - 1]);
  }

  lemma NarratorEvents(ids: Ids, s: State, a: Activity, ok: bool, aborted: bool, nextId: string)
    requires a.kind.Opening? && Exclusion.Apt(a) && a.step.AwaitNarrator? && Told(a)
    ensures var s' := NarratorStep(ids, s, a, ok, aborted, nextId);
      var b1 := Emit(ids, Book(s.log, a.local), a.interactionId, Some(a.step.requestedId),
        NarrationReady(a.step.narrationId, a.step.role));
      && (s'.opening == Opened && s.opening != Opened ==> ok && a.step.rest == [] && s'.log == b1.log)
      && (ok && a.step.rest == [] ==> s'.opening == Opened)
      && (!ok ==> s'.activity == None && s'.opening.Retryable?)
  {
    hide Emit, LastId, ValidId, Told, Awaited, Reached, Paired;
  }

  /** The events of the activity together with the one that ends it tell the whole text. */
  ghost predicate WholeTold(told: seq<Event>, input: OpeningInput) {
    && Paired(told)
    && exists before :: WholeAfter(Lines(told), before, input)
  }

  predicate WholeAfter(lines: seq<Line>, before: seq<Line>, input: OpeningInput) {
    && Before(before, input)
    && lines == before + Asked(NarratorRole, Narration.NarrationSegments(input.narrationText))
  }

  /**
   In every run, an opening is done only when all of its text was narrated: when it becomes so, the events of the
   narration that opened it are, after its output if this is the first, one request for each segment of the text, in
   order, each followed by its own answer.
   */
  lemma OpenedIsTold(ids: Ids, maxTurns: nat, xs: seq<Stimulus>, x: Stimulus)
    requires CoordinatorEvents.Run(ids, maxTurns, INITIAL, xs).opening != Opened
    requires Next(ids, maxTurns, CoordinatorEvents.Run(ids, maxTurns, INITIAL, xs), x).opening == Opened
    ensures var s := CoordinatorEvents.Run(ids, maxTurns, INITIAL, xs);
      var s' := Next(ids, maxTurns, s, x);
      && s.activity.Some? && s.activity.value.kind.Opening?
      && |s'.log| == |s.log| + 1
      && WholeTold(s.activity.value.local + [s'.log[|s.log|]], s.activity.value.kind.input)
  {
    hide CoordinatorEvents.Run, Next, Told, WholeTold, NarratorStep;
    InRun(ids, maxTurns, xs);
    var s := CoordinatorEvents.Run(ids, maxTurns, INITIAL, xs);
    OnlyNarratorOpens(ids, maxTurns, s, x);
    var a := s.activity.value;
    NarratorEvents(ids, s, a, x.ok, x.aborted, x.narrationId);
    LastAnswer(ids, s, a);
  }

  lemma LastAnswer(ids: Ids, s: State, a: Activity)
    requires a.kind.Opening? && a.step.AwaitNarrator? && Told(a) && a.step.rest == []
    ensures var b1 := Emit(ids, Book(s.log, a.local), a.interactionId, Some(a.step.requestedId),
        NarrationReady(a.step.narrationId, a.step.role));
      && |b1.log| == |s.log| + 1 && b1.log[..|s.log|] == s.log
      && WholeTold(a.local + [b1.log[|s.log|]], a.kind.input)
  {
    hide Emit, Paired, Awaited, Asked, Lines, Reached, Narration.NarrationSegments;
    var payload := NarrationReady(a.step.narrationId, a.step.role);
    var b1 := Emit(ids, Book(s.log, a.local), a.interactionId, Some(a.step.requestedId), payload);
    var before :| OpeningAt(a, a.kind.input, before);
    var all := Narration.NarrationSegments(a.kind.input.narrationText);
    AnswerPaired(ids, s, a, payload);
    AnsweredReached(a.local, b1.local[|a.local|], before, NarratorRole, all, []);
    assert all[..|all|] == all;
    assert WholeAfter(Lines(b1.local), before, a.kind.input);
  }

  lemma OnlyNarratorOpens(ids: Ids, maxTurns: nat, s: State, x: Stimulus)
    requires Exclusion.Entered(s) && s.opening != Opened && Next(ids, maxTurns, s, x).opening == Opened
    ensures x.NarratorAnswers? && s.activity.Some?
    ensures s.activity.value.kind.Opening? && s.activity.value.step.AwaitNarrator? && Exclusion.Apt(s.activity.value)
    ensures Next(ids, maxTurns, s, x) == NarratorStep(ids, s, s.activity.value, x.ok, x.aborted, x.narrationId)
  {
    hide Continue, Emit, LastId, ValidId, SegmentsOf, ValidTurnInput, Exclusion.Apt;
    if x.GuideAnswers? || x.EngineInspected? || x.EngineAnswers? || x.Checkpointed? || x.NarratorAnswers? {
      var a := s.activity.value;
      Exclusion.ContinueGoesOn(ids, s, a, x);
      OpeningContinues(ids, s, a, x);
    } else {
      hide Narrate, Introduce;
      StartsOpenNothing(ids, s, x);
    }
  }

  lemma OpeningContinues(ids: Ids, s: State, a: Activity, x: Stimulus)
    requires s.activity == Some(a) && a.kind.Opening? && Exclusion.Apt(a)
    ensures Continue(ids, s, a, x).opening == Opened && s.opening != Opened ==>
      x.NarratorAnswers? && a.step.AwaitNarrator?
      && Continue(ids, s, a, x) == NarratorStep(ids, s, a, x.ok, x.aborted, x.narrationId)
  {
    hide Emit, LastId, ValidId, SegmentsOf, NarratorStep;
  }

  lemma StartsOpenNothing(ids: Ids, s: State, x: Stimulus)
    ensures forall a, b, segments, sourceId, narrationId :: s.opening != Opened ==>
      Narrate(ids, s, a, b, NarratorRole, segments, sourceId, OpeningStory, narrationId).opening != Opened
    ensures forall a, b, messages, narrationId :: s.opening != Opened ==>
      Introduce(ids, s, a, b, messages, narrationId).opening != Opened
  {
    hide Emit, LastId, ValidId, SegmentsOf;
  }

  /** All the segments of these messages, in order. */
  function AllSegments(messages: seq<Message>): seq<string> {
    if messages == [] then []
    else AllSegments(messages[..|messages| - 1]) + Narration.NarrationSegments(messages[|messages| - 1].text)
  }

  lemma {:induction false} TextsOfScript(messages: seq<Message>)
    ensures TextsAsked(Script(messages)) == AllSegments(messages)
    decreases |messages|
  {
    hide TextsAsked, Asked, Narration.NarrationSegments;
    if messages == [] {
      NothingTexts();
    } else {
      var init, m := messages[..|messages| - 1], messages[|messages| - 1];
      TextsOfScript(init);
      TextsAskedSnoc(Script(init), Says(m.role, m.text));
      TextsOfAsked(Script(init) + [Says(m.role, m.text)], m.role, Narration.NarrationSegments(m.text));
    }
  }

  lemma NothingTexts()
    ensures TextsAsked([]) == []
  {
  }

  /** Of the introduction, the segments of the messages before and the first of the current one are asked for. */
  predicate AsksInOrder(a: Activity)
    requires a.kind.Introduction? && a.step.AwaitNarrator?
  {
    && a.step.purpose.Introducing? && |a.step.purpose.rest| < |a.kind.messages|
    && var j := |a.kind.messages| - |a.step.purpose.rest| - 1;
      var segments := Narration.NarrationSegments(a.kind.messages[j].text);
      && a.step.role == a.kind.messages[j].role && |a.step.rest| < |segments| && a.local != []
      && TextsAsked(Lines(a.local)) == AllSegments(a.kind.messages[..j]) + segments[..|segments| - |a.step.rest|]
      && LineOf(a.local[|a.local| - 1]) == Asks(a.step.role, segments[|segments| - |a.step.rest| - 1])
  }

  /**
   In every run, while an introduction awaits the narrator, it has asked for all segments of the messages before, and
   for exactly the first segments of the current one up to the one awaited.
   */
  lemma IntroductionAsksInOrder(ids: Ids, maxTurns: nat, xs: seq<Stimulus>)
    requires var s := CoordinatorEvents.Run(ids, maxTurns, INITIAL, xs);
      s.activity.Some? && s.activity.value.kind.Introduction? && s.activity.value.step.AwaitNarrator?
    ensures AsksInOrder(CoordinatorEvents.Run(ids, maxTurns, INITIAL, xs).activity.value)
  {
    hide TextsAsked, Asked, Paired, Script, AllSegments, Narration.NarrationSegments, Next;
    InRun(ids, maxTurns, xs);
    var a := CoordinatorEvents.Run(ids, maxTurns, INITIAL, xs).activity.value;
    hide CoordinatorEvents.Run;
    var j := |a.kind.messages| - |a.step.purpose.rest| - 1;
    var m := a.kind.messages[j];
    TextsReached(Lines(a.local), Script(a.kind.messages[..j]) + [Says(m.role, m.text)], m.role,
      Narration.NarrationSegments(m.text), a.step.rest);
    TextsAskedSnoc(Script(a.kind.messages[..j]), Says(m.role, m.text));
    TextsOfScript(a.kind.messages[..j]);
    assert Lines(a.local)[|a.local| - 1] == LineOf(a.local[|a.local| - 1]);
  }

  /** The messages are all narrated, or all in front of one that has no sentence to narrate, which is said. */
  ghost predicate AllSaid(lines: seq<Line>, messages: seq<Message>) {
    lines == Script(messages) || exists j: nat :: Stops(lines, messages, j)
  }

  predicate Stops(lines: seq<Line>, messages: seq<Message>, j: nat) {
    && j < |messages| && Narration.NarrationSegments(messages[j].text) == []
    && lines == Script(messages[..j]) + [Says(messages[j].role, messages[j].text)]
  }

  lemma IntroduceEnds(ids: Ids, s: State, a: Activity, b: Book, messages: seq<Message>, narrationId: string)
    requires a.kind.Introduction?
    ensures var s' := Introduce(ids, s, a, b, messages, narrationId);
      s'.introduced && !s.introduced ==>
        if messages == [] then s'.log == b.log
        else
          var m := messages[0];
          && Narration.NarrationSegments(m.text) == []
          && s'.log == Emit(ids, b, a.interactionId, None, RoleIntroduction(m.role, m.text)).log
  {
    hide Emit, LastId, ValidId, Narration.NarrationSegments;
  }

  /**
   In every run, an introduction that ends on an answer of the narrator has said and narrated all its messages, unless it
   came to one without a sentence.
   */
  lemma IntroducedIsTold(ids: Ids, maxTurns: nat, xs: seq<Stimulus>, aborted: bool, nextId: string)
    requires var s := CoordinatorEvents.Run(ids, maxTurns, INITIAL, xs);
      var s' := Next(ids, maxTurns, s, NarratorAnswers(true, aborted, nextId));
      !s.introduced && s'.introduced
    ensures var s := CoordinatorEvents.Run(ids, maxTurns, INITIAL, xs);
      var s' := Next(ids, maxTurns, s, NarratorAnswers(true, aborted, nextId));
      && s.activity.Some? && s.activity.value.kind.Introduction? && s.log <= s'.log
      && AllSaid(Lines(s.activity.value.local + s'.log[|s.log|..]), s.activity.value.kind.messages)
  {
    hide CoordinatorEvents.Run, Next, Told, AllSaid, NarratorStep, Lines;
    InRun(ids, maxTurns, xs);
    var s := CoordinatorEvents.Run(ids, maxTurns, INITIAL, xs);
    OnlyNarratorIntroduces(ids, maxTurns, s, aborted, nextId);
    IntroductionEnds(ids, s, s.activity.value, aborted, nextId);
  }

  lemma OnlyNarratorIntroduces(ids: Ids, maxTurns: nat, s: State, aborted: bool, nextId: string)
    requires Exclusion.Entered(s) && !s.introduced && Next(ids, maxTurns, s, NarratorAnswers(true, aborted, nextId)).introduced
    ensures s.activity.Some? && s.activity.value.kind.Introduction? && s.activity.value.step.AwaitNarrator?
    ensures Next(ids, maxTurns, s, NarratorAnswers(true, aborted, nextId)) ==
      NarratorStep(ids, s, s.activity.value, true, aborted, nextId)
  {
    hide Emit, LastId, ValidId, RequestOf;
  }

  lemma IntroductionEnds(ids: Ids, s: State, a: Activity, aborted: bool, nextId: string)
    requires a.kind.Introduction? && a.step.AwaitNarrator? && Told(a) && !s.introduced
    requires NarratorStep(ids, s, a, true, aborted, nextId).introduced
    ensures var s' := NarratorStep(ids, s, a, true, aborted, nextId);
      && s.log <= s'.log
      && AllSaid(Lines(a.local + s'.log[|s.log|..]), a.kind.messages)
  {
    hide LastId, ValidId, Paired, Awaited, Asked, Script, Lines, Reached, Narration.NarrationSegments, AllTold, Introduce,
      Emit;
    var s' := NarratorStep(ids, s, a, true, aborted, nextId);
    var messages, later := a.kind.messages, a.step.purpose.rest;
    var payload := NarrationReady(a.step.narrationId, a.step.role);
    var b1 := Emit(ids, Book(s.log, a.local), a.interactionId, Some(a.step.requestedId), payload);
    IntroductionAnswered(ids, s, a, messages, nextId);
    AnswerPaired(ids, s, a, payload);
    if a.step.rest == [] {
      IntroduceEnds(ids, s, a, b1, later, nextId);
      if later == [] {
        assert messages[..|messages|] == messages;
        assert s'.log[|s.log|..] == [b1.local[|a.local|]];
      } else {
        var m, j := later[0], |messages| - |later|;
        Said(ids, b1, a.interactionId, m);
        var b2 := Emit(ids, b1, a.interactionId, None, RoleIntroduction(m.role, m.text));
        Appended(ids, b1, a.interactionId, None, RoleIntroduction(m.role, m.text));
        assert s'.log[|s.log|..] == b2.local[|a.local|..];
        assert a.local + s'.log[|s.log|..] == b2.local;
        assert messages[j] == m;
        assert Stops(Lines(b2.local), messages, j);
      }
    }
  }

  lemma Appended(ids: Ids, b: Book, id: string, cause: Option<string>, payload: Payload)
    ensures var b1 := Emit(ids, b, id, cause, payload);
      var e := NextEvent(ids, b, id, cause, payload);
      b1.log == b.log + [e] && b1.local == b.local + [e]
  {
  }

  /**
   In every run, a turn that awaits the narrator has asked for one thing: what the guide said last, or the whole output
   of the engine.
   */
  lemma TurnAsksOnce(ids: Ids, maxTurns: nat, xs: seq<Stimulus>)
    requires var s := CoordinatorEvents.Run(ids, maxTurns, INITIAL, xs);
      s.activity.Some? && CoordinatorLedger.ForTurn(s.activity.value.kind) && s.activity.value.step.AwaitNarrator?
    ensures TurnTold(CoordinatorEvents.Run(ids, maxTurns, INITIAL, xs).activity.value)
  {
    hide CoordinatorEvents.Run, TurnTold, OpeningTold, IntroductionTold;
    InRun(ids, maxTurns, xs);
  }

  /** A narration that fails or is cancelled ends at once: its failure is recorded, and nothing more is asked for. */
  lemma FailureAsksNothing(ids: Ids, maxTurns: nat, xs: seq<Stimulus>, aborted: bool, nextId: string)
    requires var s := CoordinatorEvents.Run(ids, maxTurns, INITIAL, xs);
      s.activity.Some? && s.activity.value.step.AwaitNarrator?
    ensures var s := CoordinatorEvents.Run(ids, maxTurns, INITIAL, xs);
      var s' := Next(ids, maxTurns, s, NarratorAnswers(false, aborted, nextId));
      var n := |s.log|;
      && s'.activity == None && |s'.log| == n + (if aborted then 1 else 2) && s'.log[..n] == s.log
      && (aborted ==>
        s'.log[n].payload == NarrationCancelled(s.activity.value.step.narrationId, s.activity.value.step.role))
      && (!aborted ==>
        && s'.log[n].payload == NarrationFailed(s.activity.value.step.narrationId, s.activity.value.step.role)
        && s'.log[n + 1].payload == SystemError("narration-failed"))
      && s'.log[n].causationId == Some(s.activity.value.step.requestedId)
      && (s.activity.value.kind.Opening? ==> s'.opening.Retryable?)
  {
    hide CoordinatorEvents.Run, Told, NarratorStep, Exclusion.Apt, Exclusion.Entered;
    InRun(ids, maxTurns, xs);
    var s := CoordinatorEvents.Run(ids, maxTurns, INITIAL, xs);
    var a := s.activity.value;
    Exclusion.IsApt(s);
    FailureStep(ids, s, a, aborted, nextId);
  }

  lemma FailureStep(ids: Ids, s: State, a: Activity, aborted: bool, nextId: string)
    requires s.activity == Some(a) && Exclusion.Apt(a) && a.step.AwaitNarrator?
    ensures var s' := NarratorStep(ids, s, a, false, aborted, nextId);
      var n := |s.log|;
      && s'.activity == None && |s'.log| == n + (if aborted then 1 else 2) && s'.log[..n] == s.log
      && (aborted ==> s'.log[n].payload == NarrationCancelled(a.step.narrationId, a.step.role))
      && (!aborted ==>
        && s'.log[n].payload == NarrationFailed(a.step.narrationId, a.step.role)
        && s'.log[n + 1].payload == SystemError("narration-failed"))
      && s'.log[n].causationId == Some(a.step.requestedId)
      && (a.kind.Opening? ==> s'.opening.Retryable?)
  {
    hide Emit, LastId, NextEvent, Exclusion.Apt;
    var b := Book(s.log, a.local);
    var payload := if aborted then NarrationCancelled(a.step.narrationId, a.step.role)
      else NarrationFailed(a.step.narrationId, a.step.role);
    var b1 := Emit(ids, b, a.interactionId, Some(a.step.requestedId), payload);
    Appended(ids, b, a.interactionId, Some(a.step.requestedId), payload);
    Appended(ids, b1, a.interactionId, Some(LastId(b1)), SystemError("narration-failed"));
    EventSays(ids, b, a.interactionId, Some(a.step.requestedId), payload);
    EventSays(ids, b1, a.interactionId, Some(LastId(b1)), SystemError("narration-failed"));
    if a.kind.Opening? {
      AptPurpose(a);
    }
    NarratedLog(ids, s, a, b1, a.step.purpose, a.step.sourceId);
    NarratedLog(ids, s, a, Emit(ids, b1, a.interactionId, Some(LastId(b1)), SystemError("narration-failed")),
      a.step.purpose, a.step.sourceId);
    hide Narrated;
  }

  lemma AptPurpose(a: Activity)
    requires Exclusion.Apt(a) && a.step.AwaitNarrator? && a.kind.Opening?
    ensures a.step.purpose == OpeningStory
  {
  }

  lemma EventSays(ids: Ids, b: Book, id: string, cause: Option<string>, payload: Payload)
    ensures var e := NextEvent(ids, b, id, cause, payload);
      e.payload == payload && e.causationId == cause
  {
  }

  lemma NarratedLog(ids: Ids, s: State, a: Activity, b: Book, purpose: Purpose, sourceId: string)
    ensures forall outcome ::
      var s' := Narrated(ids, s, a, b, outcome, purpose, sourceId);
      && s'.log == b.log && s'.activity == None
      && (purpose == OpeningStory && outcome != ReadyNarration ==> s'.opening.Retryable?)
  {
  }
}
