/**
 The experience projection, as far as the transcript goes: the bounded windows
 and the story start that decides on some delivery marks.
 */
module Projection {
  import opened Wrappers
  import opened EventLog

  const TRANSCRIPT_LIMIT: nat := 128
  const DEBUG_LIMIT: nat := 256
  const SOURCE_EVENT_LIMIT: nat := 256

  datatype Delivery = Pending | Speaking | Interrupted | Complete | Failed

  datatype Speaker = Player | Guide | Narrator | Game | System

  datatype Item = Item(
    id: string, introducedAt: nat, sourceEventIds: seq<string>, throughSequence: nat,
    speaker: Speaker, text: string, delivery: Delivery)

  datatype Phase = StoryReady | StoryStarting | StoryStarted

  datatype StorySource = StorySource(outputEventId: string, correlationId: string, narration: Option<(string, string)>)

  datatype State = State(
    phase: Phase, source: Option<StorySource>,
    throughSequence: nat, sourceEventIds: seq<string>, transcript: seq<Item>, debug: seq<(string, nat)>)

  const INITIAL: State := State(StoryReady, None, 0, [], [], [])

  function AppendBounded<T>(values: seq<T>, value: T, limit: nat): (r: seq<T>)
    requires limit > 0
  {
    if |values| < limit then values + [value] else values[|values| - limit + 1..] + [value]
  }

  /** Keeps the first reference and the latest ones. */
  function AppendSource(values: seq<string>, value: string): (r: seq<string>)
    ensures r != [] && r[|r| - 1] == value
    ensures values != [] ==> r[0] == values[0]
    ensures |values| <= SOURCE_EVENT_LIMIT ==> |r| <= SOURCE_EVENT_LIMIT
  {
    if |values| < SOURCE_EVENT_LIMIT then values + [value]
    else [values[0]] + values[|values| - SOURCE_EVENT_LIMIT + 2..] + [value]
  }

  function SpeakerOf(role: Role): Speaker {
    if role == GuideRole then Guide else Narrator
  }

  /** The transcript line that an event introduces, if it introduces one. */
  function Introduces(p: Payload): Option<(Speaker, string)> {
    match p
    case TranscriptFinal(text) => Some((Player, text))
    case RoleIntroduction(role, text) => Some((SpeakerOf(role), text))
    case Clarification(text) => Some((Guide, text))
    case Explanation(text) => Some((Guide, text))
    case CannotComply(text) => Some((Guide, text))
    case CommandRequested(_, _, command) => Some((System, command))
    case EngineOutput(_, text) => Some((Game, text))
    case SystemError(code) => Some((System, "Error: " + code))
    case _ => None
  }

  function ItemOf(e: Event, line: (Speaker, string)): Item {
    Item(e.id, e.sequence, [e.id], e.sequence, line.0, line.1, Complete)
  }

  function Deliver(item: Item, sourceEventId: string, delivery: Delivery, e: Event): Item {
    if sourceEventId in item.sourceEventIds then
      item.(sourceEventIds := AppendSource(item.sourceEventIds, e.id), throughSequence := e.sequence, delivery := delivery)
    else item
  }

  function UpdateDelivery(items: seq<Item>, sourceEventId: string, delivery: Delivery, e: Event): (r: seq<Item>)
    ensures |r| == |items|
    ensures forall i :: 0 <= i < |items| ==> r[i] == Deliver(items[i], sourceEventId, delivery, e)
  {
    seq(|items|, i requires 0 <= i < |items| => Deliver(items[i], sourceEventId, delivery, e))
  }

  predicate NarratesStart(s: State, e: Event, narrationId: string, role: Role) {
    && s.phase == StoryStarting && s.source.Some? && role == NarratorRole
    && e.correlationId == s.source.value.correlationId
    && s.source.value.narration.Some? && narrationId == s.source.value.narration.value.0
  }

  /** The cancelled or failed narration is the one of the story start. */
  predicate EndsStartNarration(s: State, e: Event, narrationId: string, role: Role) {
    NarratesStart(s, e, narrationId, role) && e.causationId == Some(s.source.value.narration.value.1)
  }

  predicate EndsStartPlayback(s: State, e: Event, narrationId: string, role: Role) {
    NarratesStart(s, e, narrationId, role) && e.causationId == Some(s.source.value.outputEventId)
  }

  function OutcomeDelivery(o: PlaybackOutcome): Delivery {
    match o
    case PlayedThrough => Complete
    case PlaybackInterrupted => Interrupted
    case PlaybackFailed => Failed
  }

  function TranscriptAfter(s: State, e: Event): seq<Item> {
    match e.payload
    case NarrationCancelled(narrationId, role) =>
      if EndsStartNarration(s, e, narrationId, role)
      then UpdateDelivery(s.transcript, e.causationId.value, Interrupted, e) else s.transcript
    case NarrationFailed(narrationId, role) =>
      if EndsStartNarration(s, e, narrationId, role)
      then UpdateDelivery(s.transcript, e.causationId.value, Failed, e) else s.transcript
    case NarrationRequested(_, _, _, sourceEventId) => UpdateDelivery(s.transcript, sourceEventId, Pending, e)
    case PlaybackStarted(_, _, sourceEventId) => UpdateDelivery(s.transcript, sourceEventId, Speaking, e)
    case PlaybackEnded(_, _, outcome) =>
      if e.causationId.Some? then UpdateDelivery(s.transcript, e.causationId.value, OutcomeDelivery(outcome), e)
      else s.transcript
    case _ =>
      match Introduces(e.payload)
      case Some(line) => AppendBounded(s.transcript, ItemOf(e, line), TRANSCRIPT_LIMIT)
      case None => s.transcript
  }

  function StoryAfter(s: State, e: Event): (Phase, Option<StorySource>) {
    match e.payload
    case EngineOutput(revision, _) =>
      if revision == 0 && s.phase == StoryReady then (StoryStarting, Some(StorySource(e.id, e.correlationId, None)))
      else (s.phase, s.source)
    case NarrationRequested(narrationId, role, _, sourceEventId) =>
      if s.phase == StoryStarting && s.source.Some? && role == NarratorRole
        && e.correlationId == s.source.value.correlationId && sourceEventId == s.source.value.outputEventId
      then (s.phase, Some(s.source.value.(narration := Some((narrationId, e.id)))))
      else (s.phase, s.source)
    case NarrationCancelled(narrationId, role) =>
      (if EndsStartNarration(s, e, narrationId, role) then StoryStarted else s.phase, s.source)
    case NarrationFailed(narrationId, role) =>
      (if EndsStartNarration(s, e, narrationId, role) then StoryStarted else s.phase, s.source)
    case PlaybackEnded(narrationId, role, _) =>
      (if EndsStartPlayback(s, e, narrationId, role) then StoryStarted else s.phase, s.source)
    case _ => (s.phase, s.source)
  }

  /** `None` is the error for events out of order. */
  function Reduce(s: State, e: Event): Option<State> {
    if e.sequence <= s.throughSequence then None
    else
      var (phase, source) := StoryAfter(s, e);
      Some(State(
        phase, source, e.sequence,
        AppendBounded(s.sourceEventIds, e.id, SOURCE_EVENT_LIMIT),
        TranscriptAfter(s, e),
        AppendBounded(s.debug, (e.id, e.sequence), DEBUG_LIMIT)))
  }

  function Project(log: seq<Event>): Option<State> {
    if log == [] then Some(INITIAL)
    else
      var s :- Project(log[..|log| - 1]);
      Reduce(s, log[|log| - 1])
  }

  predicate Ordered(log: seq<Event>) {
    && (forall i :: 0 <= i < |log| ==> log[i].sequence > 0)
    && (forall i, j :: 0 <= i < j < |log| ==> log[i].sequence < log[j].sequence)
  }

  /** The events that introduce a transcript line. */
  function Lines(log: seq<Event>): (r: seq<Event>)
    ensures |r| <= |log|
  {
    if log == [] then []
    else
      var last := log[|log| - 1];
      Lines(log[..|log| - 1]) + if Introduces(last.payload).Some? then [last] else []
  }

  function Latest<T>(values: seq<T>, limit: nat): seq<T> {
    if |values| <= limit then values else values[|values| - limit..]
  }

  /** The items stand for these events: same ids, same positions, and said by whom they say, word for word. */
  predicate StandsFor(items: seq<Item>, lines: seq<Event>) {
    |items| == |lines| && forall i :: 0 <= i < |items| ==>
      && items[i].id == lines[i].id && items[i].introducedAt == lines[i].sequence && items[i].sourceEventIds != []
      && Introduces(lines[i].payload) == Some((items[i].speaker, items[i].text))
  }

  /** An append to a full window drops just the oldest value. */
  lemma AppendIsLatest<T>(values: seq<T>, value: T, limit: nat)
    requires limit > 0
    ensures AppendBounded(Latest(values, limit), value, limit) == Latest(values + [value], limit)
  {
  }

  lemma TranscriptStandsFor(s: State, e: Event, lines: seq<Event>)
    requires StandsFor(s.transcript, Latest(lines, TRANSCRIPT_LIMIT))
    ensures StandsFor(
      TranscriptAfter(s, e),
      Latest(lines + (if Introduces(e.payload).Some? then [e] else []), TRANSCRIPT_LIMIT))
  {
    if Introduces(e.payload).Some? {
      AppendIsLatest(lines, e, TRANSCRIPT_LIMIT);
    } else {
      assert lines + [] == lines;
    }
  }

  lemma {:induction false} LinesSubset(log: seq<Event>)
    ensures forall e :: e in Lines(log) <==> e in log && Introduces(e.payload).Some?
  {
    if log != [] {
      var init, last := log[..|log| - 1], log[|log| - 1];
      assert log == init + [last];
      LinesSubset(init);
    }
  }

  /**
   On an ordered log the ordering check never fires, and the transcript window is exactly the latest 128 lines of the
   log, with their speakers and texts, in order, whatever deliveries were marked on them meanwhile.
   */
  lemma {:induction false} ProjectWindow(log: seq<Event>)
    requires Ordered(log)
    ensures Project(log).Some?
    ensures StandsFor(Project(log).value.transcript, Latest(Lines(log), TRANSCRIPT_LIMIT))
    ensures Project(log).value.throughSequence == if log == [] then 0 else log[|log| - 1].sequence
  {
    hide TranscriptAfter, StoryAfter, StandsFor, Latest;
    if log != [] {
      var init, last := log[..|log| - 1], log[|log| - 1];
      ProjectWindow(init);
      TranscriptStandsFor(Project(init).value, last, Lines(init));
    } else {
      assert StandsFor([], Latest(Lines([]), TRANSCRIPT_LIMIT)) by {
        EmptyStandsFor();
      }
    }
  }

  lemma EmptyStandsFor()
    ensures StandsFor([], Latest([], TRANSCRIPT_LIMIT))
  {
  }
}
