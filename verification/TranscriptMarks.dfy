/**
 What the transcript tells of each event, case by case: whose line it is, how far
 its delivery has come, and how far the start of the story has.
 */
module TranscriptMarks {
  import opened Wrappers
  import opened EventLog
  import opened Projection

  // Lines

  /** The event adds this line, said by this speaker. */
  predicate Says(p: Payload, speaker: Speaker, text: string) {
    || (p == TranscriptFinal(text) && speaker == Player)
    || (p == RoleIntroduction(GuideRole, text) && speaker == Guide)
    || (p == RoleIntroduction(NarratorRole, text) && speaker == Narrator)
    || (p == Clarification(text) && speaker == Guide)
    || (p == Explanation(text) && speaker == Guide)
    || (p == CannotComply(text) && speaker == Guide)
    || (p.CommandRequested? && p.command == text && speaker == System)
    || (p.EngineOutput? && p.text == text && speaker == Game)
    || (p.SystemError? && text == "Error: " + p.code && speaker == System)
  }

  lemma SaysIff(p: Payload, speaker: Speaker, text: string)
    ensures Introduces(p) == Some((speaker, text)) <==> Says(p, speaker, text)
  {
  }

  /** An event that says something adds that line at the end, complete; the window drops its first line for it if full. */
  lemma AddsLine(s: State, e: Event, speaker: Speaker, text: string)
    requires e.sequence > s.throughSequence && Says(e.payload, speaker, text)
    ensures Reduce(s, e).Some?
    ensures Reduce(s, e).value.transcript ==
      (if |s.transcript| < 128 then s.transcript else s.transcript[|s.transcript| - 127..])
      + [Item(e.id, e.sequence, [e.id], e.sequence, speaker, text, Complete)]
  {
    SaysIff(e.payload, speaker, text);
  }

  // Deliveries

  /** The event of the request that story start's narration is under. */
  predicate StartRequest(s: State, narrationId: string, requestedId: string) {
    s.phase == StoryStarting && s.source.Some? && s.source.value.narration == Some((narrationId, requestedId))
  }

  /** The event ends the narration of the story start before it is played. */
  predicate BreaksStart(s: State, e: Event, narrationId: string) {
    && e.causationId.Some? && StartRequest(s, narrationId, e.causationId.value)
    && e.correlationId == s.source.value.correlationId
  }

  /** The event is about the lines that refer to this source, and marks them so. */
  predicate MarksAs(s: State, e: Event, source: string, delivery: Delivery) {
    match e.payload
    case NarrationRequested(_, _, _, sourceEventId) => sourceEventId == source && delivery == Pending
    case PlaybackStarted(_, _, sourceEventId) => sourceEventId == source && delivery == Speaking
    case PlaybackEnded(_, _, outcome) =>
      && e.causationId == Some(source)
      && (outcome == PlayedThrough ==> delivery == Complete)
      && (outcome == PlaybackInterrupted ==> delivery == Interrupted)
      && (outcome == PlaybackFailed ==> delivery == Failed)
    case NarrationCancelled(narrationId, NarratorRole) =>
      BreaksStart(s, e, narrationId) && e.causationId == Some(source) && delivery == Interrupted
    case NarrationFailed(narrationId, NarratorRole) =>
      BreaksStart(s, e, narrationId) && e.causationId == Some(source) && delivery == Failed
    case _ => false
  }

  /**
   An event that marks a source marks exactly the lines that refer to it, in place: the line keeps its words, refers to
   the event too, and reaches as far as the event.
   */
  lemma MarksLines(s: State, e: Event, source: string, delivery: Delivery)
    requires e.sequence > s.throughSequence && MarksAs(s, e, source, delivery)
    ensures Reduce(s, e).Some?
    ensures var items := Reduce(s, e).value.transcript;
      && |items| == |s.transcript|
      && forall i :: 0 <= i < |items| ==>
        if source in s.transcript[i].sourceEventIds then
          && items[i].delivery == delivery && items[i].throughSequence == e.sequence
          && items[i].id == s.transcript[i].id && items[i].introducedAt == s.transcript[i].introducedAt
          && items[i].speaker == s.transcript[i].speaker && items[i].text == s.transcript[i].text
          && items[i].sourceEventIds[|items[i].sourceEventIds| - 1] == e.id
          && items[i].sourceEventIds[0] == s.transcript[i].sourceEventIds[0]
        else items[i] == s.transcript[i]
  {
  }

  ghost predicate Marks(s: State, e: Event) {
    exists source, delivery :: MarksAs(s, e, source, delivery)
  }

  /** Every other event leaves all lines as they are. */
  lemma OthersMarkNothing(s: State, e: Event)
    requires e.sequence > s.throughSequence && Introduces(e.payload) == None && !Marks(s, e)
    ensures Reduce(s, e).Some? && Reduce(s, e).value.transcript == s.transcript
  {
    match e.payload {
      case NarrationRequested(_, _, _, source) => assert MarksAs(s, e, source, Pending);
      case PlaybackStarted(_, _, source) => assert MarksAs(s, e, source, Speaking);
      case PlaybackEnded(_, _, outcome) =>
        if e.causationId.Some? {
          assert MarksAs(s, e, e.causationId.value, OutcomeDelivery(outcome));
        }
      case NarrationCancelled(narrationId, role) =>
        if EndsStartNarration(s, e, narrationId, role) {
          assert MarksAs(s, e, e.causationId.value, Interrupted);
        }
      case NarrationFailed(narrationId, role) =>
        if EndsStartNarration(s, e, narrationId, role) {
          assert MarksAs(s, e, e.causationId.value, Failed);
        }
      case _ =>
    }
  }

  // The start of the story

  predicate OpensStory(e: Event) {
    e.payload.EngineOutput? && e.payload.revision == 0
  }

  /** The first output of the boot in the log. */
  function FirstOpening(log: seq<Event>): Option<Event> {
    if log == [] then None else if OpensStory(log[0]) then Some(log[0]) else FirstOpening(log[1..])
  }

  lemma {:induction false} FirstOpeningSnoc(log: seq<Event>, e: Event)
    ensures FirstOpening(log + [e]) ==
      if FirstOpening(log).Some? then FirstOpening(log) else if OpensStory(e) then Some(e) else None
  {
    if log == [] {
      assert [] + [e] == [e];
      assert [e][1..] == [];
    } else {
      assert (log + [e])[1..] == log[1..] + [e];
      FirstOpeningSnoc(log[1..], e);
    }
  }

  predicate StartsFrom(s: State, first: Option<Event>) {
    && (s.phase == StoryReady <==> first == None) && (s.phase == StoryReady <==> s.source == None)
    && (s.source.Some? && first.Some? ==>
      && s.source.value.outputEventId == first.value.id && s.source.value.correlationId == first.value.correlationId)
  }

  lemma StartStep(s: State, first: Option<Event>, e: Event)
    requires e.sequence > s.throughSequence && StartsFrom(s, first)
    ensures Reduce(s, e).Some?
    ensures StartsFrom(Reduce(s, e).value, if first.Some? then first else if OpensStory(e) then Some(e) else None)
  {
    hide TranscriptAfter, AppendBounded;
  }

  /** Over any ordered log, the story start is under way or over exactly from the first output of the boot on, and is its. */
  lemma {:induction false} StartsWithBoot(log: seq<Event>)
    requires Ordered(log)
    ensures Project(log).Some? && StartsFrom(Project(log).value, FirstOpening(log))
  {
    hide Reduce, StartsFrom, FirstOpening;
    ProjectWindow(log);
    if log == [] {
      NotOpened();
    } else {
      var init, last := log[..|log| - 1], log[|log| - 1];
      StartsWithBoot(init);
      FirstOpeningSnoc(init, last);
      assert log == init + [last];
      ProjectWindow(init);
      StartStep(Project(init).value, FirstOpening(init), last);
    }
  }

  lemma NotOpened()
    ensures StartsFrom(INITIAL, FirstOpening([]))
  {
  }

  /**
   The start is over exactly when its own narration ends: cancelled or failed at its request, or played from its output
   to whatever outcome. It is over for good.
   */
  lemma StartEnds(s: State, e: Event)
    requires e.sequence > s.throughSequence && s.phase != StoryReady
    ensures Reduce(s, e).Some?
    ensures Reduce(s, e).value.phase == StoryStarted <==>
      || s.phase == StoryStarted
      || (e.payload.NarrationCancelled? && e.payload.role == NarratorRole && BreaksStart(s, e, e.payload.narrationId))
      || (e.payload.NarrationFailed? && e.payload.role == NarratorRole && BreaksStart(s, e, e.payload.narrationId))
      || (e.payload.PlaybackEnded? && e.payload.role == NarratorRole
        && s.source.Some? && s.source.value.narration.Some?
        && s.source.value.narration.value.0 == e.payload.narrationId
        && e.correlationId == s.source.value.correlationId && e.causationId == Some(s.source.value.outputEventId))
  {
  }

  /** The narration of the start is the one last requested for its output, within its interaction, of the narrator. */
  lemma StartRequested(s: State, e: Event)
    requires e.sequence > s.throughSequence && s.phase != StoryReady && s.source.Some?
    ensures Reduce(s, e).Some? && Reduce(s, e).value.source.Some?
    ensures Reduce(s, e).value.source.value.narration ==
      if e.payload.NarrationRequested? && s.phase == StoryStarting && e.payload.role == NarratorRole
        && e.correlationId == s.source.value.correlationId && e.payload.sourceEventId == s.source.value.outputEventId
      then Some((e.payload.narrationId, e.id)) else s.source.value.narration
  {
  }

  // References

  function Ids(log: seq<Event>): seq<string> {
    seq(|log|, i requires 0 <= i < |log| => log[i].id)
  }

  function Numbered(log: seq<Event>): seq<(string, nat)> {
    seq(|log|, i requires 0 <= i < |log| => (log[i].id, log[i].sequence))
  }

  /** The projection refers to exactly the latest 256 events of the log, and so does its debug view. */
  lemma {:induction false} RefersToLatest(log: seq<Event>)
    requires Ordered(log)
    ensures Project(log).Some?
    ensures Project(log).value.sourceEventIds == Latest(Ids(log), 256)
    ensures Project(log).value.debug == Latest(Numbered(log), 256)
  {
    hide TranscriptAfter, StoryAfter, Latest, AppendBounded;
    ProjectWindow(log);
    if log == [] {
      NothingLatest();
    } else {
      var init, last := log[..|log| - 1], log[|log| - 1];
      RefersToLatest(init);
      assert Ids(log) == Ids(init) + [last.id];
      assert Numbered(log) == Numbered(init) + [(last.id, last.sequence)];
      AppendIsLatest(Ids(init), last.id, 256);
      AppendIsLatest(Numbered(init), (last.id, last.sequence), 256);
    }
  }

  lemma NothingLatest()
    ensures Latest<string>([], 256) == [] && Latest<(string, nat)>([], 256) == []
    ensures Ids([]) == [] && Numbered([]) == []
  {
  }

  /** The references that a line keeps: all of them, or the first and the latest 255. */
  function References(values: seq<string>): seq<string> {
    if |values| <= 256 then values else [values[0]] + Latest(values[1..], 255)
  }

  lemma AppendSourceIsReferences(values: seq<string>, value: string)
    ensures AppendSource(References(values), value) == References(values + [value])
  {
    if |values| > 256 {
      assert (values + [value])[1..] == values[1..] + [value];
    } else if |values| == 256 {
      assert (values + [value])[1..] == values[1..] + [value];
    }
  }
}
