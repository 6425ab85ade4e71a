/** Semantic events and the allocator of their sequence numbers. */
module EventLog {
  import opened Wrappers
  import opened Bytes

  datatype Role = GuideRole | NarratorRole

  datatype PlaybackOutcome = PlayedThrough | PlaybackInterrupted | PlaybackFailed

  /** What an event says, as far as anything downstream looks at it. */
  datatype Payload =
    | CaptureStarted
    | CaptureEnded
    | SessionPaused
    | SessionResumed
    | TranscriptFinal(text: string)
    | RoleIntroduction(introduced: Role, text: string)
    | DecisionProposed
    | DecisionRejected
    | DecisionAccepted
    | Clarification(text: string)
    | Explanation(text: string)
    | CannotComply(text: string)
    | CommandRequested(requestId: string, revision: nat, command: string)
    | CommandCommitted(requestId: string, revision: nat, command: string)
    | CommandRejected(requestId: string, revision: nat, command: string)
    | EngineOutput(revision: nat, text: string)
    | SystemError(code: string)
    | SystemRecovered(requestId: string)
    | SaveCheckpointed
    | SaveFailed
    | NarrationRequested(narrationId: string, role: Role, text: string, sourceEventId: string)
    | NarrationReady(narrationId: string, role: Role)
    | NarrationCancelled(narrationId: string, role: Role)
    | NarrationFailed(narrationId: string, role: Role)
    | PlaybackStarted(narrationId: string, role: Role, sourceEventId: string)
    | PlaybackEnded(narrationId: string, role: Role, outcome: PlaybackOutcome)

  datatype Draft = Draft(correlationId: string, causationId: Option<string>, payload: Payload)

  datatype Event = Event(
    id: string, sequence: nat, correlationId: string, causationId: Option<string>, payload: Payload)

  predicate ValidDraft(d: Draft) {
    d.correlationId != "" && d.causationId != Some("")
  }

  function EventOf(d: Draft, id: string, sequence: nat): Event {
    Event(id, sequence, d.correlationId, d.causationId, d.payload)
  }

  /** What the generators give for one append: an id, and a clock reading that makes a valid envelope or not. */
  datatype Supply = Supply(id: string, stamped: bool)

  predicate Usable(s: Supply) {
    s.id != "" && s.stamped
  }

  /** `None` is a thrown error; it uses up no number. */
  function Appended(next: Option<nat>, d: Draft, s: Supply): (Option<nat>, Option<Event>) {
    if next == None || !ValidDraft(d) || !Usable(s) then (next, None)
    else
      (if next.value >= MAX_SAFE then None else Some(next.value + 1), Some(EventOf(d, s.id, next.value)))
  }

  /** The log that appends one after another leave, whether or not some of them fail. */
  function AppendAll(next: Option<nat>, ds: seq<(Draft, Supply)>): (Option<nat>, seq<Event>) {
    if ds == [] then (next, [])
    else
      var (before, log) := AppendAll(next, ds[..|ds| - 1]);
      var (after, event) := Appended(before, ds[|ds| - 1].0, ds[|ds| - 1].1);
      (after, if event.Some? then log + [event.value] else log)
  }

  predicate Contiguous(log: seq<Event>, first: nat) {
    forall i :: 0 <= i < |log| ==> log[i].sequence == first + i
  }

  /**
   The allocator is gap-free: whatever fails on the way, the events that were appended carry consecutive numbers from
   the first one on, and the next number is the one after the last of them.
   */
  lemma {:induction false} GapFree(first: nat, ds: seq<(Draft, Supply)>)
    requires 1 <= first <= MAX_SAFE
    ensures var (next, log) := AppendAll(Some(first), ds);
      && Contiguous(log, first) && first + |log| <= MAX_SAFE + 1
      && next == if first + |log| <= MAX_SAFE then Some(first + |log|) else None
  {
    if ds != [] {
      GapFree(first, ds[..|ds| - 1]);
    }
  }

  /**
   An append succeeds exactly with a number left, an id, a time, and an interaction and a cause that are not blank. The
   event is then the draft, under the next number.
   */
  lemma AppendsIff(next: Option<nat>, d: Draft, s: Supply)
    ensures var (next', event) := Appended(next, d, s);
      if next.Some? && s.id != "" && s.stamped && d.correlationId != "" && d.causationId != Some("") then
        && event == Some(Event(s.id, next.value, d.correlationId, d.causationId, d.payload))
        && next' == if next.value < 9_007_199_254_740_991 then Some(next.value + 1) else None
      else next' == next && event == None
  {
  }

  /** The coordinator-owned allocator. */
  class EventSequence {
    var nextSequence: Option<nat>

    constructor (firstSequence: nat)
      requires 1 <= firstSequence <= MAX_SAFE
      ensures nextSequence == Some(firstSequence)
    {
      nextSequence := Some(firstSequence);
    }

    method Append(draft: Draft, supply: Supply) returns (event: Option<Event>)
      modifies this
      ensures (nextSequence, event) == Appended(old(nextSequence), draft, supply)
    {
      if nextSequence == None {
        return None;
      }
      var sequence := nextSequence.value;
      if draft.correlationId == "" || draft.causationId == Some("") || supply.id == "" || !supply.stamped {
        return None;
      }
      event := Some(EventOf(draft, supply.id, sequence));
      nextSequence := if sequence >= MAX_SAFE then None else Some(sequence + 1);
    }
  }
}
