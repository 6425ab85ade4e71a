/**
 The coordinator's ledger: an interaction gets at most one engine request, and
 recovery sends that very request again; what the log holds of its commits is
 what the journal tells of them, but for the commits that a bad narration id
 spoils; and only what begins an interaction has no cause.
 */
module CoordinatorLedger {
  import opened Wrappers
  import opened EngineTypes
  import opened EventLog
  import opened Coordinator
  import CoordinatorEvents

  // Commits among the events of a turn

  predicate Counts(e: Event) {
    e.payload.CommandCommitted? || e.payload.EngineOutput?
  }

  /** The events hold no commit and no output. */
  predicate NoPair(events: seq<Event>) {
    forall i :: 0 <= i < |events| ==> !Counts(events[i])
  }

  predicate PairAt(events: seq<Event>, i: int) {
    && 0 <= i < |events| - 1
    && events[i].payload.CommandCommitted? && events[i + 1].payload.EngineOutput?
    && events[i + 1].payload.revision == events[i].payload.revision
    && events[i + 1].causationId == Some(events[i].id)
  }

  /** Exactly one commit, and right after it exactly one output, caused by it and of its revision. */
  ghost predicate OnePair(events: seq<Event>) {
    exists i :: PairAt(events, i) && forall j :: 0 <= j < |events| && Counts(events[j]) ==> j == i || j == i + 1
  }

  lemma PlainEvent(events: seq<Event>, e: Event)
    requires !Counts(e)
    ensures NoPair(events) ==> NoPair(events + [e])
    ensures OnePair(events) ==> OnePair(events + [e])
  {
    if OnePair(events) {
      var i :| PairAt(events, i) && forall j :: 0 <= j < |events| && Counts(events[j]) ==> j == i || j == i + 1;
      assert PairAt(events + [e], i);
    }
  }

  lemma PairEvents(events: seq<Event>, committed: Event, output: Event)
    requires NoPair(events) && PairAt([committed, output], 0)
    ensures OnePair(events + [committed] + [output])
  {
    assert PairAt(events + [committed] + [output], |events|);
  }

  lemma {:induction false} RequestOfSnoc(events: seq<Event>, e: Event)
    ensures RequestOf(events).Some? ==> RequestOf(events + [e]) == RequestOf(events)
    ensures RequestOf(events) == None ==> RequestOf(events + [e]) == RequestOf([e])
  {
    if events == [] {
      assert events + [e] == [e];
    } else {
      assert (events + [e])[1..] == events[1..] + [e];
      RequestOfSnoc(events[1..], e);
    }
  }

  lemma RequestOfOne(e: Event)
    ensures RequestOf([e]) == match e.payload
      case CommandRequested(requestId, revision, command) =>
        Some(Recovery(ExecuteRequest(requestId, revision, command), e.id))
      case _ => None
  {
    assert [e][1..] == [];
  }

  // The ledger

  predicate Requested(s: State, id: string) {
    exists i :: 0 <= i < |s.requested| && s.requested[i].0 == id
  }

  ghost predicate Entries(s: State) {
    && (forall i, j :: 0 <= i < j < |s.requested| ==> s.requested[i].0 != s.requested[j].0)
    && (forall i :: 0 <= i < |s.requested| ==> s.requested[i].0 in s.turns)
    && (forall i :: 0 <= i < |s.submitted| ==> s.submitted[i] in s.requested)
    && (forall id :: id in s.turns && s.turns[id].Uncertain? ==> (id, s.turns[id].recovery.request) in s.requested)
  }

  /** The journal says of a turn what its events say. */
  ghost predicate Accounted(t: Stored) {
    match t
    case Pending(_) => true
    case Complete(_, result) =>
      if result.outcome == CommittedTurn then OnePair(result.events) else NoPair(result.events)
    case Uncertain(_, result, _) => NoPair(result.events)
  }

  /** What an activity begins with. */
  datatype Beginning = ATranscript | AnOutput | AnIntroduction

  function BeginningOf(k: Kind): Beginning {
    match k
    case Opening(_) => AnOutput
    case Introduction(_) => AnIntroduction
    case _ => ATranscript
  }

  predicate Begins(r: Beginning, p: Payload) {
    match r
    case ATranscript => p.TranscriptFinal?
    case AnOutput => p.EngineOutput?
    case AnIntroduction => p.RoleIntroduction?
  }

  /** Only what such an activity begins with lacks a cause. */
  ghost predicate Rooted(events: seq<Event>, r: Beginning) {
    forall i :: 0 <= i < |events| && events[i].causationId == None ==> Begins(r, events[i].payload)
  }

  /** So it is of a stored turn, but for a recorded failure: that is one event alone. */
  ghost predicate RootedStored(t: Stored) {
    || t.Pending? || Rooted(t.result.events, ATranscript)
    || (t.Complete? && t.result.outcome == FailedTurn && |t.result.events| == 1 && t.result.events[0].payload.SystemError?)
  }

  /** How many commits of this interaction the log holds. */
  function Commits(log: seq<Event>, id: string): nat {
    if log == [] then 0
    else
      var last := log[|log| - 1];
      Commits(log[..|log| - 1], id) + if last.payload.CommandCommitted? && last.correlationId == id then 1 else 0
  }

  lemma CommitsSnoc(log: seq<Event>, e: Event, id: string)
    ensures Commits(log + [e], id) ==
      Commits(log, id) + if e.payload.CommandCommitted? && e.correlationId == id then 1 else 0
  {
    assert (log + [e])[..|log|] == log;
  }

  /** How many commits an interaction should have: one if it was told, or is being told, that its turn is committed. */
  function Due(turns: map<string, Stored>, settling: Option<string>, id: string): nat {
    if settling == Some(id) || (id in turns && turns[id].Complete? && turns[id].result.outcome == CommittedTurn) then 1
    else 0
  }

  /** One interaction that is watched: how many of its commits are in excess, and how it is stored if it is complete. */
  datatype Watch = Watch(id: string, spoilt: nat, complete: Option<Stored>)

  function Spoilt(w: Watch, id: string): Watch {
    if w.id == id then w.(spoilt := w.spoilt + 1) else w
  }

  ghost predicate Watched(turns: map<string, Stored>, log: seq<Event>, settling: Option<string>, w: Watch) {
    && Commits(log, w.id) == Due(turns, settling, w.id) + w.spoilt
    && (w.id in turns ==> RootedStored(turns[w.id]) && (w.spoilt == 0 ==> Accounted(turns[w.id])))
    && (w.complete.Some? ==> w.complete.value.Complete? && w.id in turns && turns[w.id] == w.complete.value)
  }

  /** How far a turn has come: nothing requested; requested; answered with a commit. */
  datatype Stage = Early | Sent | Settled

  function StageOf(step: Step): Option<Stage> {
    match step
    case AwaitGuide(_) => Some(Early)
    case AwaitInspection(_, _) => Some(Early)
    case AwaitExecute(_, _) => Some(Sent)
    case AwaitCheckpoint(_, _) => Some(Settled)
    case AwaitNarrator(_, _, _, _, _, purpose) =>
      (match purpose
       case Reply(outcome) => if outcome == CommittedTurn then None else Some(Early)
       case Outcome(_) => Some(Settled)
       case _ => None)
    case AwaitOpeningInspection => None
  }

  predicate ForTurn(k: Kind) {
    k.NewTurn? || k.Recovering?
  }

  /** The entry of the turn under way, while a step writes book `b`. */
  ghost predicate Entry(s: State, a: Activity, b: Book, stage: Stage, w: Watch) {
    && a.interactionId in s.turns
    && (match a.kind
        case NewTurn(fingerprint) =>
          && s.turns[a.interactionId] == Pending(fingerprint)
          && (if stage == Early then !Requested(s, a.interactionId) && RequestOf(b.local) == None
            else RequestOf(b.local).Some? && (a.interactionId, RequestOf(b.local).value.request) in s.requested)
        case Recovering(stored) => stage != Early && s.turns[a.interactionId] == stored && stored.Uncertain?
        case _ => false)
    && (w.id == a.interactionId ==>
      && Rooted(b.local, ATranscript)
      && (w.spoilt == 0 ==> if stage == Settled then OnePair(b.local) else NoPair(b.local)))
  }

  /** Only the turn under way is pending. */
  predicate OnlyPending(s: State, id: Option<string>) {
    forall k :: k in s.turns && s.turns[k].Pending? ==> id == Some(k)
  }

  ghost predicate TurnInv(s: State, a: Activity, w: Watch) {
    && StageOf(a.step).Some?
    && Entry(s, a, Book(s.log, a.local), StageOf(a.step).value, w)
    && (a.step.AwaitExecute? ==>
      match a.kind
      case NewTurn(_) => RequestOf(a.local) == Some(Recovery(a.step.request, a.step.causeId))
      case Recovering(stored) => stored.Uncertain? && a.step.request == stored.recovery.request
      case _ => true)
    && (a.step.AwaitCheckpoint? ==> a.step.result.status == Committed)
    && (a.step.AwaitNarrator? ==> a.step.rest == [])
  }

  ghost predicate ActivityInv(s: State, a: Activity, w: Watch) {
    match a.kind
    case NewTurn(_) => TurnInv(s, a, w)
    case Recovering(_) => TurnInv(s, a, w)
    case Opening(_) =>
      && Rooted(a.local, AnOutput)
      && (a.step.AwaitOpeningInspection? || (a.step.AwaitNarrator? && a.step.purpose == OpeningStory))
    case Introduction(_) => Rooted(a.local, AnIntroduction) && a.step.AwaitNarrator? && a.step.purpose.Introducing?
  }

  function PendingOf(activity: Option<Activity>): Option<string> {
    if activity.Some? && activity.value.kind.NewTurn? then Some(activity.value.interactionId) else None
  }

  function SettlingOf(activity: Option<Activity>): Option<string> {
    if activity.Some? && ForTurn(activity.value.kind) && StageOf(activity.value.step) == Some(Settled)
    then Some(activity.value.interactionId) else None
  }

  ghost predicate Ledger(s: State, w: Watch) {
    && Entries(s) && Watched(s.turns, s.log, SettlingOf(s.activity), w)
    && OnlyPending(s, PendingOf(s.activity))
    && (s.activity.Some? ==> ActivityInv(s, s.activity.value, w))
  }

  /** In the middle of a step of a turn. */
  ghost predicate Writing(s: State, a: Activity, b: Book, stage: Stage, w: Watch) {
    && Entries(s) && Watched(s.turns, b.log, if stage == Settled then Some(a.interactionId) else None, w)
    && ForTurn(a.kind) && Entry(s, a, b, stage, w)
    && OnlyPending(s, PendingOf(Some(a)))
  }

  /** In the middle of a step of an opening or an introduction. */
  ghost predicate Aside(s: State, a: Activity, b: Book, w: Watch) {
    && Entries(s) && Watched(s.turns, b.log, None, w)
    && !ForTurn(a.kind) && OnlyPending(s, None) && Rooted(b.local, BeginningOf(a.kind))
  }

  predicate Plain(p: Payload) {
    !p.CommandCommitted? && !p.EngineOutput? && !p.CommandRequested?
  }

  lemma EmitPlain(ids: Ids, s: State, a: Activity, b: Book, cause: Option<string>, payload: Payload, stage: Stage, w: Watch)
    requires Writing(s, a, b, stage, w) && Plain(payload) && cause.Some?
    ensures Writing(s, a, Emit(ids, b, a.interactionId, cause, payload), stage, w)
  {
    hide OnePair, NoPair, Entries, Accounted, RootedStored, Due, Requested;
    var e := NextEvent(ids, b, a.interactionId, cause, payload);
    CommitsSnoc(b.log, e, w.id);
    hide Commits;
    PlainEvent(b.local, e);
    RequestOfSnoc(b.local, e);
    RequestOfOne(e);
  }

  // The ways a step of a turn ends

  lemma CompletedLedger(
    s: State, a: Activity, b: Book, outcome: TurnOutcome, result: Option<ExecuteResult>, stage: Stage, w: Watch)
    requires Writing(s, a, b, stage, w)
    requires outcome == CommittedTurn <==> stage == Settled
    ensures Ledger(Completed(s, a, b, outcome, result), w)
  {
    hide OnePair, NoPair, RequestOf, Commits;
  }

  /** An end that tells of no commit: one that was made is in excess from here on. */
  function Left(w: Watch, a: Activity, stage: Stage): Watch {
    if stage == Settled then Spoilt(w, a.interactionId) else w
  }

  lemma ThrownLedger(s: State, a: Activity, b: Book, stage: Stage, w: Watch)
    requires Writing(s, a, b, stage, w) && (stage == Early || a.kind.Recovering?)
    ensures Ledger(Thrown(s, a, b), Left(w, a, stage))
  {
    hide OnePair, NoPair, RequestOf, Commits;
  }

  lemma RecordedUncertainLedger(
    ids: Ids, s: State, a: Activity, b: Book, causeId: string, request: ExecuteRequest, stage: Stage, w: Watch)
    requires Writing(s, a, b, stage, w) && a.kind.NewTurn? && stage != Early
    requires RequestOf(b.local).Some? && RequestOf(b.local).value.request == request
    ensures Ledger(RecordedUncertain(ids, s, a, b, causeId, request), Left(w, a, stage))
  {
    hide OnePair, NoPair, RequestOf, Emit;
    EmitPlain(ids, s, a, b, Some(causeId), SystemError("engine-outcome-uncertain"), stage, w);
  }

  lemma FinishThrownLedger(ids: Ids, s: State, a: Activity, b: Book, w: Watch)
    requires Writing(s, a, b, Settled, w)
    ensures Ledger(FinishThrown(ids, s, a, b), Spoilt(w, a.interactionId))
  {
    hide OnePair, NoPair, Ledger, Entries, Watched, RecordedUncertain, Thrown, RequestOf;
    if a.kind.NewTurn? {
      var r := RequestOf(b.local).value;
      RecordedUncertainLedger(ids, s, a, b, r.requestedEventId, r.request, Settled, w);
    } else {
      ThrownLedger(s, a, b, Settled, w);
    }
  }

  lemma WaitLedger(s: State, a: Activity, b: Book, step: Step, stage: Stage, w: Watch)
    requires Writing(s, a, b, stage, w) && StageOf(step) == Some(stage) && (step.AwaitNarrator? ==> step.rest == [])
    requires !step.AwaitExecute? && (step.AwaitCheckpoint? ==> step.result.status == Committed)
    ensures Ledger(Wait(s, a, b, step), w)
  {
    hide OnePair, NoPair, RequestOf, Commits;
  }

  /** A narration on behalf of a turn, started or ended. */
  predicate TurnPurpose(p: Purpose, stage: Stage) {
    match p
    case Reply(outcome) => stage == Early && outcome != CommittedTurn
    case Outcome(_) => stage == Settled
    case _ => false
  }

  lemma NarratedLedger(
    ids: Ids, s: State, a: Activity, b: Book, outcome: NarrationOutcome, purpose: Purpose, sourceId: string,
    stage: Stage, w: Watch)
    requires Writing(s, a, b, stage, w) && TurnPurpose(purpose, stage)
    ensures Ledger(Narrated(ids, s, a, b, outcome, purpose, sourceId), w)
  {
    hide Writing, Ledger, Completed;
    match purpose {
      case Reply(turnOutcome) => CompletedLedger(s, a, b, turnOutcome, None, stage, w);
      case Outcome(result) => CompletedLedger(s, a, b, CommittedTurn, Some(result), stage, w);
      case _ =>
    }
  }

  lemma NarrateLedger(
    ids: Ids, s: State, a: Activity, b: Book, role: Role, segments: seq<string>, sourceId: string, purpose: Purpose,
    narrationId: string, stage: Stage, w: Watch)
    requires Writing(s, a, b, stage, w) && TurnPurpose(purpose, stage) && |segments| <= 1
    ensures Ledger(Narrate(ids, s, a, b, role, segments, sourceId, purpose, narrationId),
      if segments != [] && !ValidId(narrationId) then Left(w, a, stage) else w)
  {
    hide Writing, Ledger, Emit, Wait, Narrated, FinishThrown, Thrown, LastId, ValidId;
    if segments == [] {
      NarratedLedger(ids, s, a, b, FailedNarration, purpose, sourceId, stage, w);
    } else if !ValidId(narrationId) {
      if purpose.Outcome? {
        FinishThrownLedger(ids, s, a, b, w);
      } else {
        ThrownLedger(s, a, b, stage, w);
      }
    } else {
      var payload := NarrationRequested(narrationId, role, segments[0], sourceId);
      EmitPlain(ids, s, a, b, Some(sourceId), payload, stage, w);
      var b1 := Emit(ids, b, a.interactionId, Some(sourceId), payload);
      WaitLedger(s, a, b1, AwaitNarrator(LastId(b1), narrationId, role, sourceId, segments[1..], purpose), stage, w);
    }
  }

  lemma TurnFailsLedger(
    ids: Ids, s: State, a: Activity, b: Book, cause: string, code: string, outcome: TurnOutcome, stage: Stage, w: Watch)
    requires Writing(s, a, b, stage, w) && stage != Settled && outcome != CommittedTurn
    ensures Ledger(TurnFails(ids, s, a, b, cause, code, outcome), w)
  {
    hide Writing, Ledger, Emit, Completed;
    EmitPlain(ids, s, a, b, Some(cause), SystemError(code), stage, w);
    CompletedLedger(s, a, Emit(ids, b, a.interactionId, Some(cause), SystemError(code)), outcome, None, stage, w);
  }

  lemma AtMostOne(text: string)
    ensures |SegmentsOf(text, false)| <= 1
  {
  }

  lemma GuideReplyLedger(
    ids: Ids, s: State, a: Activity, b: Book, cause: string, payload: Payload, text: string, outcome: TurnOutcome,
    narrationId: string, w: Watch)
    requires Writing(s, a, b, Early, w) && Plain(payload) && outcome != CommittedTurn
    ensures Ledger(GuideReply(ids, s, a, b, cause, payload, text, outcome, narrationId), w)
  {
    hide Writing, Ledger, Emit, Narrate, LastId, SegmentsOf, ValidId;
    EmitPlain(ids, s, a, b, Some(cause), payload, Early, w);
    var b1 := Emit(ids, b, a.interactionId, Some(cause), payload);
    AtMostOne(text);
    NarrateLedger(ids, s, a, b1, GuideRole, SegmentsOf(text, false), LastId(b1), Reply(outcome), narrationId, Early, w);
  }

  lemma PickUp(s: State, w: Watch)
    requires Ledger(s, w) && s.activity.Some? && ForTurn(s.activity.value.kind)
    ensures var a := s.activity.value;
      StageOf(a.step).Some? && Writing(s, a, Book(s.log, a.local), StageOf(a.step).value, w)
  {
    hide OnePair, NoPair, RequestOf, Commits;
  }

  lemma GuideStepLedger(ids: Ids, s: State, answer: GuideAnswer, aborted: bool, narrationId: string, w: Watch)
    requires Ledger(s, w) && s.activity.Some? && s.activity.value.step.AwaitGuide?
    ensures Ledger(GuideStep(ids, s, s.activity.value, answer, aborted, narrationId), w)
  {
    hide Writing, Emit, Wait, TurnFails, GuideReply, LastId, ValidId, Entry;
    var a := s.activity.value;
    PickUp(s, w);
    hide Ledger;
    var id, b, transcriptId := a.interactionId, Book(s.log, a.local), a.step.transcriptId;
    if answer.GuideFailed? {
      TurnFailsLedger(ids, s, a, b, transcriptId, if aborted then "cancelled" else "guide-failed",
        if aborted then CancelledTurn else FailedTurn, Early, w);
    } else {
      EmitPlain(ids, s, a, b, Some(transcriptId), DecisionProposed, Early, w);
      var b1 := Emit(ids, b, id, Some(transcriptId), DecisionProposed);
      var decided := if answer.Refuse? then DecisionRejected else DecisionAccepted;
      EmitPlain(ids, s, a, b1, Some(LastId(b1)), decided, Early, w);
      var b2 := Emit(ids, b1, id, Some(LastId(b1)), decided);
      match answer {
        case Refuse(providerFailed, text) =>
          GuideReplyLedger(ids, s, a, b2, LastId(b2), CannotComply(text), text,
            if providerFailed then FailedTurn else RejectedTurn, narrationId, w);
        case Clarify(text) =>
          GuideReplyLedger(ids, s, a, b2, LastId(b2), Clarification(text), text, Clarified, narrationId, w);
        case Explain(text) =>
          GuideReplyLedger(ids, s, a, b2, LastId(b2), Explanation(text), text, Explained, narrationId, w);
        case Command(command) =>
          TurnFailsLedger(ids, s, a, b2, LastId(b2), "cancelled-before-engine-submit", CancelledTurn, Early, w);
          WaitLedger(s, a, b2, AwaitInspection(LastId(b2), command), Early, w);
        case GuideFailed =>
      }
    }
  }

  /** The one place where a request is allocated: the interaction has none yet. */
  lemma AllocateLedger(ids: Ids, s: State, a: Activity, b: Book, acceptedId: string, request: ExecuteRequest, w: Watch)
    requires Writing(s, a, b, Early, w)
    ensures var b1 := Emit(ids, b, a.interactionId, Some(acceptedId),
        CommandRequested(request.requestId, request.expectedRevision, request.command));
      Ledger(
        Wait(s, a, b1, AwaitExecute(LastId(b1), request)).(
          requested := s.requested + [(a.interactionId, request)],
          submitted := s.submitted + [(a.interactionId, request)]),
        w)
  {
    hide OnePair, NoPair;
    var payload := CommandRequested(request.requestId, request.expectedRevision, request.command);
    var e := NextEvent(ids, b, a.interactionId, Some(acceptedId), payload);
    PlainEvent(b.local, e);
    RequestOfSnoc(b.local, e);
    RequestOfOne(e);
    hide RequestOf, Accounted;
  }

  lemma InspectionStepLedger(ids: Ids, s: State, state: Option<PublicState>, aborted: bool, requestId: string, w: Watch)
    requires Ledger(s, w) && s.activity.Some? && s.activity.value.step.AwaitInspection?
    ensures Ledger(InspectionStep(ids, s, s.activity.value, state, aborted, requestId), w)
  {
    hide Writing, Emit, Wait, TurnFails, Thrown, LastId, ValidId, Entry;
    var a := s.activity.value;
    PickUp(s, w);
    hide Ledger;
    var AwaitInspection(acceptedId, command) := a.step;
    var b := Book(s.log, a.local);
    TurnFailsLedger(ids, s, a, b, acceptedId, "engine-inspection-failed", FailedTurn, Early, w);
    TurnFailsLedger(ids, s, a, b, acceptedId, "cancelled-before-engine-submit", CancelledTurn, Early, w);
    ThrownLedger(s, a, b, Early, w);
    if state.Some? {
      AllocateLedger(ids, s, a, b, acceptedId, ExecuteRequest(requestId, state.value.revision, command), w);
    }
  }

  lemma CommitPair(ids: Ids, s: State, a: Activity, b: Book, cause: string, result: ExecuteResult, w: Watch)
    requires Writing(s, a, b, Sent, w)
    ensures var b1 := Emit(ids, b, a.interactionId, Some(cause),
        CommandCommitted(result.requestId, result.revision, result.command));
      var b2 := Emit(ids, b1, a.interactionId, Some(LastId(b1)), EngineOutput(result.revision, result.output));
      Writing(s, a, b2, Settled, w)
  {
    hide NoPair, OnePair, Entries, Accounted, Requested;
    var committed := NextEvent(ids, b, a.interactionId, Some(cause),
      CommandCommitted(result.requestId, result.revision, result.command));
    var b1 := Emit(ids, b, a.interactionId, Some(cause),
      CommandCommitted(result.requestId, result.revision, result.command));
    var output := NextEvent(ids, b1, a.interactionId, Some(LastId(b1)), EngineOutput(result.revision, result.output));
    RequestOfSnoc(b.local, committed);
    RequestOfSnoc(b1.local, output);
    CommitsSnoc(b.log, committed, w.id);
    CommitsSnoc(b1.log, output, w.id);
    hide Commits;
    assert LastId(b1) == committed.id;
    if w.id == a.interactionId && w.spoilt == 0 {
      PairEvents(b.local, committed, output);
    }
  }

  lemma FinishResultLedger(
    ids: Ids, s: State, a: Activity, b: Book, cause: string, request: ExecuteRequest, result: ExecuteResult, w: Watch)
    requires Writing(s, a, b, Sent, w)
    ensures Ledger(FinishResult(ids, s, a, b, cause, request, result), w)
  {
    hide Writing, Ledger, Emit, Wait, Completed, LastId;
    if result.status != Committed {
      var rejected := CommandRejected(request.requestId, result.revision, request.command);
      EmitPlain(ids, s, a, b, Some(cause), rejected, Sent, w);
      CompletedLedger(s, a, Emit(ids, b, a.interactionId, Some(cause), rejected), FailedTurn, Some(result), Sent, w);
    } else {
      CommitPair(ids, s, a, b, cause, result, w);
      var b1 := Emit(ids, b, a.interactionId, Some(cause),
        CommandCommitted(result.requestId, result.revision, result.command));
      var b2 := Emit(ids, b1, a.interactionId, Some(LastId(b1)), EngineOutput(result.revision, result.output));
      WaitLedger(s, a, b2, AwaitCheckpoint(LastId(b2), result), Settled, w);
    }
  }

  lemma FinishRecovering(s: State, a: Activity, b: Book, w: Watch)
    requires Writing(s, a, b, Sent, w) && a.kind.Recovering?
    ensures Ledger(Finish(s, b), w)
  {
    hide OnePair, NoPair, RequestOf, Commits;
  }

  lemma ExecuteStepLedger(ids: Ids, s: State, answer: EngineAnswer, w: Watch)
    requires Ledger(s, w) && s.activity.Some? && s.activity.value.step.AwaitExecute?
    ensures Ledger(ExecuteStep(ids, s, s.activity.value, answer), w)
  {
    hide Writing, Emit, TurnFails, FinishResult, RecordedUncertain, LastId, Entry, RequestOf;
    var a := s.activity.value;
    PickUp(s, w);
    var AwaitExecute(causeId, request) := a.step;
    var b := Book(s.log, a.local);
    if a.kind.Recovering? {
      if answer.Answer? {
        EmitPlain(ids, s, a, b, Some(causeId), SystemRecovered(request.requestId), Sent, w);
        var b1 := Emit(ids, b, a.interactionId, Some(causeId), SystemRecovered(request.requestId));
        FinishResultLedger(ids, s, a, b1, LastId(b1), request, answer.result, w);
      } else {
        FinishRecovering(s, a, b, w);
      }
    } else {
      match answer {
        case Answer(result) => FinishResultLedger(ids, s, a, b, causeId, request, result, w);
        case NotSubmitted =>
          TurnFailsLedger(ids, s, a, b, causeId, "cancelled-before-engine-submit", CancelledTurn, Sent, w);
        case Unknown => RecordedUncertainLedger(ids, s, a, b, causeId, request, Sent, w);
      }
    }
  }

  /** After a commit, an id is asked for (the turn is cancelled, or there is something to narrate), and it is bad. */
  predicate Spoils(s: State, x: Stimulus) {
    && x.Checkpointed? && s.activity.Some? && s.activity.value.step.AwaitCheckpoint?
    && (x.aborted || SegmentsOf(s.activity.value.step.result.output, false) != [])
    && !ValidId(x.narrationId)
  }

  function After(s: State, x: Stimulus, w: Watch): Watch {
    if Spoils(s, x) then Spoilt(w, s.activity.value.interactionId) else w
  }

  lemma CheckpointStepLedger(ids: Ids, s: State, ok: bool, aborted: bool, narrationId: string, w: Watch)
    requires Ledger(s, w) && s.activity.Some? && s.activity.value.step.AwaitCheckpoint?
    ensures Ledger(CheckpointStep(ids, s, s.activity.value, ok, aborted, narrationId),
      After(s, Checkpointed(ok, aborted, narrationId), w))
  {
    hide Writing, Emit, Completed, Narrate, FinishThrown, LastId, SegmentsOf, Entry, ValidId;
    var a := s.activity.value;
    PickUp(s, w);
    hide Ledger;
    var AwaitCheckpoint(outputId, result) := a.step;
    var id, b := a.interactionId, Book(s.log, a.local);
    EmitPlain(ids, s, a, b, Some(outputId), SaveCheckpointed, Settled, w);
    EmitPlain(ids, s, a, b, Some(outputId), SaveFailed, Settled, w);
    var failed := Emit(ids, b, id, Some(outputId), SaveFailed);
    EmitPlain(ids, s, a, failed, Some(LastId(failed)), SystemError("checkpoint-failed"), Settled, w);
    var b1 := if ok then Emit(ids, b, id, Some(outputId), SaveCheckpointed)
      else Emit(ids, failed, id, Some(LastId(failed)), SystemError("checkpoint-failed"));
    if aborted {
      if !ValidId(narrationId) {
        FinishThrownLedger(ids, s, a, b1, w);
      } else {
        var payload := NarrationCancelled(narrationId, NarratorRole);
        EmitPlain(ids, s, a, b1, Some(outputId), payload, Settled, w);
        CompletedLedger(s, a, Emit(ids, b1, id, Some(outputId), payload), CommittedTurn, Some(result), Settled, w);
      }
    } else {
      AtMostOne(result.output);
      NarrateLedger(ids, s, a, b1, NarratorRole, SegmentsOf(result.output, false), outputId, Outcome(result), narrationId,
        Settled, w);
    }
  }

  lemma NarratorStepLedger(ids: Ids, s: State, ok: bool, aborted: bool, nextId: string, w: Watch)
    requires Ledger(s, w) && s.activity.Some? && s.activity.value.step.AwaitNarrator?
    requires ForTurn(s.activity.value.kind)
    ensures Ledger(NarratorStep(ids, s, s.activity.value, ok, aborted, nextId), w)
  {
    hide Writing, Emit, Narrated, Narrate, Introduce, LastId, Entry, ValidId;
    var a := s.activity.value;
    PickUp(s, w);
    hide Ledger;
    var AwaitNarrator(requestedId, narrationId, role, sourceId, rest, purpose) := a.step;
    var id, b := a.interactionId, Book(s.log, a.local);
    var stage := StageOf(a.step).value;
    var cause := Some(requestedId);
    if ok || aborted {
      var payload := if ok then NarrationReady(narrationId, role) else NarrationCancelled(narrationId, role);
      EmitPlain(ids, s, a, b, cause, payload, stage, w);
      var b1 := Emit(ids, b, id, cause, payload);
      NarratedLedger(ids, s, a, b1, if ok then ReadyNarration else CancelledNarration, purpose, sourceId, stage, w);
    } else {
      EmitPlain(ids, s, a, b, cause, NarrationFailed(narrationId, role), stage, w);
      var b1 := Emit(ids, b, id, cause, NarrationFailed(narrationId, role));
      EmitPlain(ids, s, a, b1, Some(LastId(b1)), SystemError("narration-failed"), stage, w);
      var b2 := Emit(ids, b1, id, Some(LastId(b1)), SystemError("narration-failed"));
      NarratedLedger(ids, s, a, b2, FailedNarration, purpose, sourceId, stage, w);
    }
  }

  // Openings, introductions, and the starts of things

  predicate AsidePurpose(k: Kind, p: Purpose) {
    (k.Opening? && p == OpeningStory) || (k.Introduction? && p.Introducing?)
  }

  lemma AsideEmit(ids: Ids, s: State, a: Activity, b: Book, cause: Option<string>, payload: Payload, w: Watch)
    requires Aside(s, a, b, w) && !payload.CommandCommitted?
    requires cause.Some? || Begins(BeginningOf(a.kind), payload)
    ensures Aside(s, a, Emit(ids, b, a.interactionId, cause, payload), w)
  {
    hide Accounted, Due, Entries;
    CommitsSnoc(b.log, NextEvent(ids, b, a.interactionId, cause, payload), w.id);
  }

  lemma AsideNarrate(
    ids: Ids, s: State, a: Activity, b: Book, role: Role, segments: seq<string>, sourceId: string, purpose: Purpose,
    narrationId: string, w: Watch)
    requires Aside(s, a, b, w) && AsidePurpose(a.kind, purpose)
    ensures Ledger(Narrate(ids, s, a, b, role, segments, sourceId, purpose, narrationId), w)
    ensures forall outcome :: Ledger(Narrated(ids, s, a, b, outcome, purpose, sourceId), w)
  {
    hide Accounted, RootedStored, Rooted, Requested, Due, Emit, LastId, ValidId, RequestOf, Commits;
    if segments != [] {
      AsideEmit(ids, s, a, b, Some(sourceId), NarrationRequested(narrationId, role, segments[0], sourceId), w);
    }
  }

  lemma AsideIntroduce(ids: Ids, s: State, a: Activity, b: Book, messages: seq<Message>, narrationId: string, w: Watch)
    requires Aside(s, a, b, w) && a.kind.Introduction?
    ensures Ledger(Introduce(ids, s, a, b, messages, narrationId), w)
  {
    hide Accounted, Emit, LastId, Narrate, SegmentsOf, Commits;
    if messages != [] {
      var m := messages[0];
      AsideEmit(ids, s, a, b, None, RoleIntroduction(m.role, m.text), w);
      var b1 := Emit(ids, b, a.interactionId, None, RoleIntroduction(m.role, m.text));
      AsideNarrate(ids, s, a, b1, m.role, SegmentsOf(m.text, true), LastId(b1), Introducing(messages[1..]), narrationId, w);
    }
  }

  lemma AsideNarratorStep(ids: Ids, s: State, ok: bool, aborted: bool, nextId: string, w: Watch)
    requires Ledger(s, w) && s.activity.Some? && s.activity.value.step.AwaitNarrator?
    requires !ForTurn(s.activity.value.kind)
    ensures Ledger(NarratorStep(ids, s, s.activity.value, ok, aborted, nextId), w)
  {
    hide Accounted, Emit, LastId, Narrate, Narrated, Introduce, Entries, RequestOf, Commits;
    var a := s.activity.value;
    var AwaitNarrator(requestedId, narrationId, role, sourceId, rest, purpose) := a.step;
    var b, cause := Book(s.log, a.local), Some(requestedId);
    var payload := if ok then NarrationReady(narrationId, role)
      else if aborted then NarrationCancelled(narrationId, role) else NarrationFailed(narrationId, role);
    var b1 := Emit(ids, b, a.interactionId, cause, payload);
    var b2 := Emit(ids, b1, a.interactionId, Some(LastId(b1)), SystemError("narration-failed"));
    AsideEmit(ids, s, a, b, cause, payload, w);
    AsideEmit(ids, s, a, b1, Some(LastId(b1)), SystemError("narration-failed"), w);
    AsideNarrate(ids, s, a, b1, role, rest, sourceId, purpose, nextId, w);
    AsideNarrate(ids, s, a, b2, role, rest, sourceId, purpose, nextId, w);
    if purpose.Introducing? {
      AsideIntroduce(ids, s, a, b1, purpose.rest, nextId, w);
    }
  }

  lemma OpeningInspectionLedger(
    ids: Ids, s: State, state: Option<PublicState>, aborted: bool, narrationId: string, w: Watch)
    requires Ledger(s, w) && s.activity.Some? && s.activity.value.step.AwaitOpeningInspection?
    ensures Ledger(OpeningInspectionStep(ids, s, s.activity.value, state, aborted, narrationId), w)
  {
    hide Accounted, Emit, LastId, Narrate, SegmentsOf, RequestOf, Commits;
    var a := s.activity.value;
    var input := OpeningOf(a.kind);
    AsideEmit(ids, s, a, Book(s.log, a.local), None, EngineOutput(input.revision, input.output), w);
    var b1 := Emit(ids, Book(s.log, a.local), a.interactionId, None, EngineOutput(input.revision, input.output));
    AsideNarrate(ids, s, a, b1, NarratorRole, SegmentsOf(input.narrationText, true), LastId(b1), OpeningStory,
      narrationId, w);
  }

  lemma NewTurnLedger(ids: Ids, s: State, i: TurnInput, w: Watch)
    requires Ledger(s, w) && s.activity == None && i.interactionId !in s.turns
    ensures var b := Emit(ids, Book(s.log, []), i.interactionId, None, TranscriptFinal(i.transcript));
      Ledger(
        Store(s, i.interactionId, Pending(i.fingerprint)).(
          activity := Some(Activity(i.interactionId, NewTurn(i.fingerprint), b.local, AwaitGuide(LastId(b)))),
          log := b.log),
        w)
  {
    hide OnePair, Commits;
    var e := NextEvent(ids, Book(s.log, []), i.interactionId, None, TranscriptFinal(i.transcript));
    assert [] + [e] == [e];
    RequestOfOne(e);
    CommitsSnoc(s.log, e, w.id);
    hide RequestOf;
  }

  lemma RecoverLedger(s: State, id: string, w: Watch)
    requires Ledger(s, w) && s.activity == None && id in s.turns && s.turns[id].Uncertain?
    ensures var stored := s.turns[id];
      Ledger(
        s.(activity := Some(Activity(
             id, Recovering(stored), stored.result.events,
             AwaitExecute(stored.recovery.requestedEventId, stored.recovery.request))),
           submitted := s.submitted + [(id, stored.recovery.request)]),
        w)
  {
    hide OnePair, NoPair, RequestOf, Commits;
  }

  lemma SubmitLedger(ids: Ids, maxTurns: nat, s: State, i: TurnInput, aborted: bool, w: Watch)
    requires Ledger(s, w)
    ensures Ledger(SubmitStep(ids, maxTurns, s, i, aborted), w)
  {
    hide Ledger, Emit, LastId, ValidTurnInput;
    if s.activity == None {
      if i.interactionId in s.turns {
        if s.turns[i.interactionId].Uncertain? {
          RecoverLedger(s, i.interactionId, w);
        }
      } else {
        NewTurnLedger(ids, s, i, w);
      }
    }
  }

  lemma RecordLedger(s: State, id: string, b: Book, code: string, w: Watch)
    requires Ledger(s, w) && id !in s.turns && Commits(b.log, w.id) == Commits(s.log, w.id)
    requires |b.local| == 1 && b.local[0].payload.SystemError?
    ensures Ledger(Store(s.(log := b.log), id, Complete("failure:" + code, TurnResult(FailedTurn, b.local, None))), w)
  {
    hide OnePair, RequestOf, Commits;
  }

  lemma OpeningBegins(s: State, id: string, input: OpeningInput, w: Watch)
    requires Ledger(s, w) && s.activity == None
    ensures Ledger(s.(activity := Some(Activity(id, Opening(input), [], AwaitOpeningInspection))), w)
  {
    hide Accounted, RequestOf, Commits;
  }

  lemma StartsLedger(ids: Ids, maxTurns: nat, s: State, x: Stimulus, w: Watch)
    requires Ledger(s, w) && (x.StartOpening? || x.StartIntroduction? || x.RecordFailure?)
    ensures Ledger(Next(ids, maxTurns, s, x), w)
  {
    hide Accounted, LastId, Narrate, Introduce, SegmentsOf, RequestOf, ValidId, Entries, Commits;
    match x {
      case StartOpening(id, input, narrationId, aborted) =>
        if s.activity == None {
          var a := Activity(id, Opening(input), [], AwaitOpeningInspection);
          if s.opening.Retryable? {
            AsideNarrate(ids, s, a, Book(s.log, []), NarratorRole, SegmentsOf(input.narrationText, true),
              s.opening.sourceEventId, OpeningStory, narrationId, w);
          }
          OpeningBegins(s, id, input, w);
        }
      case StartIntroduction(id, messages, narrationId) =>
        if s.activity == None {
          AsideIntroduce(ids, s, Activity(id, Introduction(messages), [], AwaitGuide("")), Book(s.log, []), messages, narrationId, w);
        }
      case RecordFailure(id, code) =>
        if id !in s.turns {
          CommitsSnoc(s.log, NextEvent(ids, Book(s.log, []), id, None, SystemError(code)), w.id);
          RecordLedger(s, id, Emit(ids, Book(s.log, []), id, None, SystemError(code)), code, w);
        }
    }
  }

  lemma NextLedger(ids: Ids, maxTurns: nat, s: State, x: Stimulus, w: Watch)
    requires Ledger(s, w)
    ensures Ledger(Next(ids, maxTurns, s, x), After(s, x, w))
  {
    hide Ledger, SubmitStep, GuideStep, InspectionStep, OpeningInspectionStep, ExecuteStep, CheckpointStep,
      NarratorStep;
    hide StartOpeningStep, StartIntroductionStep, RecordFailureStep, ValidId, SegmentsOf, Spoilt;
    match x {
      case SubmitTurn(input, aborted) => SubmitLedger(ids, maxTurns, s, input, aborted, w);
      case GuideAnswers(answer, aborted, narrationId) =>
        if s.activity.Some? && s.activity.value.step.AwaitGuide? {
          GuideStepLedger(ids, s, answer, aborted, narrationId, w);
        }
      case EngineInspected(state, aborted, requestId, narrationId) =>
        if s.activity.Some? && s.activity.value.step.AwaitInspection? {
          InspectionStepLedger(ids, s, state, aborted, requestId, w);
        } else if s.activity.Some? && s.activity.value.step.AwaitOpeningInspection? {
          OpeningInspectionLedger(ids, s, state, aborted, narrationId, w);
        }
      case EngineAnswers(reply) =>
        if s.activity.Some? && s.activity.value.step.AwaitExecute? {
          ExecuteStepLedger(ids, s, reply, w);
        }
      case Checkpointed(ok, aborted, narrationId) =>
        if s.activity.Some? && s.activity.value.step.AwaitCheckpoint? {
          CheckpointStepLedger(ids, s, ok, aborted, narrationId, w);
        }
      case NarratorAnswers(ok, aborted, narrationId) =>
        if s.activity.Some? && s.activity.value.step.AwaitNarrator? {
          if ForTurn(s.activity.value.kind) {
            NarratorStepLedger(ids, s, ok, aborted, narrationId, w);
          } else {
            AsideNarratorStep(ids, s, ok, aborted, narrationId, w);
          }
        }
      case _ => StartsLedger(ids, maxTurns, s, x, w);
    }
  }

  /** How many stimuli of a run spoil the accounting of this interaction. */
  function Spoilings(ids: Ids, maxTurns: nat, s: State, xs: seq<Stimulus>, id: string): nat
    decreases |xs|
  {
    if xs == [] then 0
    else
      (if Spoils(s, xs[0]) && s.activity.value.interactionId == id then 1 else 0)
      + Spoilings(ids, maxTurns, Next(ids, maxTurns, s, xs[0]), xs[1..], id)
  }

  lemma {:induction false} RunLedger(ids: Ids, maxTurns: nat, s: State, xs: seq<Stimulus>, w: Watch)
    requires Ledger(s, w)
    ensures Ledger(CoordinatorEvents.Run(ids, maxTurns, s, xs),
      w.(spoilt := w.spoilt + Spoilings(ids, maxTurns, s, xs, w.id)))
    decreases |xs|
  {
    hide Ledger, Next, Spoils;
    if xs != [] {
      NextLedger(ids, maxTurns, s, xs[0], w);
      RunLedger(ids, maxTurns, Next(ids, maxTurns, s, xs[0]), xs[1..], After(s, xs[0], w));
    }
  }

  lemma InitialLedger(id: string)
    ensures Ledger(INITIAL, Watch(id, 0, None))
  {
  }

  /**
   In every run, whatever the generators hand out: an interaction is allocated at most one engine request, and every
   request that is sent, at first or on recovery, is the one its interaction was allocated.
   */
  lemma OneRequestEach(ids: Ids, maxTurns: nat, xs: seq<Stimulus>)
    ensures var s := CoordinatorEvents.Run(ids, maxTurns, INITIAL, xs);
      && (forall i, j :: 0 <= i < j < |s.requested| ==> s.requested[i].0 != s.requested[j].0)
      && (forall i :: 0 <= i < |s.submitted| ==> s.submitted[i] in s.requested)
  {
    hide Next, ActivityInv, Watched, OnlyPending;
    InitialLedger("");
    RunLedger(ids, maxTurns, INITIAL, xs, Watch("", 0, None));
  }

  lemma RootsOf(ids: Ids, maxTurns: nat, xs: seq<Stimulus>, id: string)
    ensures var s := CoordinatorEvents.Run(ids, maxTurns, INITIAL, xs);
      && (id in s.turns ==> RootedStored(s.turns[id]))
      && (s.activity.Some? && s.activity.value.interactionId == id ==>
        Rooted(s.activity.value.local, BeginningOf(s.activity.value.kind)))
  {
    hide Next, OnlyPending, Accounted, Entries, Commits, Due, SettlingOf, Spoils, Spoilings, RequestOf;
    hide CoordinatorEvents.Run, RootedStored, Rooted, OnePair, NoPair;
    InitialLedger(id);
    RunLedger(ids, maxTurns, INITIAL, xs, Watch(id, 0, None));
  }

  /**
   In every run, of the events of a turn only its transcript has no cause, unless the turn is the record of a failure,
   which is one event. Of the events of an opening only its output has none, and of those of an introduction only the
   messages.
   */
  lemma RootsAreKnown(ids: Ids, maxTurns: nat, xs: seq<Stimulus>)
    ensures var s := CoordinatorEvents.Run(ids, maxTurns, INITIAL, xs);
      && (forall id :: id in s.turns ==> RootedStored(s.turns[id]))
      && (s.activity.Some? ==> Rooted(s.activity.value.local, BeginningOf(s.activity.value.kind)))
  {
    hide CoordinatorEvents.Run, RootedStored, Rooted, BeginningOf;
    var s := CoordinatorEvents.Run(ids, maxTurns, INITIAL, xs);
    forall id | id in s.turns
      ensures RootedStored(s.turns[id])
    {
      RootsOf(ids, maxTurns, xs, id);
    }
    if s.activity.Some? {
      RootsOf(ids, maxTurns, xs, s.activity.value.interactionId);
    }
  }

  /** What the log and the journal say of an interaction agree. */
  ghost predicate Accounts(s: State, id: string) {
    && Commits(s.log, id) == Due(s.turns, SettlingOf(s.activity), id)
    && (id in s.turns ==> Accounted(s.turns[id]))
  }

  /**
   Conservation of commits, in every run: the log holds as many commits of an interaction as the outcome tells of (one
   if its turn is committed, or about to be), and one more for every time that the accounting was spoilt. Unless it
   was, the events of a committed turn hold exactly one commit and one output, and those of any other turn none.
   */
  lemma CommitsAreAccounted(ids: Ids, maxTurns: nat, xs: seq<Stimulus>, id: string)
    ensures var s := CoordinatorEvents.Run(ids, maxTurns, INITIAL, xs);
      var spoilt := Spoilings(ids, maxTurns, INITIAL, xs, id);
      && Commits(s.log, id) == Due(s.turns, SettlingOf(s.activity), id) + spoilt
      && (Accounts(s, id) <==> spoilt == 0)
  {
    hide Next, ActivityInv, OnlyPending, Accounted, Entries, Commits, Due, SettlingOf, Spoils;
    InitialLedger(id);
    RunLedger(ids, maxTurns, INITIAL, xs, Watch(id, 0, None));
  }

  /** No stimulus of the run spoils the accounting. */
  predicate Unspoilt(ids: Ids, maxTurns: nat, s: State, xs: seq<Stimulus>) {
    forall n :: 0 <= n < |xs| ==> !Spoils(CoordinatorEvents.Run(ids, maxTurns, s, xs[..n]), xs[n])
  }

  lemma UnspoiltStep(ids: Ids, maxTurns: nat, s: State, xs: seq<Stimulus>)
    requires xs != []
    ensures Unspoilt(ids, maxTurns, s, xs) <==>
      !Spoils(s, xs[0]) && Unspoilt(ids, maxTurns, Next(ids, maxTurns, s, xs[0]), xs[1..])
  {
    hide Next, Spoils;
    var s1, rest := Next(ids, maxTurns, s, xs[0]), xs[1..];
    assert CoordinatorEvents.Run(ids, maxTurns, s, xs[..0]) == s;
    forall n | 0 <= n < |rest|
      ensures CoordinatorEvents.Run(ids, maxTurns, s, xs[..n + 1]) == CoordinatorEvents.Run(ids, maxTurns, s1, rest[..n])
    {
      assert xs[..n + 1][1..] == rest[..n];
    }
    hide CoordinatorEvents.Run;
    if !Spoils(s, xs[0]) && Unspoilt(ids, maxTurns, s1, rest) {
      forall n | 0 < n < |xs|
        ensures !Spoils(CoordinatorEvents.Run(ids, maxTurns, s, xs[..n]), xs[n])
      {
        assert xs[n] == rest[n - 1];
      }
    }
    if Unspoilt(ids, maxTurns, s, xs) {
      forall n | 0 <= n < |rest|
        ensures !Spoils(CoordinatorEvents.Run(ids, maxTurns, s1, rest[..n]), rest[n])
      {
        assert xs[n + 1] == rest[n];
      }
    }
  }

  lemma {:induction false} SomeSpoilt(ids: Ids, maxTurns: nat, s: State, xs: seq<Stimulus>) returns (id: string)
    requires !Unspoilt(ids, maxTurns, s, xs)
    ensures Spoilings(ids, maxTurns, s, xs, id) > 0
    decreases |xs|
  {
    hide Next, SegmentsOf, ValidId;
    UnspoiltStep(ids, maxTurns, s, xs);
    if Spoils(s, xs[0]) {
      id := s.activity.value.interactionId;
    } else {
      id := SomeSpoilt(ids, maxTurns, Next(ids, maxTurns, s, xs[0]), xs[1..]);
    }
  }

  lemma {:induction false} NoneSpoilt(ids: Ids, maxTurns: nat, s: State, xs: seq<Stimulus>, id: string)
    requires Unspoilt(ids, maxTurns, s, xs)
    ensures Spoilings(ids, maxTurns, s, xs, id) == 0
    decreases |xs|
  {
    hide Next, Spoils;
    if xs != [] {
      UnspoiltStep(ids, maxTurns, s, xs);
      NoneSpoilt(ids, maxTurns, Next(ids, maxTurns, s, xs[0]), xs[1..], id);
    }
  }

  /** Of every interaction, the log and the journal agree. */
  ghost predicate AllAccounted(s: State) {
    forall id :: Accounts(s, id)
  }

  /**
   Where the accounting fails. In every run, the log and the journal agree on every interaction if and only if no
   checkpoint of a committed turn was followed by a bad id that was asked for. New turns and recoveries alike: a
   failure, once made, stays.
   */
  lemma AccountedIffUnspoilt(ids: Ids, maxTurns: nat, xs: seq<Stimulus>)
    ensures AllAccounted(CoordinatorEvents.Run(ids, maxTurns, INITIAL, xs)) <==> Unspoilt(ids, maxTurns, INITIAL, xs)
  {
    hide Accounts, Spoilings, Unspoilt, CoordinatorEvents.Run;
    var s := CoordinatorEvents.Run(ids, maxTurns, INITIAL, xs);
    if Unspoilt(ids, maxTurns, INITIAL, xs) {
      forall id
        ensures Accounts(s, id)
      {
        NoneSpoilt(ids, maxTurns, INITIAL, xs, id);
        CommitsAreAccounted(ids, maxTurns, xs, id);
      }
    } else {
      var id := SomeSpoilt(ids, maxTurns, INITIAL, xs);
      CommitsAreAccounted(ids, maxTurns, xs, id);
    }
  }

  /**
   What the caller sees of it: the turn, which is committed, ends as uncertain exactly if the accounting is spoilt. That
   is so of a new turn and of a recovery, which has found out what happened and forgets it again.
   */
  lemma CommittedButUncertain(ids: Ids, maxTurns: nat, s: State, x: Stimulus, w: Watch)
    requires Ledger(s, w) && x.Checkpointed? && s.activity.Some? && s.activity.value.step.AwaitCheckpoint?
    ensures var id := s.activity.value.interactionId;
      var s' := Next(ids, maxTurns, s, x);
      s'.activity == None && id in s'.turns && s'.turns[id].Uncertain? <==> Spoils(s, x)
  {
    hide SegmentsOf, ValidId, OnePair, NoPair, Rooted, Watched, Entries, Emit, RequestOf, LastId, Spoilt;
    var a := s.activity.value;
    var b := Book(s.log, a.local);
    var failed := Emit(ids, b, a.interactionId, Some(a.step.outputId), SaveFailed);
    RequestStays(ids, b, a.interactionId, Some(a.step.outputId), SaveCheckpointed);
    RequestStays(ids, b, a.interactionId, Some(a.step.outputId), SaveFailed);
    RequestStays(ids, failed, a.interactionId, Some(LastId(failed)), SystemError("checkpoint-failed"));
  }

  lemma RequestStays(ids: Ids, b: Book, id: string, cause: Option<string>, payload: Payload)
    ensures RequestOf(b.local).Some? ==> RequestOf(Emit(ids, b, id, cause, payload).local) == RequestOf(b.local)
  {
    RequestOfSnoc(b.local, NextEvent(ids, b, id, cause, payload));
  }

  lemma {:induction false} RunAppend(ids: Ids, maxTurns: nat, s: State, xs: seq<Stimulus>, ys: seq<Stimulus>)
    ensures CoordinatorEvents.Run(ids, maxTurns, s, xs + ys) ==
      CoordinatorEvents.Run(ids, maxTurns, CoordinatorEvents.Run(ids, maxTurns, s, xs), ys)
    decreases |xs|
  {
    hide Next;
    if xs == [] {
      assert xs + ys == ys;
    } else {
      assert (xs + ys)[1..] == xs[1..] + ys;
      RunAppend(ids, maxTurns, Next(ids, maxTurns, s, xs[0]), xs[1..], ys);
    }
  }

  lemma CompleteStays(ids: Ids, maxTurns: nat, s: State, xs: seq<Stimulus>, w: Watch)
    requires Ledger(s, w) && w.id in s.turns && s.turns[w.id].Complete?
    ensures var later := CoordinatorEvents.Run(ids, maxTurns, s, xs);
      w.id in later.turns && later.turns[w.id] == s.turns[w.id]
  {
    hide OnePair, NoPair, RequestOf, OnlyPending, Accounted, Entries, Commits, Due, SettlingOf;
    hide CoordinatorEvents.Run, Spoilings;
    RunLedger(ids, maxTurns, s, xs, w.(complete := Some(s.turns[w.id])));
  }

  /**
   Once a turn is complete, it stays stored with the same result in every continuation of the run, and submitting its
   interaction again at any later point, with the same input or other, changes nothing: no event, no engine request.
   */
  lemma CompletedReplays(
    ids: Ids, maxTurns: nat, xs: seq<Stimulus>, ys: seq<Stimulus>, i: TurnInput, aborted: bool)
    requires var turns := CoordinatorEvents.Run(ids, maxTurns, INITIAL, xs).turns;
      i.interactionId in turns && turns[i.interactionId].Complete?
    ensures var turns := CoordinatorEvents.Run(ids, maxTurns, INITIAL, xs).turns;
      var later := CoordinatorEvents.Run(ids, maxTurns, INITIAL, xs + ys);
      && i.interactionId in later.turns && later.turns[i.interactionId] == turns[i.interactionId]
      && Next(ids, maxTurns, later, SubmitTurn(i, aborted)) == later
  {
    hide Ledger, CoordinatorEvents.Run, Spoilings, ValidTurnInput, Emit;
    var id := i.interactionId;
    InitialLedger(id);
    RunLedger(ids, maxTurns, INITIAL, xs, Watch(id, 0, None));
    CompleteStays(ids, maxTurns, CoordinatorEvents.Run(ids, maxTurns, INITIAL, xs), ys,
      Watch(id, Spoilings(ids, maxTurns, INITIAL, xs, id), None));
    RunAppend(ids, maxTurns, INITIAL, xs, ys);
  }
}
