/**
 A run in which one turn commits twice: a bad narration id makes the coordinator
 record a committed turn as uncertain, and its recovery is given the commit again.
 */
module CommittedTwice {
  import opened Wrappers
  import opened EngineTypes
  import opened EventLog
  import opened Coordinator
  import CoordinatorEvents
  import opened CoordinatorLedger
  import Text

  const TURN: TurnInput := TurnInput("a", "a", "t")
  const STATE: PublicState := PublicState(0, "", InputRequested)
  const REQUEST: ExecuteRequest := ExecuteRequest("r", 0, "c")
  const RESULT: ExecuteResult := ExecuteResult("r", 0, 1, "c", "", InputRequested, Committed)

  /** The turn is cancelled after its commit, and the id for saying so is bad. */
  function Spoiling(): seq<Stimulus> {
    [SubmitTurn(TURN, false), GuideAnswers(Command("c"), false, ""), EngineInspected(Some(STATE), false, "r", ""),
     EngineAnswers(Answer(RESULT)), Checkpointed(true, true, "")]
  }

  /** The same turn is submitted again, and nothing goes wrong. */
  function Again(): seq<Stimulus> {
    [SubmitTurn(TURN, false), EngineAnswers(Answer(RESULT)), Checkpointed(true, false, "")]
  }

  function EventAt(ids: Ids, i: nat, cause: nat, payload: Payload): Event {
    Event(ids(i), i + 1, "a", Some(ids(cause)), payload)
  }

  /** The log of the run. */
  function Log(ids: Ids): seq<Event> {
    [Event(ids(0), 1, "a", None, TranscriptFinal("t")),
     EventAt(ids, 1, 0, DecisionProposed),
     EventAt(ids, 2, 1, DecisionAccepted),
     EventAt(ids, 3, 2, CommandRequested("r", 0, "c")),
     EventAt(ids, 4, 3, CommandCommitted("r", 1, "c")),
     EventAt(ids, 5, 4, EngineOutput(1, "")),
     EventAt(ids, 6, 5, SaveCheckpointed),
     EventAt(ids, 7, 3, SystemError("engine-outcome-uncertain")),
     EventAt(ids, 8, 3, SystemRecovered("r")),
     EventAt(ids, 9, 8, CommandCommitted("r", 1, "c")),
     EventAt(ids, 10, 9, EngineOutput(1, "")),
     EventAt(ids, 11, 10, SaveCheckpointed)]
  }

  lemma Known()
    ensures ValidTurnInput(TURN) && !ValidId("") && ValidId("r")
  {
    Text.TrimTrimmed("t");
  }

  lemma Blank()
    ensures SegmentsOf("", false) == []
  {
  }

  function Recorded(ids: Ids): Stored {
    Uncertain("a", TurnResult(UncertainTurn, Log(ids)[..8], None), Recovery(REQUEST, ids(3)))
  }

  /** A state of the run, after so many of its events. */
  function At(ids: Ids, n: nat, stored: Stored, activity: Option<(Kind, Step)>, sent: nat): State
    requires n <= |Log(ids)|
  {
    var log := Log(ids)[..n];
    var entry := ("a", REQUEST);
    State(map["a" := stored], NotOpened, false,
      if activity == None then None else Some(Activity("a", activity.value.0, log, activity.value.1)), log,
      if sent == 0 then [] else [entry], if sent == 0 then [] else if sent == 1 then [entry] else [entry, entry])
  }

  lemma Emitted(ids: Ids, n: nat, cause: Option<string>, payload: Payload)
    requires n < |Log(ids)| && Log(ids)[n] == Event(ids(n), n + 1, "a", cause, payload)
    ensures Emit(ids, Book(Log(ids)[..n], Log(ids)[..n]), "a", cause, payload) ==
      Book(Log(ids)[..n + 1], Log(ids)[..n + 1])
    ensures LastId(Book(Log(ids)[..n + 1], Log(ids)[..n + 1])) == ids(n)
  {
  }

  lemma SubmittedAt(ids: Ids, maxTurns: nat)
    requires maxTurns >= 1
    ensures Next(ids, maxTurns, INITIAL, SubmitTurn(TURN, false)) ==
      At(ids, 1, Pending("a"), Some((NewTurn("a"), AwaitGuide(ids(0)))), 0)
  {
    assert ValidTurnInput(TURN) by {
      Known();
    }
    hide ValidTurnInput, ValidId, SegmentsOf;
    Emitted(ids, 0, None, TranscriptFinal("t"));
    assert Log(ids)[..0] == [];
    hide Emit, Log, LastId;
  }

  lemma GuidedAt(ids: Ids, maxTurns: nat)
    ensures Next(ids, maxTurns, At(ids, 1, Pending("a"), Some((NewTurn("a"), AwaitGuide(ids(0)))), 0),
      GuideAnswers(Command("c"), false, "")) ==
      At(ids, 3, Pending("a"), Some((NewTurn("a"), AwaitInspection(ids(2), "c"))), 0)
  {
    Emitted(ids, 1, Some(ids(0)), DecisionProposed);
    Emitted(ids, 2, Some(ids(1)), DecisionAccepted);
    hide Emit, Log, LastId;
  }

  lemma InspectedAt(ids: Ids, maxTurns: nat)
    ensures Next(ids, maxTurns, At(ids, 3, Pending("a"), Some((NewTurn("a"), AwaitInspection(ids(2), "c"))), 0),
      EngineInspected(Some(STATE), false, "r", "")) ==
      At(ids, 4, Pending("a"), Some((NewTurn("a"), AwaitExecute(ids(3), REQUEST))), 1)
  {
    assert ValidId("r") by {
      Known();
    }
    hide ValidTurnInput, ValidId, SegmentsOf;
    Emitted(ids, 3, Some(ids(2)), CommandRequested("r", 0, "c"));
    hide Emit, Log, LastId, TurnFails, Thrown;
  }

  lemma AnsweredAt(ids: Ids, maxTurns: nat)
    ensures Next(ids, maxTurns, At(ids, 4, Pending("a"), Some((NewTurn("a"), AwaitExecute(ids(3), REQUEST))), 1),
      EngineAnswers(Answer(RESULT))) ==
      At(ids, 6, Pending("a"), Some((NewTurn("a"), AwaitCheckpoint(ids(5), RESULT))), 1)
  {
    Emitted(ids, 4, Some(ids(3)), CommandCommitted("r", 1, "c"));
    Emitted(ids, 5, Some(ids(4)), EngineOutput(1, ""));
    hide Emit, Log, LastId;
  }

  lemma SpoiltAt(ids: Ids, maxTurns: nat)
    ensures Next(ids, maxTurns, At(ids, 6, Pending("a"), Some((NewTurn("a"), AwaitCheckpoint(ids(5), RESULT))), 1),
      Checkpointed(true, true, "")) ==
      At(ids, 8, Recorded(ids), None, 1)
  {
    assert !ValidId("") by {
      Known();
    }
    hide ValidTurnInput, ValidId, SegmentsOf;
    Emitted(ids, 6, Some(ids(5)), SaveCheckpointed);
    Emitted(ids, 7, Some(ids(3)), SystemError("engine-outcome-uncertain"));
    assert RequestOf(Log(ids)[..7]) == Some(Recovery(REQUEST, ids(3))) by {
      RequestAt(ids);
    }
    hide Emit, Log, LastId, RequestOf;
  }

  lemma RequestAt(ids: Ids)
    ensures RequestOf(Log(ids)[..7]) == Some(Recovery(REQUEST, ids(3)))
  {
    var log := Log(ids);
    assert log[..7] == log[0..7];
    RequestFrom(log, 0, 7);
    RequestFrom(log, 1, 7);
    RequestFrom(log, 2, 7);
    RequestFrom(log, 3, 7);
    hide RequestOf;
  }

  lemma RequestFrom(log: seq<Event>, k: nat, n: nat)
    requires k < n <= |log|
    ensures RequestOf(log[k..n]) == match log[k].payload
      case CommandRequested(requestId, revision, command) =>
        Some(Recovery(ExecuteRequest(requestId, revision, command), log[k].id))
      case _ => RequestOf(log[k + 1..n])
  {
    assert log[k..n][1..] == log[k + 1..n];
  }

  lemma ResubmittedAt(ids: Ids, maxTurns: nat)
    ensures Next(ids, maxTurns, At(ids, 8, Recorded(ids), None, 1), SubmitTurn(TURN, false)) ==
      At(ids, 8, Recorded(ids), Some((Recovering(Recorded(ids)), AwaitExecute(ids(3), REQUEST))), 2)
  {
    assert ValidTurnInput(TURN) by {
      Known();
    }
    hide ValidTurnInput, ValidId, SegmentsOf;
    hide Log;
  }

  lemma RecoveredAt(ids: Ids, maxTurns: nat)
    ensures Next(ids, maxTurns,
      At(ids, 8, Recorded(ids), Some((Recovering(Recorded(ids)), AwaitExecute(ids(3), REQUEST))), 2),
      EngineAnswers(Answer(RESULT))) ==
      At(ids, 11, Recorded(ids), Some((Recovering(Recorded(ids)), AwaitCheckpoint(ids(10), RESULT))), 2)
  {
    Emitted(ids, 8, Some(ids(3)), SystemRecovered("r"));
    Emitted(ids, 9, Some(ids(8)), CommandCommitted("r", 1, "c"));
    Emitted(ids, 10, Some(ids(9)), EngineOutput(1, ""));
    hide Emit, Log, LastId;
  }

  lemma CompletedAt(ids: Ids, maxTurns: nat)
    ensures Next(ids, maxTurns,
      At(ids, 11, Recorded(ids), Some((Recovering(Recorded(ids)), AwaitCheckpoint(ids(10), RESULT))), 2),
      Checkpointed(true, false, "")) ==
      At(ids, 12, Complete("a", TurnResult(CommittedTurn, Log(ids)[..12], Some(RESULT))), None, 2)
  {
    var s := At(ids, 11, Recorded(ids), Some((Recovering(Recorded(ids)), AwaitCheckpoint(ids(10), RESULT))), 2);
    var b := Book(Log(ids)[..12], Log(ids)[..12]);
    Emitted(ids, 11, Some(ids(10)), SaveCheckpointed);
    BlankCompletes(ids, maxTurns, s, b, ids(10));
    hide Emit, Log, LastId, Next;
  }

  /** Nothing is said of a blank output, so that no id is asked for. */
  lemma BlankCompletes(ids: Ids, maxTurns: nat, s: State, b: Book, outputId: string)
    requires s.activity.Some? && s.activity.value.step == AwaitCheckpoint(outputId, RESULT)
    requires var a := s.activity.value;
      Emit(ids, Book(s.log, a.local), a.interactionId, Some(outputId), SaveCheckpointed) == b
    ensures Next(ids, maxTurns, s, Checkpointed(true, false, "")) ==
      Completed(s, s.activity.value, b, CommittedTurn, Some(RESULT))
  {
    Blank();
    hide SegmentsOf, Completed, ValidId, Emit, FinishThrown;
  }

  lemma SpoilingRun(ids: Ids, maxTurns: nat)
    requires maxTurns >= 1
    ensures CoordinatorEvents.Run(ids, maxTurns, INITIAL, Spoiling()) == At(ids, 8, Recorded(ids), None, 1)
  {
    SubmittedAt(ids, maxTurns);
    GuidedAt(ids, maxTurns);
    InspectedAt(ids, maxTurns);
    AnsweredAt(ids, maxTurns);
    SpoiltAt(ids, maxTurns);
    hide Next, At;
    var xs := Spoiling();
    assert xs[1..][1..] == xs[2..] && xs[2..][1..] == xs[3..] && xs[3..][1..] == xs[4..] && xs[4..][1..] == [];
  }

  lemma AgainRun(ids: Ids, maxTurns: nat)
    ensures CoordinatorEvents.Run(ids, maxTurns, At(ids, 8, Recorded(ids), None, 1), Again()) ==
      At(ids, 12, Complete("a", TurnResult(CommittedTurn, Log(ids)[..12], Some(RESULT))), None, 2)
  {
    ResubmittedAt(ids, maxTurns);
    RecoveredAt(ids, maxTurns);
    CompletedAt(ids, maxTurns);
    hide Next, At;
    var xs := Again();
    assert xs[1..][1..] == xs[2..] && xs[2..][1..] == [];
  }

  /**
   From the start, a run that records a committed turn as uncertain; and its continuation, at whose end the turn is
   complete and committed while its events hold two commits.
   */
  lemma CommitsTwice(ids: Ids, maxTurns: nat)
    requires maxTurns >= 1
    ensures var s := CoordinatorEvents.Run(ids, maxTurns, INITIAL, Spoiling());
      "a" in s.turns && s.turns["a"].Uncertain? && Commits(s.log, "a") == 1
    ensures var s := CoordinatorEvents.Run(ids, maxTurns, INITIAL, Spoiling() + Again());
      && "a" in s.turns && s.turns["a"].Complete? && s.turns["a"].result.outcome == CommittedTurn
      && s.turns["a"].result.events == s.log && Commits(s.log, "a") == 2
      && !Accounted(s.turns["a"])
  {
    SpoilingRun(ids, maxTurns);
    AgainRun(ids, maxTurns);
    RunAppend(ids, maxTurns, INITIAL, Spoiling(), Again());
    assert Log(ids)[..12] == Log(ids);
    CommitsOf(ids);
    NoSinglePair(ids);
    hide CoordinatorEvents.Run, Log, OnePair;
  }

  lemma CommitsOf(ids: Ids)
    ensures Commits(Log(ids)[..8], "a") == 1 && Commits(Log(ids), "a") == 2
  {
    var log := Log(ids);
    CommitsFrom(log, 0);
    CommitsFrom(log, 1);
    CommitsFrom(log, 2);
    CommitsFrom(log, 3);
    CommitsFrom(log, 4);
    CommitsFrom(log, 5);
    CommitsFrom(log, 6);
    CommitsFrom(log, 7);
    CommitsFrom(log, 8);
    CommitsFrom(log, 9);
    CommitsFrom(log, 10);
    CommitsFrom(log, 11);
    assert log[..12] == log;
    hide Commits;
  }

  lemma CommitsFrom(log: seq<Event>, n: nat)
    requires n < |log|
    ensures Commits(log[..n + 1], "a") == Commits(log[..n], "a") +
      if log[n].payload.CommandCommitted? && log[n].correlationId == "a" then 1 else 0
    ensures Commits(log[..0], "a") == 0
  {
    assert log[..n + 1] == log[..n] + [log[n]];
    CommitsSnoc(log[..n], log[n], "a");
  }

  lemma NoSinglePair(ids: Ids)
    ensures !OnePair(Log(ids))
  {
    var log := Log(ids);
    assert Counts(log[4]) && Counts(log[9]);
  }
}
