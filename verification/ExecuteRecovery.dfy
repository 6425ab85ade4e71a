/**
 The recovery promise: when an execute is uncertain, asking again resolves it.
 It does just when the worker has an answer to the request, and two kinds of
 request never get one: those with an id that the adapter takes and the runtime
 refuses, and those whose turn breaks the interpreter.
 */
module ExecuteRecovery {
  import opened Wrappers
  import opened Bytes
  import opened EngineTypes
  import opened Machine
  import opened Messages
  import opened Runtime
  import opened RuntimeReplay
  import opened RuntimeSafety
  import opened Protocol
  import opened ProtocolInvariant
  import opened ProtocolSafety
  import opened ProtocolSteps
  import opened ExactlyOnce
  import Adapter
  import CanonicalCommand
  import Journal
  import Session
  import Text
  import Utf8

  // What the worker has an answer to

  predicate Answerable<M>(c: Config<M>, w: RuntimeState<M>, input: ExecuteRequest) {
    ExecuteStep(c, w, input).1.ExecuteDone?
  }

  /** The request reaches the interpreter, and the turn breaks, or the session was broken before. */
  predicate Breaks<M>(c: Config<M>, w: RuntimeState<M>, input: ExecuteRequest) {
    Reaches(c, w, input) && Session.AfterExecute(c.story, w.session.value, input.command).1.Broken?
  }

  /** Of all that the adapter submits, just these two kinds of request get an error from a booted worker. */
  lemma AnswerableIff<M>(c: Config<M>, w: RuntimeState<M>, input: ExecuteRequest)
    requires c.maxReceipts <= Journal.MAX_RECEIPTS && Inv(c, w) && w.session.Some? && Adapter.Admitted(input)
    ensures Answerable(c, w, input) <==> BoundedId(input.requestId) && !Breaks(c, w, input)
    ensures ExecuteStep(c, w, input) == (w, Error(InvalidRequest)) <==> !BoundedId(input.requestId)
  {
    hide Inv, BoundedId, CanonicalCommand.IsCanonical, WorstCase, Journal.ReceiptBytes, Lookup, Commit, CanRecord,
      Session.AfterExecute;
    RevisionBounded(c, w);
    if Reaches(c, w, input) {
      ReachesCommit(c, w, input);
      CommitRecords(c, w, input);
    }
  }

  /** Nothing that can be under way while the request is in doubt changes whether it has an answer. */
  lemma AnswerableKept<M>(c: Config<M>, w: RuntimeState<M>, m: RequestMessage, input: ExecuteRequest)
    requires c.maxReceipts <= Journal.MAX_RECEIPTS && Inv(c, w)
    requires m.request == Execute(input) || m.request == Inspect || m.request == Snapshot
    ensures Answerable(c, Handle(c, w, m).0, input) <==> Answerable(c, w, input)
  {
    hide Inv, ExecuteStep, BoundedId, SnapshotStep;
    RetryIsIdempotent(c, w, input);
  }

  // In doubt

  /** The request is under way or uncertain. */
  predicate InDoubt(a: Adapter.State, input: ExecuteRequest) {
    || a.operation == Some(Execute(input))
    || (a.recovery == Adapter.ExecuteUncertain(input) && (a.operation == None || a.operation == Some(Inspect)))
  }

  lemma UnderWay<M>(c: Config<M>, sys: System<M>, input: ExecuteRequest)
    requires SystemInv(c, sys) && InDoubt(sys.adapter, input) && sys.inHand.Some?
    ensures var m := sys.inHand.value;
      m.request == Execute(input) || m.request == Inspect || m.request == Snapshot
  {
    hide Inv, AnswersInv, Simulates, RunsInv, DeliveredInv, Adapter.Admitted, Addressed, AnsweredLast;
    assert Queue(sys)[0] == sys.inHand.value;
    assert Allowed(sys.adapter, sys.pending, Queue(sys)[0]);
  }

  /** The uncertain request stays so. */
  predicate StaysUncertain(a: Adapter.State, a': Adapter.State, input: ExecuteRequest) {
    InDoubt(a', input) && (a.recovery == Adapter.ExecuteUncertain(input) ==> a'.recovery == a.recovery)
  }

  lemma AskStays<M>(
    c: Config<M>, b: Adapter.Binding, sys: System<M>, messageId: string, call: Request, input: ExecuteRequest)
    requires SystemInv(c, sys) && InDoubt(sys.adapter, input)
    ensures StaysUncertain(sys.adapter, Next(c, b, sys, Ask(messageId, call)).adapter, input)
  {
    hide Inv, Adapter.Begin, Adapter.Admitted, Simulates, AnswersInv, RunsInv, DeliveredInv, WorkInv, OperationFits;
    hide Addressed, PendingLast, AnsweredLast;
    if messageId !in sys.usedIds && Adapter.Begin(c.digest, sys.adapter, call).Submitted? {
      SubmittedFacts(c.digest, sys.adapter, call);
      OnlyTheRetry(c.digest, sys.adapter, call);
    }
  }

  /** What an outcome other than an execute result does. */
  lemma SettleStays<M>(c: Config<M>, b: Adapter.Binding, sys: System<M>, o: Adapter.Outcome, input: ExecuteRequest)
    requires InDoubt(sys.adapter, input) && OperationFits(sys.adapter) && Awaiting(sys)
    requires o.Reply? && sys.adapter.operation == Some(Execute(input)) ==> !o.response.ExecuteDone?
    ensures StaysUncertain(sys.adapter, Settle(c, b, sys, o).adapter, input)
    ensures Settle(c, b, sys, o).worker == sys.worker
  {
    hide Adapter.Admitted, Adapter.ValidExecuteResult;
  }

  /** The reply that comes next is no execute result: it would be the answer that there is none of. */
  lemma NoResult<M>(c: Config<M>, sys: System<M>, input: ExecuteRequest)
    requires SystemInv(c, sys) && !Answerable(c, sys.worker, input)
    requires sys.toHost != [] && sys.pending == Some(sys.toHost[0].messageId)
    requires sys.adapter.operation == Some(Execute(input))
    ensures !sys.toHost[0].response.ExecuteDone?
  {
    hide Inv, MailInv, WorkInv, OperationFits, Simulates, RunsInv, DeliveredInv, ExecuteStep;
    if !sys.toHost[0].response.Error? {
      assert Fits(c, sys.adapter, sys.worker, sys.toHost[0].response);
    }
  }

  lemma InvFacts<M>(c: Config<M>, sys: System<M>)
    requires SystemInv(c, sys)
    ensures Inv(c, sys.worker) && OperationFits(sys.adapter) && Adapter.Coherent(sys.adapter)
    ensures sys.pending.Some? <==> sys.adapter.operation.Some?
    ensures sys.adapter.confirmed.Some? ==> sys.worker.session.Some?
  {
    hide Inv, OperationFits, Adapter.Coherent, Addressed, PendingLast, AnsweredLast, WorkInv, AnswersInv, RunsInv,
      DeliveredInv;
  }

  lemma NextStays<M>(c: Config<M>, b: Adapter.Binding, sys: System<M>, event: Event, input: ExecuteRequest)
    requires ValidLimits(c) && SystemInv(c, sys) && InDoubt(sys.adapter, input) && !Answerable(c, sys.worker, input)
    ensures var sys' := Next(c, b, sys, event);
      StaysUncertain(sys.adapter, sys'.adapter, input) && !Answerable(c, sys'.worker, input)
  {
    hide SystemInv, ValidLimits, Answerable, Settle, Awaiting, Inv, OperationFits, Adapter.Coherent, Handle, RunsAfter;
    InvFacts(c, sys);
    match event {
      case Ask(messageId, call) => AskStays(c, b, sys, messageId, call, input);
      case Complete =>
        if sys.inHand.Some? {
          LimitsFacts(c);
          UnderWay(c, sys, input);
          AnswerableKept(c, sys.worker, sys.inHand.value, input);
        }
      case Receive =>
        if sys.toHost != [] && sys.pending == Some(sys.toHost[0].messageId) && Awaiting(sys) {
          var rest := sys.(toHost := sys.toHost[1..]);
          AwaitingFacts(sys, rest);
          if sys.adapter.operation == Some(Execute(input)) {
            NoResult(c, sys, input);
          }
          SettleStays(c, b, rest, Adapter.Reply(sys.toHost[0].response), input);
        }
      case GiveUp =>
        if Awaiting(sys) {
          SettleStays(c, b, sys, Adapter.Lost, input);
        }
      case _ =>
    }
  }

  /** A request in doubt that has no answer is in doubt for good, and an uncertain one stays uncertain. */
  lemma {:induction false} DoubtForever<M>(
    c: Config<M>, b: Adapter.Binding, sys: System<M>, events: seq<Event>, input: ExecuteRequest)
    requires ValidLimits(c) && SystemInv(c, sys) && InDoubt(sys.adapter, input) && !Answerable(c, sys.worker, input)
    ensures StaysUncertain(sys.adapter, Play(c, b, sys, events).adapter, input)
    decreases |events|
  {
    hide SystemInv, ValidLimits, Answerable, Next;
    if events != [] {
      NextKeeps(c, b, sys, events[0]);
      NextStays(c, b, sys, events[0], input);
      DoubtForever(c, b, Next(c, b, sys, events[0]), events[1..], input);
    }
  }

  // Asking again

  /** Nothing is lost; the adapter may give an exchange up. */
  predicate LossFree(events: seq<Event>) {
    forall i :: 0 <= i < |events| ==> !events[i].LoseRequest? && !events[i].LoseReply?
  }

  /** Only an execute has a signal; that another exchange is given up takes a transport that times out. */
  predicate Signalled<M>(sys: System<M>, event: Event) {
    event.GiveUp? && sys.adapter.operation.Some? ==> sys.adapter.operation.value.Execute?
  }

  /** Every give-up of these events is one that a signal asked for. */
  ghost predicate Prompted<M>(c: Config<M>, b: Adapter.Binding, sys: System<M>, events: seq<Event>)
    decreases |events|
  {
    events == [] || (Signalled(sys, events[0]) && Prompted(c, b, Next(c, b, sys, events[0]), events[1..]))
  }

  /** The exchange that the adapter awaits is nowhere under way, neither as a request nor as a reply. */
  ghost predicate Lost<M>(sys: System<M>) {
    && sys.pending.Some?
    && (forall i :: 0 <= i < |Queue(sys)| ==> Queue(sys)[i].messageId != sys.pending.value)
    && (forall j :: 0 <= j < |sys.toHost| ==> sys.toHost[j].messageId != sys.pending.value)
  }

  ghost predicate LostInspection<M>(sys: System<M>) {
    sys.adapter.operation == Some(Inspect) && Lost(sys)
  }

  /** The caller asks for nothing but this execute. */
  predicate OnlyAsks(events: seq<Event>, input: ExecuteRequest) {
    forall i :: 0 <= i < |events| && events[i].Ask? ==> events[i].call == Execute(input)
  }

  predicate Resolved(a: Adapter.State) {
    a.recovery.Ready? && a.operation == None
  }

  /** How much is under way, in steps until it is gone. */
  function Load<M>(sys: System<M>): nat {
    3 * |sys.toWorker| + (if sys.inHand.Some? then 2 else 0) + |sys.toHost|
  }

  predicate Still<M>(sys: System<M>) {
    sys.toWorker == [] && sys.inHand == None && sys.toHost == []
  }

  /** The next thing to happen when nobody does anything. */
  function Settling<M>(sys: System<M>): Event {
    if sys.inHand.Some? then Complete else if sys.toWorker != [] then Deliver else Receive
  }

  lemma UncertainInDoubt<M>(c: Config<M>, sys: System<M>, input: ExecuteRequest)
    requires SystemInv(c, sys) && sys.adapter.recovery == Adapter.ExecuteUncertain(input)
    ensures InDoubt(sys.adapter, input)
  {
    hide Inv, Addressed, PendingLast, AnsweredLast, WorkInv, Simulates, AnswersInv, RunsInv, DeliveredInv, Adapter.Admitted;
  }

  /** The doubt stays what it is, and what was awaited still is, unless it has come. */
  ghost predicate Continues<M>(c: Config<M>, sys: System<M>, sys': System<M>, input: ExecuteRequest) {
    && sys'.adapter.recovery == sys.adapter.recovery
    && (Answerable(c, sys'.worker, input) <==> Answerable(c, sys.worker, input))
    && (sys'.adapter.operation == None || sys'.adapter.operation == sys.adapter.operation)
    && (Lost(sys') ==> Lost(sys))
  }

  lemma MovesOn<M>(sys: System<M>, sys': System<M>)
    requires sys.inHand == None && sys.toWorker != []
    requires sys' == sys.(toWorker := sys.toWorker[1..], inHand := Some(sys.toWorker[0]))
    ensures Lost(sys') <==> Lost(sys)
  {
    assert Queue(sys') == Queue(sys);
  }

  lemma CompletesOn<M>(sys: System<M>, sys': System<M>, answer: Response)
    requires sys.inHand.Some? && sys'.inHand == None && sys'.toWorker == sys.toWorker && sys'.pending == sys.pending
    requires sys'.toHost == sys.toHost + [ResponseMessage(sys.inHand.value.messageId, answer)]
    ensures Lost(sys') ==> Lost(sys)
  {
    assert Queue(sys) == [sys.inHand.value] + Queue(sys');
    if Lost(sys') {
      assert sys'.toHost[|sys.toHost|].messageId != sys'.pending.value;
      assert forall j :: 0 <= j < |sys.toHost| ==> sys.toHost[j] == sys'.toHost[j];
    }
  }

  lemma ReceivesOn<M>(sys: System<M>, sys': System<M>)
    requires sys.toHost != [] && sys.pending != Some(sys.toHost[0].messageId)
    requires sys' == sys.(toHost := sys.toHost[1..])
    ensures Lost(sys') <==> Lost(sys)
  {
    assert Queue(sys') == Queue(sys);
    assert forall j :: 0 <= j < |sys'.toHost| ==> sys'.toHost[j] == sys.toHost[j + 1];
    assert forall j :: 0 < j < |sys.toHost| ==> sys.toHost[j] == sys'.toHost[j - 1];
  }

  /** An outcome ends the wait; if it does not resolve the execute, the doubt stays. */
  lemma SettleContinues<M>(c: Config<M>, b: Adapter.Binding, sys: System<M>, o: Adapter.Outcome, input: ExecuteRequest)
    requires sys.adapter.recovery == Adapter.ExecuteUncertain(input) && InDoubt(sys.adapter, input) && Awaiting(sys)
    ensures var sys' := Settle(c, b, sys, o);
      && sys'.worker == sys.worker && sys'.pending == None && sys'.adapter.operation == None
      && (sys'.adapter.recovery.Ready? || sys'.adapter.recovery == sys.adapter.recovery)
      && (o.Lost? ==> sys'.adapter.recovery == sys.adapter.recovery)
      && sys'.usedIds == sys.usedIds
      && sys'.toWorker == sys.toWorker && sys'.inHand == sys.inHand && sys'.toHost == sys.toHost
  {
    hide Adapter.Admitted, Adapter.ValidExecuteResult;
  }

  lemma SettlingStep<M>(c: Config<M>, b: Adapter.Binding, sys: System<M>, input: ExecuteRequest)
    requires ValidLimits(c) && SystemInv(c, sys) && !Still(sys)
    requires sys.adapter.recovery == Adapter.ExecuteUncertain(input)
    ensures var sys' := Next(c, b, sys, Settling(sys));
      && Load(sys') < Load(sys) && sys'.usedIds == sys.usedIds
      && (Resolved(sys'.adapter) || Continues(c, sys, sys', input))
  {
    hide SystemInv, ValidLimits, Answerable, Settle, Inv, OperationFits, Adapter.Coherent, Handle, RunsAfter, Lost,
      Awaiting;
    InvFacts(c, sys);
    UncertainInDoubt(c, sys, input);
    var sys' := Next(c, b, sys, Settling(sys));
    if sys.inHand.Some? {
      LimitsFacts(c);
      UnderWay(c, sys, input);
      AnswerableKept(c, sys.worker, sys.inHand.value, input);
      CompletesOn(sys, sys', Handle(c, sys.worker, sys.inHand.value).1);
    } else if sys.toWorker != [] {
      MovesOn(sys, sys');
    } else {
      var rest := sys.(toHost := sys.toHost[1..]);
      if sys.pending == Some(sys.toHost[0].messageId) {
        assert Awaiting(sys) by {
          IsAwaiting(c, sys);
        }
        AwaitingFacts(sys, rest);
        SettleContinues(c, b, rest, Adapter.Reply(sys.toHost[0].response), input);
        assert !Lost(sys') by {
          NothingLost(sys');
        }
      } else {
        ReceivesOn(sys, rest);
      }
    }
  }

  lemma IsAwaiting<M>(c: Config<M>, sys: System<M>)
    requires SystemInv(c, sys) && sys.pending.Some?
    ensures Awaiting(sys)
  {
    hide SystemInv, Adapter.Coherent;
    InvFacts(c, sys);
  }

  lemma NothingLost<M>(sys: System<M>)
    requires sys.pending == None
    ensures !Lost(sys)
  {
  }

  lemma PlayCons<M>(c: Config<M>, b: Adapter.Binding, sys: System<M>, event: Event, events: seq<Event>)
    ensures Play(c, b, sys, [event] + events) == Play(c, b, Next(c, b, sys, event), events)
  {
    hide Next;
    assert ([event] + events)[1..] == events;
  }

  lemma {:induction false} PlayAppend<M>(
    c: Config<M>, b: Adapter.Binding, sys: System<M>, first: seq<Event>, second: seq<Event>)
    ensures Play(c, b, sys, first + second) == Play(c, b, Play(c, b, sys, first), second)
    decreases |first|
  {
    hide Next;
    if first == [] {
      assert first + second == second;
    } else {
      assert (first + second)[1..] == first[1..] + second;
      PlayAppend(c, b, Next(c, b, sys, first[0]), first[1..], second);
    }
  }

  lemma {:induction false} PromptedAppend<M>(
    c: Config<M>, b: Adapter.Binding, sys: System<M>, first: seq<Event>, second: seq<Event>)
    requires Prompted(c, b, sys, first) && Prompted(c, b, Play(c, b, sys, first), second)
    ensures Prompted(c, b, sys, first + second)
    decreases |first|
  {
    hide Next;
    if first == [] {
      assert first + second == second;
    } else {
      assert (first + second)[1..] == first[1..] + second;
      PromptedAppend(c, b, Next(c, b, sys, first[0]), first[1..], second);
    }
  }

  lemma {:induction false} NothingGivenUp<M>(c: Config<M>, b: Adapter.Binding, sys: System<M>, events: seq<Event>)
    requires forall i :: 0 <= i < |events| ==> !events[i].GiveUp?
    ensures Prompted(c, b, sys, events)
    decreases |events|
  {
    hide Next;
    if events != [] {
      assert forall i :: 0 <= i < |events[1..]| ==> events[1..][i] == events[i + 1];
      NothingGivenUp(c, b, Next(c, b, sys, events[0]), events[1..]);
    }
  }

  /** Left alone, everything under way comes to its end, unless the execute is resolved by it before. */
  lemma {:induction false} Drain<M>(c: Config<M>, b: Adapter.Binding, sys: System<M>, input: ExecuteRequest)
    returns (events: seq<Event>)
    requires ValidLimits(c) && SystemInv(c, sys) && sys.adapter.recovery == Adapter.ExecuteUncertain(input)
    ensures LossFree(events) && OnlyAsks(events, input) && forall i :: 0 <= i < |events| ==> !events[i].GiveUp?
    ensures var sys' := Play(c, b, sys, events);
      && SystemInv(c, sys') && sys'.usedIds == sys.usedIds
      && (Resolved(sys'.adapter) || (Still(sys') && Continues(c, sys, sys', input)))
    decreases Load(sys)
  {
    hide SystemInv, ValidLimits, Answerable, Next, Load, Lost;
    if Still(sys) {
      events := [];
    } else {
      var event := Settling(sys);
      var sys1 := Next(c, b, sys, event);
      NextKeeps(c, b, sys, event);
      SettlingStep(c, b, sys, input);
      var later := [];
      if Resolved(sys1.adapter) {
        PlayNothing(c, b, sys1);
      } else {
        later := Drain(c, b, sys1, input);
      }
      events := [event] + later;
      PlayCons(c, b, sys, event, later);
    }
  }

  lemma PlayNothing<M>(c: Config<M>, b: Adapter.Binding, sys: System<M>)
    ensures Play(c, b, sys, []) == sys
  {
  }

  /** The exchange of a request, undisturbed. */
  function Exchange(messageId: string, call: Request): seq<Event> {
    [Ask(messageId, call), Deliver, Complete, Receive]
  }

  /** A request that is submitted while nothing is under way comes back with the worker's answer. */
  lemma Exchanged<M>(c: Config<M>, b: Adapter.Binding, sys: System<M>, messageId: string, call: Request)
    requires ValidLimits(c) && SystemInv(c, sys) && Still(sys) && messageId !in sys.usedIds
    requires Adapter.Begin(c.digest, sys.adapter, call).Submitted?
    ensures var a := sys.adapter.(operation := Some(call));
      var (w, answer) := Handle(c, sys.worker, RequestMessage(messageId, call));
      var sys' := Play(c, b, sys, Exchange(messageId, call));
      && Adapter.Coherent(a) && sys'.adapter == Adapter.Finish(b, c.digest, a, Adapter.Reply(answer)).0
      && sys'.worker == w && (!answer.Error? ==> Fits(c, a, w, answer))
      && SystemInv(c, sys') && Still(sys') && sys'.usedIds == sys.usedIds + {messageId}
  {
    hide Inv, Adapter.Begin, Adapter.Finish, Adapter.Admitted, ValidLimits, Handle, RunsAfter, SystemInv, Fits;
    var m := RequestMessage(messageId, call);
    var answer := Handle(c, sys.worker, m).1;
    InvFacts(c, sys);
    SubmittedFacts(c.digest, sys.adapter, call);
    var s1 := Next(c, b, sys, Ask(messageId, call));
    NextKeeps(c, b, sys, Ask(messageId, call));
    assert s1.toWorker == [m] && s1.inHand == None && s1.toHost == [] && s1.pending == Some(messageId);
    var s2 := Next(c, b, s1, Deliver);
    NextKeeps(c, b, s1, Deliver);
    assert s2.toWorker == [] && s2.inHand == Some(m) && s2.toHost == [];
    var s3 := Next(c, b, s2, Complete);
    NextKeeps(c, b, s2, Complete);
    assert s3.toHost == [ResponseMessage(messageId, answer)] && s3.toWorker == [] && s3.inHand == None;
    NextFits(c, s3);
    var s4 := Next(c, b, s3, Receive);
    NextKeeps(c, b, s3, Receive);
    assert s3.toHost[1..] == [];
    hide Next;
    PlayFour(c, b, sys, Ask(messageId, call), Deliver, Complete, Receive);
  }

  lemma NextFits<M>(c: Config<M>, sys: System<M>)
    requires SystemInv(c, sys) && sys.toHost != [] && sys.pending == Some(sys.toHost[0].messageId)
    ensures !sys.toHost[0].response.Error? ==> Fits(c, sys.adapter, sys.worker, sys.toHost[0].response)
  {
    hide Inv, MailInv, WorkInv, OperationFits, Simulates, RunsInv, DeliveredInv, Fits;
  }

  /** Asked again under a fresh id, a request that has an answer is resolved. */
  lemma AskedAgain<M>(c: Config<M>, b: Adapter.Binding, sys: System<M>, messageId: string, input: ExecuteRequest)
    requires ValidLimits(c) && SystemInv(c, sys) && Still(sys)
    requires sys.adapter.recovery == Adapter.ExecuteUncertain(input) && sys.adapter.operation == None
    requires BoundedId(messageId) && messageId !in sys.usedIds && Answerable(c, sys.worker, input)
    ensures Resolved(Play(c, b, sys, Exchange(messageId, Execute(input))).adapter)
  {
    hide SystemInv, ValidLimits, ExecuteStep, Play, BoundedId, Adapter.ValidExecuteResult, Adapter.Admitted, Exchange;
    InvFacts(c, sys);
    Exchanged(c, b, sys, messageId, Execute(input));
  }

  /** These events make the adapter ready. */
  ghost predicate Resolves<M>(c: Config<M>, b: Adapter.Binding, sys: System<M>, events: seq<Event>) {
    Resolved(Play(c, b, sys, events).adapter)
  }

  ghost predicate Resolvable<M>(c: Config<M>, b: Adapter.Binding, sys: System<M>) {
    exists events :: Resolves(c, b, sys, events)
  }

  lemma GivenUp<M>(c: Config<M>, b: Adapter.Binding, sys: System<M>, input: ExecuteRequest)
    requires ValidLimits(c) && SystemInv(c, sys) && sys.adapter.recovery == Adapter.ExecuteUncertain(input)
    requires sys.pending.Some?
    ensures var sys' := Next(c, b, sys, GiveUp);
      && SystemInv(c, sys') && sys'.adapter.recovery == sys.adapter.recovery && sys'.adapter.operation == None
      && sys'.usedIds == sys.usedIds && sys'.worker == sys.worker && (Still(sys) ==> Still(sys'))
  {
    hide SystemInv, ValidLimits, Inv, Settle, Awaiting;
    UncertainInDoubt(c, sys, input);
    IsAwaiting(c, sys);
    SettleContinues(c, b, sys, Adapter.Lost, input);
    NextKeeps(c, b, sys, GiveUp);
  }

  lemma StillIsLost<M>(sys: System<M>)
    requires Still(sys) && sys.pending.Some?
    ensures Lost(sys)
  {
  }

  /** When nothing is under way, what is still awaited is lost: it is given up, and then the request is asked again. */
  lemma RecoveryWhenStill<M>(c: Config<M>, b: Adapter.Binding, sys: System<M>, messageId: string, input: ExecuteRequest)
    returns (events: seq<Event>)
    requires ValidLimits(c) && SystemInv(c, sys) && sys.adapter.recovery == Adapter.ExecuteUncertain(input) && Still(sys)
    requires BoundedId(messageId) && messageId !in sys.usedIds && Answerable(c, sys.worker, input)
    ensures LossFree(events) && OnlyAsks(events, input) && Resolves(c, b, sys, events)
    ensures !LostInspection(sys) ==> Prompted(c, b, sys, events)
  {
    hide SystemInv, ValidLimits, Answerable, Next, Play, BoundedId, Lost, Still, Inv, OperationFits, Adapter.Coherent;
    InvFacts(c, sys);
    var again := Exchange(messageId, Execute(input));
    if sys.adapter.operation == None {
      AskedAgain(c, b, sys, messageId, input);
      NothingGivenUp(c, b, sys, again);
      events := again;
    } else {
      UncertainInDoubt(c, sys, input);
      StillIsLost(sys);
      GivenUp(c, b, sys, input);
      var s1 := Next(c, b, sys, GiveUp);
      AskedAgain(c, b, s1, messageId, input);
      NothingGivenUp(c, b, s1, again);
      hide Prompted, Exchange;
      PlayCons(c, b, sys, GiveUp, again);
      PromptedCons(c, b, sys, GiveUp, again);
      events := [GiveUp] + again;
    }
  }

  lemma PromptedCons<M>(c: Config<M>, b: Adapter.Binding, sys: System<M>, event: Event, events: seq<Event>)
    ensures Prompted(c, b, sys, [event] + events) <==>
      Signalled(sys, event) && Prompted(c, b, Next(c, b, sys, event), events)
  {
    hide Next;
    assert ([event] + events)[1..] == events;
  }

  /** The constructive half: let everything come to its end, give up only what is lost, and ask again. */
  lemma Recovery<M>(c: Config<M>, b: Adapter.Binding, sys: System<M>, messageId: string, input: ExecuteRequest)
    returns (events: seq<Event>)
    requires ValidLimits(c) && SystemInv(c, sys) && sys.adapter.recovery == Adapter.ExecuteUncertain(input)
    requires BoundedId(messageId) && messageId !in sys.usedIds && Answerable(c, sys.worker, input)
    ensures LossFree(events) && OnlyAsks(events, input) && Resolves(c, b, sys, events)
    ensures !LostInspection(sys) ==> Prompted(c, b, sys, events)
  {
    hide SystemInv, ValidLimits, Answerable, Next, Play, BoundedId, Lost, Prompted;
    var settling := Drain(c, b, sys, input);
    NothingGivenUp(c, b, sys, settling);
    var s1 := Play(c, b, sys, settling);
    if Resolved(s1.adapter) {
      events := settling;
    } else {
      var again := RecoveryWhenStill(c, b, s1, messageId, input);
      PlayAppend(c, b, sys, settling, again);
      events := settling + again;
      if !LostInspection(sys) {
        PromptedAppend(c, b, sys, settling, again);
      }
    }
  }

  /** A lost inspection is awaited until somebody gives it up. */
  lemma LostStays<M>(c: Config<M>, b: Adapter.Binding, sys: System<M>, event: Event)
    requires SystemInv(c, sys) && sys.adapter.recovery.ExecuteUncertain? && LostInspection(sys) && Signalled(sys, event)
    ensures var sys' := Next(c, b, sys, event);
      sys'.adapter == sys.adapter && LostInspection(sys')
  {
    hide SystemInv, Adapter.Begin, Adapter.Finish, Handle, RunsAfter, Settle, Awaiting, Lost, Inv, OperationFits,
      Adapter.Coherent, Without;
    InvFacts(c, sys);
    var sys' := Next(c, b, sys, event);
    match event {
      case Ask(messageId, call) =>
        if Adapter.Begin(c.digest, sys.adapter, call).Submitted? {
          SubmittedFacts(c.digest, sys.adapter, call);
        }
      case Receive =>
        if sys.toHost != [] {
          assert sys.pending != Some(sys.toHost[0].messageId) by {
            LostFacts(sys);
          }
          ReceivesOn(sys, sys');
        }
      case Deliver =>
        if sys.toWorker != [] {
          LostDelivered(sys);
        }
      case Complete =>
        if sys.inHand.Some? {
          LostCompleted(sys, sys', Handle(c, sys.worker, sys.inHand.value).1);
        }
      case LoseRequest(i) =>
        if i < |sys.toWorker| {
          FewerRequests(sys, i);
        }
      case LoseReply(i) =>
        if i < |sys.toHost| {
          LostReplied(sys, i);
        }
      case GiveUp =>
    }
  }

  lemma LostFacts<M>(sys: System<M>)
    requires Lost(sys)
    ensures forall j :: 0 <= j < |sys.toHost| ==> sys.pending != Some(sys.toHost[j].messageId)
  {
  }

  lemma LostDelivered<M>(sys: System<M>)
    requires Lost(sys) && sys.toWorker != []
    ensures Lost(DeliverStep(sys))
  {
    var sys' := DeliverStep(sys);
    if sys.inHand == None {
      MovesOn(sys, sys');
    } else {
      assert Queue(sys)[1] == sys.toWorker[0];
      assert forall i :: 0 <= i < |Queue(sys')| ==> Queue(sys')[i] == Queue(sys)[if i == 0 then 0 else i + 1];
    }
  }

  lemma LostCompleted<M>(sys: System<M>, sys': System<M>, answer: Response)
    requires Lost(sys) && sys.inHand.Some? && sys'.inHand == None && sys'.toWorker == sys.toWorker
    requires sys'.pending == sys.pending
    requires sys'.toHost == sys.toHost + [ResponseMessage(sys.inHand.value.messageId, answer)]
    ensures Lost(sys')
  {
    assert Queue(sys)[0] == sys.inHand.value;
    assert forall i :: 0 <= i < |Queue(sys')| ==> Queue(sys')[i] == Queue(sys)[i + 1];
  }

  lemma FewerRequests<M>(sys: System<M>, k: nat)
    requires Lost(sys) && k < |sys.toWorker|
    ensures Lost(sys.(toWorker := Without(sys.toWorker, k)))
  {
    var sys' := sys.(toWorker := Without(sys.toWorker, k));
    var n := if sys.inHand.Some? then k + 1 else k;
    assert forall i :: 0 <= i < |Queue(sys')| ==> Queue(sys')[i] == Queue(sys)[if i < n then i else i + 1];
  }

  lemma LostReplied<M>(sys: System<M>, k: nat)
    requires Lost(sys) && k < |sys.toHost|
    ensures Lost(sys.(toHost := Without(sys.toHost, k)))
  {
    var sys' := sys.(toHost := Without(sys.toHost, k));
    assert Queue(sys') == Queue(sys);
    assert forall j :: 0 <= j < |sys'.toHost| ==> sys'.toHost[j] == sys.toHost[if j < k then j else j + 1];
  }

  lemma {:induction false} LostForever<M>(c: Config<M>, b: Adapter.Binding, sys: System<M>, events: seq<Event>)
    requires ValidLimits(c) && SystemInv(c, sys) && sys.adapter.recovery.ExecuteUncertain? && LostInspection(sys)
    requires Prompted(c, b, sys, events)
    ensures Play(c, b, sys, events).adapter == sys.adapter
    decreases |events|
  {
    hide SystemInv, ValidLimits, Next, LostInspection;
    if events != [] {
      NextKeeps(c, b, sys, events[0]);
      LostStays(c, b, sys, events[0]);
      LostForever(c, b, Next(c, b, sys, events[0]), events[1..]);
    }
  }

  /** The same over a transport that only ends an exchange early when its signal asks for it. */
  ghost predicate PromptlyResolvable<M>(c: Config<M>, b: Adapter.Binding, sys: System<M>) {
    exists events :: Prompted(c, b, sys, events) && Resolves(c, b, sys, events)
  }

  lemma NotPromptly<M>(c: Config<M>, b: Adapter.Binding, sys: System<M>)
    requires ValidLimits(c) && SystemInv(c, sys) && sys.adapter.recovery.ExecuteUncertain? && LostInspection(sys)
    ensures !PromptlyResolvable(c, b, sys)
  {
    hide SystemInv, ValidLimits, Play, Prompted, LostInspection;
    forall events | Prompted(c, b, sys, events)
      ensures !Resolves(c, b, sys, events)
    {
      LostForever(c, b, sys, events);
    }
  }

  /**
   The exact condition of recovery, in every run: an uncertain execute can be resolved by some continuation if and only
   if its id is one that the runtime takes and its turn does not break the interpreter. If so, a continuation that
   loses nothing resolves it; if not, no continuation at all does. Where no exchange but an execute is ever given up,
   one condition comes in addition: no inspection that is still awaited may have been lost.
   */
  lemma ResolvableIff<M>(c: Config<M>, b: Adapter.Binding, events: seq<Event>, messageId: string, input: ExecuteRequest)
    requires ValidLimits(c) && BoundedId(messageId) && messageId !in Reached(c, b, events).usedIds
    requires Reached(c, b, events).adapter.recovery == Adapter.ExecuteUncertain(input)
    ensures var sys := Reached(c, b, events);
      && (Resolvable(c, b, sys) <==> BoundedId(input.requestId) && !Breaks(c, sys.worker, input))
      && (Resolvable(c, b, sys) ==> exists more :: LossFree(more) && Resolves(c, b, sys, more))
      && (PromptlyResolvable(c, b, sys) <==> Resolvable(c, b, sys) && !LostInspection(sys))
      && (PromptlyResolvable(c, b, sys) ==>
        exists more :: LossFree(more) && Prompted(c, b, sys, more) && Resolves(c, b, sys, more))
  {
    hide SystemInv, ValidLimits, Answerable, Play, BoundedId, Breaks, Reached, LossFree, Inv, Adapter.Admitted, Prompted,
      LostInspection;
    var sys := Reached(c, b, events);
    ReachedHolds(c, b, events);
    InvFacts(c, sys);
    LimitsFacts(c);
    AnswerableIff(c, sys.worker, input);
    if Answerable(c, sys.worker, input) {
      var more := Recovery(c, b, sys, messageId, input);
      assert LossFree(more) && Resolves(c, b, sys, more);
      if LostInspection(sys) {
        NotPromptly(c, b, sys);
      }
    } else {
      UncertainInDoubt(c, sys, input);
      forall more
        ensures !Resolves(c, b, sys, more)
      {
        DoubtForever(c, b, sys, more, input);
      }
    }
  }

  lemma PlayFour<M>(c: Config<M>, b: Adapter.Binding, sys: System<M>, e1: Event, e2: Event, e3: Event, e4: Event)
    ensures Play(c, b, sys, [e1, e2, e3, e4]) == Next(c, b, Next(c, b, Next(c, b, Next(c, b, sys, e1), e2), e3), e4)
  {
    hide Next;
    var s1 := Next(c, b, sys, e1);
    var s2 := Next(c, b, s1, e2);
    var s3 := Next(c, b, s2, e3);
    assert [e1, e2, e3, e4] == [e1] + [e2, e3, e4] && [e2, e3, e4] == [e2] + [e3, e4] && [e3, e4] == [e3] + [e4];
    assert [e4] == [e4] + [];
    PlayCons(c, b, sys, e1, [e2, e3, e4]);
    PlayCons(c, b, s1, e2, [e3, e4]);
    PlayCons(c, b, s2, e3, [e4]);
    PlayCons(c, b, s3, e4, []);
  }

  // Requests that are never resolved

  /** A request that has no answer: asking is all it takes to be in doubt for good. */
  lemma AskedInVain<M>(c: Config<M>, b: Adapter.Binding, sys: System<M>, messageId: string, input: ExecuteRequest)
    requires ValidLimits(c) && SystemInv(c, sys) && Still(sys) && messageId !in sys.usedIds
    requires Adapter.Begin(c.digest, sys.adapter, Execute(input)).Submitted? && !Answerable(c, sys.worker, input)
    ensures var sys' := Play(c, b, sys, Exchange(messageId, Execute(input)));
      sys'.adapter.recovery == Adapter.ExecuteUncertain(input) && !Resolvable(c, b, sys')
  {
    hide SystemInv, ValidLimits, ExecuteStep, Play, BoundedId, Adapter.ValidExecuteResult, Adapter.Admitted, Exchange,
      Adapter.Begin, Inv, Fits;
    InvFacts(c, sys);
    LimitsFacts(c);
    Exchanged(c, b, sys, messageId, Execute(input));
    AnswerableKept(c, sys.worker, RequestMessage(messageId, Execute(input)), input);
    var sys' := Play(c, b, sys, Exchange(messageId, Execute(input)));
    forall more
      ensures !Resolves(c, b, sys', more)
    {
      DoubtForever(c, b, sys', more, input);
    }
  }

  const BELL: string := [7 as char]

  /** An id with a control character: the adapter takes it, no runtime does. */
  lemma AcceptedButRefused<M>(c: Config<M>, w: RuntimeState<M>, a: Adapter.State, revision: nat)
    requires a.confirmed.Some? && a.recovery.Ready? && a.operation == None
    requires a.confirmed.value.boundary == InputRequested && revision <= MAX_SAFE && w.session.Some?
    ensures var input := ExecuteRequest(BELL, revision, "z");
      && Adapter.BeginExecute(a, input).Submitted?
      && ExecuteStep(c, w, input) == (w, Error(InvalidRequest))
  {
    hide CanonicalCommand.IsCanonical, Journal.TextBytes, Lookup;
    assert Text.IsControl(BELL[0]);
    assert Text.HasControl(BELL);
    WaitIsCanonical();
  }

  lemma WaitIsCanonical()
    ensures CanonicalCommand.IsCanonical("z") && Utf8.Utf16Length("z") == 1
  {
    hide CanonicalCommand.Canonicalize, CanonicalCommand.IsCanonical;
    var s := "z";
    assert |s| == 1 && s[0] == 'z';
    assert s[1..] == "";
    assert Utf8.Utf16Length("") == 0;
    assert Utf8.Utf16Length(s) == 1;
    assert !CanonicalCommand.HasSeparator(s);
    assert Text.Trimmed(s) && CanonicalCommand.SingleSpaced(s) && !Text.HasControl(s);
    CanonicalCommand.CanonicalShape(s);
  }

  /** The story starts by asking for a command, and crashes on this one. */
  ghost predicate CrashesOn<M>(story: Story<M>, m: M, command: string) {
    && story.start == Run([], AwaitsInput(m)) && story.resume(m, command) == Run([], Crashed)
    && Utf8.Utf16Length(command) < story.maxLength(m) <= Session.MAX_READ
  }

  function BootOf<M>(c: Config<M>): Request {
    Boot(c.compatibility.storyId, c.compatibility.storySha256)
  }

  ghost predicate BootedAt<M>(w: RuntimeState<M>, m: M) {
    w == RuntimeState(Some(Session.State(0, "", InputRequested, Session.Waiting(m))), [], 0)
  }

  lemma Boots<M>(c: Config<M>, b: Adapter.Binding, m: M)
    requires ValidLimits(c) && Bound(c, b, BootOf(c))
    requires c.story.start == Run([], AwaitsInput(m)) && 1 <= c.story.maxLength(m) <= Session.MAX_READ
    ensures var sys := Play(c, b, Protocol.Initial(), Exchange("a", BootOf(c)));
      && SystemInv(c, sys) && Still(sys) && sys.usedIds == {"a"} && BootedAt(sys.worker, m)
      && sys.adapter == Adapter.State(Some(Adapter.Confirmed(0, InputRequested, c.compatibility)), Adapter.Ready, None)
  {
    hide SystemInv, Play, BoundedId, IsSha256, Exchange, Adapter.NonemptyCompatibility;
    assert WellFormedCompatibility(c.compatibility) by {
      LimitsFacts(c);
    }
    hide ValidLimits;
    CompatibilityNonempty(c.compatibility);
    NonemptyId(c.compatibility.storyId);
    InitialHolds(c);
    ShortId("a");
    Session.EmptyText();
    Exchanged(c, b, Protocol.Initial(), "a", BootOf(c));
    hide Journal.TextBytes;
  }

  lemma ShortId(id: string)
    requires |id| == 1 && 'a' <= id[0] <= 'z'
    ensures BoundedId(id)
  {
    assert id[1..] == "";
    assert Utf8.Encode(id) == Utf8.PutScalar(id[0] as int) + Utf8.Encode("");
  }

  /** The run: boot, and one command, under an id like any other. */
  function CrashRun<M>(c: Config<M>): seq<Event> {
    Exchange("a", BootOf(c)) + Exchange("b", Execute(ExecuteRequest("r", 0, "z")))
  }

  /** From the start: a turn that crashes leaves the adapter uncertain for good, although its id is a good one. */
  lemma CrashedForGood<M>(c: Config<M>, b: Adapter.Binding, m: M)
    requires ValidLimits(c) && Bound(c, b, BootOf(c)) && CrashesOn(c.story, m, "z")
    requires 1 <= c.maxReceipts && c.maxJournalBytes == Journal.MAX_JOURNAL_BYTES
    ensures var input := ExecuteRequest("r", 0, "z");
      var sys := Reached(c, b, CrashRun(c));
      sys.adapter.recovery == Adapter.ExecuteUncertain(input) && BoundedId(input.requestId) && !Resolvable(c, b, sys)
  {
    hide SystemInv, ValidLimits, Play, BoundedId, Exchange, Resolvable, Still, ExecuteStep, CanonicalCommand.IsCanonical;
    var input := ExecuteRequest("r", 0, "z");
    WaitIsCanonical();
    ShortId("r");
    Boots(c, b, m);
    var sys := Play(c, b, Protocol.Initial(), Exchange("a", BootOf(c)));
    CrashBreaks(c, sys.worker, m);
    BrokenAgain(c, sys.worker, input);
    AskedInVain(c, b, sys, "b", input);
    PlayAppend(c, b, Protocol.Initial(), Exchange("a", BootOf(c)), Exchange("b", Execute(input)));
  }

  lemma CrashBreaks<M>(c: Config<M>, w: RuntimeState<M>, m: M)
    requires BootedAt(w, m) && CrashesOn(c.story, m, "z")
    requires 1 <= c.maxReceipts && c.maxJournalBytes == Journal.MAX_JOURNAL_BYTES
    ensures Breaks(c, w, ExecuteRequest("r", 0, "z"))
  {
    hide BoundedId, CanonicalCommand.IsCanonical, WorstCase, Journal.ReceiptBytes, Journal.ValidReceipt, Journal.TextBytes;
    var input := ExecuteRequest("r", 0, "z");
    WaitIsCanonical();
    ShortId("r");
    WorstCaseValid(input);
    Journal.ReceiptBytesBounded(WorstCase(input, 0));
  }
}
