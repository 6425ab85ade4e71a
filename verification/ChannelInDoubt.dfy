/**
 What is on its way to the worker while an execute is in doubt. Over a transport
 that ends no snapshot before its time, nothing but that execute and
 inspections; over any transport, no snapshot that was not on its way before.
 */
module ChannelInDoubt {
  import opened Wrappers
  import opened Bytes
  import opened EngineTypes
  import opened Messages
  import opened Runtime
  import opened RuntimeSafety
  import opened Protocol
  import opened ProtocolInvariant
  import opened ProtocolSafety
  import opened ProtocolSteps
  import opened ExactlyOnce
  import opened ExecuteRecovery
  import Adapter

  // No snapshot is given up

  /** A pending snapshot is given up while it, or its reply, is still under way. It has no signal that could ask for it. */
  ghost predicate Deserts<M>(sys: System<M>, event: Event) {
    event.GiveUp? && sys.adapter.operation == Some(Snapshot) && !Lost(sys)
  }

  ghost predicate Attended<M>(c: Config<M>, b: Adapter.Binding, sys: System<M>, events: seq<Event>)
    decreases |events|
  {
    events == [] || (!Deserts(sys, events[0]) && Attended(c, b, Next(c, b, sys, events[0]), events[1..]))
  }

  /** No message id is under way twice, be it as request or as reply. */
  ghost predicate DistinctMail<M>(sys: System<M>) {
    && (forall i, j :: 0 <= i < j < |Queue(sys)| ==> Queue(sys)[i].messageId != Queue(sys)[j].messageId)
    && (forall i, j :: 0 <= i < j < |sys.toHost| ==> sys.toHost[i].messageId != sys.toHost[j].messageId)
    && (forall i, j :: 0 <= i < |Queue(sys)| && 0 <= j < |sys.toHost| ==>
      Queue(sys)[i].messageId != sys.toHost[j].messageId)
  }

  /** A snapshot that the worker has not answered is the one that the adapter awaits. */
  ghost predicate SnapshotsPending<M>(sys: System<M>) {
    forall i :: 0 <= i < |Queue(sys)| && Queue(sys)[i].request == Snapshot ==>
      sys.pending == Some(Queue(sys)[i].messageId)
  }

  ghost predicate ChannelInv<M>(sys: System<M>) {
    DistinctMail(sys) && SnapshotsPending(sys)
  }

  lemma AskChannel<M>(c: Config<M>, sys: System<M>, messageId: string, call: Request)
    requires SystemInv(c, sys) && ChannelInv(sys) && messageId !in sys.usedIds
    ensures ChannelInv(AskStep(c, sys, messageId, call))
  {
    hide Inv, Adapter.Begin, Adapter.Admitted, WorkInv, Simulates, AnswersInv, RunsInv, DeliveredInv, OperationFits;
    hide PendingLast, AnsweredLast;
    if Adapter.Begin(c.digest, sys.adapter, call).Submitted? {
      SubmittedFacts(c.digest, sys.adapter, call);
      assert Queue(AskStep(c, sys, messageId, call)) == Queue(sys) + [RequestMessage(messageId, call)];
    }
  }

  /** One request leaves the queue, perhaps for a reply under its id. */
  lemma RemovesChannel<M>(sys: System<M>, sys': System<M>, k: nat)
    requires ChannelInv(sys) && Removes(sys, sys', k)
    ensures ChannelInv(sys')
  {
    hide Queue, Without;
    var q, q' := Queue(sys), Queue(sys');
    WithoutLength(q, k);
    forall i | 0 <= i < |q'|
      ensures q'[i] == q[if i < k then i else i + 1]
    {
      WithoutAt(q, k, i);
    }
  }

  lemma SameQueueChannel<M>(sys: System<M>, sys': System<M>)
    requires ChannelInv(sys) && Queue(sys') == Queue(sys) && sys'.toHost == sys.toHost && sys'.pending == sys.pending
    ensures ChannelInv(sys')
  {
  }

  lemma FewerRepliesChannel<M>(sys: System<M>, sys': System<M>, k: nat)
    requires ChannelInv(sys) && k < |sys.toHost|
    requires Queue(sys') == Queue(sys) && sys'.toHost == Without(sys.toHost, k) && sys'.pending == sys.pending
    ensures ChannelInv(sys')
  {
    assert forall j :: 0 <= j < |sys'.toHost| ==> sys'.toHost[j] == sys.toHost[if j < k then j else j + 1];
  }

  /** An exchange that is not a snapshot, or that the worker has answered, ends without leaving a snapshot behind. */
  lemma SettleChannel<M>(c: Config<M>, b: Adapter.Binding, sys: System<M>, o: Adapter.Outcome)
    requires ChannelInv(sys) && PendingLast(sys) && Awaiting(sys)
    requires sys.adapter.operation == Some(Snapshot) ==> Lost(sys)
    ensures ChannelInv(Settle(c, b, sys, o))
  {
    hide Adapter.Finish, Adapter.Coherent;
    assert Queue(Settle(c, b, sys, o)) == Queue(sys);
  }

  lemma NextChannel<M>(c: Config<M>, b: Adapter.Binding, sys: System<M>, event: Event)
    requires SystemInv(c, sys) && ChannelInv(sys) && !Deserts(sys, event)
    ensures ChannelInv(Next(c, b, sys, event))
  {
    hide SystemInv, ChannelInv, Handle, RunsAfter, Settle, Awaiting, AskStep, Removes, Lost, PendingLast;
    var sys' := Next(c, b, sys, event);
    match event {
      case Ask(messageId, call) =>
        if messageId !in sys.usedIds {
          AskChannel(c, sys, messageId, call);
        }
      case Deliver =>
        if sys.toWorker != [] {
          DeliverChannel(sys);
        }
      case Complete =>
        if sys.inHand.Some? {
          CompleteRemoves(sys, sys', Handle(c, sys.worker, sys.inHand.value).1);
          RemovesChannel(sys, sys', 0);
        }
      case Receive =>
        if sys.toHost != [] {
          ReceiveChannel(c, b, sys);
        }
      case GiveUp =>
        if Awaiting(sys) {
          MailFacts(c, sys);
          SettleChannel(c, b, sys, Adapter.Lost);
        }
      case LoseRequest(i) =>
        if i < |sys.toWorker| {
          LoseRemoves(sys, sys', i);
          RemovesChannel(sys, sys', if sys.inHand.Some? then i + 1 else i);
        }
      case LoseReply(i) =>
        if i < |sys.toHost| {
          assert Queue(sys') == Queue(sys);
          FewerRepliesChannel(sys, sys', i);
        }
    }
  }

  lemma MailFacts<M>(c: Config<M>, sys: System<M>)
    requires SystemInv(c, sys)
    ensures PendingLast(sys)
  {
    hide Inv, PendingLast, WorkInv, Simulates, AnswersInv, RunsInv, DeliveredInv, OperationFits;
  }

  lemma DeliverChannel<M>(sys: System<M>)
    requires ChannelInv(sys) && sys.toWorker != []
    ensures ChannelInv(DeliverStep(sys))
  {
    hide ChannelInv;
    var sys' := DeliverStep(sys);
    if sys.inHand.Some? {
      RefusalRemoves(sys);
      RemovesChannel(sys, sys', 1);
    } else {
      assert Queue(sys') == Queue(sys);
      SameQueueChannel(sys, sys');
    }
  }

  lemma RefusalRemoves<M>(sys: System<M>)
    requires sys.inHand.Some? && sys.toWorker != []
    ensures Removes(sys, DeliverStep(sys), 1)
  {
    var sys' := DeliverStep(sys);
    assert Queue(sys') == Without(Queue(sys), 1);
    assert Replied(sys, sys', 1, Error(InvalidRequest));
  }

  lemma CompleteRemoves<M>(sys: System<M>, sys': System<M>, answer: Response)
    requires sys.inHand.Some? && sys'.inHand == None && sys'.toWorker == sys.toWorker
    requires sys'.toHost == sys.toHost + [ResponseMessage(sys.inHand.value.messageId, answer)]
    requires sys'.adapter == sys.adapter && sys'.pending == sys.pending && sys'.usedIds == sys.usedIds
    ensures Removes(sys, sys', 0)
  {
    assert Queue(sys') == Without(Queue(sys), 0);
    assert Replied(sys, sys', 0, answer);
  }

  lemma LoseRemoves<M>(sys: System<M>, sys': System<M>, i: nat)
    requires i < |sys.toWorker| && sys' == sys.(toWorker := Without(sys.toWorker, i))
    ensures Removes(sys, sys', if sys.inHand.Some? then i + 1 else i)
  {
    assert Queue(sys') == Without(Queue(sys), if sys.inHand.Some? then i + 1 else i);
  }

  lemma ReceiveChannel<M>(c: Config<M>, b: Adapter.Binding, sys: System<M>)
    requires SystemInv(c, sys) && ChannelInv(sys) && sys.toHost != []
    ensures ChannelInv(ReceiveStep(c, b, sys))
  {
    hide SystemInv, Settle, Awaiting, PendingLast;
    var rest := sys.(toHost := sys.toHost[1..]);
    assert sys.toHost[1..] == Without(sys.toHost, 0);
    assert Queue(rest) == Queue(sys);
    FewerRepliesChannel(sys, rest, 0);
    if sys.pending == Some(sys.toHost[0].messageId) && Awaiting(sys) {
      AwaitingFacts(sys, rest);
      assert PendingLast(rest) by {
        MailFacts(c, sys);
        PendingLastSame(sys, rest);
      }
      assert Lost(rest) by {
        assert forall j :: 0 <= j < |rest.toHost| ==> rest.toHost[j] == sys.toHost[j + 1];
      }
      SettleChannel(c, b, rest, Adapter.Reply(sys.toHost[0].response));
    }
  }

  lemma PendingLastSame<M>(sys: System<M>, rest: System<M>)
    requires PendingLast(sys) && Queue(rest) == Queue(sys) && rest.pending == sys.pending && rest.adapter == sys.adapter
    ensures PendingLast(rest)
  {
  }

  lemma {:induction false} PlayChannel<M>(c: Config<M>, b: Adapter.Binding, sys: System<M>, events: seq<Event>)
    requires ValidLimits(c) && SystemInv(c, sys) && ChannelInv(sys) && Attended(c, b, sys, events)
    ensures ChannelInv(Play(c, b, sys, events))
    decreases |events|
  {
    hide SystemInv, ValidLimits, ChannelInv, Next, Deserts;
    if events != [] {
      NextKeeps(c, b, sys, events[0]);
      NextChannel(c, b, sys, events[0]);
      PlayChannel(c, b, Next(c, b, sys, events[0]), events[1..]);
    }
  }

  lemma QueuedInDoubt<M>(c: Config<M>, sys: System<M>, input: ExecuteRequest, i: nat)
    requires SystemInv(c, sys) && InDoubt(sys.adapter, input) && i < |Queue(sys)|
    ensures var m := Queue(sys)[i];
      m.request == Execute(input) || m.request == Inspect || m.request == Snapshot
  {
    hide Inv, AnswersInv, Simulates, RunsInv, DeliveredInv, Adapter.Admitted, Addressed, AnsweredLast, Queue;
    assert Allowed(sys.adapter, sys.pending, Queue(sys)[i]);
  }

  /**
   Until the execute is resolved, nothing else reaches the worker. In every run in which no snapshot is given up, from
   the submission of an execute on, through all uncertainty and up to its resolution, nothing but that very execute and
   inspections is on its way to the worker: no other execute, no snapshot, no restore.
   */
  lemma NothingElseUnderWay<M>(
    c: Config<M>, b: Adapter.Binding, events: seq<Event>, input: ExecuteRequest, i: nat)
    requires ValidLimits(c) && Attended(c, b, Protocol.Initial(), events)
    requires InDoubt(Reached(c, b, events).adapter, input) && i < |Queue(Reached(c, b, events))|
    ensures var m := Queue(Reached(c, b, events))[i];
      m.request == Execute(input) || m.request == Inspect
  {
    hide SystemInv, Play, ValidLimits, Attended, Queue, PendingLast, DistinctMail;
    InitialChannel<M>();
    InitialHolds(c);
    PlayChannel(c, b, Protocol.Initial(), events);
    ReachedHolds(c, b, events);
    var sys := Reached(c, b, events);
    QueuedInDoubt(c, sys, input, i);
    if Queue(sys)[i].request == Snapshot {
      MailFacts(c, sys);
      SnapshotOperation(sys, i);
      InvFacts(c, sys);
      assert false;
    }
  }

  lemma SnapshotOperation<M>(sys: System<M>, i: nat)
    requires PendingLast(sys) && SnapshotsPending(sys) && i < |Queue(sys)| && Queue(sys)[i].request == Snapshot
    ensures sys.adapter.operation == Some(Snapshot)
  {
    hide Queue;
  }

  lemma InitialChannel<M>()
    ensures ChannelInv(Protocol.Initial<M>())
  {
  }

  // Any transport

  ghost predicate HasSnapshot<M>(sys: System<M>) {
    exists i :: 0 <= i < |Queue(sys)| && Queue(sys)[i].request == Snapshot
  }

  /** In doubt of this execute all along. */
  ghost predicate StaysInDoubt<M>(
    c: Config<M>, b: Adapter.Binding, sys: System<M>, events: seq<Event>, input: ExecuteRequest)
    decreases |events|
  {
    InDoubt(sys.adapter, input) && (events == [] || StaysInDoubt(c, b, Next(c, b, sys, events[0]), events[1..], input))
  }

  /** These events lead from the submission to an uncertain execute with a snapshot on its way. */
  ghost predicate LeavesSnapshot<M>(
    c: Config<M>, b: Adapter.Binding, sys: System<M>, events: seq<Event>, input: ExecuteRequest)
  {
    var sys' := Play(c, b, sys, events);
    StaysInDoubt(c, b, sys, events, input) && sys'.adapter.recovery == Adapter.ExecuteUncertain(input) && HasSnapshot(sys')
  }

  lemma QueueShrinks<M>(sys: System<M>, sys': System<M>, k: nat)
    requires Removes(sys, sys', k) && HasSnapshot(sys')
    ensures HasSnapshot(sys)
  {
    hide Queue, Without;
    WithoutLength(Queue(sys), k);
    var i :| 0 <= i < |Queue(sys')| && Queue(sys')[i].request == Snapshot;
    WithoutAt(Queue(sys), k, i);
  }

  /** In doubt, no event brings a snapshot. */
  lemma NoSnapshotEnters<M>(c: Config<M>, b: Adapter.Binding, sys: System<M>, event: Event, input: ExecuteRequest)
    requires SystemInv(c, sys) && InDoubt(sys.adapter, input) && HasSnapshot(Next(c, b, sys, event))
    ensures HasSnapshot(sys)
  {
    hide SystemInv, Handle, RunsAfter, Settle, Awaiting, Removes, HasSnapshot, Adapter.Begin, Adapter.Coherent;
    InvFacts(c, sys);
    var sys' := Next(c, b, sys, event);
    match event {
      case Ask(messageId, call) =>
        if messageId !in sys.usedIds && Adapter.Begin(c.digest, sys.adapter, call).Submitted? {
          SubmittedFacts(c.digest, sys.adapter, call);
          OnlyTheRetry(c.digest, sys.adapter, call);
          AskedSnapshot(sys, sys', RequestMessage(messageId, call));
        }
      case Deliver =>
        if sys.toWorker != [] {
          if sys.inHand.Some? {
            RefusalRemoves(sys);
            QueueShrinks(sys, sys', 1);
          } else {
            assert Queue(sys') == Queue(sys);
            SnapshotSame(sys, sys');
          }
        }
      case Complete =>
        if sys.inHand.Some? {
          CompleteRemoves(sys, sys', Handle(c, sys.worker, sys.inHand.value).1);
          QueueShrinks(sys, sys', 0);
        }
      case LoseRequest(i) =>
        if i < |sys.toWorker| {
          LoseRemoves(sys, sys', i);
          QueueShrinks(sys, sys', if sys.inHand.Some? then i + 1 else i);
        }
      case _ =>
        SettleLeavesQueue(c, b, sys, event);
        SnapshotSame(sys, sys');
    }
  }

  lemma SettleLeavesQueue<M>(c: Config<M>, b: Adapter.Binding, sys: System<M>, event: Event)
    requires event.Receive? || event.GiveUp? || event.LoseReply?
    ensures Queue(Next(c, b, sys, event)) == Queue(sys)
  {
    hide Adapter.Finish, Adapter.Coherent;
  }

  lemma SnapshotSame<M>(sys: System<M>, sys': System<M>)
    requires Queue(sys') == Queue(sys) && HasSnapshot(sys')
    ensures HasSnapshot(sys)
  {
  }

  lemma AskedSnapshot<M>(sys: System<M>, sys': System<M>, m: RequestMessage)
    requires sys'.inHand == sys.inHand && sys'.toWorker == sys.toWorker + [m]
    ensures m.request != Snapshot && HasSnapshot(sys') ==> HasSnapshot(sys)
    ensures HasSnapshot(sys) ==> HasSnapshot(sys')
  {
    assert Queue(sys') == Queue(sys) + [m];
    if HasSnapshot(sys) {
      var i :| 0 <= i < |Queue(sys)| && Queue(sys)[i].request == Snapshot;
      assert Queue(sys')[i].request == Snapshot;
    }
    if HasSnapshot(sys') && m.request != Snapshot {
      var i :| 0 <= i < |Queue(sys')| && Queue(sys')[i].request == Snapshot;
      assert Queue(sys)[i].request == Snapshot;
    }
  }

  lemma {:induction false} SnapshotWasThere<M>(
    c: Config<M>, b: Adapter.Binding, sys: System<M>, events: seq<Event>, input: ExecuteRequest)
    requires ValidLimits(c) && SystemInv(c, sys) && LeavesSnapshot(c, b, sys, events, input)
    ensures HasSnapshot(sys)
    decreases |events|
  {
    hide SystemInv, ValidLimits, Next, HasSnapshot, InDoubt;
    if events != [] {
      NextKeeps(c, b, sys, events[0]);
      SnapshotWasThere(c, b, Next(c, b, sys, events[0]), events[1..], input);
      NoSnapshotEnters(c, b, sys, events[0], input);
    }
  }

  /** Given up at once, the execute leaves what was on its way before it. */
  lemma GivenUpAtOnce<M>(c: Config<M>, b: Adapter.Binding, sys: System<M>, messageId: string, input: ExecuteRequest)
    requires ValidLimits(c) && SystemInv(c, sys) && messageId !in sys.usedIds && HasSnapshot(sys)
    requires Adapter.Begin(c.digest, sys.adapter, Execute(input)).Submitted?
    ensures LeavesSnapshot(c, b, Next(c, b, sys, Ask(messageId, Execute(input))), [GiveUp], input)
  {
    hide SystemInv, ValidLimits, Adapter.Begin, Adapter.Finish, HasSnapshot, Adapter.Coherent, Adapter.Admitted, Next,
      Play, Inv, OperationFits;
    InvFacts(c, sys);
    SubmittedFacts(c.digest, sys.adapter, Execute(input));
    LostExecute(c.digest, b, sys.adapter, input);
    var s1 := Next(c, b, sys, Ask(messageId, Execute(input)));
    var s2 := Next(c, b, s1, GiveUp);
    AskedAndGivenUp(c, b, sys, messageId, Execute(input));
    Submitting(c, b, sys, messageId, Execute(input));
    AskedSnapshot(sys, s2, RequestMessage(messageId, Execute(input)));
    assert [GiveUp] == [GiveUp] + [] && [GiveUp][1..] == [];
    PlayCons(c, b, s1, GiveUp, []);
    PlayNothing(c, b, s2);
  }

  lemma LostExecute(digest: seq<byte> -> string, b: Adapter.Binding, a: Adapter.State, input: ExecuteRequest)
    requires Adapter.Coherent(a.(operation := Some(Execute(input)))) && a.operation == None
    ensures Adapter.Finish(b, digest, a.(operation := Some(Execute(input))), Adapter.Lost).0 ==
      a.(recovery := Adapter.ExecuteUncertain(input))
  {
    hide Adapter.Admitted;
  }

  lemma Submitting<M>(c: Config<M>, b: Adapter.Binding, sys: System<M>, messageId: string, call: Request)
    requires messageId !in sys.usedIds && Adapter.Coherent(sys.adapter)
    requires Adapter.Begin(c.digest, sys.adapter, call).Submitted?
    ensures Next(c, b, sys, Ask(messageId, call)).adapter.operation == Some(call)
  {
    hide Adapter.Begin, Adapter.Coherent;
    Adapter.BeginCoherent(c.digest, sys.adapter, call);
  }

  /**
   The exact condition over any transport, in every run: after an execute is submitted, a snapshot can be on its way to
   the worker while the execute is uncertain if and only if one was on its way when it was submitted.
   */
  lemma SnapshotInDoubtIff<M>(
    c: Config<M>, b: Adapter.Binding, events: seq<Event>, messageId: string, input: ExecuteRequest)
    requires ValidLimits(c) && messageId !in Reached(c, b, events).usedIds
    requires Adapter.Begin(c.digest, Reached(c, b, events).adapter, Execute(input)).Submitted?
    ensures var sys := Reached(c, b, events);
      var asked := Next(c, b, sys, Ask(messageId, Execute(input)));
      (exists more :: LeavesSnapshot(c, b, asked, more, input)) <==> HasSnapshot(sys)
  {
    hide SystemInv, ValidLimits, HasSnapshot, LeavesSnapshot, Reached, Adapter.Begin, Next;
    ReachedHolds(c, b, events);
    var sys := Reached(c, b, events);
    var asked := Next(c, b, sys, Ask(messageId, Execute(input)));
    if HasSnapshot(sys) {
      GivenUpAtOnce(c, b, sys, messageId, input);
    }
    if more :| LeavesSnapshot(c, b, asked, more, input) {
      NextKeeps(c, b, sys, Ask(messageId, Execute(input)));
      SnapshotWasThere(c, b, asked, more, input);
      AskedIsNone(c, b, sys, messageId, input);
    }
  }

  lemma AskedIsNone<M>(c: Config<M>, b: Adapter.Binding, sys: System<M>, messageId: string, input: ExecuteRequest)
    requires messageId !in sys.usedIds && HasSnapshot(Next(c, b, sys, Ask(messageId, Execute(input))))
    ensures HasSnapshot(sys)
  {
    hide Adapter.Begin, HasSnapshot;
    var sys' := Next(c, b, sys, Ask(messageId, Execute(input)));
    if Adapter.Begin(c.digest, sys.adapter, Execute(input)).Submitted? {
      AskedSnapshot(sys, sys', RequestMessage(messageId, Execute(input)));
    }
  }

  /** Such a run, over a transport that ends a snapshot and then an execute before their time. */
  lemma SnapshotStillUnderWay<M>(
    c: Config<M>, b: Adapter.Binding, sys: System<M>, first: string, second: string, input: ExecuteRequest)
    requires SystemInv(c, sys) && first != second && first !in sys.usedIds && second !in sys.usedIds
    requires sys.adapter.confirmed.Some? && sys.adapter.recovery.Ready? && sys.adapter.operation == None
    requires sys.adapter.confirmed.value.boundary == InputRequested && Adapter.Admitted(input)
    ensures var sys' := Play(c, b, sys, [Ask(first, Snapshot), GiveUp, Ask(second, Execute(input)), GiveUp]);
      && sys'.adapter.recovery == Adapter.ExecuteUncertain(input)
      && RequestMessage(first, Snapshot) in Queue(sys')
  {
    hide SystemInv, Adapter.Admitted, Adapter.Begin, Adapter.Finish, Adapter.Coherent, Play, Next, Inv;
    InvFacts(c, sys);
    LostOnes(c.digest, b, sys.adapter, input);
    AskedAndGivenUp(c, b, sys, first, Snapshot);
    var s2 := Next(c, b, Next(c, b, sys, Ask(first, Snapshot)), GiveUp);
    assert s2.adapter == sys.adapter;
    AskedAndGivenUp(c, b, s2, second, Execute(input));
    var s4 := Next(c, b, Next(c, b, s2, Ask(second, Execute(input))), GiveUp);
    assert s4.toWorker[|sys.toWorker|] == RequestMessage(first, Snapshot);
    PlayFour(c, b, sys, Ask(first, Snapshot), GiveUp, Ask(second, Execute(input)), GiveUp);
  }

  lemma LostOnes(digest: seq<byte> -> string, b: Adapter.Binding, a: Adapter.State, input: ExecuteRequest)
    requires Adapter.Coherent(a) && a.confirmed.Some? && a.recovery.Ready? && a.operation == None
    requires a.confirmed.value.boundary == InputRequested && Adapter.Admitted(input)
    ensures var a1 := a.(operation := Some(Snapshot));
      var a2 := a.(operation := Some(Execute(input)));
      && Adapter.Coherent(a1) && Adapter.Coherent(a2)
      && Adapter.Begin(digest, a, Snapshot).Submitted? && Adapter.Begin(digest, a, Execute(input)).Submitted?
      && Adapter.Finish(b, digest, a1, Adapter.Lost).0 == a
      && Adapter.Finish(b, digest, a2, Adapter.Lost).0 == a.(recovery := Adapter.ExecuteUncertain(input))
  {
    hide Adapter.Admitted;
  }

  lemma AskedAndGivenUp<M>(c: Config<M>, b: Adapter.Binding, sys: System<M>, messageId: string, call: Request)
    requires Adapter.Coherent(sys.adapter) && Adapter.Begin(c.digest, sys.adapter, call).Submitted?
    requires messageId !in sys.usedIds
    ensures var a := sys.adapter.(operation := Some(call));
      var sys' := Next(c, b, Next(c, b, sys, Ask(messageId, call)), GiveUp);
      && Adapter.Coherent(a) && sys'.adapter == Adapter.Finish(b, c.digest, a, Adapter.Lost).0
      && sys'.toWorker == sys.toWorker + [RequestMessage(messageId, call)]
      && sys'.inHand == sys.inHand && sys'.usedIds == sys.usedIds + {messageId}
  {
    hide Adapter.Begin, Adapter.Finish, Adapter.Coherent;
    Adapter.BeginCoherent(c.digest, sys.adapter, call);
    var s1 := Next(c, b, sys, Ask(messageId, call));
    assert s1.adapter == sys.adapter.(operation := Some(call)) && Awaiting(s1);
  }
}
