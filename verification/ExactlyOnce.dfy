/** The protocol's promises, over every run. */
module ExactlyOnce {
  import opened Wrappers
  import opened Bytes
  import opened EngineTypes
  import opened Journal
  import opened Messages
  import opened Runtime
  import opened RuntimeReplay
  import opened RuntimeSafety
  import opened Protocol
  import opened ProtocolInvariant
  import opened ProtocolSafety
  import opened ProtocolSteps
  import Adapter
  import CanonicalCommand
  import Session
  import SnapshotCodec
  import SnapshotFormat

  // History across one worker step

  lemma {:induction false} CommittedRequestsDistinct(rs: seq<Receipt>)
    requires DistinctIds(rs)
    ensures DistinctRequests(CommittedRequests(rs))
    ensures forall i :: 0 <= i < |CommittedRequests(rs)| ==> CommittedRequests(rs)[i].requestId in RequestIds(rs)
  {
    if rs != [] {
      var init, last := rs[..|rs| - 1], rs[|rs| - 1];
      assert rs == init + [last];
      assert forall i :: 0 <= i < |init| ==> init[i] == rs[i];
      CommittedRequestsDistinct(init);
      SnapshotCodec.DistinctIdsSnoc(init, last);
    }
  }

  lemma RestoredRuns<M>(c: Config<M>, w: RuntimeState<M>, snapshot: EngineSnapshot)
    requires RestoredState(c, snapshot).Some?
    ensures var rs := RestoredState(c, snapshot).value.receipts;
      && DistinctRequests(CommittedRequests(rs))
      && (forall i :: 0 <= i < |CommittedRequests(rs)| ==> CommittedRequests(rs)[i].requestId in RequestIds(rs))
  {
    hide CommittedRequests, RequestIds, Session.Restored, SnapshotFormat.Wire, JournalBytes;
    RestoredStateInv(c, snapshot);
    CommittedRequestsDistinct(RestoredState(c, snapshot).value.receipts);
  }

  /** A message other than a restore keeps every receipt, and a run's id is new to a journal that holds all earlier ones. */
  lemma PlainStepRuns<M>(c: Config<M>, sys: System<M>, sys': System<M>, m: RequestMessage)
    requires c.maxReceipts <= MAX_RECEIPTS && Inv(c, sys.worker) && RunsInv(sys) && DeliveredInv(sys)
    requires !m.request.Restore? && sys.worker.session.Some?
    requires sys'.worker == Handle(c, sys.worker, m).0 && sys'.delivered == sys.delivered
    requires sys'.runs == match Resumed(c, sys.worker, m) case None => sys.runs case Some(input) => sys.runs + [input]
    ensures RunsInv(sys') && DeliveredInv(sys')
  {
    hide Inv, Handle, Reaches, Session.AfterExecute, RequestIds, Settled;
    var w, w' := sys.worker, sys'.worker;
    if Resumed(c, w, m) == None {
      QuietStep(c, w, m);
      GrownIds(w.receipts, w'.receipts);
    } else {
      ResumedIsInput(c, w, m);
      RunStep(c, w, m);
      var input := m.request.input;
      if w'.receipts != w.receipts {
        SnapshotCodec.RequestIdsSnoc(w.receipts, w'.receipts[|w.receipts|]);
      }
    }
    DeliveredKept(sys, sys');
  }

  lemma DeliveredKept<M>(sys: System<M>, sys': System<M>)
    requires DeliveredInv(sys) && sys'.delivered == sys.delivered
    requires |sys.worker.receipts| <= |sys'.worker.receipts|
    requires sys'.worker.receipts[..|sys.worker.receipts|] == sys.worker.receipts
    ensures DeliveredInv(sys')
  {
    forall d | 0 <= d < |sys'.delivered|
      ensures Settled(sys'.worker.receipts, sys'.delivered[d].0, sys'.delivered[d].1)
    {
      var (input, result) := sys.delivered[d];
      if result.status != Rejected(ReceiptCapacity) {
        var i :| SettledAt(sys.worker.receipts, input, result, i);
        assert sys'.worker.receipts[i] == sys.worker.receipts[i];
        assert SettledAt(sys'.worker.receipts, input, result, i);
      }
    }
  }

  /** Before boot there is nothing to run and nothing to restore. */
  lemma UnbootedStep<M>(c: Config<M>, w: RuntimeState<M>, m: RequestMessage)
    requires w.session == None
    ensures Resumed(c, w, m) == None && !Swaps(Handle(c, w, m).1)
    ensures Handle(c, w, m).0.receipts == w.receipts
  {
    hide BoundedId, IsSha256, Session.AfterBoot;
  }

  lemma SwapIsRestore<M>(c: Config<M>, w: RuntimeState<M>, m: RequestMessage)
    requires w.session.Some? && m.request.Restore?
    ensures Swaps(Handle(c, w, m).1) ==>
      RestoredState(c, m.request.snapshot).Some? && Handle(c, w, m).0 == RestoredState(c, m.request.snapshot).value
    ensures !Swaps(Handle(c, w, m).1) ==> Handle(c, w, m).0 == w
    ensures Resumed(c, w, m) == None
  {
    hide BoundedId, RestoredState, SnapshotShape;
  }

  lemma OnlyRestoreSwaps<M>(c: Config<M>, w: RuntimeState<M>, m: RequestMessage)
    requires !m.request.Restore?
    ensures !Swaps(Handle(c, w, m).1)
  {
    hide BoundedId, SnapshotFormat.ValidEnvelope, Reaches, Session.CheckpointOf, Session.AfterBoot, Lookup, CanRecord;
  }

  lemma CompleteHistory<M>(c: Config<M>, sys: System<M>, m: RequestMessage)
    requires c.maxReceipts <= MAX_RECEIPTS && Inv(c, sys.worker) && RunsInv(sys) && DeliveredInv(sys)
    ensures RunsInv(CompleteStep(c, sys, m)) && DeliveredInv(CompleteStep(c, sys, m))
  {
    hide Inv, Handle, Reaches, RequestIds, DistinctRequests, CommittedRequests, Resumed;
    var sys' := CompleteStep(c, sys, m);
    if sys.worker.session == None {
      UnbootedStep(c, sys.worker, m);
      DeliveredKept(sys, sys');
    } else if m.request.Restore? {
      SwapIsRestore(c, sys.worker, m);
      if Swaps(Handle(c, sys.worker, m).1) {
        RestoredRuns(c, sys.worker, m.request.snapshot);
      }
    } else {
      OnlyRestoreSwaps(c, sys.worker, m);
      PlainStepRuns(c, sys, sys', m);
    }
  }

  lemma CompleteKeeps<M>(c: Config<M>, b: Adapter.Binding, sys: System<M>)
    requires ValidLimits(c) && SystemInv(c, sys)
    ensures SystemInv(c, Next(c, b, sys, Complete))
  {
    hide Inv, Handle, RunsInv, DeliveredInv, Simulates, Fits, OperationFits, RunsAfter, ValidLimits;
    if sys.inHand.Some? {
      var m := sys.inHand.value;
      var sys' := Next(c, b, sys, Complete);
      var answer := Handle(c, sys.worker, m).1;
      assert c.maxReceipts <= MAX_RECEIPTS by {
        LimitsFacts(c);
      }
      HandleKeeps(c, sys.worker, m);
      CompleteHistory(c, sys, m);
      CompleteSimulates(c, sys, sys', m);
      assert Queue(sys') == Without(Queue(sys), 0);
      assert Replied(sys, sys', 0, answer);
      assert Removes(sys, sys', 0);
      MailRemoves(sys, sys', 0);
      WorkRemoves(sys, sys', 0);
      assert Queue(sys) != [];
    }
  }

  // Runs

  lemma NextKeeps<M>(c: Config<M>, b: Adapter.Binding, sys: System<M>, event: Event)
    requires ValidLimits(c) && SystemInv(c, sys)
    ensures SystemInv(c, Next(c, b, sys, event))
  {
    hide SystemInv, ValidLimits, Next;
    match event {
      case Ask(messageId, call) => AskKeeps(c, b, sys, messageId, call);
      case Deliver => DeliverKeeps(c, b, sys);
      case Complete => CompleteKeeps(c, b, sys);
      case Receive => ReceiveKeeps(c, b, sys);
      case GiveUp => GiveUpKeeps(c, b, sys);
      case LoseRequest(i) => LoseRequestKeeps(c, b, sys, i);
      case LoseReply(i) => LoseReplyKeeps(c, b, sys, i);
    }
  }

  lemma {:induction false} PlayKeeps<M>(c: Config<M>, b: Adapter.Binding, sys: System<M>, events: seq<Event>)
    requires ValidLimits(c) && SystemInv(c, sys)
    ensures SystemInv(c, Play(c, b, sys, events))
    decreases |events|
  {
    hide SystemInv, ValidLimits, Next;
    if events != [] {
      NextKeeps(c, b, sys, events[0]);
      PlayKeeps(c, b, Next(c, b, sys, events[0]), events[1..]);
    }
  }

  ghost function Reached<M>(c: Config<M>, b: Adapter.Binding, events: seq<Event>): System<M> {
    Play(c, b, Protocol.Initial(), events)
  }

  lemma ReachedHolds<M>(c: Config<M>, b: Adapter.Binding, events: seq<Event>)
    requires ValidLimits(c)
    ensures SystemInv(c, Reached(c, b, events))
  {
    hide SystemInv, ValidLimits;
    InitialHolds(c);
    PlayKeeps(c, b, Protocol.Initial(), events);
  }

  /**
   The adapter simulates the worker. When it is ready and nothing is under way, revision and boundary agree; while an
   execute is uncertain, the worker is at the adapter's revision or has committed that very request one ahead.
   */
  lemma AdapterSimulatesWorker<M>(c: Config<M>, b: Adapter.Binding, events: seq<Event>)
    requires ValidLimits(c)
    ensures var sys := Reached(c, b, events);
      var a, w := sys.adapter, sys.worker;
      a.confirmed.Some? ==>
        && w.session.Some?
        && (a.recovery.Ready? && a.operation == None ==>
          w.session.value.revision == a.confirmed.value.revision && w.session.value.boundary == a.confirmed.value.boundary)
        && (a.recovery.ExecuteUncertain? ==> Near(a.confirmed.value, w, a.recovery.input))
  {
    hide Inv, MailInv, WorkInv, AnswersInv, RunsInv, DeliveredInv, Near, Reached;
    ReachedHolds(c, b, events);
  }

  /** Exactly once: on the branch that is played, the interpreter ran at most once for each request id. */
  lemma RunsAreDistinct<M>(c: Config<M>, b: Adapter.Binding, events: seq<Event>)
    requires ValidLimits(c)
    ensures DistinctRequests(Reached(c, b, events).runs)
  {
    hide Inv, MailInv, WorkInv, AnswersInv, Simulates, DeliveredInv, DistinctRequests, Reached;
    ReachedHolds(c, b, events);
  }

  lemma SameIdSameReceipt<M>(c: Config<M>, w: RuntimeState<M>, i: int, j: int)
    requires Inv(c, w) && 0 <= i < |w.receipts| && 0 <= j < |w.receipts|
    requires w.receipts[i].requestId == w.receipts[j].requestId
    ensures i == j
  {
    hide Session.WellFormed, ValidResult, JournalBytes;
    if w.session.Some? {
      assert DistinctIds(w.receipts);
    }
  }

  /** How two results that the caller was given on one branch may differ, if at all. */
  predicate Agree(d: (ExecuteRequest, ExecuteResult), e: (ExecuteRequest, ExecuteResult)) {
    || d.1 == e.1
    || d.1.status == Rejected(ReceiptCapacity) || e.1.status == Rejected(ReceiptCapacity)
    || (if d.0 == e.0 then d.1.status == e.1.status == Rejected(Duplicate)
        else d.1.status == Rejected(Duplicate) || e.1.status == Rejected(Duplicate))
  }

  /**
   On the branch that is played, all that the caller is told of one request id agrees. Two results of the same request
   are equal, and so are those of two commits; a rejection for lack of room, or of an id that another request has
   taken, is the only thing that may be told besides.
   */
  lemma DeliveredOnce<M>(c: Config<M>, b: Adapter.Binding, events: seq<Event>, d: nat, e: nat)
    requires ValidLimits(c)
    requires d < |Reached(c, b, events).delivered| && e < |Reached(c, b, events).delivered|
    requires Reached(c, b, events).delivered[d].0.requestId == Reached(c, b, events).delivered[e].0.requestId
    ensures Agree(Reached(c, b, events).delivered[d], Reached(c, b, events).delivered[e])
  {
    hide SystemInv, Reached, Agree;
    ReachedHolds(c, b, events);
    DeliveredAgree(c, Reached(c, b, events), d, e);
  }

  lemma DeliveredAgree<M>(c: Config<M>, sys: System<M>, d: nat, e: nat)
    requires SystemInv(c, sys)
    requires d < |sys.delivered| && e < |sys.delivered|
    requires sys.delivered[d].0.requestId == sys.delivered[e].0.requestId
    ensures Agree(sys.delivered[d], sys.delivered[e])
  {
    hide Inv, MailInv, WorkInv, AnswersInv, Simulates, RunsInv, Fits;
    var (input, result) := sys.delivered[d];
    var (input', result') := sys.delivered[e];
    if result.status != Rejected(ReceiptCapacity) && result'.status != Rejected(ReceiptCapacity) {
      var i :| SettledAt(sys.worker.receipts, input, result, i);
      var j :| SettledAt(sys.worker.receipts, input', result', j);
      SameIdSameReceipt(c, sys.worker, i, j);
    }
  }

  lemma OnlyReceiveDelivers<M>(c: Config<M>, b: Adapter.Binding, sys: System<M>, event: Event)
    requires MailInv(sys) && |Next(c, b, sys, event).delivered| > |sys.delivered|
    ensures sys.toHost != [] && sys.pending == Some(sys.toHost[0].messageId) && sys.toHost[0].response.ExecuteDone?
    ensures sys.adapter.operation.Some? && sys.adapter.operation.value.Execute?
    ensures Next(c, b, sys, event).delivered ==
      sys.delivered + [(sys.adapter.operation.value.input, sys.toHost[0].response.result)]
  {
    hide Handle, RunsAfter, Adapter.Begin, Adapter.ValidExecuteResult, Adapter.NonemptyCompatibility, IsSha256;
    hide Adapter.SnapshotAcceptable, Addressed, PendingLast, AnsweredLast;
  }

  lemma ExactAnswer<M>(c: Config<M>, w: RuntimeState<M>, input: ExecuteRequest, i: nat)
    requires Inv(c, w) && i < |w.receipts| && Exactly(w.receipts[i], input)
    requires ExecuteStep(c, w, input).1.ExecuteDone?
    ensures ExecuteStep(c, w, input).1.result == w.receipts[i].result
  {
    hide Inv, BoundedId, WorstCase, ReceiptBytes, CanonicalCommand.IsCanonical, Session.AfterExecute, CanRecord;
    assert Lookup(w.receipts, input.requestId).Some?;
    var j := InJournal(w.receipts, input.requestId);
    SameIdSameReceipt(c, w, i, j);
  }

  /**
   A receipt answers its request for good: in any run, whatever is delivered in answer to the exact request of a
   receipt of the worker's journal, a commit or a rejection, is the result of that receipt.
   */
  lemma DeliveredIsJournaled<M>(c: Config<M>, b: Adapter.Binding, events: seq<Event>, event: Event, i: nat)
    requires ValidLimits(c)
    requires i < |Reached(c, b, events).worker.receipts|
    requires var sys := Reached(c, b, events);
      var sys' := Next(c, b, sys, event);
      && |sys'.delivered| > |sys.delivered|
      && Exactly(sys.worker.receipts[i], sys'.delivered[|sys'.delivered| - 1].0)
    ensures var sys := Reached(c, b, events);
      var sys' := Next(c, b, sys, event);
      && |sys'.delivered| == |sys.delivered| + 1
      && sys'.delivered[|sys.delivered|].1 == sys.worker.receipts[i].result
  {
    hide Reached, Inv, RunsInv, DeliveredInv, WorkInv, Simulates, ExecuteStep, Next;
    ReachedHolds(c, b, events);
    var sys := Reached(c, b, events);
    OnlyReceiveDelivers(c, b, sys, event);
    assert Fits(c, sys.adapter, sys.worker, sys.toHost[0].response);
    ExactAnswer(c, sys.worker, sys.adapter.operation.value.input, i);
  }

  /** Until the uncertain execute is resolved, nothing is submitted but itself and inspections. */
  lemma OnlyTheRetry(digest: seq<byte> -> string, a: Adapter.State, call: Request)
    requires Adapter.Coherent(a) && a.recovery.ExecuteUncertain? && Adapter.Begin(digest, a, call).Submitted?
    ensures call == Execute(a.recovery.input) || call == Inspect
  {
    hide CanonicalCommand.IsCanonical, IsSha256;
  }

  /** And nothing else that could change the game is still on its way to the worker. */
  lemma OnlyTheRetryUnderWay<M>(c: Config<M>, b: Adapter.Binding, events: seq<Event>, i: nat)
    requires ValidLimits(c)
    requires i < |Queue(Reached(c, b, events))| && Reached(c, b, events).adapter.recovery.ExecuteUncertain?
    ensures var m := Queue(Reached(c, b, events))[i];
      m.request == Execute(Reached(c, b, events).adapter.recovery.input) || m.request == Inspect || m.request == Snapshot
  {
    hide Inv, AnswersInv, Simulates, RunsInv, DeliveredInv, Reached, Queue, Adapter.Admitted;
    ReachedHolds(c, b, events);
    var sys := Reached(c, b, events);
    assert Allowed(sys.adapter, sys.pending, Queue(sys)[i]);
  }

  /** The next reply is a proper answer to the exchange that the adapter awaits. */
  ghost predicate Answered<M>(sys: System<M>) {
    && sys.toHost != [] && sys.pending == Some(sys.toHost[0].messageId)
    && !sys.toHost[0].response.Error? && Awaiting(sys)
  }

  lemma CompatibilityNonempty(k: Compatibility)
    requires WellFormedCompatibility(k)
    ensures Adapter.NonemptyCompatibility(k)
  {
    hide BoundedId, IsSha256;
    NonemptyId(k.storyId);
    NonemptyId(k.runtimeId);
    NonemptyId(k.runtimeVersion);
    NonemptyId(k.adapterId);
    NonemptyId(k.adapterVersion);
  }

  /** The engine that the worker runs is the one that the adapter was told to boot. */
  predicate Bound<M>(c: Config<M>, b: Adapter.Binding, operation: Request) {
    operation.Boot? ==> c.compatibility == Adapter.Expected(b, operation.storyId, operation.artifactSha256)
  }

  /**
   No honest answer is refused. Whatever the worker answers to the pending request, other than an error, passes every
   check of the adapter, which a boot or an execute so answered leaves ready; only a boot of an engine that is not the
   one asked for is refused.
   */
  lemma HonestAnswerAccepted<M>(c: Config<M>, b: Adapter.Binding, events: seq<Event>)
    requires ValidLimits(c) && Answered(Reached(c, b, events))
    ensures var sys := Reached(c, b, events);
      var operation := sys.adapter.operation.value;
      var (a, result) := Adapter.Finish(b, c.digest, sys.adapter, Adapter.Reply(sys.toHost[0].response));
      && (Bound(c, b, operation) <==> result == Some(sys.toHost[0].response))
      && (operation.Execute? || (operation.Boot? && Bound(c, b, operation)) ==> a.recovery == Adapter.Ready)
      && (operation.Restore? ==> !a.recovery.RestoreQuarantined?)
  {
    hide Inv, Reached, RunsInv, DeliveredInv, WorkInv, Adapter.SnapshotAcceptable, ValidLimits, Adapter.Admitted,
      ExecuteStep, Adapter.NonemptyCompatibility;
    ReachedHolds(c, b, events);
    assert (forall x :: IsSha256(c.digest(x))) && Adapter.NonemptyCompatibility(c.compatibility) by {
      LimitsFacts(c);
      CompatibilityNonempty(c.compatibility);
    }
    var sys := Reached(c, b, events);
    assert Fits(c, sys.adapter, sys.worker, sys.toHost[0].response);
    RevisionOfReached(c, sys);
  }

  lemma RevisionOfReached<M>(c: Config<M>, sys: System<M>)
    requires ValidLimits(c) && SystemInv(c, sys) && sys.worker.session.Some?
    ensures sys.worker.session.value.revision <= MAX_SAFE - 1
  {
    RevisionBounded(c, sys.worker);
  }
}
