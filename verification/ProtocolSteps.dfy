/** The events that change adapter or worker keep the protocol's invariant; hence every run does. */
module ProtocolSteps {
  import opened Wrappers
  import opened Bytes
  import opened EngineTypes
  import opened Journal
  import opened Messages
  import opened Runtime
  import opened RuntimeReplay
  import opened RuntimeSafety
  import opened Protocol
  import opened ProtocolInvariant
  import opened ProtocolSafety
  import Adapter
  import CanonicalCommand
  import Session
  import SnapshotFormat

  // A call

  /** What submitting a call says about the adapter that submits it. */
  lemma SubmittedFacts(digest: seq<byte> -> string, a: Adapter.State, call: Request)
    requires Adapter.Coherent(a) && Adapter.Begin(digest, a, call).Submitted?
    ensures a.operation == None && Adapter.Begin(digest, a, call).state == a.(operation := Some(call))
    ensures Adapter.Coherent(a.(operation := Some(call))) && OperationFits(a.(operation := Some(call)))
    ensures call.Boot? <==> a.confirmed == None
    ensures call.Restore? ==> !a.recovery.ExecuteUncertain? && !a.recovery.RestoreQuarantined?
  {
    hide CanonicalCommand.IsCanonical, IsSha256;
  }

  lemma AskKeeps<M>(c: Config<M>, b: Adapter.Binding, sys: System<M>, messageId: string, call: Request)
    requires SystemInv(c, sys)
    ensures SystemInv(c, Next(c, b, sys, Ask(messageId, call)))
  {
    hide Inv, RunsInv, DeliveredInv, Fits, Near, Adapter.Begin, Adapter.Admitted, OperationFits;
    if messageId !in sys.usedIds && Adapter.Begin(c.digest, sys.adapter, call).Submitted? {
      SubmittedFacts(c.digest, sys.adapter, call);
      var sys' := Next(c, b, sys, Ask(messageId, call));
      assert Queue(sys') == Queue(sys) + [RequestMessage(messageId, call)];
      RunsSame(sys, sys');
      DeliveredSame(sys, sys');
      AskSimulates(c, sys, sys', messageId, call);
    }
  }

  lemma AskSimulates<M>(c: Config<M>, sys: System<M>, sys': System<M>, messageId: string, call: Request)
    requires Simulates(c, sys) && sys.adapter.operation == None && messageId !in sys.usedIds && MailInv(sys)
    requires sys'.adapter == sys.adapter.(operation := Some(call)) && sys'.pending == Some(messageId)
    requires sys'.toHost == sys.toHost && sys'.worker == sys.worker
    requires OperationFits(sys'.adapter)
    requires call.Restore? ==> !sys.adapter.recovery.ExecuteUncertain? && !sys.adapter.recovery.RestoreQuarantined?
    ensures Simulates(c, sys') && AnswersInv(c, sys')
  {
    hide Fits, Queue, Ahead;
  }

  // An outcome

  /** An error reply comes to the same as no reply. */
  lemma ErrorIsLost(b: Adapter.Binding, digest: seq<byte> -> string, a: Adapter.State, code: ErrorCode)
    requires Adapter.Coherent(a) && a.operation.Some?
    ensures Adapter.Finish(b, digest, a, Adapter.Reply(Error(code))) == Adapter.Finish(b, digest, a, Adapter.Lost)
  {
  }

  lemma GiveUpKeeps<M>(c: Config<M>, b: Adapter.Binding, sys: System<M>)
    requires SystemInv(c, sys)
    ensures SystemInv(c, Next(c, b, sys, GiveUp))
  {
    hide Inv, RunsInv, DeliveredInv, Fits, Near, Queue, Adapter.Admitted, Adapter.ValidExecuteResult;
    if Awaiting(sys) {
      var sys' := Next(c, b, sys, GiveUp);
      assert Queue(sys') == Queue(sys) by {
        QueueOf(sys, sys');
      }
      RunsSame(sys, sys');
      DeliveredSame(sys, sys');
      forall i | 0 <= i < |Queue(sys')|
        ensures Allowed(sys'.adapter, sys'.pending, Queue(sys')[i])
      {
        assert Allowed(sys.adapter, sys.pending, Queue(sys)[i]);
      }
    }
  }

  lemma QueueOf<M>(sys: System<M>, sys': System<M>)
    requires sys'.inHand == sys.inHand && sys'.toWorker == sys.toWorker
    ensures Queue(sys') == Queue(sys)
  {
  }

  lemma ReceiveKeeps<M>(c: Config<M>, b: Adapter.Binding, sys: System<M>)
    requires SystemInv(c, sys)
    ensures SystemInv(c, Next(c, b, sys, Receive))
  {
    hide Inv, MailInv, WorkInv, OperationFits, Simulates, AnswersInv, RunsInv, DeliveredInv, Adapter.Finish, Awaiting;
    if sys.toHost != [] {
      var rest := sys.(toHost := sys.toHost[1..]);
      assert sys.toHost[1..] == Without(sys.toHost, 0);
      FewerReplies(c, sys, rest, 0);
      var reply := sys.toHost[0];
      if sys.pending == Some(reply.messageId) && Awaiting(sys) {
        AwaitingFacts(sys, rest);
        if reply.response.Error? {
          ErrorIsLost(b, c.digest, sys.adapter, reply.response.code);
          GiveUpKeeps(c, b, rest);
        } else {
          AnsweredKeeps(c, b, sys, rest, reply.response);
        }
      }
    }
  }

  lemma AwaitingFacts<M>(sys: System<M>, rest: System<M>)
    requires Awaiting(sys) && rest.pending == sys.pending && rest.adapter == sys.adapter
    ensures Awaiting(rest) && Adapter.Coherent(sys.adapter) && sys.adapter.operation.Some?
  {
  }

  lemma AnsweredKeeps<M>(c: Config<M>, b: Adapter.Binding, sys: System<M>, rest: System<M>, answer: Response)
    requires SystemInv(c, sys) && SystemInv(c, rest) && sys.toHost != [] && Awaiting(rest)
    requires sys.toHost[0].response == answer && !answer.Error? && sys.pending == Some(sys.toHost[0].messageId)
    requires rest == sys.(toHost := sys.toHost[1..])
    ensures SystemInv(c, Settle(c, b, rest, Adapter.Reply(answer)))
  {
    hide Inv, WorkInv, Ahead, Fits, RunsInv, DeliveredInv, OperationFits, Adapter.Finish, Simulates, Queue;
    hide Adapter.Admitted;
    var sys' := Settle(c, b, rest, Adapter.Reply(answer));
    assert Fits(c, rest.adapter, rest.worker, answer) && Queue(rest) == [] by {
      QueueOf(sys, rest);
      assert Fits(c, sys.adapter, sys.worker, sys.toHost[0].response);
    }
    assert Queue(sys') == [] by {
      QueueOf(rest, sys');
    }
    Adapter.FinishCoherent(b, c.digest, rest.adapter, Adapter.Reply(answer));
    assert WorkInv(sys') && OperationFits(sys'.adapter) by {
      NothingUnderWay(sys');
    }
    RunsSame(rest, sys');
    AnsweredSimulates(c, b, rest, answer);
    AnsweredDelivered(c, b, rest, answer);
  }

  lemma NothingUnderWay<M>(sys: System<M>)
    requires Queue(sys) == [] && sys.adapter.operation == None
    ensures WorkInv(sys) && OperationFits(sys.adapter)
  {
  }

  lemma AnsweredSimulates<M>(c: Config<M>, b: Adapter.Binding, sys: System<M>, answer: Response)
    requires Simulates(c, sys) && Awaiting(sys) && OperationFits(sys.adapter)
    requires Queue(sys) == [] && Fits(c, sys.adapter, sys.worker, answer)
    ensures Simulates(c, Settle(c, b, sys, Adapter.Reply(answer)))
  {
    hide Adapter.ValidExecuteResult, Adapter.NonemptyCompatibility, Adapter.SnapshotAcceptable, IsSha256, Queue;
    hide Adapter.Admitted, ExecuteStep;
  }

  /** A result that is given again and again rests on the journal, unless there is no room. */
  lemma RepeatedIsSettled<M>(c: Config<M>, w: RuntimeState<M>, input: ExecuteRequest, result: ExecuteResult)
    requires ExecuteStep(c, w, input) == (w, ExecuteDone(result))
    ensures Settled(w.receipts, input, result)
  {
    hide BoundedId, WorstCase, ReceiptBytes, CanonicalCommand.IsCanonical, Session.AfterExecute, CanRecord;
    if Lookup(w.receipts, input.requestId).Some? {
      var i := InJournal(w.receipts, input.requestId);
      assert SettledAt(w.receipts, input, result, i);
    }
  }

  lemma AnsweredDelivered<M>(c: Config<M>, b: Adapter.Binding, sys: System<M>, answer: Response)
    requires DeliveredInv(sys) && Awaiting(sys) && Fits(c, sys.adapter, sys.worker, answer)
    ensures DeliveredInv(Settle(c, b, sys, Adapter.Reply(answer)))
  {
    hide Adapter.ValidExecuteResult, Adapter.NonemptyCompatibility, Adapter.SnapshotAcceptable, IsSha256, Accord,
      Settled, ExecuteStep;
    if sys.adapter.operation.value.Execute? {
      RepeatedIsSettled(c, sys.worker, sys.adapter.operation.value.input, answer.result);
    }
  }

  // The worker finishes a request

  lemma CompleteSame<M>(c: Config<M>, sys: System<M>, sys': System<M>)
    requires Simulates(c, sys) && sys'.adapter == sys.adapter && sys'.worker == sys.worker && Queue(sys) != []
    ensures Simulates(c, sys')
  {
    hide Queue, Ahead, Accord;
  }

  lemma BootAnswer<M>(c: Config<M>, sys: System<M>, storyId: string, artifactSha256: string)
    requires Simulates(c, sys) && sys.adapter.confirmed == None
    ensures var (w, answer) := BootStep(c, sys.worker, storyId, artifactSha256);
      && Simulates(c, sys.(worker := w)) && w.receipts == sys.worker.receipts && Near0(w)
      && (!answer.Error? && sys.adapter.operation == Some(Boot(storyId, artifactSha256)) ==> Fits(c, sys.adapter, w, answer))
  {
    hide BoundedId, IsSha256, Session.TurnOf, Queue;
  }

  predicate Near0<M>(w: RuntimeState<M>) {
    w.session.Some? ==> w.session.value.revision == 0
  }

  lemma ExecuteAnswer<M>(c: Config<M>, sys: System<M>, sys': System<M>, input: ExecuteRequest)
    requires c.maxReceipts <= MAX_RECEIPTS && Inv(c, sys.worker) && Simulates(c, sys) && OperationFits(sys.adapter)
    requires Queue(sys) != []
    requires sys.adapter.confirmed.Some? && (sys.adapter.recovery.RestoreQuarantined?
      || sys.adapter.recovery == Adapter.ExecuteUncertain(input) || sys.adapter.operation == Some(Execute(input)))
    requires sys'.adapter == sys.adapter && sys'.worker == ExecuteStep(c, sys.worker, input).0
    ensures Simulates(c, sys')
    ensures var answer := ExecuteStep(c, sys.worker, input).1;
      !answer.Error? && sys.adapter.operation == Some(Execute(input)) ==> Fits(c, sys.adapter, sys'.worker, answer)
  {
    hide Inv, ExecuteStep, Queue, Adapter.ValidExecuteResult, Adapter.FinishExecute, Ahead, Accord, Honest, Settled;
    hide Advanced;
    RetryIsIdempotent(c, sys.worker, input);
    var a := sys.adapter;
    if a.recovery.RestoreQuarantined? {
      ExecuteAnswers(c, sys.worker, input);
    } else {
      ExecuteKeepsNear(c, a, sys.worker, input);
    }
  }

  lemma RestoreAnswer<M>(c: Config<M>, sys: System<M>, sys': System<M>, snapshot: EngineSnapshot)
    requires Simulates(c, sys) && Queue(sys) != []
    requires sys.adapter.confirmed.Some?
    requires sys.adapter.recovery.RestoreQuarantined? || sys.adapter.operation == Some(Restore(snapshot))
    requires sys'.adapter == sys.adapter && sys'.worker == RestoreStep(c, sys.worker, snapshot).0
    requires sys.adapter.operation == Some(Restore(snapshot)) ==> Queue(sys') == []
    ensures Simulates(c, sys')
    ensures var answer := RestoreStep(c, sys.worker, snapshot).1;
      !answer.Error? && sys.adapter.operation == Some(Restore(snapshot)) ==> Fits(c, sys.adapter, sys'.worker, answer)
  {
    hide Queue, SnapshotShape, SnapshotFormat.ParseEnvelope;
  }

  lemma SnapshotAnswer<M>(c: Config<M>, sys: System<M>)
    requires c.maxReceipts <= MAX_RECEIPTS && WellFormedCompatibility(c.compatibility) && (forall x :: IsSha256(c.digest(x)))
    requires Inv(c, sys.worker) && sys.adapter.operation == Some(Snapshot)
    ensures var answer := SnapshotStep(c, sys.worker);
      !answer.Error? ==> Fits(c, sys.adapter, sys.worker, answer)
  {
    hide SnapshotFormat.ValidEnvelope, SnapshotFormat.Wire, Session.CheckpointOf, Inv, IsSha256;
    var answer := SnapshotStep(c, sys.worker);
    if !answer.Error? {
      RevisionBounded(c, sys.worker);
      var e := EnvelopeOf(sys.worker, Session.CheckpointOf(c.story, sys.worker.session.value).value);
      SnapshotFormat.WireLength(e);
    }
  }

  /** What the worker's answer to the request in hand does to the relation between adapter and worker. */
  lemma CompleteSimulates<M>(c: Config<M>, sys: System<M>, sys': System<M>, m: RequestMessage)
    requires ValidLimits(c) && SystemInv(c, sys) && sys.inHand == Some(m)
    requires sys' == CompleteStep(c, sys, m)
    ensures Simulates(c, sys')
    ensures var answer := Handle(c, sys.worker, m).1;
      sys.pending == Some(m.messageId) && !answer.Error? ==> Queue(sys') == [] && Fits(c, sys.adapter, sys'.worker, answer)
  {
    hide Inv, Simulates, Fits, BootStep, ExecuteStep, SnapshotStep, RestoreStep, BoundedId, RunsInv, DeliveredInv,
      RunsAfter;
    hide AnswersInv, ValidLimits, Addressed, AnsweredLast;
    assert Queue(sys)[0] == m && Queue(sys') == Queue(sys)[1..];
    assert Allowed(sys.adapter, sys.pending, m);
    var a := sys.adapter;
    if sys.pending == Some(m.messageId) {
      assert |Queue(sys)| == 1 && a.operation == Some(m.request);
    }
    if !BoundedId(m.messageId) {
      CompleteSame(c, sys, sys');
    } else {
      match m.request {
        case Boot(storyId, artifactSha256) =>
          BootAnswer(c, sys, storyId, artifactSha256);
          assert Queue(sys.(worker := sys'.worker)) != [];
          CompleteSame(c, sys.(worker := sys'.worker), sys');
        case Execute(input) =>
          assert c.maxReceipts <= MAX_RECEIPTS by {
            LimitsFacts(c);
          }
          ExecuteAnswer(c, sys, sys', input);
        case Restore(snapshot) =>
          if sys.pending == Some(m.messageId) || a.recovery.RestoreQuarantined? {
            RestoreAnswerCase(c, sys, sys', snapshot);
          }
        case Snapshot =>
          CompleteSame(c, sys, sys');
          if sys.pending == Some(m.messageId) {
            LimitsFacts(c);
            SnapshotAnswer(c, sys);
          }
        case Inspect =>
          CompleteSame(c, sys, sys');
          if sys.pending == Some(m.messageId) {
            InspectAnswer(c, sys);
          }
      }
    }
  }

  lemma RestoreAnswerCase<M>(c: Config<M>, sys: System<M>, sys': System<M>, snapshot: EngineSnapshot)
    requires Simulates(c, sys) && Queue(sys) != [] && OperationFits(sys.adapter)
    requires sys.adapter.confirmed.Some?
    requires sys.adapter.recovery.RestoreQuarantined? || (sys.adapter.operation == Some(Restore(snapshot)) && Queue(sys') == [])
    requires sys'.adapter == sys.adapter && sys'.worker == RestoreStep(c, sys.worker, snapshot).0
    ensures Simulates(c, sys')
    ensures var answer := RestoreStep(c, sys.worker, snapshot).1;
      !answer.Error? && sys.adapter.operation == Some(Restore(snapshot)) ==> Fits(c, sys.adapter, sys'.worker, answer)
  {
    hide Simulates, Fits, RestoreStep, Queue;
    RestoreAnswer(c, sys, sys', snapshot);
  }

  lemma InspectAnswer<M>(c: Config<M>, sys: System<M>)
    requires sys.adapter.operation == Some(Inspect)
    ensures var answer := InspectStep(sys.worker);
      !answer.Error? ==> Fits(c, sys.adapter, sys.worker, answer)
  {
  }

  /** The part of a valid configuration that the worker's answers rest on. */
  ghost predicate ValidLimits<M>(c: Config<M>) {
    c.maxReceipts <= MAX_RECEIPTS && WellFormedCompatibility(c.compatibility) && (forall x :: IsSha256(c.digest(x)))
  }

  lemma LimitsFacts<M>(c: Config<M>)
    requires ValidLimits(c)
    ensures c.maxReceipts <= MAX_RECEIPTS && WellFormedCompatibility(c.compatibility) && (forall x :: IsSha256(c.digest(x)))
  {
  }
}
