/** Every event keeps the protocol's invariant. */
module ProtocolSafety {
  import opened Wrappers
  import opened Bytes
  import opened EngineTypes
  import opened Journal
  import opened Messages
  import opened Runtime
  import opened RuntimeReplay
  import opened RuntimeSafety
  import opened Protocol
  import opened ProtocolInvariant
  import Adapter
  import CanonicalCommand
  import Session

  // What the worker answers

  /** An execute result that tells the truth about the state after it. */
  predicate Honest(input: ExecuteRequest, result: ExecuteResult, state: PublicState) {
    && result.requestId == input.requestId && result.requestId != "" && result.command == input.command
    && FitsState(result, state) && state.revision <= MAX_SAFE
    && match result.status
       case Committed => result.previousRevision == input.expectedRevision && result.revision == result.previousRevision + 1
       case Rejected(_) => result.previousRevision == result.revision
  }

  lemma NonemptyId(id: string)
    requires BoundedId(id) || ValidRequestId(id)
    ensures id != ""
  {
    Session.EmptyText();
  }

  lemma JournaledIsHonest<M>(c: Config<M>, w: RuntimeState<M>, input: ExecuteRequest, i: nat)
    requires c.maxReceipts <= MAX_RECEIPTS && Inv(c, w) && w.session.Some? && i < |w.receipts|
    requires w.receipts[i].requestId == input.requestId && w.receipts[i].expectedRevision == input.expectedRevision
    requires w.receipts[i].command == input.command
    ensures Honest(input, w.receipts[i].result, w.session.value.Public())
  {
    hide CanonicalCommand.IsCanonical, Session.WellFormed, JournalBytes, TextBytes;
    RevisionBounded(c, w);
    assert ValidReceipt(w.receipts[i]);
    NonemptyId(input.requestId);
  }

  lemma RejectionIsHonest(input: ExecuteRequest, state: PublicState, rejection: Rejection)
    requires BoundedId(input.requestId) && state.revision <= MAX_SAFE
    ensures Honest(input, RejectedExecute(input, state, rejection), state)
  {
    NonemptyId(input.requestId);
  }

  lemma InJournal(rs: seq<Receipt>, id: string) returns (i: nat)
    requires Lookup(rs, id).Some?
    ensures i < |rs| && rs[i] == Lookup(rs, id).value
  {
    var r := Lookup(rs, id).value;
    i :| 0 <= i < |rs| && rs[i] == r;
  }

  /** The three ways an execute can come out, seen from the state that the worker is left in. */
  ghost predicate ExecuteOutcome<M>(w: RuntimeState<M>, input: ExecuteRequest, w': RuntimeState<M>, answer: Response) {
    && w.session.Some? && w'.session.Some?
    && (answer.Error? || answer.ExecuteDone?)
    && (answer.ExecuteDone? ==> Honest(input, answer.result, w'.session.value.Public()))
    && (w'.session.value.Public() == w.session.value.Public() || Advanced(w, input, w', answer))
  }

  predicate Advanced<M>(w: RuntimeState<M>, input: ExecuteRequest, w': RuntimeState<M>, answer: Response) {
    && w.session.Some? && w'.session.Some?
    && w'.session.value.revision == w.session.value.revision + 1
    && answer.ExecuteDone? && answer.result.status == Committed
    && answer.result.revision == w'.session.value.revision
    && CommittedLast(w', input, |w'.receipts| - 1)
  }

  lemma CommitOutcome<M>(c: Config<M>, w: RuntimeState<M>, input: ExecuteRequest)
    requires Reserved(c, w, input)
    ensures ExecuteOutcome(w, input, Commit(c, w, input).0, Commit(c, w, input).1)
  {
    hide Inv, Reserved, BoundedId, CanonicalCommand.IsCanonical, WorstCase, ReceiptBytes, Session.AfterExecute,
      RequestIds;
    ReservedFacts(c, w, input);
    CommitRecords(c, w, input);
    Session.ExecuteRevision(c.story, w.session.value, input.command);
    var (w', answer) := Commit(c, w, input);
    NonemptyId(input.requestId);
  }

  lemma ReservedFacts<M>(c: Config<M>, w: RuntimeState<M>, input: ExecuteRequest)
    requires Reserved(c, w, input)
    ensures w.session.Some? && w.session.value.revision < MAX_SAFE && BoundedId(input.requestId)
    ensures input.expectedRevision == w.session.value.revision
  {
  }

  lemma ExecuteAnswers<M>(c: Config<M>, w: RuntimeState<M>, input: ExecuteRequest)
    requires c.maxReceipts <= MAX_RECEIPTS && Inv(c, w) && w.session.Some?
    ensures ExecuteOutcome(w, input, ExecuteStep(c, w, input).0, ExecuteStep(c, w, input).1)
  {
    hide Inv, BoundedId, CanonicalCommand.IsCanonical, WorstCase, ReceiptBytes, RequestIds, Lookup, Commit, CanRecord;
    hide ExecuteOutcome, Reserved;
    var state := w.session.value.Public();
    RevisionBounded(c, w);
    if BoundedId(input.requestId) && input.expectedRevision <= MAX_SAFE {
      if Lookup(w.receipts, input.requestId).Some? {
        KnownOutcome(c, w, input);
      } else if CanonicalCommand.IsCanonical(input.command) {
        if state.boundary == Terminated || input.expectedRevision != state.revision
          || !CanRecord(c, w, ReceiptBytes(WorstCase(input, state.revision)))
        {
          RejectedOutcome(c, w, input);
        } else {
          assert Reserved(c, w, input) by {
            ReservedHolds(c, w, input);
          }
          CommitOutcome(c, w, input);
        }
      } else {
        UnchangedOutcome(w, input, InvalidRequest);
      }
    } else {
      UnchangedOutcome(w, input, InvalidRequest);
    }
  }

  lemma ReservedHolds<M>(c: Config<M>, w: RuntimeState<M>, input: ExecuteRequest)
    requires c.maxReceipts <= MAX_RECEIPTS && Inv(c, w) && w.session.Some? && Admissible(input)
    requires Lookup(w.receipts, input.requestId) == None
    requires input.expectedRevision == w.session.value.revision < MAX_SAFE
    requires CanRecord(c, w, ReceiptBytes(WorstCase(input, w.session.value.revision)))
    ensures Reserved(c, w, input)
  {
  }

  lemma UnchangedOutcome<M>(w: RuntimeState<M>, input: ExecuteRequest, code: ErrorCode)
    requires w.session.Some?
    ensures ExecuteOutcome(w, input, w, Error(code))
  {
  }

  lemma KnownOutcome<M>(c: Config<M>, w: RuntimeState<M>, input: ExecuteRequest)
    requires c.maxReceipts <= MAX_RECEIPTS && Inv(c, w) && w.session.Some?
    requires BoundedId(input.requestId) && input.expectedRevision <= MAX_SAFE
    requires Lookup(w.receipts, input.requestId).Some?
    ensures ExecuteOutcome(w, input, ExecuteStep(c, w, input).0, ExecuteStep(c, w, input).1)
  {
    hide Inv, BoundedId, RequestIds, Lookup;
    RevisionBounded(c, w);
    var i := InJournal(w.receipts, input.requestId);
    var r := w.receipts[i];
    if r.expectedRevision == input.expectedRevision && r.command == input.command {
      JournaledIsHonest(c, w, input, i);
    } else {
      RejectionIsHonest(input, w.session.value.Public(), Duplicate);
    }
  }

  lemma RejectedOutcome<M>(c: Config<M>, w: RuntimeState<M>, input: ExecuteRequest)
    requires c.maxReceipts <= MAX_RECEIPTS && Inv(c, w) && w.session.Some? && Admissible(input)
    requires Lookup(w.receipts, input.requestId) == None
    requires w.session.value.boundary == Terminated || input.expectedRevision != w.session.value.revision
      || !CanRecord(c, w, ReceiptBytes(WorstCase(input, w.session.value.revision)))
    ensures ExecuteOutcome(w, input, ExecuteStep(c, w, input).0, ExecuteStep(c, w, input).1)
  {
    hide Inv, BoundedId, RequestIds, Lookup, CanRecord, ReceiptBytes, WorstCase, CanonicalCommand.IsCanonical;
    RevisionBounded(c, w);
    var state := w.session.value.Public();
    RejectionIsHonest(input, state, InvalidCommand);
    RejectionIsHonest(input, state, StaleRevision);
    RejectionIsHonest(input, state, ReceiptCapacity);
  }

  /** A request whose commit produced the current revision only ever gets its receipt again. */
  lemma CommittedAnswers<M>(c: Config<M>, w: RuntimeState<M>, input: ExecuteRequest, i: int)
    requires Inv(c, w) && CommittedLast(w, input, i)
    ensures ExecuteStep(c, w, input).0 == w
    ensures ExecuteStep(c, w, input).1 == ExecuteDone(w.receipts[i].result) || ExecuteStep(c, w, input).1.Error?
  {
    hide BoundedId, Lookup, WorstCase, ReceiptBytes, CanonicalCommand.IsCanonical, Session.WellFormed, JournalInv;
  }

  // Adapter against worker

  /** An honest result passes the adapter's check, and leaves the adapter in accord with the worker. */
  lemma HonestAccepted<M>(a: Adapter.State, w: RuntimeState<M>, input: ExecuteRequest, w': RuntimeState<M>, answer: Response)
    requires a.confirmed.Some? && Accord(a.confirmed.value, w)
    requires ExecuteOutcome(w, input, w', answer) && answer.ExecuteDone?
    ensures var k := a.confirmed.value;
      && Adapter.ValidExecuteResult(input, answer.result, k.revision, k.boundary)
      && Accord(Adapter.FinishExecute(a, input, Adapter.Reply(answer)).0.confirmed.value, w')
  {
  }

  lemma CommittedAccepted<M>(a: Adapter.State, w: RuntimeState<M>, input: ExecuteRequest, i: int)
    requires a.confirmed.Some? && w.session.Some? && CommittedLast(w, input, i)
    requires w.session.value.revision == a.confirmed.value.revision + 1
    requires Honest(input, w.receipts[i].result, w.session.value.Public())
    ensures var k := a.confirmed.value;
      && Adapter.ValidExecuteResult(input, w.receipts[i].result, k.revision, k.boundary)
      && Accord(Adapter.FinishExecute(a, input, Adapter.Reply(ExecuteDone(w.receipts[i].result))).0.confirmed.value, w)
  {
  }

  /** Near the worker, an execute of the uncertain request keeps near it, and any result it gets is accepted. */
  lemma ExecuteKeepsNear<M>(c: Config<M>, a: Adapter.State, w: RuntimeState<M>, input: ExecuteRequest)
    requires c.maxReceipts <= MAX_RECEIPTS && Inv(c, w) && a.confirmed.Some? && Near(a.confirmed.value, w, input)
    ensures var (w', answer) := ExecuteStep(c, w, input);
      var k := a.confirmed.value;
      && ExecuteOutcome(w, input, w', answer)
      && Near(k, w', input)
      && (answer.ExecuteDone? ==>
        && Adapter.ValidExecuteResult(input, answer.result, k.revision, k.boundary)
        && Accord(Adapter.FinishExecute(a, input, Adapter.Reply(answer)).0.confirmed.value, w'))
  {
    hide Inv, ExecuteStep, Adapter.ValidExecuteResult, Adapter.FinishExecute, Honest;
    var k := a.confirmed.value;
    ExecuteAnswers(c, w, input);
    var (w', answer) := ExecuteStep(c, w, input);
    if Accord(k, w) {
      if answer.ExecuteDone? {
        HonestAccepted(a, w, input, w', answer);
      }
    } else {
      var i :| CommittedLast(w, input, i);
      CommittedAnswers(c, w, input, i);
      if answer.ExecuteDone? {
        CommittedAccepted(a, w, input, i);
      }
    }
  }

  // The mail

  /** `sys'` differs from `sys` in that request `k` has left the queue, perhaps with a reply. */
  ghost predicate Removes<M>(sys: System<M>, sys': System<M>, k: nat) {
    && k < |Queue(sys)| && Queue(sys') == Without(Queue(sys), k)
    && sys'.adapter == sys.adapter && sys'.pending == sys.pending && sys'.usedIds == sys.usedIds
    && (sys'.toHost == sys.toHost || exists answer :: Replied(sys, sys', k, answer))
  }

  predicate Replied<M>(sys: System<M>, sys': System<M>, k: nat, answer: Response) {
    && k < |Queue(sys)|
    && sys'.toHost == sys.toHost + [ResponseMessage(Queue(sys)[k].messageId, answer)]
    && (answer.Error? || k == 0)
  }

  lemma WithoutAt<T>(s: seq<T>, k: nat, i: nat)
    requires k < |s| && i < |s| - 1
    ensures Without(s, k)[i] == s[if i < k then i else i + 1]
  {
  }

  lemma MailRemoves<M>(sys: System<M>, sys': System<M>, k: nat)
    requires MailInv(sys) && Removes(sys, sys', k)
    ensures MailInv(sys')
  {
    hide Queue, Without;
    var q, q' := Queue(sys), Queue(sys');
    assert |q'| == |q| - 1 by {
      WithoutLength(q, k);
    }
    forall i | 0 <= i < |q'|
      ensures q'[i] == q[if i < k then i else i + 1]
    {
      WithoutAt(q, k, i);
    }
  }

  lemma WithoutLength<T>(s: seq<T>, k: nat)
    requires k < |s|
    ensures |Without(s, k)| == |s| - 1
  {
  }

  lemma WorkRemoves<M>(sys: System<M>, sys': System<M>, k: nat)
    requires WorkInv(sys) && Removes(sys, sys', k)
    ensures WorkInv(sys')
  {
    hide Queue, Without, Allowed;
    var q, q' := Queue(sys), Queue(sys');
    WithoutLength(q, k);
    forall i | 0 <= i < |q'|
      ensures Allowed(sys'.adapter, sys'.pending, q'[i])
    {
      WithoutAt(q, k, i);
      assert Allowed(sys.adapter, sys.pending, q[if i < k then i else i + 1]);
    }
  }

  /** Losing or refusing a request leaves adapter and worker as they are. */
  lemma RemovalKeeps<M>(c: Config<M>, sys: System<M>, sys': System<M>, k: nat)
    requires SystemInv(c, sys) && Removes(sys, sys', k)
    requires sys'.worker == sys.worker && sys'.runs == sys.runs && sys'.delivered == sys.delivered
    requires sys'.toHost == sys.toHost || Replied(sys, sys', k, Error(InvalidRequest))
    ensures SystemInv(c, sys')
  {
    hide Inv, MailInv, WorkInv, Fits, Near, RunsInv, DeliveredInv, Removes, OperationFits;
    MailRemoves(sys, sys', k);
    WorkRemoves(sys, sys', k);
    assert sys'.adapter == sys.adapter && sys'.pending == sys.pending && (Queue(sys') != [] ==> Queue(sys) != []) by {
      RemovesFacts(sys, sys', k);
    }
    assert RunsInv(sys') by {
      RunsSame(sys, sys');
    }
    assert DeliveredInv(sys') by {
      DeliveredSame(sys, sys');
    }
  }

  lemma RemovesFacts<M>(sys: System<M>, sys': System<M>, k: nat)
    requires Removes(sys, sys', k)
    ensures sys'.adapter == sys.adapter && sys'.pending == sys.pending && Queue(sys) != []
  {
  }

  lemma RunsSame<M>(sys: System<M>, sys': System<M>)
    requires RunsInv(sys) && sys'.worker == sys.worker && sys'.runs == sys.runs
    ensures RunsInv(sys')
  {
  }

  lemma DeliveredSame<M>(sys: System<M>, sys': System<M>)
    requires DeliveredInv(sys) && sys'.worker == sys.worker && sys'.delivered == sys.delivered
    ensures DeliveredInv(sys')
  {
  }

  lemma LoseRequestKeeps<M>(c: Config<M>, b: Adapter.Binding, sys: System<M>, i: nat)
    requires SystemInv(c, sys)
    ensures SystemInv(c, Next(c, b, sys, LoseRequest(i)))
  {
    hide SystemInv;
    if i < |sys.toWorker| {
      var sys' := Next(c, b, sys, LoseRequest(i));
      var k := if sys.inHand.Some? then i + 1 else i;
      assert Queue(sys') == Without(Queue(sys), k);
      assert Removes(sys, sys', k);
      RemovalKeeps(c, sys, sys', k);
    }
  }

  lemma LoseReplyKeeps<M>(c: Config<M>, b: Adapter.Binding, sys: System<M>, j: nat)
    requires SystemInv(c, sys)
    ensures SystemInv(c, Next(c, b, sys, LoseReply(j)))
  {
    if j < |sys.toHost| {
      FewerReplies(c, sys, Next(c, b, sys, LoseReply(j)), j);
    }
  }

  lemma FewerReplies<M>(c: Config<M>, sys: System<M>, sys': System<M>, j: nat)
    requires SystemInv(c, sys) && j < |sys.toHost|
    requires sys' == sys.(toHost := Without(sys.toHost, j))
    ensures SystemInv(c, sys')
  {
    hide Inv, WorkInv, Fits, Near, RunsInv, DeliveredInv, OperationFits, Simulates, Without;
    WithoutLength(sys.toHost, j);
    forall i | 0 <= i < |sys'.toHost|
      ensures sys'.toHost[i] == sys.toHost[if i < j then i else i + 1]
    {
      WithoutAt(sys.toHost, j, i);
    }
    assert Queue(sys') == Queue(sys);
    assert WorkInv(sys') && Simulates(c, sys') && RunsInv(sys') && DeliveredInv(sys') by {
      QueueSame(c, sys, sys');
    }
  }

  lemma QueueSame<M>(c: Config<M>, sys: System<M>, sys': System<M>)
    requires WorkInv(sys) && Simulates(c, sys) && RunsInv(sys) && DeliveredInv(sys)
    requires Queue(sys') == Queue(sys) && sys'.adapter == sys.adapter && sys'.pending == sys.pending
    requires sys'.worker == sys.worker && sys'.runs == sys.runs && sys'.delivered == sys.delivered
    ensures WorkInv(sys') && Simulates(c, sys') && RunsInv(sys') && DeliveredInv(sys')
  {
    hide Allowed, Near, DistinctRequests;
  }

  lemma DeliverKeeps<M>(c: Config<M>, b: Adapter.Binding, sys: System<M>)
    requires SystemInv(c, sys)
    ensures SystemInv(c, Next(c, b, sys, Deliver))
  {
    hide Inv, Fits, Near;
    if sys.toWorker != [] {
      var sys' := Next(c, b, sys, Deliver);
      if sys.inHand.Some? {
        assert Queue(sys') == Without(Queue(sys), 1);
        assert Replied(sys, sys', 1, Error(InvalidRequest));
        assert Removes(sys, sys', 1);
        RemovalKeeps(c, sys, sys', 1);
      } else {
        assert Queue(sys') == Queue(sys);
        QueueSame(c, sys, sys');
      }
    }
  }
}
