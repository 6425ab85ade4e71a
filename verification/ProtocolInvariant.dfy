/** What holds between adapter, queues and worker after any events whatever. */
module ProtocolInvariant {
  import opened Wrappers
  import opened EngineTypes
  import opened Journal
  import opened Messages
  import opened Runtime
  import opened RuntimeSafety
  import opened RuntimeReplay
  import opened Protocol
  import Adapter

  /** The requests that the worker has not answered, oldest first. */
  function Queue<M>(sys: System<M>): seq<RequestMessage> {
    (if sys.inHand.Some? then [sys.inHand.value] else []) + sys.toWorker
  }

  // The mail

  ghost predicate Addressed<M>(sys: System<M>) {
    && (forall i :: 0 <= i < |Queue(sys)| ==> Queue(sys)[i].messageId in sys.usedIds)
    && (forall j :: 0 <= j < |sys.toHost| ==> sys.toHost[j].messageId in sys.usedIds)
    && (sys.pending.Some? ==> sys.pending.value in sys.usedIds)
  }

  /** The pending request, if the worker has not answered it, is the last one that it will get. */
  ghost predicate PendingLast<M>(sys: System<M>) {
    forall i :: 0 <= i < |Queue(sys)| && sys.pending == Some(Queue(sys)[i].messageId) ==>
      i == |Queue(sys)| - 1 && sys.adapter.operation == Some(Queue(sys)[i].request)
  }

  /** A proper answer to the pending request leaves the worker nothing to do. */
  ghost predicate AnsweredLast<M>(sys: System<M>) {
    forall j :: 0 <= j < |sys.toHost| && sys.pending == Some(sys.toHost[j].messageId) && !sys.toHost[j].response.Error? ==>
      Queue(sys) == []
  }

  ghost predicate MailInv<M>(sys: System<M>) {
    && Adapter.Coherent(sys.adapter)
    && (sys.pending.Some? <==> sys.adapter.operation.Some?)
    && Addressed(sys) && PendingLast(sys) && AnsweredLast(sys)
  }

  // What may be under way

  /** No execute is under way but the one that is pending or uncertain; no restore but the pending one. */
  predicate Allowed(a: Adapter.State, pending: Option<string>, m: RequestMessage) {
    match m.request
    case Boot(_, _) => a.confirmed == None
    case Execute(input) =>
      a.confirmed.Some? && (a.recovery.RestoreQuarantined?
        || a.recovery == Adapter.ExecuteUncertain(input) || a.operation == Some(Execute(input)))
    case Restore(_) => a.confirmed.Some? && (a.recovery.RestoreQuarantined? || pending == Some(m.messageId))
    case _ => a.confirmed.Some?
  }

  ghost predicate WorkInv<M>(sys: System<M>) {
    forall i :: 0 <= i < |Queue(sys)| ==> Allowed(sys.adapter, sys.pending, Queue(sys)[i])
  }

  predicate OperationFits(a: Adapter.State) {
    a.operation.Some? ==>
      match a.operation.value
      case Execute(input) => a.recovery.Ready? || a.recovery.BootQuarantined? || a.recovery == Adapter.ExecuteUncertain(input)
      case Snapshot => a.recovery.Ready? || a.recovery.BootQuarantined?
      case Restore(_) => a.recovery.Ready? || a.recovery.BootQuarantined?
      case _ => true
  }

  // Adapter and worker

  /** The worker is where the adapter confirmed it to be. */
  predicate Accord<M>(k: Adapter.Confirmed, w: RuntimeState<M>) {
    w.session.Some? && w.session.value.revision == k.revision && w.session.value.boundary == k.boundary
  }

  /** The journal holds the committed receipt of this very request, and it produced the worker's revision. */
  predicate CommittedLast<M>(w: RuntimeState<M>, input: ExecuteRequest, i: int) {
    && 0 <= i < |w.receipts| && w.session.Some?
    && Exactly(w.receipts[i], input)
    && w.receipts[i].result.status == Committed
    && w.receipts[i].result.revision == w.session.value.revision
  }

  /** The worker has committed this request, and the adapter does not know yet. */
  ghost predicate Ahead<M>(k: Adapter.Confirmed, w: RuntimeState<M>, input: ExecuteRequest) {
    && w.session.Some? && w.session.value.revision == k.revision + 1
    && exists i :: CommittedLast(w, input, i)
  }

  ghost predicate Near<M>(k: Adapter.Confirmed, w: RuntimeState<M>, input: ExecuteRequest) {
    Accord(k, w) || Ahead(k, w, input)
  }

  ghost predicate Simulates<M>(c: Config<M>, sys: System<M>) {
    var a, w := sys.adapter, sys.worker;
    match a.confirmed
    case None => w.receipts == [] && (w.session.Some? ==> w.session.value.revision == 0)
    case Some(k) =>
      && w.session.Some? && k.compatibility == c.compatibility
      && (!a.recovery.RestoreQuarantined? ==>
        match a.operation
        case Some(Restore(_)) => Queue(sys) != [] ==> Accord(k, w)
        case Some(Execute(input)) => Near(k, w, input)
        case _ =>
          match a.recovery
          case ExecuteUncertain(input) => Near(k, w, input)
          case _ => Accord(k, w))
  }

  /** What an answer to the pending request tells about the worker. */
  ghost predicate Fits<M>(c: Config<M>, a: Adapter.State, w: RuntimeState<M>, answer: Response) {
    && w.session.Some?
    && var state := w.session.value.Public();
    match a.operation
    case Some(Boot(_, _)) =>
      && answer.BootDone? && answer.revision == 0 && answer.output == state.lastOutput
      && answer.boundary == state.boundary && answer.compatibility == c.compatibility
    case Some(Execute(input)) =>
      && answer.ExecuteDone? && a.confirmed.Some?
      && (!a.recovery.RestoreQuarantined? ==>
        var k := a.confirmed.value;
        && Adapter.ValidExecuteResult(input, answer.result, k.revision, k.boundary)
        && Accord(Adapter.FinishExecute(a, input, Adapter.Reply(answer)).0.confirmed.value, w))
      && ExecuteStep(c, w, input) == (w, answer)
    case Some(Restore(snapshot)) =>
      && answer.RestoreDone? && a.confirmed.Some?
      && answer.revision == state.revision && answer.boundary == state.boundary && answer.output == ""
      && (answer.status == Restored ==> answer.revision == snapshot.revision)
      && (answer.status.NotRestored? && !a.recovery.RestoreQuarantined? ==> Accord(a.confirmed.value, w))
    case Some(Snapshot) =>
      && answer.SnapshotDone? && Adapter.SnapshotAcceptable(answer.snapshot)
      && answer.snapshot.sha256 == c.digest(answer.snapshot.bytes)
      && answer.snapshot.revision == state.revision && answer.snapshot.compatibility == c.compatibility
    case Some(Inspect) => answer == InspectDone(state)
    case None => true
  }

  ghost predicate AnswersInv<M>(c: Config<M>, sys: System<M>) {
    forall j :: 0 <= j < |sys.toHost| && sys.pending == Some(sys.toHost[j].messageId) && !sys.toHost[j].response.Error? ==>
      Fits(c, sys.adapter, sys.worker, sys.toHost[j].response)
  }

  // History

  /** Every run has its receipt, except for a last one that broke the interpreter. */
  ghost predicate RunsInv<M>(sys: System<M>) {
    && DistinctRequests(sys.runs)
    && forall i :: 0 <= i < |sys.runs| ==>
      || sys.runs[i].requestId in RequestIds(sys.worker.receipts)
      || (i == |sys.runs| - 1 && sys.worker.session.Some? && sys.worker.session.value.io.Failed?)
  }

  /** Receipt `i` has the id of this request; it is its receipt exactly if revision and command are the same too. */
  predicate ClaimedAt(rs: seq<Receipt>, input: ExecuteRequest, i: int) {
    0 <= i < |rs| && rs[i].requestId == input.requestId
  }

  predicate Exactly(r: Receipt, input: ExecuteRequest) {
    r.requestId == input.requestId && r.expectedRevision == input.expectedRevision && r.command == input.command
  }

  /** The journal stands behind this result of this request, unless the result is that there was no room. */
  predicate SettledAt(rs: seq<Receipt>, input: ExecuteRequest, result: ExecuteResult, i: int) {
    ClaimedAt(rs, input, i) &&
    if Exactly(rs[i], input) then result == rs[i].result else result.status == Rejected(Duplicate)
  }

  ghost predicate Settled(rs: seq<Receipt>, input: ExecuteRequest, result: ExecuteResult) {
    result.status == Rejected(ReceiptCapacity) || exists i :: SettledAt(rs, input, result, i)
  }

  ghost predicate DeliveredInv<M>(sys: System<M>) {
    forall d :: 0 <= d < |sys.delivered| ==> Settled(sys.worker.receipts, sys.delivered[d].0, sys.delivered[d].1)
  }

  ghost predicate SystemInv<M>(c: Config<M>, sys: System<M>) {
    && Inv(c, sys.worker)
    && MailInv(sys) && WorkInv(sys) && OperationFits(sys.adapter)
    && Simulates(c, sys) && AnswersInv(c, sys)
    && RunsInv(sys) && DeliveredInv(sys)
  }

  lemma InitialHolds<M>(c: Config<M>)
    ensures SystemInv(c, Protocol.Initial())
  {
  }
}
