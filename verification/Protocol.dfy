/**
 The whole protocol as a state machine: the host adapter, the worker runtime,
 and the two message queues between them. Messages may be lost and exchanges
 may be given up at any moment; a queue never reorders what it delivers.
 */
module Protocol {
  import opened Wrappers
  import opened EngineTypes
  import opened Messages
  import opened Runtime
  import opened RuntimeReplay
  import Adapter
  import RuntimeSafety

  datatype System<+M> = System(
    adapter: Adapter.State,
    /** The message id of the exchange that the adapter awaits. */
    pending: Option<string>,
    toWorker: seq<RequestMessage>,
    /** The request that the worker has in hand. */
    inHand: Option<RequestMessage>,
    worker: RuntimeState<M>,
    toHost: seq<ResponseMessage>,
    usedIds: set<string>,
    /** History: the requests on which the interpreter ran, on the branch of the save that is being played. */
    runs: seq<ExecuteRequest>,
    /** History: the execute results that the caller was given on that branch, each with its request. */
    delivered: seq<(ExecuteRequest, ExecuteResult)>)

  datatype Event =
    /** The caller makes a call; if it is submitted, it is under a fresh message id. */
    | Ask(messageId: string, call: Request)
    /** The worker takes the next request; it refuses it at once while another one is in hand. */
    | Deliver
    /** The worker finishes the request in hand. */
    | Complete
    /** The host takes the next reply; a reply to nothing pending is dropped. */
    | Receive
    /** The exchange is aborted, timed out, or rejected by the transport. */
    | GiveUp
    | LoseRequest(index: nat)
    | LoseReply(index: nat)

  function Initial<M>(): System<M> {
    System(Adapter.INITIAL, None, [], None, RuntimeSafety.Initial(), [], {}, [], [])
  }

  function Without<T>(s: seq<T>, i: nat): seq<T>
    requires i < |s|
  {
    s[..i] + s[i + 1..]
  }

  /** The requests of the committed receipts. */
  function CommittedRequests(rs: seq<Receipt>): seq<ExecuteRequest> {
    if rs == [] then []
    else
      var last := rs[|rs| - 1];
      CommittedRequests(rs[..|rs| - 1]) +
        if last.result.status == Committed
        then [ExecuteRequest(last.requestId, last.expectedRevision, last.command)]
        else []
  }

  predicate Swaps(answer: Response) {
    answer.RestoreDone? && answer.status == Restored
  }

  /** A restore puts the play on the branch that the restored journal records. */
  ghost function RunsAfter<M>(c: Config<M>, sys: System<M>, m: RequestMessage): seq<ExecuteRequest> {
    var (w, answer) := Handle(c, sys.worker, m);
    if Swaps(answer) then CommittedRequests(w.receipts)
    else
      match Resumed(c, sys.worker, m)
      case None => sys.runs
      case Some(input) => sys.runs + [input]
  }

  ghost function CompleteStep<M>(c: Config<M>, sys: System<M>, m: RequestMessage): System<M> {
    var (w, answer) := Handle(c, sys.worker, m);
    sys.(
      inHand := None, worker := w,
      toHost := sys.toHost + [ResponseMessage(m.messageId, answer)],
      runs := RunsAfter(c, sys, m),
      delivered := if Swaps(answer) then [] else sys.delivered)
  }

  function DeliverStep<M>(sys: System<M>): System<M>
    requires sys.toWorker != []
  {
    var m := sys.toWorker[0];
    if sys.inHand.Some? then
      sys.(toWorker := sys.toWorker[1..], toHost := sys.toHost + [ResponseMessage(m.messageId, Error(InvalidRequest))])
    else sys.(toWorker := sys.toWorker[1..], inHand := Some(m))
  }

  predicate Awaiting<M>(sys: System<M>) {
    sys.pending.Some? && sys.adapter.operation.Some? && Adapter.Coherent(sys.adapter)
  }

  function Settle<M>(c: Config<M>, b: Adapter.Binding, sys: System<M>, o: Adapter.Outcome): System<M>
    requires Awaiting(sys)
  {
    var (adapter, result) := Adapter.Finish(b, c.digest, sys.adapter, o);
    sys.(
      adapter := adapter, pending := None,
      delivered :=
        if sys.adapter.operation.value.Execute? && result.Some? && result.value.ExecuteDone?
        then sys.delivered + [(sys.adapter.operation.value.input, result.value.result)] else sys.delivered)
  }

  function ReceiveStep<M>(c: Config<M>, b: Adapter.Binding, sys: System<M>): System<M>
    requires sys.toHost != []
  {
    var reply := sys.toHost[0];
    var rest := sys.(toHost := sys.toHost[1..]);
    if sys.pending == Some(reply.messageId) && Awaiting(sys) then Settle(c, b, rest, Adapter.Reply(reply.response)) else rest
  }

  function AskStep<M>(c: Config<M>, sys: System<M>, messageId: string, call: Request): System<M> {
    match Adapter.Begin(c.digest, sys.adapter, call)
    case Submitted(adapter) =>
      sys.(
        adapter := adapter, pending := Some(messageId),
        toWorker := sys.toWorker + [RequestMessage(messageId, call)],
        usedIds := sys.usedIds + {messageId})
    case _ => sys
  }

  /** An event that is not possible changes nothing. */
  ghost function Next<M>(c: Config<M>, b: Adapter.Binding, sys: System<M>, event: Event): System<M> {
    match event
    case Ask(messageId, call) => if messageId in sys.usedIds then sys else AskStep(c, sys, messageId, call)
    case Deliver => if sys.toWorker == [] then sys else DeliverStep(sys)
    case Complete => if sys.inHand == None then sys else CompleteStep(c, sys, sys.inHand.value)
    case Receive => if sys.toHost == [] then sys else ReceiveStep(c, b, sys)
    case GiveUp => if Awaiting(sys) then Settle(c, b, sys, Adapter.Lost) else sys
    case LoseRequest(i) => if i < |sys.toWorker| then sys.(toWorker := Without(sys.toWorker, i)) else sys
    case LoseReply(i) => if i < |sys.toHost| then sys.(toHost := Without(sys.toHost, i)) else sys
  }

  ghost function Play<M>(c: Config<M>, b: Adapter.Binding, sys: System<M>, events: seq<Event>): System<M>
    decreases |events|
  {
    if events == [] then sys else Play(c, b, Next(c, b, sys, events[0]), events[1..])
  }
}
