/**
 The facade over its workers: each lease has a protocol of its own, with queues
 that lose messages and a worker at the other end, and the exchanges of the
 facade are those of the protocol. What a doubt comes to for the caller.
 */
module JointRuns {
  import opened Wrappers
  import opened EngineTypes
  import opened Messages
  import opened Runtime
  import opened ProtocolInvariant
  import opened ProtocolSteps
  import opened ExecuteRecovery
  import Adapter
  import Engine
  import EngineSafety
  import ExactlyOnce
  import Journal
  import ProtocolSafety
  import RuntimeSafety
  import Protocol

  /** `channel` is the protocol of the active worker, `candidate` that of the lease whose fate is open. */
  datatype Joint<+M> = Joint(facade: Engine.Facade, channel: Protocol.System<M>, candidate: Protocol.System<M>)

  datatype Event =
    /** Anything but the end of an exchange; `messageId` is for the message that it may send. */
    | Own(own: Engine.Event, messageId: string)
    | Active(step: Protocol.Event)
    | Candidate(step: Protocol.Event, aborted: bool, messageId: string)

  function Initial<M>(): Joint<M> {
    Joint(Engine.INITIAL, Protocol.Initial(), Protocol.Initial())
  }

  function Env<M>(c: Config<M>, b: Adapter.Binding): Engine.Environment {
    Engine.Environment(b, c.digest)
  }

  /** The operation is a call of the active worker. */
  predicate IsCall(op: Option<Engine.Operation>) {
    op.Some? && (op.value.Executing? || op.value.Snapshotting? || op.value.Inspecting?)
  }

  function CallOf(op: Engine.Operation): Option<Request> {
    match op
    case Executing(input) => Some(Execute(input))
    case Snapshotting => Some(Snapshot)
    case Inspecting => Some(Inspect)
    case BootingFirst(request, _, _, _) => Some(Boot(request.storyId, request.artifactSha256))
    case Restoring(snapshot, _, from, stage) =>
      (match stage
       case BootingCandidate(_, _) => Some(Boot(from.bootRequest.storyId, from.bootRequest.artifactSha256))
       case RestoringCandidate(_, _) => Some(Restore(snapshot))
       case InspectingCandidate(_, _, _, _) => Some(Inspect)
       case _ => None)
    case _ => None
  }

  function AdapterOf(op: Engine.Operation): Option<Adapter.State> {
    match op
    case BootingFirst(_, _, _, adapter) => Some(adapter)
    case Restoring(_, _, _, stage) =>
      (match stage
       case BootingCandidate(_, adapter) => Some(adapter)
       case RestoringCandidate(_, adapter) => Some(adapter)
       case InspectingCandidate(_, adapter, _, _) => Some(adapter)
       case _ => None)
    case _ => None
  }

  predicate HasCandidate(op: Option<Engine.Operation>) {
    op.Some? && Engine.CandidateOf(op.value).Some?
  }

  /** The exchange that the adapter awaits ends by this event. */
  predicate Ends<M>(sys: Protocol.System<M>, event: Protocol.Event) {
    && Protocol.Awaiting(sys)
    && (event.GiveUp? || (event.Receive? && sys.toHost != [] && sys.pending == Some(sys.toHost[0].messageId)))
  }

  function OutcomeOf<M>(sys: Protocol.System<M>, event: Protocol.Event): Adapter.Outcome
    requires Ends(sys, event)
  {
    if event.GiveUp? then Adapter.Lost else Adapter.Reply(sys.toHost[0].response)
  }

  ghost function OwnStep<M>(
    c: Config<M>, b: Adapter.Binding, j: Joint<M>, event: Engine.Event, messageId: string): Joint<M>
  {
    var e' := Engine.Next(Env(c, b), j.facade, event);
    if event.Exchanged? then j
    else if e'.operation == j.facade.operation || e'.operation == None || CallOf(e'.operation.value) == None then
      j.(facade := e')
    else
      var ask := Protocol.Ask(messageId, CallOf(e'.operation.value).value);
      if HasCandidate(e'.operation) then
        j.(facade := e', candidate := Protocol.Next(c, b, Protocol.Initial(), ask))
      else if messageId in j.channel.usedIds then j
      else j.(facade := e', channel := Protocol.Next(c, b, j.channel, ask))
  }

  ghost function ActiveStep<M>(c: Config<M>, b: Adapter.Binding, j: Joint<M>, event: Protocol.Event): Joint<M> {
    if event.Ask? then j
    else
      var channel := Protocol.Next(c, b, j.channel, event);
      if Ends(j.channel, event) && IsCall(j.facade.operation) then
        j.(channel := channel,
           facade := Engine.Next(Env(c, b), j.facade, Engine.Exchanged(OutcomeOf(j.channel, event), false)))
      else j.(channel := channel)
  }

  /** The last exchange of a candidate makes it the active worker; the others lead to the next call. */
  ghost function CandidateStep<M>(
    c: Config<M>, b: Adapter.Binding, j: Joint<M>, event: Protocol.Event, aborted: bool, messageId: string): Joint<M>
  {
    if event.Ask? || !HasCandidate(j.facade.operation) then j
    else
      var candidate := Protocol.Next(c, b, j.candidate, event);
      if !Ends(j.candidate, event) then j.(candidate := candidate)
      else
        var e' := Engine.Next(Env(c, b), j.facade, Engine.Exchanged(OutcomeOf(j.candidate, event), aborted));
        if HasCandidate(e'.operation) && CallOf(e'.operation.value).Some? then
          if messageId in candidate.usedIds then j
          else
            j.(facade := e', candidate :=
              Protocol.Next(c, b, candidate, Protocol.Ask(messageId, CallOf(e'.operation.value).value)))
        else if e'.active != j.facade.active then j.(facade := e', channel := candidate)
        else j.(facade := e')
  }

  ghost function Next<M>(c: Config<M>, b: Adapter.Binding, j: Joint<M>, event: Event): Joint<M> {
    match event
    case Own(own, messageId) => OwnStep(c, b, j, own, messageId)
    case Active(step) => ActiveStep(c, b, j, step)
    case Candidate(step, aborted, messageId) => CandidateStep(c, b, j, step, aborted, messageId)
  }

  ghost function Play<M>(c: Config<M>, b: Adapter.Binding, j: Joint<M>, events: seq<Event>): Joint<M>
    decreases |events|
  {
    if events == [] then j else Play(c, b, Next(c, b, j, events[0]), events[1..])
  }

  // What holds after any events

  ghost predicate ChannelLinked<M>(c: Config<M>, j: Joint<M>) {
    j.facade.active.Some? ==> SystemInv(c, j.channel) && j.channel.adapter == j.facade.active.value.adapter
  }

  ghost predicate CandidateLinked<M>(c: Config<M>, j: Joint<M>) {
    HasCandidate(j.facade.operation) ==>
      SystemInv(c, j.candidate) && Some(j.candidate.adapter) == AdapterOf(j.facade.operation.value)
  }

  /** No restore is under way in doubt, and no first boot beside an active worker. */
  predicate RestoresUndoubted(e: Engine.Facade) {
    e.active.Some? && e.operation.Some? && !IsCall(e.operation) ==>
      e.operation.value.Restoring? && e.uncertainExecute == None
  }

  ghost predicate Linked<M>(c: Config<M>, j: Joint<M>) {
    Engine.Inv(j.facade) && RestoresUndoubted(j.facade) && ChannelLinked(c, j) && CandidateLinked(c, j)
  }

  lemma ActiveFacts(e: Engine.Facade)
    requires Engine.Inv(e) && e.active.Some?
    ensures var a := e.active.value.adapter;
      && Adapter.Coherent(a) && a.confirmed.Some? && Engine.OperationOf(e.operation, a.operation)
      && e.uncertainExecute == Engine.Doubt(a) && (a.recovery.Ready? || a.recovery.ExecuteUncertain?)
      && !e.disposed
  {
    hide Adapter.Coherent;
  }

  /** A call that the facade submits is a request that its channel takes up. */
  lemma BeginCallLinked<M>(
    c: Config<M>, b: Adapter.Binding, j: Joint<M>, call: Request, operation: Engine.Operation, messageId: string)
    requires ValidLimits(c) && Linked(c, j) && IsCall(Some(operation)) && CallOf(operation) == Some(call)
    requires messageId !in j.channel.usedIds
    requires Engine.BeginCall(Env(c, b), j.facade, call, operation).operation != j.facade.operation
    ensures var e' := Engine.BeginCall(Env(c, b), j.facade, call, operation);
      var channel := Protocol.Next(c, b, j.channel, Protocol.Ask(messageId, call));
      && j.facade.operation == None && e'.operation == Some(operation) && e'.active.Some? && j.facade.active.Some?
      && e'.active.value.adapter == channel.adapter && e'.uncertainExecute == j.facade.uncertainExecute
      && SystemInv(c, channel)
  {
    hide Engine.Inv, SystemInv, ValidLimits, Adapter.Begin;
    ActiveFacts(j.facade);
    Adapter.BeginCoherent(c.digest, j.facade.active.value.adapter, call);
    ExactlyOnce.NextKeeps(c, b, j.channel, Protocol.Ask(messageId, call));
  }

  lemma BeginsLinked<M>(c: Config<M>, b: Adapter.Binding, j: Joint<M>, event: Engine.Event, messageId: string)
    requires ValidLimits(c) && Linked(c, j)
    requires event.BeginExecute? || event.BeginSnapshot? || event.BeginInspect?
    ensures Linked(c, OwnStep(c, b, j, event, messageId))
  {
    hide Engine.Inv, SystemInv, ValidLimits, Engine.BeginCall, Protocol.Next;
    var env, e := Env(c, b), j.facade;
    EngineSafety.NextKeeps(env, e, event);
    CallUnchanged(env, e, event);
    if Engine.Next(env, e, event).operation != e.operation && messageId !in j.channel.usedIds {
      match event {
        case BeginExecute(input, aborted) =>
          BeginCallLinked(c, b, j, Execute(input), Engine.Executing(input), messageId);
        case BeginSnapshot => BeginCallLinked(c, b, j, Snapshot, Engine.Snapshotting, messageId);
        case BeginInspect => BeginCallLinked(c, b, j, Inspect, Engine.Inspecting, messageId);
      }
    }
  }

  lemma CallUnchanged(env: Engine.Environment, e: Engine.Facade, event: Engine.Event)
    requires event.BeginExecute? || event.BeginSnapshot? || event.BeginInspect?
    ensures var e' := Engine.Next(env, e, event);
      && (e'.operation == e.operation ==> e' == e)
      && (e'.operation != e.operation ==> IsCall(e'.operation))
  {
    hide Adapter.Begin;
  }

  lemma PlainLinked<M>(c: Config<M>, b: Adapter.Binding, j: Joint<M>, event: Engine.Event, messageId: string)
    requires ValidLimits(c) && Linked(c, j)
    requires event.BeginBoot? || event.BeginRestore? || event.Digested? || event.Aborted? || event.Dispose?
    ensures Linked(c, OwnStep(c, b, j, event, messageId))
  {
    hide SystemInv, ValidLimits, Protocol.Next, Adapter.SnapshotAcceptable, Engine.ActiveInv;
    EngineSafety.NextKeeps(Env(c, b), j.facade, event);
  }

  /** A new lease: its channel starts with the boot. */
  lemma LeasedLinked<M>(c: Config<M>, b: Adapter.Binding, j: Joint<M>, ok: bool, aborted: bool, messageId: string)
    requires ValidLimits(c) && Linked(c, j)
    ensures Linked(c, OwnStep(c, b, j, Engine.FactoryDone(ok, aborted), messageId))
  {
    hide SystemInv, ValidLimits, Engine.ActiveInv, IsSha256, Adapter.Coherent;
    var env, e := Env(c, b), j.facade;
    var e' := Engine.Next(env, e, Engine.FactoryDone(ok, aborted));
    EngineSafety.NextKeeps(env, e, Engine.FactoryDone(ok, aborted));
    InitialHolds(c);
    if e'.operation.Some? && CallOf(e'.operation.value).Some? {
      ExactlyOnce.NextKeeps(c, b, Protocol.Initial(), Protocol.Ask(messageId, CallOf(e'.operation.value).value));
    }
  }

  lemma OwnLinked<M>(c: Config<M>, b: Adapter.Binding, j: Joint<M>, event: Engine.Event, messageId: string)
    requires ValidLimits(c) && Linked(c, j)
    ensures Linked(c, OwnStep(c, b, j, event, messageId))
  {
    hide Linked, OwnStep, ValidLimits;
    match event {
      case BeginExecute(_, _) => BeginsLinked(c, b, j, event, messageId);
      case BeginSnapshot => BeginsLinked(c, b, j, event, messageId);
      case BeginInspect => BeginsLinked(c, b, j, event, messageId);
      case FactoryDone(ok, aborted) => LeasedLinked(c, b, j, ok, aborted, messageId);
      case Exchanged(_, _) => NoExchange(c, b, j, event, messageId);
      case _ => PlainLinked(c, b, j, event, messageId);
    }
  }

  lemma NoExchange<M>(c: Config<M>, b: Adapter.Binding, j: Joint<M>, event: Engine.Event, messageId: string)
    requires event.Exchanged?
    ensures OwnStep(c, b, j, event, messageId) == j
  {
    hide Engine.Next;
  }

  // The ends of exchanges

  lemma SettleAdapter<M>(c: Config<M>, b: Adapter.Binding, sys: Protocol.System<M>, event: Protocol.Event)
    requires Ends(sys, event)
    ensures Adapter.Coherent(sys.adapter) && sys.adapter.operation.Some?
    ensures Protocol.Next(c, b, sys, event).adapter ==
      Adapter.Finish(b, c.digest, sys.adapter, OutcomeOf(sys, event)).0
  {
    hide Adapter.Finish, Adapter.Coherent;
  }

  lemma OtherAdapter<M>(c: Config<M>, b: Adapter.Binding, sys: Protocol.System<M>, event: Protocol.Event)
    requires !Ends(sys, event) && !event.Ask?
    ensures Protocol.Next(c, b, sys, event).adapter == sys.adapter
  {
    hide Adapter.Finish, Adapter.Coherent;
  }

  /** The facade finishes a call as the protocol of its worker does. */
  lemma CallEnds(env: Engine.Environment, e: Engine.Facade, o: Adapter.Outcome)
    requires Engine.Inv(e) && IsCall(e.operation)
    ensures var e' := Engine.Next(env, e, Engine.Exchanged(o, false));
      && e'.operation == None && (e'.active.Some? <==> e.active.Some?) && e'.disposed == e.disposed
      && (e.active.Some? ==>
        && var a := e.active.value.adapter;
        && Adapter.Coherent(a) && a.operation.Some?
        && e'.active.value.adapter == Adapter.Finish(env.binding, env.digest, a, o).0
        && e'.active.value.lease == e.active.value.lease)
  {
    hide Adapter.ValidExecuteResult, Adapter.SnapshotAcceptable, IsSha256, Adapter.Admitted;
  }

  lemma ActiveLinked<M>(c: Config<M>, b: Adapter.Binding, j: Joint<M>, event: Protocol.Event)
    requires ValidLimits(c) && Linked(c, j)
    ensures Linked(c, ActiveStep(c, b, j, event))
  {
    hide Engine.Inv, SystemInv, ValidLimits, Protocol.Next, Engine.Next, Adapter.Finish, Adapter.Coherent, Ends;
    if j.facade.active.Some? {
      ExactlyOnce.NextKeeps(c, b, j.channel, event);
    }
    if !event.Ask? {
      if !Ends(j.channel, event) {
        OtherAdapter(c, b, j.channel, event);
      } else if IsCall(j.facade.operation) {
        SettleAdapter(c, b, j.channel, event);
        CallEnds(Env(c, b), j.facade, OutcomeOf(j.channel, event));
        EngineSafety.NextKeeps(Env(c, b), j.facade, Engine.Exchanged(OutcomeOf(j.channel, event), false));
      } else if j.facade.active.Some? {
        ActiveFacts(j.facade);
        SettleAdapter(c, b, j.channel, event);
      }
    }
  }

  /** What the end of a candidate's exchange comes to: its end, its next call, or its taking over. */
  predicate CandidateEnds(env: Engine.Environment, e: Engine.Facade, e': Engine.Facade, o: Adapter.Outcome)
    requires HasCandidate(e.operation) && AdapterOf(e.operation.value).Some?
  {
    var a := AdapterOf(e.operation.value).value;
    && Adapter.Coherent(a) && a.operation.Some?
    && var a' := Adapter.Finish(env.binding, env.digest, a, o).0;
    || (e'.operation == None && e'.active == e.active && e'.uncertainExecute == e.uncertainExecute)
    || (HasCandidate(e'.operation) && e'.operation.value.Restoring? && CallOf(e'.operation.value).Some?
      && Adapter.Begin(env.digest, a', CallOf(e'.operation.value).value).Submitted?
      && AdapterOf(e'.operation.value) == Some(Adapter.Begin(env.digest, a', CallOf(e'.operation.value).value).state)
      && e'.active == e.active && e'.uncertainExecute == e.uncertainExecute)
    || (e'.operation == None && e'.active.Some? && e'.active != e.active && e'.active.value.adapter == a')
  }

  lemma CandidateEnding(env: Engine.Environment, e: Engine.Facade, o: Adapter.Outcome, aborted: bool)
    requires Engine.Inv(e) && HasCandidate(e.operation)
    ensures AdapterOf(e.operation.value).Some?
    ensures CandidateEnds(env, e, Engine.Next(env, e, Engine.Exchanged(o, aborted)), o)
  {
    hide IsSha256, Adapter.SnapshotAcceptable, Adapter.NonemptyCompatibility, Adapter.Admitted;
  }

  lemma CandidateLinkedStep<M>(
    c: Config<M>, b: Adapter.Binding, j: Joint<M>, event: Protocol.Event, aborted: bool, messageId: string)
    requires ValidLimits(c) && Linked(c, j)
    ensures Linked(c, CandidateStep(c, b, j, event, aborted, messageId))
  {
    hide Engine.Inv, SystemInv, ValidLimits, Protocol.Next, Engine.Next, Adapter.Finish, Adapter.Begin, Adapter.Coherent,
      Ends;
    if !event.Ask? && HasCandidate(j.facade.operation) {
      ExactlyOnce.NextKeeps(c, b, j.candidate, event);
      var candidate := Protocol.Next(c, b, j.candidate, event);
      if !Ends(j.candidate, event) {
        OtherAdapter(c, b, j.candidate, event);
      } else {
        var o := OutcomeOf(j.candidate, event);
        var e' := Engine.Next(Env(c, b), j.facade, Engine.Exchanged(o, aborted));
        SettleAdapter(c, b, j.candidate, event);
        CandidateEnding(Env(c, b), j.facade, o, aborted);
        EngineSafety.NextKeeps(Env(c, b), j.facade, Engine.Exchanged(o, aborted));
        if HasCandidate(e'.operation) && messageId !in candidate.usedIds {
          var call := CallOf(e'.operation.value).value;
          ExactlyOnce.NextKeeps(c, b, candidate, Protocol.Ask(messageId, call));
          AskedAdapter(c, b, candidate, messageId, call);
        }
      }
    }
  }

  lemma AskedAdapter<M>(c: Config<M>, b: Adapter.Binding, sys: Protocol.System<M>, messageId: string, call: Request)
    requires messageId !in sys.usedIds && Adapter.Begin(c.digest, sys.adapter, call).Submitted?
    ensures Protocol.Next(c, b, sys, Protocol.Ask(messageId, call)).adapter ==
      Adapter.Begin(c.digest, sys.adapter, call).state
  {
    hide Adapter.Begin;
  }

  lemma NextLinked<M>(c: Config<M>, b: Adapter.Binding, j: Joint<M>, event: Event)
    requires ValidLimits(c) && Linked(c, j)
    ensures Linked(c, Next(c, b, j, event))
  {
    hide ValidLimits, Linked, OwnStep, ActiveStep, CandidateStep;
    match event {
      case Own(own, messageId) => OwnLinked(c, b, j, own, messageId);
      case Active(step) => ActiveLinked(c, b, j, step);
      case Candidate(step, aborted, messageId) => CandidateLinkedStep(c, b, j, step, aborted, messageId);
    }
  }

  lemma {:induction false} PlayLinked<M>(c: Config<M>, b: Adapter.Binding, j: Joint<M>, events: seq<Event>)
    requires ValidLimits(c) && Linked(c, j)
    ensures Linked(c, Play(c, b, j, events))
    decreases |events|
  {
    hide ValidLimits, Linked, Next;
    if events != [] {
      NextLinked(c, b, j, events[0]);
      PlayLinked(c, b, Next(c, b, j, events[0]), events[1..]);
    }
  }

  lemma InitialLinked<M>(c: Config<M>)
    ensures Linked(c, Initial<M>())
  {
  }

  ghost function Reached<M>(c: Config<M>, b: Adapter.Binding, events: seq<Event>): Joint<M> {
    Play(c, b, Initial(), events)
  }

  // What the facade shows

  /** If the worker is at the revision that is shown, its whole public state is what is shown. */
  predicate Shows<M>(w: RuntimeState<M>, shown: PublicState) {
    w.session.Some? && (w.session.value.revision == shown.revision ==> w.session.value.Public() == shown)
  }

  ghost predicate Shown<M>(j: Joint<M>) {
    j.facade.active.Some? ==> Shows(j.channel.worker, j.facade.active.value.state)
  }

  /** A worker that does not restore keeps its public state or goes one revision on. */
  lemma WorkerMoves<M>(c: Config<M>, b: Adapter.Binding, sys: Protocol.System<M>, event: Protocol.Event)
    requires ValidLimits(c) && SystemInv(c, sys) && sys.worker.session.Some? && sys.adapter.confirmed.Some?
    requires !sys.adapter.recovery.RestoreQuarantined?
    requires sys.adapter.operation.Some? ==> !sys.adapter.operation.value.Restore?
    ensures var w, w' := sys.worker, Protocol.Next(c, b, sys, event).worker;
      && w'.session.Some?
      && (w'.session.value.Public() == w.session.value.Public()
        || w'.session.value.revision == w.session.value.revision + 1)
  {
    hide SystemInv, ValidLimits, RuntimeSafety.Inv, Handle, Protocol.RunsAfter, Protocol.Settle, Protocol.Awaiting,
      Protocol.AskStep;
    match event {
      case Complete =>
        if sys.inHand.Some? {
          LimitsFacts(c);
          InvFacts(c, sys);
          NoRestoreUnderWay(c, sys);
          PlainMoves(c, sys.worker, sys.inHand.value);
        }
      case Ask(messageId, call) => AskWorker(c, sys, messageId, call);
      case Receive =>
        if sys.toHost != [] && Protocol.Awaiting(sys) {
          AwaitingFacts(sys, sys.(toHost := sys.toHost[1..]));
          SettleWorker(c, b, sys.(toHost := sys.toHost[1..]), Adapter.Reply(sys.toHost[0].response));
        }
      case GiveUp =>
        if Protocol.Awaiting(sys) {
          SettleWorker(c, b, sys, Adapter.Lost);
        }
      case _ =>
    }
  }

  lemma AskWorker<M>(c: Config<M>, sys: Protocol.System<M>, messageId: string, call: Request)
    ensures Protocol.AskStep(c, sys, messageId, call).worker == sys.worker
  {
    hide Adapter.Begin;
  }

  lemma SettleWorker<M>(c: Config<M>, b: Adapter.Binding, sys: Protocol.System<M>, o: Adapter.Outcome)
    requires Protocol.Awaiting(sys)
    ensures Protocol.Settle(c, b, sys, o).worker == sys.worker
  {
    hide Adapter.Finish, Adapter.Coherent;
  }

  lemma NoRestoreUnderWay<M>(c: Config<M>, sys: Protocol.System<M>)
    requires SystemInv(c, sys) && sys.inHand.Some? && !sys.adapter.recovery.RestoreQuarantined?
    requires sys.adapter.confirmed.Some?
    requires sys.adapter.operation.Some? ==> !sys.adapter.operation.value.Restore?
    ensures !sys.inHand.value.request.Restore? && !sys.inHand.value.request.Boot?
  {
    hide RuntimeSafety.Inv, AnswersInv, Simulates, RunsInv, DeliveredInv, Adapter.Admitted, Addressed, AnsweredLast;
    assert Queue(sys)[0] == sys.inHand.value;
    assert Allowed(sys.adapter, sys.pending, Queue(sys)[0]);
  }

  lemma PlainMoves<M>(c: Config<M>, w: RuntimeState<M>, m: RequestMessage)
    requires c.maxReceipts <= Journal.MAX_RECEIPTS && RuntimeSafety.Inv(c, w) && w.session.Some?
    requires !m.request.Restore? && !m.request.Boot?
    ensures var w' := Handle(c, w, m).0;
      && w'.session.Some?
      && (w'.session.value.Public() == w.session.value.Public()
        || w'.session.value.revision == w.session.value.revision + 1)
  {
    hide RuntimeSafety.Inv, BoundedId, ExecuteStep, SnapshotStep, ProtocolSafety.Honest;
    if m.request.Execute? {
      ProtocolSafety.ExecuteAnswers(c, w, m.request.input);
    }
  }

  /** The worker is never behind what the adapter confirmed. */
  lemma NotBehind<M>(c: Config<M>, sys: Protocol.System<M>)
    requires SystemInv(c, sys) && sys.adapter.confirmed.Some? && !sys.adapter.recovery.RestoreQuarantined?
    requires sys.adapter.operation.Some? ==> !sys.adapter.operation.value.Restore?
    ensures sys.worker.session.Some? && sys.worker.session.value.revision >= sys.adapter.confirmed.value.revision
  {
    hide RuntimeSafety.Inv, MailInv, WorkInv, AnswersInv, RunsInv, DeliveredInv, Queue;
  }

  /** The facade's own view after the end of a call. */
  lemma CallShows<M>(c: Config<M>, b: Adapter.Binding, j: Joint<M>, step: Protocol.Event)
    requires ValidLimits(c) && Linked(c, j) && Shown(j) && j.facade.active.Some?
    requires Ends(j.channel, step) && IsCall(j.facade.operation)
    ensures var e' := Engine.Next(Env(c, b), j.facade, Engine.Exchanged(OutcomeOf(j.channel, step), false));
      e'.active.Some? && Shows(j.channel.worker, e'.active.value.state)
  {
    hide Linked, SystemInv, ValidLimits, Engine.Inv, Adapter.Coherent, Adapter.ValidExecuteResult,
      Adapter.SnapshotAcceptable, IsSha256, Accord, ExecuteStep, RuntimeSafety.Inv, ProtocolSafety.Honest;
    LinkedFacts(c, j);
    ActiveFacts(j.facade);
    InvFacts(c, j.channel);
    if step.Receive? && !j.channel.toHost[0].response.Error? {
      NextFits(c, j.channel);
      if j.facade.operation.value.Executing? {
        LimitsFacts(c);
        TruthOf(c, j.channel.worker, j.facade.operation.value.input, j.channel.toHost[0].response);
      }
    }
  }

  /** A result that is given again and again fits the state that the worker is in. */
  lemma TruthOf<M>(c: Config<M>, w: RuntimeState<M>, input: ExecuteRequest, answer: Response)
    requires c.maxReceipts <= Journal.MAX_RECEIPTS && RuntimeSafety.Inv(c, w) && w.session.Some?
    requires ExecuteStep(c, w, input) == (w, answer) && answer.ExecuteDone?
    ensures Journal.FitsState(answer.result, w.session.value.Public())
  {
    hide RuntimeSafety.Inv, ExecuteStep;
    ProtocolSafety.ExecuteAnswers(c, w, input);
  }

  lemma ActiveShown<M>(c: Config<M>, b: Adapter.Binding, j: Joint<M>, step: Protocol.Event)
    requires ValidLimits(c) && Linked(c, j) && Shown(j)
    ensures Shown(ActiveStep(c, b, j, step))
  {
    hide Linked, SystemInv, ValidLimits, Engine.Inv, Engine.Next, Protocol.Next, Ends, Adapter.Coherent;
    if j.facade.active.Some? && !step.Ask? {
      LinkedFacts(c, j);
      ActiveFacts(j.facade);
      NotRestoring(j.facade);
      NotBehind(c, j.channel);
      WorkerMoves(c, b, j.channel, step);
      if Ends(j.channel, step) && IsCall(j.facade.operation) {
        CallShows(c, b, j, step);
        EndsWorker(c, b, j.channel, step);
      }
      ConfirmedShown(j.facade);
    } else if !step.Ask? && j.facade.active == None && Ends(j.channel, step) && IsCall(j.facade.operation) {
      LinkedInv(c, j);
      CallEnds(Env(c, b), j.facade, OutcomeOf(j.channel, step));
    }
  }

  lemma LinkedInv<M>(c: Config<M>, j: Joint<M>)
    requires Linked(c, j)
    ensures Engine.Inv(j.facade)
  {
    hide Engine.Inv, SystemInv;
  }

  lemma NotRestoring(e: Engine.Facade)
    requires Engine.Inv(e) && e.active.Some?
    ensures var a := e.active.value.adapter;
      a.operation.Some? ==> !a.operation.value.Restore?
  {
    hide Adapter.Coherent;
  }

  lemma ConfirmedShown(e: Engine.Facade)
    requires Engine.Inv(e) && e.active.Some?
    ensures e.active.value.adapter.confirmed.Some?
    ensures e.active.value.state.revision == e.active.value.adapter.confirmed.value.revision
  {
    hide Adapter.Coherent;
  }

  lemma EndsWorker<M>(c: Config<M>, b: Adapter.Binding, sys: Protocol.System<M>, event: Protocol.Event)
    requires Ends(sys, event)
    ensures Protocol.Next(c, b, sys, event).worker == sys.worker
  {
    hide Adapter.Finish, Adapter.Coherent;
  }

  /** Taking over, a worker has told its whole state: by its boot, or by the last inspection. */
  lemma CandidateShown<M>(
    c: Config<M>, b: Adapter.Binding, j: Joint<M>, event: Protocol.Event, aborted: bool, messageId: string)
    requires ValidLimits(c) && Linked(c, j) && Shown(j)
    ensures Shown(CandidateStep(c, b, j, event, aborted, messageId))
  {
    hide SystemInv, ValidLimits, Protocol.Next, Engine.Next, Adapter.Coherent, Engine.Inv;
    if !event.Ask? && HasCandidate(j.facade.operation) && Ends(j.candidate, event) {
      var o := OutcomeOf(j.candidate, event);
      var e' := Engine.Next(Env(c, b), j.facade, Engine.Exchanged(o, aborted));
      EndsWorker(c, b, j.candidate, event);
      CandidateEnding(Env(c, b), j.facade, o, aborted);
      if e'.active.Some? && e'.active != j.facade.active {
        TakingOver(Env(c, b), j.facade, o, aborted);
        if event.Receive? && !j.candidate.toHost[0].response.Error? {
          NextFits(c, j.candidate);
          FitsShows(c, j.candidate, o.response);
        }
      }
    }
  }

  lemma FitsShows<M>(c: Config<M>, sys: Protocol.System<M>, answer: Response)
    requires Fits(c, sys.adapter, sys.worker, answer) && sys.adapter.operation.Some?
    ensures sys.adapter.operation.value.Boot? ==>
      answer.BootDone? && Shows(sys.worker, PublicState(answer.revision, answer.output, answer.boundary))
    ensures sys.adapter.operation.value.Inspect? ==> answer.InspectDone? && Shows(sys.worker, answer.state)
  {
  }

  lemma TakingOver(env: Engine.Environment, e: Engine.Facade, o: Adapter.Outcome, aborted: bool)
    requires Engine.Inv(e) && HasCandidate(e.operation) && AdapterOf(e.operation.value).Some?
    requires var e' := Engine.Next(env, e, Engine.Exchanged(o, aborted));
      e'.active.Some? && e'.active != e.active
    ensures var state := Engine.Next(env, e, Engine.Exchanged(o, aborted)).active.value.state;
      var call := AdapterOf(e.operation.value).value.operation;
      && o.Reply? && !o.response.Error? && call.Some?
      && ((call.value.Boot? && o.response.BootDone?
          && state == PublicState(o.response.revision, o.response.output, o.response.boundary))
        || (call.value.Inspect? && o.response.InspectDone? && state == o.response.state))
  {
    hide IsSha256, Adapter.SnapshotAcceptable, Adapter.NonemptyCompatibility, Adapter.Admitted, Adapter.Coherent;
  }

  /** What the facade does on its own shows nothing new. */
  lemma OwnShown<M>(c: Config<M>, b: Adapter.Binding, j: Joint<M>, event: Engine.Event, messageId: string)
    requires Linked(c, j) && Shown(j)
    ensures Shown(OwnStep(c, b, j, event, messageId))
  {
    hide Linked, Engine.Next, Protocol.Next;
    if !event.Exchanged? {
      LinkedInv(c, j);
      OwnState(Env(c, b), j.facade, event);
      var e' := Engine.Next(Env(c, b), j.facade, event);
      if e'.operation.Some? && CallOf(e'.operation.value).Some? && !HasCandidate(e'.operation) {
        var call := CallOf(e'.operation.value).value;
        AskedWorker(c, b, j.channel, messageId, call);
      }
    }
  }

  lemma AskedWorker<M>(c: Config<M>, b: Adapter.Binding, sys: Protocol.System<M>, messageId: string, call: Request)
    ensures Protocol.Next(c, b, sys, Protocol.Ask(messageId, call)).worker == sys.worker
  {
    hide Adapter.Begin;
  }

  lemma OwnState(env: Engine.Environment, e: Engine.Facade, event: Engine.Event)
    requires !event.Exchanged? && Engine.Inv(e)
    ensures var e' := Engine.Next(env, e, event);
      e'.active.Some? ==> e.active.Some? && e'.active.value.state == e.active.value.state
  {
    hide Adapter.Begin, Adapter.SnapshotAcceptable, IsSha256, Engine.Inv;
  }

  lemma {:induction false} PlayShown<M>(c: Config<M>, b: Adapter.Binding, j: Joint<M>, events: seq<Event>)
    requires ValidLimits(c) && Linked(c, j) && Shown(j)
    ensures Shown(Play(c, b, j, events))
    decreases |events|
  {
    hide ValidLimits, Linked, Shown, OwnStep, ActiveStep, CandidateStep;
    if events != [] {
      match events[0] {
        case Own(own, messageId) => OwnShown(c, b, j, own, messageId);
        case Active(step) => ActiveShown(c, b, j, step);
        case Candidate(step, aborted, messageId) => CandidateShown(c, b, j, step, aborted, messageId);
      }
      NextLinked(c, b, j, events[0]);
      PlayShown(c, b, Next(c, b, j, events[0]), events[1..]);
    }
  }

  lemma IdleAccord<M>(c: Config<M>, j: Joint<M>)
    requires Linked(c, j) && j.facade.active.Some?
    requires j.facade.operation == None && j.facade.uncertainExecute == None
    ensures j.channel.worker.session.Some?
    ensures j.channel.worker.session.value.revision == j.facade.active.value.state.revision
  {
    hide MailInv, WorkInv, AnswersInv, RunsInv, DeliveredInv, Near, Adapter.Admitted, RuntimeSafety.Inv;
  }

  /**
   The facade tells the truth. In every run, whatever was lost, given up, restored or replaced, when nothing is under
   way and nothing in doubt, the state that the facade shows - revision, last output and boundary - is its worker's.
   */
  lemma FacadeAgreesWithWorker<M>(c: Config<M>, b: Adapter.Binding, events: seq<Event>)
    requires ValidLimits(c)
    requires var e := Reached(c, b, events).facade;
      e.active.Some? && e.operation == None && e.uncertainExecute == None
    ensures var j := Reached(c, b, events);
      && j.channel.worker.session.Some?
      && j.channel.worker.session.value.Public() == j.facade.active.value.state
  {
    hide ValidLimits, Linked, Play;
    ReachedLinked(c, b, events);
    InitialLinked(c);
    PlayShown(c, b, Initial(), events);
    IdleAccord(c, Reached(c, b, events));
  }

  // What the caller is handed

  lemma ExecuteEnding<M>(c: Config<M>, j: Joint<M>, step: Protocol.Event)
    requires Linked(c, j) && Ends(j.channel, step) && j.facade.active.Some?
    requires j.facade.operation.Some? && j.facade.operation.value.Executing?
    ensures var input := j.facade.operation.value.input;
      var o := OutcomeOf(j.channel, step);
      && j.channel.adapter.operation == Some(Execute(input)) && !j.channel.adapter.recovery.RestoreQuarantined?
      && (Engine.Delivers(j.facade, input, o) <==> o.Reply? && !o.response.Error?)
      && (o.Reply? && !o.response.Error? ==> Fits(c, j.channel.adapter, j.channel.worker, o.response))
  {
    hide Linked, Engine.Inv, SystemInv, Adapter.Coherent, Adapter.ValidExecuteResult, ExecuteStep, Accord;
    LinkedFacts(c, j);
    ActiveFacts(j.facade);
    if step.Receive? {
      NextFits(c, j.channel);
    }
  }

  /**
   What the facade hands its caller for an execute, in every run: the worker's own result whenever it answers with one,
   and if the journal holds the receipt of this very request, a commit or a rejection, that receipt's result.
   */
  lemma HandedIsJournaled<M>(c: Config<M>, b: Adapter.Binding, events: seq<Event>, step: Protocol.Event)
    requires ValidLimits(c)
    requires var j := Reached(c, b, events);
      && j.facade.active.Some? && j.facade.operation.Some? && j.facade.operation.value.Executing?
      && Ends(j.channel, step)
    ensures var j := Reached(c, b, events);
      var input, o := j.facade.operation.value.input, OutcomeOf(j.channel, step);
      && (Engine.Delivers(j.facade, input, o) <==> o.Reply? && !o.response.Error?)
      && (Engine.Delivers(j.facade, input, o) ==>
        && j.channel.worker.session.Some?
        && forall i :: 0 <= i < |j.channel.worker.receipts| && Exactly(j.channel.worker.receipts[i], input) ==>
          o.response.result == j.channel.worker.receipts[i].result)
  {
    hide ValidLimits, Reached, Linked, SystemInv, Engine.Inv, ExecuteStep, Exactly, Ends, OutcomeOf;
    var j := Reached(c, b, events);
    ReachedLinked(c, b, events);
    LinkedFacts(c, j);
    InvFacts(c, j.channel);
    ExecuteEnding(c, j, step);
    var input, o := j.facade.operation.value.input, OutcomeOf(j.channel, step);
    if Engine.Delivers(j.facade, input, o) {
      forall i | 0 <= i < |j.channel.worker.receipts| && Exactly(j.channel.worker.receipts[i], input)
        ensures o.response.result == j.channel.worker.receipts[i].result
      {
        ExactlyOnce.ExactAnswer(c, j.channel.worker, input, i);
      }
    }
  }

  // In doubt

  /** The caller can do nothing with the facade but ask the same execute again, inspect, or dispose of it. */
  ghost predicate Refuses(env: Engine.Environment, e: Engine.Facade, input: ExecuteRequest) {
    && e.active.Some?
    && (forall request :: Engine.Next(env, e, Engine.BeginBoot(request)) == e)
    && (forall snapshot :: Engine.Next(env, e, Engine.BeginRestore(snapshot)) == e)
    && Engine.Next(env, e, Engine.BeginSnapshot) == e
    && (forall other, aborted :: other != input ==> Engine.Next(env, e, Engine.BeginExecute(other, aborted)) == e)
  }

  ghost predicate Locked<M>(c: Config<M>, j: Joint<M>, input: ExecuteRequest) {
    && j.facade.active.Some? && InDoubt(j.channel.adapter, input) && !Answerable(c, j.channel.worker, input)
    && (j.facade.operation.Some? ==> IsCall(j.facade.operation))
  }

  lemma RefusesNow<M>(c: Config<M>, b: Adapter.Binding, j: Joint<M>, input: ExecuteRequest)
    requires Linked(c, j) && Locked(c, j, input)
    ensures Refuses(Env(c, b), j.facade, input)
  {
    hide Engine.Inv, SystemInv, Answerable, Adapter.Begin, Adapter.Coherent, Adapter.SnapshotAcceptable, IsSha256;
    var env, e := Env(c, b), j.facade;
    ActiveFacts(e);
    forall call | call == Snapshot || (call.Execute? && call.input != input)
      ensures e.operation == None ==> !Adapter.Begin(env.digest, e.active.value.adapter, call).Submitted?
    {
      if e.operation == None && Adapter.Begin(env.digest, e.active.value.adapter, call).Submitted? {
        ExactlyOnce.OnlyTheRetry(env.digest, e.active.value.adapter, call);
      }
    }
  }

  lemma DisposedStays(env: Engine.Environment, e: Engine.Facade, event: Engine.Event)
    requires e.disposed
    ensures Engine.Next(env, e, event).disposed
  {
    hide Adapter.Begin, Adapter.FinishBoot, Adapter.FinishRestore, Adapter.FinishInspect, Adapter.FinishExecute;
  }

  lemma DisposedForGood<M>(c: Config<M>, b: Adapter.Binding, j: Joint<M>, event: Event)
    requires j.facade.disposed
    ensures Next(c, b, j, event).facade.disposed
  {
    hide Engine.Next, Protocol.Next, CallOf, HasCandidate, Ends;
    match event {
      case Own(own, _) => DisposedStays(Env(c, b), j.facade, own);
      case Active(step) =>
        if Ends(j.channel, step) {
          DisposedStays(Env(c, b), j.facade, Engine.Exchanged(OutcomeOf(j.channel, step), false));
        }
      case Candidate(step, aborted, _) =>
        if Ends(j.candidate, step) {
          DisposedStays(Env(c, b), j.facade, Engine.Exchanged(OutcomeOf(j.candidate, step), aborted));
        }
    }
  }

  /** Only calls of the locked adapter, and what does not concern the facade at all, are left. */
  lemma OwnLocked<M>(
    c: Config<M>, b: Adapter.Binding, j: Joint<M>, event: Engine.Event, messageId: string, input: ExecuteRequest)
    requires ValidLimits(c) && Linked(c, j) && Locked(c, j, input)
    ensures var j' := OwnStep(c, b, j, event, messageId);
      j'.facade.disposed || (Locked(c, j', input) && SameLease(j, j'))
  {
    hide Engine.Inv, SystemInv, ValidLimits, Answerable, InDoubt, Linked, Protocol.Next, Engine.BeginCall;
    RefusesNow(c, b, j, input);
    if event.BeginInspect? || event.BeginExecute? {
      CallUnchanged(Env(c, b), j.facade, event);
      if Engine.Next(Env(c, b), j.facade, event).operation != j.facade.operation && messageId !in j.channel.usedIds {
        assert SystemInv(c, j.channel) by {
          LinkedFacts(c, j);
        }
        CallKeepsLease(Env(c, b), j.facade, event);
        var call := if event.BeginInspect? then Inspect else Execute(event.input);
        NextStays(c, b, j.channel, Protocol.Ask(messageId, call), input);
        InDoubtStays(j.channel.adapter, Protocol.Next(c, b, j.channel, Protocol.Ask(messageId, call)).adapter, input);
      }
    }
  }

  predicate SameLease<M>(j: Joint<M>, j': Joint<M>) {
    j.facade.active.Some? && j'.facade.active.Some? && j'.facade.active.value.lease == j.facade.active.value.lease
  }

  lemma InDoubtStays(a: Adapter.State, a': Adapter.State, input: ExecuteRequest)
    requires StaysUncertain(a, a', input)
    ensures InDoubt(a', input)
  {
  }

  lemma LinkedFacts<M>(c: Config<M>, j: Joint<M>)
    requires Linked(c, j) && j.facade.active.Some?
    ensures SystemInv(c, j.channel) && Engine.Inv(j.facade) && j.channel.adapter == j.facade.active.value.adapter
  {
    hide SystemInv, Engine.Inv;
  }

  lemma CallKeepsLease(env: Engine.Environment, e: Engine.Facade, event: Engine.Event)
    requires event.BeginExecute? || event.BeginInspect?
    ensures var e' := Engine.Next(env, e, event);
      e.active.Some? ==> e'.active.Some? && e'.active.value.lease == e.active.value.lease
    ensures var op := Engine.Next(env, e, event).operation;
      op != e.operation ==> op == Some(if event.BeginInspect? then Engine.Inspecting else Engine.Executing(event.input))
  {
    hide Adapter.Begin;
  }

  lemma ActiveLocked<M>(c: Config<M>, b: Adapter.Binding, j: Joint<M>, event: Protocol.Event, input: ExecuteRequest)
    requires ValidLimits(c) && Linked(c, j) && Locked(c, j, input)
    ensures var j' := ActiveStep(c, b, j, event);
      j'.facade.disposed || (Locked(c, j', input) && SameLease(j, j'))
  {
    hide Engine.Inv, SystemInv, ValidLimits, Answerable, InDoubt, Linked, Protocol.Next, Engine.Next, Ends,
      Adapter.Finish, Adapter.Coherent;
    LinkedFacts(c, j);
    NextStays(c, b, j.channel, event, input);
    InDoubtStays(j.channel.adapter, Protocol.Next(c, b, j.channel, event).adapter, input);
    if Ends(j.channel, event) && IsCall(j.facade.operation) {
      CallEnds(Env(c, b), j.facade, OutcomeOf(j.channel, event));
    }
  }

  lemma NextLocked<M>(c: Config<M>, b: Adapter.Binding, j: Joint<M>, event: Event, input: ExecuteRequest)
    requires ValidLimits(c) && Linked(c, j) && Locked(c, j, input)
    ensures var j' := Next(c, b, j, event);
      j'.facade.disposed || (Locked(c, j', input) && SameLease(j, j'))
  {
    hide ValidLimits, Linked, OwnStep, ActiveStep, InDoubt, Answerable;
    match event {
      case Own(own, messageId) => OwnLocked(c, b, j, own, messageId, input);
      case Active(step) => ActiveLocked(c, b, j, step, input);
      case Candidate(_, _, _) =>
    }
  }

  lemma {:induction false} PlayLocked<M>(
    c: Config<M>, b: Adapter.Binding, j: Joint<M>, events: seq<Event>, input: ExecuteRequest)
    requires ValidLimits(c) && Linked(c, j) && (j.facade.disposed || Locked(c, j, input))
    ensures var j' := Play(c, b, j, events);
      && Linked(c, j')
      && (j'.facade.disposed || (!j.facade.disposed && Locked(c, j', input) && SameLease(j, j')))
    decreases |events|
  {
    hide ValidLimits, Linked, Next, Locked;
    if events == [] {
      if !j.facade.disposed {
        LockedActive(c, j, input);
      }
    } else {
      NextLinked(c, b, j, events[0]);
      if j.facade.disposed {
        DisposedForGood(c, b, j, events[0]);
      } else {
        NextLocked(c, b, j, events[0], input);
      }
      PlayLocked(c, b, Next(c, b, j, events[0]), events[1..], input);
    }
  }

  lemma LockedActive<M>(c: Config<M>, j: Joint<M>, input: ExecuteRequest)
    requires Locked(c, j, input)
    ensures j.facade.active.Some?
  {
  }

  /**
   What a doubt that cannot be resolved does to the caller, in every run: once an execute without an answer was
   submitted, the facade is locked for good. Whatever happens from then on, until it is disposed of, its worker is the
   same and it takes no other execute, no snapshot, no restore and no boot.
   */
  lemma FacadeLocked<M>(c: Config<M>, b: Adapter.Binding, events: seq<Event>, more: seq<Event>, input: ExecuteRequest)
    requires ValidLimits(c) && Reached(c, b, events).facade.active.Some?
    requires InDoubt(Reached(c, b, events).facade.active.value.adapter, input)
    requires !Answerable(c, Reached(c, b, events).channel.worker, input)
    ensures var j := Reached(c, b, events);
      var j' := Play(c, b, j, more);
      j'.facade.disposed || (Refuses(Env(c, b), j'.facade, input) && SameLease(j, j'))
  {
    hide ValidLimits, Linked, Reached, Refuses, Answerable, Play;
    var j := Reached(c, b, events);
    assert Linked(c, j) by {
      ReachedLinked(c, b, events);
    }
    LockedHere(c, j, input);
    PlayLocked(c, b, j, more, input);
    var j' := Play(c, b, j, more);
    if !j'.facade.disposed {
      RefusesNow(c, b, j', input);
    }
  }

  lemma ReachedLinked<M>(c: Config<M>, b: Adapter.Binding, events: seq<Event>)
    requires ValidLimits(c)
    ensures Linked(c, Reached(c, b, events))
  {
    hide ValidLimits, Linked, Play;
    InitialLinked(c);
    PlayLinked(c, b, Initial(), events);
  }

  lemma LockedHere<M>(c: Config<M>, j: Joint<M>, input: ExecuteRequest)
    requires Linked(c, j) && j.facade.active.Some? && InDoubt(j.facade.active.value.adapter, input)
    requires !Answerable(c, j.channel.worker, input)
    ensures Locked(c, j, input)
  {
    hide Engine.Inv, SystemInv, Answerable, Adapter.Coherent;
    ActiveFacts(j.facade);
  }

  // Out of doubt

  /** An event of the active worker's protocol, as one of the facade's run; a call is made by the caller. */
  function Lifted(event: Protocol.Event): Event {
    if event.Ask? && event.call.Execute? then Own(Engine.BeginExecute(event.call.input, false), event.messageId)
    else Active(event)
  }

  function Lift(events: seq<Protocol.Event>): seq<Event> {
    seq(|events|, i requires 0 <= i < |events| => Lifted(events[i]))
  }

  ghost predicate Follows<M>(j: Joint<M>, j': Joint<M>, channel: Protocol.System<M>) {
    && j'.channel == channel && SameLease(j, j')
    && (j'.facade.operation.Some? ==> IsCall(j'.facade.operation))
  }

  lemma LiftStep<M>(c: Config<M>, b: Adapter.Binding, j: Joint<M>, event: Protocol.Event)
    requires ValidLimits(c) && Linked(c, j) && j.facade.active.Some?
    requires j.facade.operation.Some? ==> IsCall(j.facade.operation)
    requires event.Ask? ==> event.call.Execute?
    ensures Follows(j, Next(c, b, j, Lifted(event)), Protocol.Next(c, b, j.channel, event))
  {
    hide ValidLimits, Linked, Engine.Inv, SystemInv, Adapter.Coherent, Engine.BeginCall;
    LinkedFacts(c, j);
    ActiveFacts(j.facade);
    if event.Ask? {
      hide Protocol.Next;
      LiftedAsk(c, b, j, event.messageId, event.call.input);
    } else {
      hide Protocol.Next, Engine.Next, Ends;
      if Ends(j.channel, event) {
        assert IsCall(j.facade.operation) by {
          EndsCall(j, event);
        }
        CallEnds(Env(c, b), j.facade, OutcomeOf(j.channel, event));
      }
    }
  }

  lemma EndsCall<M>(j: Joint<M>, event: Protocol.Event)
    requires Ends(j.channel, event) && j.facade.active.Some? && j.channel.adapter == j.facade.active.value.adapter
    requires Engine.OperationOf(j.facade.operation, j.channel.adapter.operation)
    ensures IsCall(j.facade.operation)
  {
    hide Adapter.Coherent;
  }

  /** The facade submits an execute just when its adapter does. */
  lemma Submission(env: Engine.Environment, e: Engine.Facade, input: ExecuteRequest)
    requires e.active.Some? && !e.disposed && (e.operation.Some? ==> IsCall(e.operation))
    requires Engine.OperationOf(e.operation, e.active.value.adapter.operation)
    requires Adapter.Coherent(e.active.value.adapter)
    ensures var e' := Engine.Next(env, e, Engine.BeginExecute(input, false));
      if Adapter.Begin(env.digest, e.active.value.adapter, Execute(input)).Submitted?
      then e.operation == None && e'.operation == Some(Engine.Executing(input)) && e'.active.Some?
        && e'.active.value.lease == e.active.value.lease
      else e' == e
  {
    hide Adapter.Begin;
    Adapter.BeginCoherent(env.digest, e.active.value.adapter, Execute(input));
    hide Adapter.Coherent;
  }

  lemma Unasked<M>(c: Config<M>, b: Adapter.Binding, sys: Protocol.System<M>, messageId: string, call: Request)
    requires messageId in sys.usedIds || !Adapter.Begin(c.digest, sys.adapter, call).Submitted?
    ensures Protocol.Next(c, b, sys, Protocol.Ask(messageId, call)) == sys
  {
    hide Adapter.Begin;
  }

  lemma LiftedAsk<M>(c: Config<M>, b: Adapter.Binding, j: Joint<M>, messageId: string, input: ExecuteRequest)
    requires j.facade.active.Some? && !j.facade.disposed && j.channel.adapter == j.facade.active.value.adapter
    requires Engine.OperationOf(j.facade.operation, j.channel.adapter.operation) && Adapter.Coherent(j.channel.adapter)
    requires j.facade.operation.Some? ==> IsCall(j.facade.operation)
    ensures Follows(j, OwnStep(c, b, j, Engine.BeginExecute(input, false), messageId),
      Protocol.Next(c, b, j.channel, Protocol.Ask(messageId, Execute(input))))
  {
    hide Adapter.Begin, Adapter.Coherent, Engine.Next, Protocol.Next;
    Submission(Env(c, b), j.facade, input);
    if messageId in j.channel.usedIds || !Adapter.Begin(c.digest, j.channel.adapter, Execute(input)).Submitted? {
      Unasked(c, b, j.channel, messageId, Execute(input));
    }
  }

  lemma {:induction false} LiftPlay<M>(c: Config<M>, b: Adapter.Binding, j: Joint<M>, events: seq<Protocol.Event>)
    requires ValidLimits(c) && Linked(c, j) && j.facade.active.Some?
    requires j.facade.operation.Some? ==> IsCall(j.facade.operation)
    requires forall i :: 0 <= i < |events| && events[i].Ask? ==> events[i].call.Execute?
    ensures var j' := Play(c, b, j, Lift(events));
      Linked(c, j') && Follows(j, j', Protocol.Play(c, b, j.channel, events))
    decreases |events|
  {
    hide ValidLimits, Linked, Next, Protocol.Next;
    if events != [] {
      NextLinked(c, b, j, Lifted(events[0]));
      LiftStep(c, b, j, events[0]);
      assert Lift(events)[1..] == Lift(events[1..]);
      LiftPlay(c, b, Next(c, b, j, Lifted(events[0])), events[1..]);
    }
  }

  /** These events free the facade: the same worker, with no operation and no doubt. */
  ghost predicate Frees<M>(c: Config<M>, b: Adapter.Binding, j: Joint<M>, events: seq<Event>) {
    var j' := Play(c, b, j, events);
    SameLease(j, j') && j'.facade.operation == None && j'.facade.uncertainExecute == None
  }

  ghost predicate Freeable<M>(c: Config<M>, b: Adapter.Binding, j: Joint<M>) {
    exists events :: Frees(c, b, j, events)
  }

  lemma ResolvedFrees<M>(c: Config<M>, j: Joint<M>)
    requires Linked(c, j) && j.facade.active.Some? && Resolved(j.channel.adapter)
    requires j.facade.operation.Some? ==> IsCall(j.facade.operation)
    ensures j.facade.operation == None && j.facade.uncertainExecute == None
  {
    hide Linked, Engine.Inv, SystemInv, Adapter.Coherent;
    LinkedFacts(c, j);
    ActiveFacts(j.facade);
  }

  lemma LockedNotFree<M>(c: Config<M>, j: Joint<M>, input: ExecuteRequest)
    requires Linked(c, j) && Locked(c, j, input)
    ensures j.facade.operation.Some? || j.facade.uncertainExecute.Some?
  {
    hide Linked, Engine.Inv, SystemInv, Adapter.Coherent, Answerable;
    LinkedFacts(c, j);
    ActiveFacts(j.facade);
  }

  /**
   The exact condition for the caller, in every run: a facade that is uncertain of an execute can be freed, with the
   same worker, if and only if the id of the execute is one that the runtime takes and its turn does not break the
   interpreter.
   */
  lemma FreeableIff<M>(c: Config<M>, b: Adapter.Binding, events: seq<Event>, messageId: string, input: ExecuteRequest)
    requires ValidLimits(c) && Reached(c, b, events).facade.active.Some?
    requires Reached(c, b, events).facade.uncertainExecute == Some(input)
    requires BoundedId(messageId) && messageId !in Reached(c, b, events).channel.usedIds
    ensures var j := Reached(c, b, events);
      Freeable(c, b, j) <==> BoundedId(input.requestId) && !Breaks(c, j.channel.worker, input)
  {
    hide ValidLimits, Linked, Reached, Answerable, Play, Engine.Inv, SystemInv, Adapter.Coherent, BoundedId, Breaks,
      Protocol.Play, Lift;
    var j := Reached(c, b, events);
    ReachedLinked(c, b, events);
    LinkedFacts(c, j);
    ActiveFacts(j.facade);
    Condition(c, j.channel, input);
    UncertainInDoubt(c, j.channel, input);
    if Answerable(c, j.channel.worker, input) {
      LockedOperation(c, j);
      var more := Recovery(c, b, j.channel, messageId, input);
      LiftPlay(c, b, j, more);
      ResolvedFrees(c, Play(c, b, j, Lift(more)));
      assert Frees(c, b, j, Lift(more));
    } else {
      LockedHere(c, j, input);
      forall more
        ensures !Frees(c, b, j, more)
      {
        PlayLocked(c, b, j, more, input);
        if !Play(c, b, j, more).facade.disposed {
          LockedNotFree(c, Play(c, b, j, more), input);
        } else {
          DisposedNotActive(c, Play(c, b, j, more));
        }
      }
    }
  }

  lemma DisposedNotActive<M>(c: Config<M>, j: Joint<M>)
    requires Linked(c, j) && j.facade.disposed
    ensures j.facade.active == None
  {
    hide Engine.ActiveInv, SystemInv;
  }

  lemma LockedOperation<M>(c: Config<M>, j: Joint<M>)
    requires Linked(c, j) && j.facade.active.Some? && j.facade.uncertainExecute.Some?
    ensures j.facade.operation.Some? ==> IsCall(j.facade.operation)
  {
    hide Engine.Inv, SystemInv;
  }

  lemma Condition<M>(c: Config<M>, sys: Protocol.System<M>, input: ExecuteRequest)
    requires ValidLimits(c) && SystemInv(c, sys) && sys.adapter.recovery == Adapter.ExecuteUncertain(input)
    ensures Answerable(c, sys.worker, input) <==> BoundedId(input.requestId) && !Breaks(c, sys.worker, input)
  {
    hide SystemInv, ValidLimits, Answerable, BoundedId, Breaks, RuntimeSafety.Inv, Adapter.Admitted;
    InvFacts(c, sys);
    LimitsFacts(c);
    AnswerableIff(c, sys.worker, input);
  }
}
