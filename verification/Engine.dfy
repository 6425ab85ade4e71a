/**
 The host facade: the one active worker, and restore by replacement. Every
 operation is cut where the program awaits something; between the cuts the
 facade may be disposed and signals may abort. `live` is the set of leases that
 were created and not terminated.
 */
module Engine {
  import opened Wrappers
  import opened Bytes
  import opened EngineTypes
  import opened Messages
  import Adapter

  datatype BootRequest = BootRequest(storyId: string, artifactSha256: string)

  datatype ActiveWorker = ActiveWorker(
    lease: nat, adapter: Adapter.State, bootRequest: BootRequest, compatibility: Compatibility, state: PublicState)

  /** What the replacement restore awaits. */
  datatype Stage =
    | Digesting
    | Creating
    | BootingCandidate(lease: nat, adapter: Adapter.State)
    | RestoringCandidate(lease: nat, adapter: Adapter.State)
    | InspectingCandidate(lease: nat, adapter: Adapter.State, revision: nat, boundary: Boundary)

  datatype Operation =
    | CreatingFirst(bootRequest: BootRequest, epoch: nat)
    | BootingFirst(bootRequest: BootRequest, epoch: nat, lease: nat, adapter: Adapter.State)
    | Executing(input: ExecuteRequest)
    | Snapshotting
    | Inspecting
    /** `from` is the worker that was active when the restore began. */
    | Restoring(snapshot: EngineSnapshot, epoch: nat, from: ActiveWorker, stage: Stage)

  datatype Facade = Facade(
    active: Option<ActiveWorker>,
    operation: Option<Operation>,
    uncertainExecute: Option<ExecuteRequest>,
    disposed: bool,
    epoch: nat,
    live: set<nat>,
    created: nat)

  const INITIAL: Facade := Facade(None, None, None, false, 0, {}, 0)

  datatype Event =
    | BeginBoot(bootRequest: BootRequest)
    | BeginExecute(input: ExecuteRequest, aborted: bool)
    | BeginSnapshot
    | BeginInspect
    | BeginRestore(snapshot: EngineSnapshot)
    /** The digest of the snapshot's bytes is there. */
    | Digested(matches: bool, aborted: bool)
    /** The factory is done: with a lease, or with an error. */
    | FactoryDone(ok: bool, aborted: bool)
    /** The exchange of the awaited adapter ends. */
    | Exchanged(outcome: Adapter.Outcome, aborted: bool)
    | Aborted
    | Dispose

  datatype Environment = Environment(binding: Adapter.Binding, digest: seq<byte> -> string)

  function Terminated(e: Facade, lease: nat): Facade {
    e.(live := e.live - {lease})
  }

  function Ended(e: Facade): Facade {
    e.(operation := None)
  }

  /** The candidate is given up; whatever is active stays. */
  function Abandoned(e: Facade, lease: nat): Facade {
    Ended(Terminated(e, lease))
  }

  function BeginBootStep(e: Facade, bootRequest: BootRequest): Facade {
    if e.disposed || e.active.Some? || bootRequest.storyId == "" || !IsSha256(bootRequest.artifactSha256)
      || e.operation.Some?
    then e
    else e.(operation := Some(CreatingFirst(bootRequest, e.epoch)))
  }

  function WithAdapter(e: Facade, adapter: Adapter.State): Facade
    requires e.active.Some?
  {
    e.(active := Some(e.active.value.(adapter := adapter)))
  }

  /** A call of the active adapter: `e` unchanged when the facade or the adapter throws before submission. */
  function BeginCall(env: Environment, e: Facade, call: Request, operation: Operation): Facade {
    if e.disposed || e.active == None || e.operation.Some? then e
    else
      match Adapter.Begin(env.digest, e.active.value.adapter, call)
      case Submitted(adapter) => WithAdapter(e, adapter).(operation := Some(operation))
      case _ => e
  }

  function BeginRestoreStep(e: Facade, snapshot: EngineSnapshot): Facade {
    if e.disposed || e.active == None || e.uncertainExecute.Some? || e.operation.Some?
      || !Adapter.SnapshotAcceptable(snapshot) || snapshot.compatibility != e.active.value.compatibility
    then e
    else e.(operation := Some(Restoring(snapshot, e.epoch, e.active.value, Digesting)))
  }

  function At(e: Facade, op: Operation, stage: Stage): Facade
    requires op.Restoring?
  {
    e.(operation := Some(op.(stage := stage)))
  }

  function DigestedStep(e: Facade, op: Operation, matches: bool, aborted: bool): Facade
    requires op.Restoring?
  {
    if !matches || aborted then Ended(e) else At(e, op, Creating)
  }

  /** A lease was created: the next one in number. */
  function Leased(e: Facade): Facade {
    e.(live := e.live + {e.created}, created := e.created + 1)
  }

  function FirstLeased(env: Environment, e: Facade, bootRequest: BootRequest, epoch: nat): Facade {
    var e1 := Leased(e);
    match Adapter.Begin(env.digest, Adapter.INITIAL, Boot(bootRequest.storyId, bootRequest.artifactSha256))
    case Submitted(adapter) => e1.(operation := Some(BootingFirst(bootRequest, epoch, e.created, adapter)))
    case _ => Abandoned(e1, e.created)
  }

  function CandidateLeased(env: Environment, e: Facade, op: Operation, aborted: bool): Facade
    requires op.Restoring?
  {
    var e1 := Leased(e);
    var request := op.from.bootRequest;
    if aborted then Abandoned(e1, e.created)
    else
      match Adapter.Begin(env.digest, Adapter.INITIAL, Boot(request.storyId, request.artifactSha256))
      case Submitted(adapter) => At(e1, op, BootingCandidate(e.created, adapter))
      case _ => Abandoned(e1, e.created)
  }

  function FirstBooted(env: Environment, e: Facade, op: Operation, o: Adapter.Outcome): Facade
    requires op.BootingFirst?
  {
    var request := op.bootRequest;
    var (adapter, result) := Adapter.FinishBoot(env.binding, op.adapter, request.storyId, request.artifactSha256, o);
    if result == None || !result.value.BootDone? || e.disposed || e.epoch != op.epoch then Abandoned(e, op.lease)
    else
      var r := result.value;
      Ended(e).(active := Some(
        ActiveWorker(op.lease, adapter, request, r.compatibility, PublicState(r.revision, r.output, r.boundary))))
  }

  function CandidateBooted(env: Environment, e: Facade, op: Operation, o: Adapter.Outcome): Facade
    requires op.Restoring? && op.stage.BootingCandidate?
  {
    var request, lease := op.from.bootRequest, op.stage.lease;
    var (adapter, result) := Adapter.FinishBoot(env.binding, op.stage.adapter, request.storyId, request.artifactSha256, o);
    if result == None then Abandoned(e, lease)
    else
      match Adapter.Begin(env.digest, adapter, Restore(op.snapshot))
      case Submitted(next) => At(e, op, RestoringCandidate(lease, next))
      case _ => Abandoned(e, lease)
  }

  function CandidateRestored(env: Environment, e: Facade, op: Operation, o: Adapter.Outcome): Facade
    requires op.Restoring? && op.stage.RestoringCandidate? && op.stage.adapter.confirmed.Some?
  {
    var lease := op.stage.lease;
    var (adapter, result) := Adapter.FinishRestore(op.stage.adapter, op.snapshot, o);
    if result == None || !result.value.RestoreDone? || result.value.status != Restored || result.value.output != "" then
      Abandoned(e, lease)
    else
      match Adapter.Begin(env.digest, adapter, Inspect)
      case Submitted(next) =>
        At(e, op, InspectingCandidate(lease, next, result.value.revision, result.value.boundary))
      case _ => Abandoned(e, lease)
  }

  /** The last check; then the candidate takes over and the old worker is terminated. */
  function CandidateInspected(e: Facade, op: Operation, o: Adapter.Outcome): Facade
    requires op.Restoring? && op.stage.InspectingCandidate? && op.stage.adapter.confirmed.Some?
  {
    var stage := op.stage;
    var (adapter, result) := Adapter.FinishInspect(stage.adapter, o);
    if result == None || !result.value.InspectDone? || result.value.state.revision != stage.revision
      || result.value.state.boundary != stage.boundary || e.disposed || e.epoch != op.epoch
    then Abandoned(e, stage.lease)
    else
      var next := ActiveWorker(stage.lease, adapter, op.from.bootRequest, op.from.compatibility, result.value.state);
      Ended(Terminated(e, op.from.lease)).(active := Some(next), uncertainExecute := None)
  }

  function Executed(e: Facade, input: ExecuteRequest, o: Adapter.Outcome): Facade
    requires e.active.Some? && e.active.value.adapter.confirmed.Some?
  {
    var worker := e.active.value;
    var (adapter, result) := Adapter.FinishExecute(worker.adapter, input, o);
    if result == None || !result.value.ExecuteDone? then
      Ended(WithAdapter(e, adapter)).(uncertainExecute := Some(input))
    else
      var r := result.value.result;
      var state := if r.status == Committed && r.revision >= worker.state.revision
        then PublicState(r.revision, r.output, r.boundary) else worker.state;
      Ended(e).(active := Some(worker.(adapter := adapter, state := state)), uncertainExecute := None)
  }

  /** This reply is a result that the adapter of the active worker takes for an answer to the execute. */
  predicate Delivers(e: Facade, input: ExecuteRequest, o: Adapter.Outcome) {
    && e.active.Some? && e.active.value.adapter.confirmed.Some?
    && o.Reply? && o.response.ExecuteDone?
    && var k := e.active.value.adapter.confirmed.value;
      Adapter.ValidExecuteResult(input, o.response.result, k.revision, k.boundary)
  }

  function Inspected(e: Facade, o: Adapter.Outcome): Facade
    requires e.active.Some? && e.active.value.adapter.confirmed.Some?
  {
    var worker := e.active.value;
    var (adapter, result) := Adapter.FinishInspect(worker.adapter, o);
    var state := if result.Some? && result.value.InspectDone? then result.value.state else worker.state;
    Ended(e).(active := Some(worker.(adapter := adapter, state := state)))
  }

  /** The lease of a candidate whose fate is open. */
  function CandidateOf(op: Operation): Option<nat> {
    match op
    case BootingFirst(_, _, lease, _) => Some(lease)
    case Restoring(_, _, _, stage) =>
      (match stage
       case BootingCandidate(lease, _) => Some(lease)
       case RestoringCandidate(lease, _) => Some(lease)
       case InspectingCandidate(lease, _, _, _) => Some(lease)
       case _ => None)
    case _ => None
  }

  /** An operation of a worker that was disposed meanwhile ends without effect; nothing reads the facade again. */
  function ExchangedStep(env: Environment, e: Facade, op: Operation, o: Adapter.Outcome, aborted: bool): Facade {
    match op
    case BootingFirst(_, _, _, _) => FirstBooted(env, e, op, o)
    case Executing(input) =>
      if e.active.Some? && e.active.value.adapter.confirmed.Some? then Executed(e, input, o) else Ended(e)
    case Snapshotting =>
      if e.active.Some? && e.active.value.adapter.confirmed.Some?
      then Ended(WithAdapter(e, Adapter.FinishSnapshot(env.digest, e.active.value.adapter, o).0)) else Ended(e)
    case Inspecting =>
      if e.active.Some? && e.active.value.adapter.confirmed.Some? then Inspected(e, o) else Ended(e)
    case Restoring(_, _, _, stage) =>
      if aborted && CandidateOf(op).Some? then Abandoned(e, CandidateOf(op).value)
      else
        (match stage
         case BootingCandidate(_, _) => CandidateBooted(env, e, op, o)
         case RestoringCandidate(_, adapter) =>
           if adapter.confirmed.Some? then CandidateRestored(env, e, op, o) else e
         case InspectingCandidate(_, adapter, _, _) =>
           if adapter.confirmed.Some? then CandidateInspected(e, op, o) else e
         case _ => e)
    case CreatingFirst(_, _) => e
  }

  /** The signal of a restore rejects what it awaits, except the digest and the factory, which are awaited out. */
  function AbortedStep(e: Facade, op: Operation): Facade {
    if op.Restoring? && CandidateOf(op).Some? then Abandoned(e, CandidateOf(op).value) else e
  }

  function DisposeStep(e: Facade): Facade {
    if e.disposed then e
    else
      var e1 := if e.active.Some? then Terminated(e, e.active.value.lease) else e;
      e1.(disposed := true, epoch := e.epoch + 1, active := None)
  }

  function FactoryDoneStep(env: Environment, e: Facade, op: Operation, ok: bool, aborted: bool): Facade {
    match op
    case CreatingFirst(bootRequest, epoch) => if ok then FirstLeased(env, e, bootRequest, epoch) else Ended(e)
    case Restoring(_, _, _, stage) =>
      if !stage.Creating? then e
      else if ok then CandidateLeased(env, e, op, aborted)
      else Ended(e)
    case _ => e
  }

  /** An event for the operation under way. */
  function Continue(env: Environment, e: Facade, op: Operation, event: Event): Facade {
    match event
    case Digested(matches, aborted) =>
      if op.Restoring? && op.stage.Digesting? then DigestedStep(e, op, matches, aborted) else e
    case FactoryDone(ok, aborted) => FactoryDoneStep(env, e, op, ok, aborted)
    case Exchanged(o, aborted) => ExchangedStep(env, e, op, o, aborted)
    case Aborted => AbortedStep(e, op)
    case _ => e
  }

  /** An event that is not possible changes nothing. */
  function Next(env: Environment, e: Facade, event: Event): Facade {
    match event
    case BeginBoot(bootRequest) => BeginBootStep(e, bootRequest)
    case BeginExecute(input, aborted) => if aborted then e else BeginCall(env, e, Execute(input), Executing(input))
    case BeginSnapshot => BeginCall(env, e, Snapshot, Snapshotting)
    case BeginInspect => BeginCall(env, e, Inspect, Inspecting)
    case BeginRestore(snapshot) => BeginRestoreStep(e, snapshot)
    case Dispose => DisposeStep(e)
    case _ => if e.operation == None then e else Continue(env, e, e.operation.value, event)
  }

  function Play(env: Environment, e: Facade, events: seq<Event>): Facade
    decreases |events|
  {
    if events == [] then e else Play(env, Next(env, e, events[0]), events[1..])
  }

  // What holds after any events

  predicate OperationOf(op: Option<Operation>, call: Option<Request>) {
    match op
    case Some(Executing(input)) => call == Some(Execute(input))
    case Some(Snapshotting) => call == Some(Snapshot)
    case Some(Inspecting) => call == Some(Inspect)
    case _ => call == None
  }

  /** The active worker: its adapter is booted, is never quarantined, and agrees with the facade's own view. */
  predicate ActiveInv(e: Facade, w: ActiveWorker) {
    && Adapter.Coherent(w.adapter) && w.adapter.confirmed.Some?
    && (w.adapter.recovery.Ready? || w.adapter.recovery.ExecuteUncertain?)
    && (w.adapter.operation.Some? && w.adapter.recovery.ExecuteUncertain? && w.adapter.operation.value.Execute? ==>
      w.adapter.operation.value.input == w.adapter.recovery.input)
    && OperationOf(e.operation, w.adapter.operation)
    && w.state.revision == w.adapter.confirmed.value.revision
    && w.state.boundary == w.adapter.confirmed.value.boundary
    && w.compatibility == w.adapter.confirmed.value.compatibility
    && e.uncertainExecute == Doubt(w.adapter)
  }

  /** The execute whose fate the adapter does not know. */
  function Doubt(a: Adapter.State): Option<ExecuteRequest> {
    if a.recovery.ExecuteUncertain? then Some(a.recovery.input) else None
  }

  predicate CandidateInv(op: Operation) {
    match op
    case BootingFirst(request, _, _, adapter) =>
      adapter == Adapter.INITIAL.(operation := Some(Boot(request.storyId, request.artifactSha256)))
    case Restoring(snapshot, _, from, stage) =>
      (match stage
       case BootingCandidate(_, adapter) =>
         adapter == Adapter.INITIAL.(operation := Some(Boot(from.bootRequest.storyId, from.bootRequest.artifactSha256)))
       case RestoringCandidate(_, adapter) =>
         && adapter.confirmed.Some? && adapter.recovery.Ready? && adapter.operation == Some(Restore(snapshot))
         && adapter.confirmed.value.compatibility == snapshot.compatibility
       case InspectingCandidate(_, adapter, revision, boundary) =>
         && adapter.confirmed.Some? && adapter.recovery.Ready? && adapter.operation == Some(Inspect)
         && adapter.confirmed.value.compatibility == snapshot.compatibility
         && adapter.confirmed.value.revision == revision == snapshot.revision
         && adapter.confirmed.value.boundary == boundary
       case _ => true)
    case _ => true
  }

  /** The leases that somebody will still answer for: the active worker's and the candidate's. */
  function Owned(e: Facade): set<nat> {
    (if e.active.Some? then {e.active.value.lease} else {}) +
    (if e.operation.Some? && CandidateOf(e.operation.value).Some? then {CandidateOf(e.operation.value).value} else {})
  }

  /** While nothing was disposed, a restore under way still has the active worker that it began with. */
  predicate RestoreInv(e: Facade, op: Operation) {
    match op
    case CreatingFirst(_, epoch) => epoch <= e.epoch && (epoch == e.epoch ==> e.active == None && !e.disposed)
    case BootingFirst(_, epoch, _, _) => epoch <= e.epoch && (epoch == e.epoch ==> e.active == None && !e.disposed)
    case Restoring(snapshot, epoch, from, _) =>
      && epoch <= e.epoch && (epoch == e.epoch ==> e.active == Some(from) && !e.disposed)
      && snapshot.compatibility == from.compatibility
    case _ => true
  }

  predicate Inv(e: Facade) {
    && Owned(e) == e.live
    && (forall lease :: lease in e.live ==> lease < e.created)
    && (e.active.Some? && e.operation.Some? && CandidateOf(e.operation.value).Some? ==>
      e.active.value.lease != CandidateOf(e.operation.value).value)
    && (e.disposed ==> e.active == None)
    && (e.active.Some? ==> ActiveInv(e, e.active.value))
    && (e.operation.Some? ==> CandidateInv(e.operation.value) && RestoreInv(e, e.operation.value))
    && (e.active == None && !e.disposed ==> e.uncertainExecute == None)
  }
}
