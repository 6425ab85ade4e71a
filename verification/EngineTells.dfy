/**
 The facade step by step, against any worker: what begins, how far a restore
 gets, what the new worker is then held to be, and what remains when it fails.
 */
module EngineTells {
  import opened Wrappers
  import opened Bytes
  import opened EngineTypes
  import opened Messages
  import opened Engine
  import Adapter
  import AdapterTells
  import CanonicalCommand

  // Beginnings

  /** A boot begins on a fresh facade, and a restore on one that is booted and in no doubt. */
  lemma StagedBegin(env: Environment, e: Facade, bootRequest: BootRequest, snapshot: EngineSnapshot)
    ensures Next(env, e, BeginBoot(bootRequest)) ==
      if !e.disposed && e.active == None && e.operation == None && bootRequest.storyId != ""
        && IsSha256(bootRequest.artifactSha256)
      then e.(operation := Some(CreatingFirst(bootRequest, e.epoch))) else e
    ensures Next(env, e, BeginRestore(snapshot)) ==
      if !e.disposed && e.active.Some? && e.operation == None && e.uncertainExecute == None
        && Adapter.SnapshotAcceptable(snapshot) && snapshot.compatibility == e.active.value.compatibility
      then e.(operation := Some(Restoring(snapshot, e.epoch, e.active.value, Digesting))) else e
  {
    hide IsSha256, Adapter.SnapshotAcceptable;
  }

  /** The adapter of the active worker is asked this, and nothing else changes. */
  predicate Calls(e: Facade, e': Facade, call: Request, operation: Operation)
    requires e.active.Some?
  {
    e' == e.(
      operation := Some(operation),
      active := Some(e.active.value.(adapter := e.active.value.adapter.(operation := Some(call)))))
  }

  /**
   A facade that is not disposed, booted and idle calls its worker. In doubt of an execute it lets that one through
   again, and inspections; otherwise any canonical command until the story ends, and snapshots.
   */
  lemma CallsBegin(env: Environment, e: Facade, input: ExecuteRequest, aborted: bool)
    requires Inv(e)
    ensures var idle := !e.disposed && e.active.Some? && e.operation == None;
      var canonical := input.requestId != "" && input.expectedRevision <= MAX_SAFE
        && CanonicalCommand.IsCanonical(input.command);
      var passes := e.uncertainExecute == Some(input)
        || (e.uncertainExecute == None && e.active.Some? && e.active.value.state.boundary == InputRequested);
      && (if idle && !aborted && canonical && passes
          then Calls(e, Next(env, e, BeginExecute(input, aborted)), Execute(input), Executing(input))
          else Next(env, e, BeginExecute(input, aborted)) == e)
      && (if idle && e.uncertainExecute == None then Calls(e, Next(env, e, BeginSnapshot), Snapshot, Snapshotting)
          else Next(env, e, BeginSnapshot) == e)
      && (if idle then Calls(e, Next(env, e, BeginInspect), Inspect, Inspecting) else Next(env, e, BeginInspect) == e)
  {
    hide CanonicalCommand.IsCanonical;
  }

  predicate EngineInv(e: Facade) {
    Inv(e)
  }

  // A restore, stage by stage

  /** The restore goes on in this stage. */
  predicate GoesOn(e: Facade, e': Facade, stage: Stage)
    requires e.operation.Some? && e.operation.value.Restoring?
  {
    e' == e.(operation := Some(e.operation.value.(stage := stage)), live := e'.live, created := e'.created)
  }

  /** The restore is over: the active worker, its doubt and its lease are as they were, and the candidate is gone. */
  predicate GivesUp(e: Facade, e': Facade) {
    && e' == e.(operation := None, live := e'.live, created := e'.created)
    && e'.live == if e.active.Some? then {e.active.value.lease} else {}
  }

  ghost predicate InStage(e: Facade) {
    Inv(e) && e.operation.Some? && e.operation.value.Restoring?
  }

  /** Bytes that do not have their digest end the restore, and so does a signal; a worker is made after that. */
  lemma DigestStage(env: Environment, e: Facade, matches: bool, aborted: bool)
    requires InStage(e) && e.operation.value.stage.Digesting?
    ensures var e' := Next(env, e, Digested(matches, aborted));
      if matches && !aborted then GoesOn(e, e', Creating) && e'.live == e.live && e'.created == e.created
      else GivesUp(e, e') && e'.created == e.created
  {
  }

  /** The candidate is a worker of its own, booted with the story of the active one. */
  lemma CreateStage(env: Environment, e: Facade, ok: bool, aborted: bool)
    requires InStage(e) && e.operation.value.stage.Creating?
    ensures var e' := Next(env, e, FactoryDone(ok, aborted));
      var request := e.operation.value.from.bootRequest;
      && e'.created == (if ok then e.created + 1 else e.created)
      && if ok && !aborted && request.storyId != "" && IsSha256(request.artifactSha256) then
           GoesOn(e, e', BootingCandidate(e.created,
             Adapter.State(None, Adapter.Ready, Some(Boot(request.storyId, request.artifactSha256)))))
           && e'.live == e.live + {e.created} && e.created !in e.live
         else GivesUp(e, e')
  {
    hide IsSha256;
  }

  /** A boot of the bound engine goes on to the snapshot, whose bytes are digested once more. */
  lemma BootStage(env: Environment, e: Facade, o: Adapter.Outcome, aborted: bool)
    requires InStage(e) && e.operation.value.stage.BootingCandidate?
    ensures var e' := Next(env, e, Exchanged(o, aborted));
      var op := e.operation.value;
      var request, snapshot := op.from.bootRequest, op.snapshot;
      if !aborted && o.Reply? && o.response.BootDone? && o.response.revision == 0
        && AdapterTells.Bound(env.binding, request.storyId, request.artifactSha256, o.response.compatibility)
        && snapshot.compatibility == o.response.compatibility && Adapter.SnapshotAcceptable(snapshot)
        && snapshot.sha256 == env.digest(snapshot.bytes)
      then
        && GoesOn(e, e', RestoringCandidate(op.stage.lease, Adapter.State(
             Some(Adapter.Confirmed(0, o.response.boundary, snapshot.compatibility)), Adapter.Ready, Some(Restore(snapshot)))))
        && e'.live == e.live && e'.created == e.created
      else GivesUp(e, e')
  {
    hide IsSha256, AdapterTells.Bound, Adapter.NonemptyCompatibility, Adapter.BeginRestore, Adapter.FinishBoot, GivesUp;
    var op := e.operation.value;
    var lease, request := op.stage.lease, op.from.bootRequest;
    Candidates(e, lease);
    assert Adapter.Coherent(op.stage.adapter);
    AdapterTells.BootTaken(env.binding, env.digest, op.stage.adapter, o);
    var (adapter, _) := Adapter.FinishBoot(env.binding, op.stage.adapter, request.storyId, request.artifactSha256, o);
    AdapterTells.RestoreGoesOut(env.digest, adapter, op.snapshot);
  }

  lemma Candidates(e: Facade, lease: nat)
    requires InStage(e) && CandidateOf(e.operation.value) == Some(lease)
    ensures GivesUp(e, Abandoned(e, lease))
  {
  }

  /** Only a silent restore at the snapshot's revision goes on. */
  lemma RestoreStage(env: Environment, e: Facade, o: Adapter.Outcome, aborted: bool)
    requires InStage(e) && e.operation.value.stage.RestoringCandidate?
    ensures var e' := Next(env, e, Exchanged(o, aborted));
      var op := e.operation.value;
      var revision := op.snapshot.revision;
      if !aborted && o.Reply? && o.response.RestoreDone? && o.response.status == Restored && o.response.output == ""
        && o.response.revision == revision <= MAX_SAFE
      then
        && GoesOn(e, e', InspectingCandidate(op.stage.lease, Adapter.State(
             Some(Adapter.Confirmed(revision, o.response.boundary, op.snapshot.compatibility)), Adapter.Ready, Some(Inspect)),
             revision, o.response.boundary))
        && e'.live == e.live && e'.created == e.created
      else GivesUp(e, e')
  {
    hide GivesUp;
    Candidates(e, e.operation.value.stage.lease);
  }

  /** The candidate is the worker now: at the snapshot's revision, in the state that it told, with the old one's story. */
  predicate TakesOver(e: Facade, e': Facade, state: PublicState)
    requires e.operation.Some? && e.operation.value.Restoring? && e.operation.value.stage.InspectingCandidate?
  {
    var op := e.operation.value;
    var confirmed := Adapter.Confirmed(op.snapshot.revision, state.boundary, op.snapshot.compatibility);
    && state.revision == op.snapshot.revision
    && e' == e.(
         active := Some(ActiveWorker(
           op.stage.lease, Adapter.State(Some(confirmed), Adapter.Ready, None), op.from.bootRequest, op.snapshot.compatibility,
           state)),
         operation := None, uncertainExecute := None, live := {op.stage.lease})
  }

  /** The last check: the candidate tells the revision and the boundary that it restored, and nothing was disposed. */
  lemma InspectStage(env: Environment, e: Facade, o: Adapter.Outcome, aborted: bool)
    requires InStage(e) && e.operation.value.stage.InspectingCandidate?
    ensures var e' := Next(env, e, Exchanged(o, aborted));
      var op := e.operation.value;
      if !aborted && o.Reply? && o.response.InspectDone? && o.response.state.revision == op.snapshot.revision <= MAX_SAFE
        && o.response.state.boundary == op.stage.boundary && !e.disposed && e.epoch == op.epoch
      then TakesOver(e, e', o.response.state)
      else GivesUp(e, e')
  {
    hide GivesUp;
    Candidates(e, e.operation.value.stage.lease);
  }

  /** A signal ends a restore at once wherever a candidate exists, and leaves it to the next answer before. */
  lemma AbortStage(env: Environment, e: Facade)
    requires InStage(e)
    ensures var e' := Next(env, e, Aborted);
      if e.operation.value.stage.Digesting? || e.operation.value.stage.Creating? then e' == e
      else GivesUp(e, e')
  {
  }

  /** Dispose drops the worker and its lease, once; what is under way ends later, without effect. */
  lemma DisposeTells(env: Environment, e: Facade)
    requires Inv(e)
    ensures var e' := Next(env, e, Dispose);
      && e'.disposed && e'.active == None && e'.operation == e.operation
      && (e.disposed ==> e' == e)
      && (!e.disposed ==> e'.epoch > e.epoch)
      && (e.active.Some? ==> e.active.value.lease !in e'.live)
  {
  }

  // The first boot

  /** The first worker is made for a boot, and becomes the active one with the very state that its boot told. */
  lemma FirstStages(env: Environment, e: Facade, ok: bool, o: Adapter.Outcome, aborted: bool)
    requires Inv(e) && e.operation.Some?
    ensures e.operation.value.CreatingFirst? ==>
      var e', request := Next(env, e, FactoryDone(ok, aborted)), e.operation.value.bootRequest;
      if ok && request.storyId != "" && IsSha256(request.artifactSha256) then
        e' == e.(
          operation := Some(BootingFirst(request, e.operation.value.epoch, e.created,
            Adapter.State(None, Adapter.Ready, Some(Boot(request.storyId, request.artifactSha256))))),
          live := e.live + {e.created}, created := e.created + 1)
      else GivesUp(e, e')
    ensures e.operation.value.BootingFirst? ==>
      var e', op := Next(env, e, Exchanged(o, aborted)), e.operation.value;
      if o.Reply? && o.response.BootDone? && o.response.revision == 0 && !e.disposed && e.epoch == op.epoch
        && AdapterTells.Bound(env.binding, op.bootRequest.storyId, op.bootRequest.artifactSha256, o.response.compatibility)
      then
        var c := o.response.compatibility;
        e' == e.(
          active := Some(ActiveWorker(op.lease,
            Adapter.State(Some(Adapter.Confirmed(0, o.response.boundary, c)), Adapter.Ready, None), op.bootRequest, c,
            PublicState(0, o.response.output, o.response.boundary))),
          operation := None)
      else GivesUp(e, e')
  {
    hide IsSha256, AdapterTells.Bound, Adapter.NonemptyCompatibility;
    if e.operation.value.BootingFirst? {
      hide Adapter.FinishBoot;
      AdapterTells.BootTaken(env.binding, env.digest, e.operation.value.adapter, o);
    }
  }
}
