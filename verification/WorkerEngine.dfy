/** The facade object: one method for each stretch of code between two awaits. */
module WorkerEngine {
  import opened Wrappers
  import opened EngineTypes
  import opened Messages
  import opened Engine
  import Adapter

  class DorkWorkerEngine {
    const env: Environment
    var active: Option<ActiveWorker>
    var operation: Option<Operation>
    var uncertainExecute: Option<ExecuteRequest>
    var disposed: bool
    var lifecycleEpoch: nat
    /** The leases that the factory made and nobody terminated, and how many it made. */
    var live: set<nat>
    var created: nat

    ghost function Abstract(): Facade
      reads this
    {
      Facade(active, operation, uncertainExecute, disposed, lifecycleEpoch, live, created)
    }

    constructor (env: Environment)
      ensures Abstract() == INITIAL && this.env == env
    {
      this.env := env;
      active, operation, uncertainExecute := None, None, None;
      disposed, lifecycleEpoch, live, created := false, 0, {}, 0;
    }

    method Terminate(lease: nat)
      modifies this`live
      ensures live == old(live) - {lease}
    {
      live := live - {lease};
    }

    /** The `finally` of an operation that still holds a candidate lease. */
    method Abandon(lease: nat)
      modifies this`live, this`operation
      ensures Abstract() == Abandoned(old(Abstract()), lease)
    {
      Terminate(lease);
      operation := None;
    }

    method BeginBoot(bootRequest: BootRequest) returns (begun: bool)
      modifies this`operation
      ensures Abstract() == Next(env, old(Abstract()), Event.BeginBoot(bootRequest))
      ensures begun <==> Abstract() != old(Abstract())
    {
      if disposed || active.Some? || bootRequest.storyId == "" || !IsSha256(bootRequest.artifactSha256) || operation.Some? {
        return false;
      }
      operation := Some(CreatingFirst(bootRequest, lifecycleEpoch));
      return true;
    }

    method Lease() returns (lease: nat)
      modifies this`live, this`created
      ensures lease == old(created) && created == lease + 1 && live == old(live) + {lease}
    {
      lease := created;
      live, created := live + {lease}, created + 1;
    }

    /** The factory answers the first boot. */
    method FirstCreated(ok: bool)
      requires operation.Some? && operation.value.CreatingFirst?
      modifies this
      ensures Abstract() == Next(env, old(Abstract()), FactoryDone(ok, false))
    {
      hide IsSha256;
      if !ok {
        operation := None;
        return;
      }
      var request := operation.value.bootRequest;
      var lease := Lease();
      var begun := Adapter.Begin(env.digest, Adapter.INITIAL, Boot(request.storyId, request.artifactSha256));
      if begun.Submitted? {
        operation := Some(BootingFirst(request, operation.value.epoch, lease, begun.state));
      } else {
        Abandon(lease);
      }
    }

    /** `None` is the error that the caller of `boot` sees. */
    method FirstBootDone(o: Adapter.Outcome) returns (result: Option<Response>)
      requires operation.Some? && operation.value.BootingFirst?
      modifies this
      ensures Abstract() == Next(env, old(Abstract()), Exchanged(o, false))
      ensures result.Some? <==>
        && o.Reply? && o.response.BootDone? && o.response.revision == 0
        && Adapter.NonemptyCompatibility(o.response.compatibility)
        && o.response.compatibility ==
          Adapter.Expected(env.binding, old(operation.value.bootRequest.storyId), old(operation.value.bootRequest.artifactSha256))
        && !old(disposed) && old(lifecycleEpoch) == old(operation.value.epoch)
      ensures result.Some? ==>
        && result == Some(o.response)
        && active.Some? && active.value.lease == old(operation.value.lease)
        && active.value.state == PublicState(0, o.response.output, o.response.boundary)
        && active.value.compatibility == o.response.compatibility
      ensures result == None ==> active == old(active) && old(operation.value.lease) !in live
    {
      hide Adapter.NonemptyCompatibility;
      var BootingFirst(request, epoch, lease, adapter) := operation.value;
      var (next, answer) := Adapter.FinishBoot(env.binding, adapter, request.storyId, request.artifactSha256, o);
      if answer == None || disposed || lifecycleEpoch != epoch {
        Abandon(lease);
        return None;
      }
      var r := answer.value;
      active := Some(ActiveWorker(lease, next, request, r.compatibility, PublicState(r.revision, r.output, r.boundary)));
      operation := None;
      return answer;
    }

    /** The common first half of execute, snapshot and inspect. */
    method Call(call: Request, op: Operation) returns (begun: bool)
      modifies this`operation, this`active
      ensures Abstract() == BeginCall(env, old(Abstract()), call, op)
      ensures begun <==>
        && !disposed && old(active).Some? && old(operation) == None
        && Adapter.Begin(env.digest, old(active.value.adapter), call).Submitted?
      ensures !begun ==> Abstract() == old(Abstract())
    {
      if disposed || active == None || operation.Some? {
        return false;
      }
      operation := Some(op);
      match Adapter.Begin(env.digest, active.value.adapter, call) {
        case Submitted(adapter) =>
          active := Some(active.value.(adapter := adapter));
          begun := true;
        case _ =>
          operation := None;
          begun := false;
      }
    }

    /** The caller gets the very result that came, if it is one that answers the request; otherwise the request is uncertain. */
    method ExecuteDone(o: Adapter.Outcome) returns (result: Option<Response>)
      requires operation.Some? && operation.value.Executing?
      requires active.Some? ==> active.value.adapter.confirmed.Some?
      modifies this
      ensures Abstract() == Next(env, old(Abstract()), Exchanged(o, false))
      ensures result.Some? <==> Delivers(old(Abstract()), old(operation.value.input), o)
      ensures result.Some? ==> result == Some(o.response) && uncertainExecute == None
      ensures result.Some? ==>
        var r, state := o.response.result, old(active.value.state);
        active.value.state ==
          if r.status == Committed && r.revision >= state.revision then PublicState(r.revision, r.output, r.boundary)
          else state
      ensures result == None && old(active).Some? ==>
        uncertainExecute == Some(old(operation.value.input)) && active.value.state == old(active.value.state)
    {
      hide Adapter.ValidExecuteResult;
      var input := operation.value.input;
      operation := None;
      if active == None {
        return None;
      }
      var worker := active.value;
      var (adapter, answer) := Adapter.FinishExecute(worker.adapter, input, o);
      if answer == None {
        active := Some(worker.(adapter := adapter));
        uncertainExecute := Some(input);
        return None;
      }
      var r := answer.value.result;
      if r.status == Committed && r.revision >= worker.state.revision {
        worker := worker.(state := PublicState(r.revision, r.output, r.boundary));
      }
      active := Some(worker.(adapter := adapter));
      uncertainExecute := None;
      return answer;
    }

    /** The caller gets the very snapshot that came, if it is whole and of the state that the adapter holds. */
    method SnapshotDone(o: Adapter.Outcome) returns (result: Option<Response>)
      requires operation == Some(Snapshotting)
      requires active.Some? ==> active.value.adapter.confirmed.Some?
      modifies this
      ensures Abstract() == Next(env, old(Abstract()), Exchanged(o, false))
      ensures result.Some? <==>
        && old(active).Some? && o.Reply? && o.response.SnapshotDone?
        && var s, k := o.response.snapshot, old(active.value.adapter.confirmed.value);
          && Adapter.SnapshotAcceptable(s) && env.digest(s.bytes) == s.sha256
          && s.revision == k.revision && s.compatibility == k.compatibility
      ensures result.Some? ==> result == Some(o.response)
    {
      hide IsSha256;
      operation := None;
      if active == None {
        return None;
      }
      var (adapter, answer) := Adapter.FinishSnapshot(env.digest, active.value.adapter, o);
      active := Some(active.value.(adapter := adapter));
      return answer;
    }

    /** The caller gets the very state that came, if the adapter takes it, and the facade shows it from then on. */
    method InspectDone(o: Adapter.Outcome) returns (result: Option<Response>)
      requires operation == Some(Inspecting)
      requires active.Some? ==> active.value.adapter.confirmed.Some?
      modifies this
      ensures Abstract() == Next(env, old(Abstract()), Exchanged(o, false))
      ensures result.Some? <==> old(active).Some? && Adapter.FinishInspect(old(active.value.adapter), o).1.Some?
      ensures result.Some? ==> o.Reply? && result == Some(o.response) && active.value.state == o.response.state
      ensures result == None && old(active).Some? ==> active.value.state == old(active.value.state)
    {
      operation := None;
      if active == None {
        return None;
      }
      var worker := active.value;
      var (adapter, answer) := Adapter.FinishInspect(worker.adapter, o);
      if answer.Some? {
        worker := worker.(state := answer.value.state);
      }
      active := Some(worker.(adapter := adapter));
      return answer;
    }

    /** A rejected restore tells of the worker that stays. */
    function RejectedRestore(worker: ActiveWorker, rejection: RestoreRejection): Response {
      RestoreDone(NotRestored(rejection), worker.state.revision, "", worker.state.boundary)
    }

    /** Everything up to the digest; `answer` is a rejection that needs no worker. */
    method BeginRestore(snapshot: EngineSnapshot) returns (begun: bool, answer: Option<Response>)
      modifies this`operation
      ensures Abstract() == Next(env, old(Abstract()), Event.BeginRestore(snapshot))
      ensures !begun ==> Abstract() == old(Abstract())
      ensures answer.Some? <==>
        && !old(disposed) && active.Some? && uncertainExecute == None && old(operation) == None
        && Adapter.SnapshotAcceptable(snapshot) && snapshot.compatibility != active.value.compatibility
      ensures answer.Some? ==> !begun
      ensures answer.Some? ==>
        answer == Some(RestoreDone(NotRestored(IncompatibleSnapshot), active.value.state.revision, "", active.value.state.boundary))
      ensures begun <==> Abstract() != old(Abstract())
    {
      hide Adapter.SnapshotAcceptable;
      begun, answer := false, None;
      if disposed || active == None || uncertainExecute.Some? || operation.Some? {
        return;
      }
      if !Adapter.SnapshotAcceptable(snapshot) {
        return;
      }
      var worker := active.value;
      if snapshot.compatibility != worker.compatibility {
        answer := Some(RejectedRestore(worker, IncompatibleSnapshot));
        return;
      }
      operation := Some(Restoring(snapshot, lifecycleEpoch, worker, Digesting));
      begun := true;
    }

    /** The answer, if any, is the rejection of a snapshot whose bytes do not have its digest. */
    method Digested(aborted: bool) returns (answer: Option<Response>)
      requires operation.Some? && operation.value.Restoring? && operation.value.stage.Digesting?
      modifies this`operation
      ensures answer == if env.digest(old(operation.value.snapshot.bytes)) == old(operation.value.snapshot.sha256) then None
        else
          var state := old(operation.value.from.state);
          Some(RestoreDone(NotRestored(CorruptSnapshot), state.revision, "", state.boundary))
      ensures var matches := env.digest(old(operation.value.snapshot.bytes)) == old(operation.value.snapshot.sha256);
        Abstract() == Next(env, old(Abstract()), Event.Digested(matches, aborted))
    {
      var op := operation.value;
      if env.digest(op.snapshot.bytes) != op.snapshot.sha256 {
        operation := None;
        return Some(RejectedRestore(op.from, CorruptSnapshot));
      }
      answer := None;
      if aborted {
        operation := None;
        return;
      }
      operation := Some(op.(stage := Creating));
    }

    /** The factory answers a restore. */
    method CandidateCreated(ok: bool, aborted: bool)
      requires operation.Some? && operation.value.Restoring? && operation.value.stage.Creating?
      modifies this
      ensures Abstract() == Next(env, old(Abstract()), FactoryDone(ok, aborted))
    {
      hide IsSha256;
      var op := operation.value;
      if !ok {
        operation := None;
        return;
      }
      var lease := Lease();
      if aborted {
        Abandon(lease);
        return;
      }
      var request := op.from.bootRequest;
      var begun := Adapter.Begin(env.digest, Adapter.INITIAL, Boot(request.storyId, request.artifactSha256));
      if begun.Submitted? {
        operation := Some(op.(stage := BootingCandidate(lease, begun.state)));
      } else {
        Abandon(lease);
      }
    }

    method CandidateBootDone(o: Adapter.Outcome, aborted: bool)
      requires operation.Some? && operation.value.Restoring? && operation.value.stage.BootingCandidate?
      modifies this
      ensures Abstract() == Next(env, old(Abstract()), Exchanged(o, aborted))
    {
      hide IsSha256, Adapter.SnapshotAcceptable, Adapter.NonemptyCompatibility;
      var op := operation.value;
      var lease, request := op.stage.lease, op.from.bootRequest;
      if aborted {
        Abandon(lease);
        return;
      }
      // the output of this boot is staging data, and goes nowhere
      var (adapter, booted) :=
        Adapter.FinishBoot(env.binding, op.stage.adapter, request.storyId, request.artifactSha256, o);
      if booted == None {
        Abandon(lease);
        return;
      }
      var begun := Adapter.Begin(env.digest, adapter, Restore(op.snapshot));
      if begun.Submitted? {
        operation := Some(op.(stage := RestoringCandidate(lease, begun.state)));
      } else {
        Abandon(lease);
      }
    }

    /** The answer, if any, passes on that the candidate rejected the snapshot, and tells of the worker that stays. */
    method CandidateRestoreDone(o: Adapter.Outcome, aborted: bool) returns (answer: Option<Response>)
      requires operation.Some? && operation.value.Restoring? && operation.value.stage.RestoringCandidate?
      requires operation.value.stage.adapter.confirmed.Some?
      modifies this
      ensures Abstract() == Next(env, old(Abstract()), Exchanged(o, aborted))
      ensures answer.Some? <==>
        && !aborted && o.Reply? && o.response.RestoreDone? && o.response.status.NotRestored?
        && Adapter.FinishRestore(old(operation.value.stage.adapter), old(operation.value.snapshot), o).1.Some?
      ensures answer.Some? ==>
        var state := old(operation.value.from.state);
        answer == Some(RestoreDone(NotRestored(o.response.status.rejection), state.revision, "", state.boundary))
      ensures answer.Some? ==> operation == None && old(operation.value.stage.lease) !in live
    {
      var op := operation.value;
      var lease := op.stage.lease;
      answer := None;
      if aborted {
        Abandon(lease);
        return;
      }
      var (adapter, restored) := Adapter.FinishRestore(op.stage.adapter, op.snapshot, o);
      if restored.Some? && restored.value.status.NotRestored? {
        Abandon(lease);
        return Some(RejectedRestore(op.from, restored.value.status.rejection));
      }
      if restored == None || restored.value.output != "" {
        Abandon(lease);
        return;
      }
      // an inspection is always let through
      var begun := Adapter.Begin(env.digest, adapter, Inspect);
      operation := Some(op.(stage :=
        InspectingCandidate(lease, begun.state, restored.value.revision, restored.value.boundary)));
    }

    /** The swap, which the answer tells of, or the end without one. */
    method CandidateInspectDone(o: Adapter.Outcome, aborted: bool) returns (answer: Option<Response>)
      requires operation.Some? && operation.value.Restoring? && operation.value.stage.InspectingCandidate?
      requires operation.value.stage.adapter.confirmed.Some?
      modifies this
      ensures Abstract() == Next(env, old(Abstract()), Exchanged(o, aborted))
      ensures answer.Some? <==>
        && !aborted && !old(disposed) && old(lifecycleEpoch) == old(operation.value.epoch)
        && o.Reply? && o.response.InspectDone?
        && Adapter.FinishInspect(old(operation.value.stage.adapter), o).1.Some?
        && o.response.state.revision == old(operation.value.stage.revision)
        && o.response.state.boundary == old(operation.value.stage.boundary)
      ensures answer.Some? ==>
        && answer == Some(RestoreDone(Restored, o.response.state.revision, "", o.response.state.boundary))
        && active.Some? && active.value.lease == old(operation.value.stage.lease)
        && active.value.state == o.response.state && uncertainExecute == None
        && live == old(live) - {old(operation.value.from.lease)}
      ensures answer == None ==> active == old(active) && old(operation.value.stage.lease) !in live
    {
      var op := operation.value;
      var lease := op.stage.lease;
      if aborted {
        Abandon(lease);
        return None;
      }
      var (adapter, inspected) := Adapter.FinishInspect(op.stage.adapter, o);
      if inspected == None || inspected.value.state.revision != op.stage.revision
        || inspected.value.state.boundary != op.stage.boundary
      {
        Abandon(lease);
        return None;
      }
      if disposed || lifecycleEpoch != op.epoch {
        Abandon(lease);
        return None;
      }
      active := Some(ActiveWorker(lease, adapter, op.from.bootRequest, op.from.compatibility, inspected.value.state));
      uncertainExecute := None;
      Terminate(op.from.lease);
      operation := None;
      return Some(RestoreDone(Restored, op.stage.revision, "", op.stage.boundary));
    }

    method Dispose()
      modifies this
      ensures Abstract() == Next(env, old(Abstract()), Event.Dispose)
    {
      if disposed {
        return;
      }
      disposed := true;
      lifecycleEpoch := lifecycleEpoch + 1;
      if active.Some? {
        Terminate(active.value.lease);
      }
      active := None;
    }
  }
}
