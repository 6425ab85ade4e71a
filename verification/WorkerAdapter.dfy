/** The adapter object. What each call changes is stated by the functions of module `Adapter`. */
module WorkerAdapter {
  import opened Wrappers
  import opened Bytes
  import opened EngineTypes
  import opened Messages
  import A = Adapter
  import CanonicalCommand

  class WorkerEngineAdapter {
    const binding: A.Binding
    const digestSha256: seq<byte> -> string
    var compatibility: Option<Compatibility>
    var revision: Option<nat>
    var boundary: Option<Boundary>
    var operationInFlight: Option<Request>
    var recoveryState: A.Recovery

    ghost predicate Booted()
      reads this
    {
      compatibility.Some? && revision.Some? && boundary.Some?
    }

    ghost function Abstract(): A.State
      reads this
    {
      A.State(
        if Booted() then Some(A.Confirmed(revision.value, boundary.value, compatibility.value)) else None,
        recoveryState, operationInFlight)
    }

    ghost predicate Valid()
      reads this
    {
      && (Booted() || (compatibility == None && revision == None && boundary == None))
      && A.Coherent(Abstract())
    }

    constructor (binding: A.Binding, digestSha256: seq<byte> -> string)
      ensures Valid() && Abstract() == A.INITIAL
      ensures this.binding == binding && this.digestSha256 == digestSha256
    {
      this.binding, this.digestSha256 := binding, digestSha256;
      compatibility, revision, boundary := None, None, None;
      operationInFlight, recoveryState := None, A.Ready;
    }

    /** `false` is the thrown error. */
    method BeginOperation(operation: Request) returns (ok: bool)
      modifies this`operationInFlight
      ensures ok <==> old(operationInFlight) == None
      ensures operationInFlight == if ok then Some(operation) else old(operationInFlight)
    {
      ok := operationInFlight == None;
      if ok {
        operationInFlight := Some(operation);
      }
    }

    method BeginBoot(storyId: string, artifactSha256: string) returns (begun: bool)
      requires Valid()
      modifies this`operationInFlight
      ensures Valid()
      ensures match A.BeginBoot(old(Abstract()), storyId, artifactSha256)
        case Submitted(next) => begun && Abstract() == next
        case _ => !begun && Abstract() == old(Abstract())
    {
      hide IsSha256;
      if recoveryState.BootQuarantined? || compatibility.Some? || storyId == "" || !IsSha256(artifactSha256) {
        return false;
      }
      begun := BeginOperation(Boot(storyId, artifactSha256));
    }

    method FinishBoot(o: A.Outcome) returns (result: Option<Response>)
      requires Valid() && operationInFlight.Some? && operationInFlight.value.Boot?
      modifies this
      ensures Valid()
      ensures (Abstract(), result) == A.Finish(binding, digestSha256, old(Abstract()), o)
    {
      hide A.NonemptyCompatibility;
      var storyId, artifactSha256 := operationInFlight.value.storyId, operationInFlight.value.artifactSha256;
      operationInFlight := None;
      if o.Reply? && o.response.BootDone? && o.response.revision == 0
        && A.NonemptyCompatibility(o.response.compatibility)
        && o.response.compatibility == A.Expected(binding, storyId, artifactSha256)
      {
        compatibility, revision, boundary := Some(o.response.compatibility), Some(0), Some(o.response.boundary);
        recoveryState := A.Ready;
        return Some(o.response);
      }
      recoveryState := A.BootQuarantined(storyId);
      return None;
    }

    /** `None` is the thrown error; otherwise whether this call retries the uncertain execute. */
    method AssertExecuteAllowed(input: ExecuteRequest) returns (resolves: Option<bool>)
      ensures resolves == A.ExecuteAllowed(recoveryState, input)
    {
      if recoveryState.RestoreQuarantined? {
        return None;
      }
      if recoveryState.ExecuteUncertain? {
        if recoveryState.input.requestId != input.requestId
          || recoveryState.input.expectedRevision != input.expectedRevision
          || recoveryState.input.command != input.command
        {
          return None;
        }
        return Some(true);
      }
      return Some(false);
    }

    method BeginExecute(input: ExecuteRequest) returns (begun: bool)
      requires Valid()
      modifies this`operationInFlight
      ensures Valid()
      ensures match A.BeginExecute(old(Abstract()), input)
        case Submitted(next) => begun && Abstract() == next
        case _ => !begun && Abstract() == old(Abstract())
    {
      hide CanonicalCommand.IsCanonical;
      if revision == None || input.requestId == "" || input.expectedRevision > MAX_SAFE
        || !CanonicalCommand.IsCanonical(input.command)
      {
        return false;
      }
      var resolves := AssertExecuteAllowed(input);
      if resolves == None || (boundary == Some(Terminated) && !resolves.value) {
        return false;
      }
      begun := BeginOperation(Execute(input));
    }

    method FinishExecute(o: A.Outcome) returns (result: Option<Response>)
      requires Valid() && operationInFlight.Some? && operationInFlight.value.Execute?
      modifies this
      ensures Valid()
      ensures (Abstract(), result) == A.Finish(binding, digestSha256, old(Abstract()), o)
    {
      hide A.ValidExecuteResult;
      var input := operationInFlight.value.input;
      operationInFlight := None;
      if !o.Reply? || !o.response.ExecuteDone?
        || !A.ValidExecuteResult(input, o.response.result, revision.value, boundary.value)
      {
        recoveryState := A.ExecuteUncertain(input);
        return None;
      }
      if o.response.result.status == Committed && o.response.result.revision >= revision.value {
        revision, boundary := Some(o.response.result.revision), Some(o.response.result.boundary);
      }
      recoveryState := A.Ready;
      return Some(o.response);
    }

    method BeginSnapshot() returns (begun: bool)
      requires Valid()
      modifies this`operationInFlight
      ensures Valid()
      ensures match A.BeginSnapshot(old(Abstract()))
        case Submitted(next) => begun && Abstract() == next
        case _ => !begun && Abstract() == old(Abstract())
    {
      if revision == None || recoveryState.ExecuteUncertain? || recoveryState.RestoreQuarantined? {
        return false;
      }
      begun := BeginOperation(Snapshot);
    }

    method FinishSnapshot(o: A.Outcome) returns (result: Option<Response>)
      requires Valid() && operationInFlight.Some? && operationInFlight.value.Snapshot?
      modifies this
      ensures Valid()
      ensures (Abstract(), result) == A.Finish(binding, digestSha256, old(Abstract()), o)
    {
      hide A.SnapshotAcceptable, IsSha256;
      operationInFlight := None;
      if !o.Reply? || !o.response.SnapshotDone? || !A.SnapshotAcceptable(o.response.snapshot) {
        return None;
      }
      var snapshot := o.response.snapshot;
      var actual := digestSha256(snapshot.bytes);
      if !IsSha256(actual) || actual != snapshot.sha256 || Some(snapshot.revision) != revision
        || Some(snapshot.compatibility) != compatibility
      {
        return None;
      }
      return Some(o.response);
    }

    method BeginRestore(snapshot: EngineSnapshot) returns (begun: bool, answer: Option<Response>)
      requires Valid()
      modifies this`operationInFlight
      ensures Valid()
      ensures match A.BeginRestore(digestSha256, old(Abstract()), snapshot)
        case Thrown => !begun && answer == None && Abstract() == old(Abstract())
        case Answered(response) => !begun && answer == Some(response) && Abstract() == old(Abstract())
        case Submitted(next) => begun && answer == None && Abstract() == next
    {
      hide A.SnapshotAcceptable, IsSha256;
      answer := None;
      if revision == None || recoveryState.ExecuteUncertain? || recoveryState.RestoreQuarantined? {
        return false, None;
      }
      begun := BeginOperation(Restore(snapshot));
      if !begun {
        return;
      }
      var actual := digestSha256(snapshot.bytes);
      if !A.SnapshotAcceptable(snapshot) {
        begun := false;
      } else if Some(snapshot.compatibility) != compatibility {
        begun := false;
        answer := Some(RestoreDone(NotRestored(IncompatibleSnapshot), revision.value, "", boundary.value));
      } else if !IsSha256(actual) {
        begun := false;
      } else if actual != snapshot.sha256 {
        begun := false;
        answer := Some(RestoreDone(NotRestored(CorruptSnapshot), revision.value, "", boundary.value));
      }
      if !begun {
        operationInFlight := None;
      }
    }

    method FinishRestore(o: A.Outcome) returns (result: Option<Response>)
      requires Valid() && operationInFlight.Some? && operationInFlight.value.Restore?
      modifies this
      ensures Valid()
      ensures (Abstract(), result) == A.Finish(binding, digestSha256, old(Abstract()), o)
    {
      var snapshot := operationInFlight.value.snapshot;
      operationInFlight := None;
      if o.Reply? && o.response.RestoreDone? && o.response.revision <= MAX_SAFE && o.response.output == "" {
        var r := o.response;
        if r.status == Restored && r.revision == snapshot.revision {
          revision, boundary, recoveryState := Some(r.revision), Some(r.boundary), A.Ready;
          return Some(r);
        }
        if r.status.NotRestored? && Some(r.revision) == revision && Some(r.boundary) == boundary {
          return Some(r);
        }
      }
      recoveryState := A.RestoreQuarantined(snapshot.revision);
      return None;
    }

    method BeginInspect() returns (begun: bool)
      requires Valid()
      modifies this`operationInFlight
      ensures Valid()
      ensures match A.BeginInspect(old(Abstract()))
        case Submitted(next) => begun && Abstract() == next
        case _ => !begun && Abstract() == old(Abstract())
    {
      if revision == None {
        return false;
      }
      begun := BeginOperation(Inspect);
    }

    method FinishInspect(o: A.Outcome) returns (result: Option<Response>)
      requires Valid() && operationInFlight.Some? && operationInFlight.value.Inspect?
      modifies this
      ensures Valid()
      ensures (Abstract(), result) == A.Finish(binding, digestSha256, old(Abstract()), o)
    {
      operationInFlight := None;
      if !o.Reply? || !o.response.InspectDone? || o.response.state.revision > MAX_SAFE {
        return None;
      }
      var state := o.response.state;
      if recoveryState.Ready? {
        if Some(state.revision) != revision || Some(state.boundary) != boundary {
          return None;
        }
      } else if recoveryState.ExecuteUncertain? {
        var maximum := if revision.value == MAX_SAFE then revision.value else revision.value + 1;
        if state.revision < revision.value || state.revision > maximum
          || (state.revision == revision.value && Some(state.boundary) != boundary)
        {
          return None;
        }
        revision, boundary := Some(state.revision), Some(state.boundary);
      }
      return Some(o.response);
    }
  }
}
