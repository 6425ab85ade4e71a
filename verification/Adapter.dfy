/**
 The host-side adapter: which calls it lets through to the worker, what it
 makes of the outcome, and the recovery state it is left in. Every operation is
 split where the program awaits the worker: a `Begin` and a `Finish`.
 */
module Adapter {
  import opened Wrappers
  import opened Bytes
  import opened EngineTypes
  import opened Messages
  import CanonicalCommand

  datatype Binding = Binding(
    runtimeId: string, runtimeVersion: string, runtimeSha256: string,
    adapterId: string, adapterVersion: string, snapshotSchemaVersion: nat)

  datatype Recovery =
    | Ready
    | BootQuarantined(storyId: string)
    | ExecuteUncertain(input: ExecuteRequest)
    | RestoreQuarantined(snapshotRevision: nat)

  /** The revision and boundary that the adapter holds to be the worker's. */
  datatype Confirmed = Confirmed(revision: nat, boundary: Boundary, compatibility: Compatibility)

  /** The operation that awaits the worker; it never changes what is confirmed before it ends. */
  datatype State = State(confirmed: Option<Confirmed>, recovery: Recovery, operation: Option<Request>)

  const INITIAL: State := State(None, Ready, None)

  /** How an exchange ends: with the worker's response, or rejected by the transport. */
  datatype Outcome = Lost | Reply(response: Response)

  /** What a call comes to before the worker is asked: an error, an answer at once, or a request to submit. */
  datatype Begun = Thrown | Answered(response: Response) | Submitted(state: State)

  predicate NonemptyCompatibility(c: Compatibility) {
    && c.storyId != "" && IsSha256(c.storySha256)
    && c.runtimeId != "" && c.runtimeVersion != "" && IsSha256(c.runtimeSha256)
    && c.adapterId != "" && c.adapterVersion != ""
    && 1 <= c.snapshotSchemaVersion <= MAX_SAFE
  }

  function Expected(b: Binding, storyId: string, artifactSha256: string): Compatibility {
    Compatibility(
      storyId, artifactSha256, b.runtimeId, b.runtimeVersion, b.runtimeSha256,
      b.adapterId, b.adapterVersion, b.snapshotSchemaVersion)
  }

  predicate SnapshotAcceptable(s: EngineSnapshot) {
    && 0 < |s.bytes| <= MAX_SNAPSHOT_BYTES && IsSha256(s.sha256)
    && s.revision <= MAX_SAFE && NonemptyCompatibility(s.compatibility)
  }

  predicate ValidExecuteResult(input: ExecuteRequest, result: ExecuteResult, revision: nat, boundary: Boundary) {
    && result.requestId != "" && result.previousRevision <= MAX_SAFE && result.revision <= MAX_SAFE
    && result.requestId == input.requestId && result.command == input.command
    && match result.status
       case Committed =>
         && result.previousRevision == input.expectedRevision
         && result.revision == result.previousRevision + 1
         && !(revision != result.previousRevision && revision < result.revision)
         && !(result.revision == revision && result.boundary != boundary)
       case Rejected(_) =>
         && result.previousRevision == result.revision
         && result.revision <= revision
         && !(result.revision == revision && result.boundary != boundary)
  }

  /** An uncertain execute lets only itself through again; every other state lets any execute through but one. */
  function ExecuteAllowed(recovery: Recovery, input: ExecuteRequest): Option<bool> {
    match recovery
    case RestoreQuarantined(_) => None
    case ExecuteUncertain(uncertain) => if uncertain == input then Some(true) else None
    case _ => Some(false)
  }

  function BeginBoot(a: State, storyId: string, artifactSha256: string): Begun {
    if a.recovery.BootQuarantined? || a.confirmed.Some? || storyId == "" || !IsSha256(artifactSha256)
      || a.operation.Some?
    then Thrown
    else Submitted(a.(operation := Some(Boot(storyId, artifactSha256))))
  }

  function BeginExecute(a: State, input: ExecuteRequest): Begun {
    if a.confirmed == None || !Admitted(input) then Thrown
    else
      match ExecuteAllowed(a.recovery, input)
      case None => Thrown
      case Some(resolves) =>
        if a.confirmed.value.boundary == Terminated && !resolves then Thrown
        else if a.operation.Some? then Thrown
        else Submitted(a.(operation := Some(Execute(input))))
  }

  predicate ReadyOperation(a: State) {
    a.confirmed.Some? && !a.recovery.ExecuteUncertain? && !a.recovery.RestoreQuarantined?
  }

  function BeginSnapshot(a: State): Begun {
    if !ReadyOperation(a) || a.operation.Some? then Thrown else Submitted(a.(operation := Some(Snapshot)))
  }

  function BeginRestore(digest: seq<byte> -> string, a: State, snapshot: EngineSnapshot): Begun {
    if !ReadyOperation(a) || a.operation.Some? || !SnapshotAcceptable(snapshot) then Thrown
    else
      var k := a.confirmed.value;
      if snapshot.compatibility != k.compatibility then
        Answered(RestoreDone(NotRestored(IncompatibleSnapshot), k.revision, "", k.boundary))
      else if !IsSha256(digest(snapshot.bytes)) then Thrown
      else if digest(snapshot.bytes) != snapshot.sha256 then
        Answered(RestoreDone(NotRestored(CorruptSnapshot), k.revision, "", k.boundary))
      else Submitted(a.(operation := Some(Restore(snapshot))))
  }

  function BeginInspect(a: State): Begun {
    if a.confirmed == None || a.operation.Some? then Thrown else Submitted(a.(operation := Some(Inspect)))
  }

  /** What any call comes to before the worker is asked. */
  function Begin(digest: seq<byte> -> string, a: State, call: Request): Begun {
    match call
    case Boot(storyId, artifactSha256) => BeginBoot(a, storyId, artifactSha256)
    case Execute(input) => BeginExecute(a, input)
    case Snapshot => BeginSnapshot(a)
    case Restore(snapshot) => BeginRestore(digest, a, snapshot)
    case Inspect => BeginInspect(a)
  }

  // The second halves. `None` is the error that the caller sees.

  function FinishBoot(b: Binding, a: State, storyId: string, artifactSha256: string, o: Outcome)
    : (State, Option<Response>)
  {
    if o.Reply? && o.response.BootDone? && o.response.revision == 0
      && NonemptyCompatibility(o.response.compatibility)
      && o.response.compatibility == Expected(b, storyId, artifactSha256)
    then
      (State(Some(Confirmed(0, o.response.boundary, o.response.compatibility)), Ready, None), Some(o.response))
    else (a.(recovery := BootQuarantined(storyId), operation := None), None)
  }

  function FinishExecute(a: State, input: ExecuteRequest, o: Outcome): (State, Option<Response>)
    requires a.confirmed.Some?
  {
    var k := a.confirmed.value;
    if o.Reply? && o.response.ExecuteDone? && ValidExecuteResult(input, o.response.result, k.revision, k.boundary) then
      var r := o.response.result;
      var k' := if r.status == Committed && r.revision >= k.revision
        then k.(revision := r.revision, boundary := r.boundary) else k;
      (State(Some(k'), Ready, None), Some(o.response))
    else (a.(recovery := ExecuteUncertain(input), operation := None), None)
  }

  function FinishSnapshot(digest: seq<byte> -> string, a: State, o: Outcome): (State, Option<Response>)
    requires a.confirmed.Some?
  {
    var k := a.confirmed.value;
    var a' := a.(operation := None);
    if o.Reply? && o.response.SnapshotDone? && SnapshotAcceptable(o.response.snapshot)
      && IsSha256(digest(o.response.snapshot.bytes))
      && digest(o.response.snapshot.bytes) == o.response.snapshot.sha256
      && o.response.snapshot.revision == k.revision && o.response.snapshot.compatibility == k.compatibility
    then (a', Some(o.response))
    else (a', None)
  }

  function FinishRestore(a: State, snapshot: EngineSnapshot, o: Outcome): (State, Option<Response>)
    requires a.confirmed.Some?
  {
    var k := a.confirmed.value;
    var Quarantine := (a.(recovery := RestoreQuarantined(snapshot.revision), operation := None), None);
    if !o.Reply? || !o.response.RestoreDone? || o.response.revision > MAX_SAFE then Quarantine
    else
      var r := o.response;
      match r.status
      case Restored =>
        if r.output != "" || r.revision != snapshot.revision then Quarantine
        else (State(Some(k.(revision := r.revision, boundary := r.boundary)), Ready, None), Some(r))
      case NotRestored(_) =>
        if r.revision != k.revision || r.output != "" || r.boundary != k.boundary then Quarantine
        else (a.(operation := None), Some(r))
  }

  function FinishInspect(a: State, o: Outcome): (State, Option<Response>)
    requires a.confirmed.Some?
  {
    var k := a.confirmed.value;
    var a' := a.(operation := None);
    if !o.Reply? || !o.response.InspectDone? || o.response.state.revision > MAX_SAFE then (a', None)
    else
      var s := o.response.state;
      if a.recovery.Ready? then
        if s.revision != k.revision || s.boundary != k.boundary then (a', None) else (a', Some(o.response))
      else if a.recovery.ExecuteUncertain? then
        var maximum := if k.revision == MAX_SAFE then k.revision else k.revision + 1;
        if s.revision < k.revision || s.revision > maximum || (s.revision == k.revision && s.boundary != k.boundary)
        then (a', None)
        else (a'.(confirmed := Some(k.(revision := s.revision, boundary := s.boundary))), Some(o.response))
      else (a', Some(o.response))
  }

  /** What the adapter asks of an execute request, whatever it knows of the worker. */
  predicate Admitted(input: ExecuteRequest) {
    input.requestId != "" && input.expectedRevision <= MAX_SAFE && CanonicalCommand.IsCanonical(input.command)
  }

  /**
   An operation that awaits the worker needs a booted adapter, unless it is the boot itself. An execute that is under
   way or uncertain has passed the checks.
   */
  predicate Coherent(a: State) {
    && (a.operation.Some? && !a.operation.value.Boot? ==> a.confirmed.Some?)
    && (a.operation.Some? && a.operation.value.Boot? ==> a.confirmed == None)
    && (a.recovery.ExecuteUncertain? || a.recovery.RestoreQuarantined? ==> a.confirmed.Some?)
    && (a.operation.Some? && a.operation.value.Execute? ==> Admitted(a.operation.value.input))
    && (a.recovery.ExecuteUncertain? ==> Admitted(a.recovery.input))
  }

  function Finish(b: Binding, digest: seq<byte> -> string, a: State, o: Outcome): (State, Option<Response>)
    requires Coherent(a) && a.operation.Some?
  {
    match a.operation.value
    case Boot(storyId, artifactSha256) => FinishBoot(b, a, storyId, artifactSha256, o)
    case Execute(input) => FinishExecute(a, input, o)
    case Snapshot => FinishSnapshot(digest, a, o)
    case Restore(snapshot) => FinishRestore(a, snapshot, o)
    case Inspect => FinishInspect(a, o)
  }

  lemma BeginCoherent(digest: seq<byte> -> string, a: State, call: Request)
    requires Coherent(a)
    ensures var begun := Begin(digest, a, call);
      begun.Submitted? ==> Coherent(begun.state) && begun.state == a.(operation := Some(call)) && a.operation == None
  {
    hide CanonicalCommand.IsCanonical, IsSha256;
  }

  lemma FinishCoherent(b: Binding, digest: seq<byte> -> string, a: State, o: Outcome)
    requires Coherent(a) && a.operation.Some?
    ensures Coherent(Finish(b, digest, a, o).0) && Finish(b, digest, a, o).0.operation == None
  {
    hide IsSha256, ValidExecuteResult, Admitted, NonemptyCompatibility, SnapshotAcceptable;
  }
}
