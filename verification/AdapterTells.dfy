/**
 The adapter against any worker: whatever replies come, which calls go out, which
 replies are taken, and what is held to be true of the worker afterwards.
 */
module AdapterTells {
  import opened Wrappers
  import opened Bytes
  import opened EngineTypes
  import opened Messages
  import opened Adapter
  import CanonicalCommand

  // Boot

  /** A boot goes out once: not after one that was taken, and not after one that was not. */
  lemma BootGoesOut(digest: seq<byte> -> string, a: State, storyId: string, artifactSha256: string)
    ensures var begun := Begin(digest, a, Boot(storyId, artifactSha256));
      if a.confirmed == None && !a.recovery.BootQuarantined? && a.operation == None && storyId != "" && IsSha256(artifactSha256)
      then begun == Submitted(State(None, a.recovery, Some(Boot(storyId, artifactSha256))))
      else begun == Thrown
  {
    hide IsSha256;
  }

  /** The compatibility record of this story on the bound engine, none of its fields missing. */
  predicate Bound(b: Binding, storyId: string, artifactSha256: string, c: Compatibility) {
    && c.storyId == storyId && c.storySha256 == artifactSha256
    && c.runtimeId == b.runtimeId && c.runtimeVersion == b.runtimeVersion && c.runtimeSha256 == b.runtimeSha256
    && c.adapterId == b.adapterId && c.adapterVersion == b.adapterVersion
    && c.snapshotSchemaVersion == b.snapshotSchemaVersion
    && storyId != "" && IsSha256(artifactSha256) && b.runtimeId != "" && b.runtimeVersion != ""
    && IsSha256(b.runtimeSha256) && b.adapterId != "" && b.adapterVersion != "" && 1 <= b.snapshotSchemaVersion <= MAX_SAFE
  }

  /** A boot is taken exactly at revision zero and from the bound engine; any other outcome closes the adapter. */
  lemma BootTaken(b: Binding, digest: seq<byte> -> string, a: State, o: Outcome)
    requires Coherent(a) && a.operation.Some? && a.operation.value.Boot?
    ensures var Boot(storyId, artifactSha256) := a.operation.value;
      var (a', result) := Finish(b, digest, a, o);
      if o.Reply? && o.response.BootDone? && o.response.revision == 0
        && Bound(b, storyId, artifactSha256, o.response.compatibility)
      then
        result == Some(o.response)
        && a' == State(Some(Confirmed(0, o.response.boundary, o.response.compatibility)), Ready, None)
      else result == None && a' == State(None, BootQuarantined(storyId), None)
  {
    hide IsSha256;
  }

  // Execute

  /** An execute goes out in doubt exactly if it is the one in doubt, and otherwise while the story has not ended. */
  lemma ExecuteGoesOut(digest: seq<byte> -> string, a: State, input: ExecuteRequest)
    ensures var begun := Begin(digest, a, Execute(input));
      if && a.confirmed.Some? && a.operation == None && !a.recovery.RestoreQuarantined?
         && input.requestId != "" && input.expectedRevision <= MAX_SAFE && CanonicalCommand.IsCanonical(input.command)
         && (a.recovery.ExecuteUncertain? ==> a.recovery.input == input)
         && (a.confirmed.value.boundary == InputRequested || a.recovery.ExecuteUncertain?)
      then begun == Submitted(a.(operation := Some(Execute(input))))
      else begun == Thrown
  {
    hide CanonicalCommand.IsCanonical;
  }

  /** The reply is about this very request, and possible at what is confirmed of the worker. */
  predicate Answers(input: ExecuteRequest, r: ExecuteResult, k: Confirmed) {
    && r.requestId == input.requestId != "" && r.command == input.command && r.revision <= MAX_SAFE
    && (r.revision == k.revision ==> r.boundary == k.boundary)
    && (r.status == Committed ==>
      && r.previousRevision == input.expectedRevision && r.revision == input.expectedRevision + 1
      && (r.previousRevision == k.revision || r.revision <= k.revision))
    && (r.status != Committed ==> r.previousRevision == r.revision && r.revision <= k.revision)
  }

  /**
   A result is taken exactly if it answers the request. It then moves what is confirmed one revision on, if it is the
   commit right after it, and leaves it otherwise. Any other outcome leaves the request in doubt.
   */
  lemma ExecuteTaken(b: Binding, digest: seq<byte> -> string, a: State, o: Outcome)
    requires Coherent(a) && a.operation.Some? && a.operation.value.Execute?
    ensures var input, k := a.operation.value.input, a.confirmed.value;
      var (a', result) := Finish(b, digest, a, o);
      if o.Reply? && o.response.ExecuteDone? && Answers(input, o.response.result, k) then
        var r := o.response.result;
        && result == Some(o.response)
        && a' == State(
          Some(if r.status == Committed && r.revision == k.revision + 1
            then Confirmed(k.revision + 1, r.boundary, k.compatibility) else k), Ready, None)
      else result == None && a' == State(a.confirmed, ExecuteUncertain(input), None)
  {
    hide CanonicalCommand.IsCanonical;
  }

  // Snapshot

  lemma SnapshotGoesOut(digest: seq<byte> -> string, a: State)
    ensures var begun := Begin(digest, a, Snapshot);
      if a.confirmed.Some? && a.operation == None && (a.recovery.Ready? || a.recovery.BootQuarantined?)
      then begun == Submitted(a.(operation := Some(Snapshot))) else begun == Thrown
  {
  }

  /** One to 4 MiB, named by its digest, at this revision of this engine. */
  predicate Seals(digest: seq<byte> -> string, s: EngineSnapshot, k: Confirmed) {
    && 1 <= |s.bytes| <= 4_194_304 && s.sha256 == digest(s.bytes) && IsSha256(s.sha256)
    && s.revision == k.revision <= MAX_SAFE && s.compatibility == k.compatibility && NonemptyCompatibility(s.compatibility)
  }

  /** A snapshot is taken exactly if it is what it says of itself; what is known of the worker stays either way. */
  lemma SnapshotTaken(b: Binding, digest: seq<byte> -> string, a: State, o: Outcome)
    requires Coherent(a) && a.operation == Some(Snapshot)
    ensures var (a', result) := Finish(b, digest, a, o);
      && a' == a.(operation := None)
      && result ==
        if o.Reply? && o.response.SnapshotDone? && Seals(digest, o.response.snapshot, a.confirmed.value)
        then Some(o.response) else None
  {
    hide IsSha256, NonemptyCompatibility;
  }

  // Restore

  /**
   A restore goes out only with a snapshot of this engine whose bytes have their digest. A snapshot of another engine, or
   one with other bytes, is answered without the worker, as rejected, and with what is confirmed.
   */
  lemma RestoreGoesOut(digest: seq<byte> -> string, a: State, snapshot: EngineSnapshot)
    ensures var begun := Begin(digest, a, Restore(snapshot));
      if a.confirmed == None || a.operation.Some? || a.recovery.ExecuteUncertain? || a.recovery.RestoreQuarantined?
        || |snapshot.bytes| == 0 || |snapshot.bytes| > 4_194_304 || !IsSha256(snapshot.sha256)
        || snapshot.revision > MAX_SAFE || !NonemptyCompatibility(snapshot.compatibility)
      then begun == Thrown
      else
        var k := a.confirmed.value;
        if snapshot.compatibility != k.compatibility then
          begun == Answered(RestoreDone(NotRestored(IncompatibleSnapshot), k.revision, "", k.boundary))
        else if snapshot.sha256 == digest(snapshot.bytes) then begun == Submitted(a.(operation := Some(Restore(snapshot))))
        else if IsSha256(digest(snapshot.bytes)) then
          begun == Answered(RestoreDone(NotRestored(CorruptSnapshot), k.revision, "", k.boundary))
        else begun == Thrown
  {
    hide IsSha256, NonemptyCompatibility;
  }

  /**
   A restore is believed when it is silent and at the revision of the snapshot, a rejection when it changes nothing that
   is confirmed. After any other outcome the worker's state is not known any more.
   */
  lemma RestoreTaken(b: Binding, digest: seq<byte> -> string, a: State, o: Outcome)
    requires Coherent(a) && a.operation.Some? && a.operation.value.Restore?
    ensures var snapshot, k := a.operation.value.snapshot, a.confirmed.value;
      var (a', result) := Finish(b, digest, a, o);
      var silent := o.Reply? && o.response.RestoreDone? && o.response.output == "" && o.response.revision <= MAX_SAFE;
      if silent && o.response.status == Restored && o.response.revision == snapshot.revision then
        && result == Some(o.response)
        && a' == State(Some(Confirmed(snapshot.revision, o.response.boundary, k.compatibility)), Ready, None)
      else if silent && o.response.status.NotRestored? && o.response.revision == k.revision
        && o.response.boundary == k.boundary
      then result == Some(o.response) && a' == a.(operation := None)
      else result == None && a' == State(a.confirmed, RestoreQuarantined(snapshot.revision), None)
  {
  }

  // Inspection

  lemma InspectGoesOut(digest: seq<byte> -> string, a: State)
    ensures Begin(digest, a, Inspect) ==
      if a.confirmed.Some? && a.operation == None then Submitted(a.(operation := Some(Inspect))) else Thrown
  {
  }

  /** The worker says that it is in this state, at this revision. */
  predicate Tells(o: Outcome, revision: nat) {
    o.Reply? && o.response.InspectDone? && o.response.state.revision == revision <= MAX_SAFE
  }

  /** Sure of the worker, the adapter takes just the state that it expects. */
  lemma InspectTaken(b: Binding, digest: seq<byte> -> string, a: State, o: Outcome)
    requires Coherent(a) && a.operation == Some(Inspect) && a.recovery.Ready?
    ensures var k := a.confirmed.value;
      && Finish(b, digest, a, o).0 == a.(operation := None)
      && Finish(b, digest, a, o).1 ==
        if Tells(o, k.revision) && o.response.state.boundary == k.boundary then Some(o.response) else None
  {
  }

  /**
   In doubt of an execute, the adapter takes the revision that it confirmed or the next one, holds it to be the worker's,
   and stays in doubt.
   */
  lemma InspectTakenInDoubt(b: Binding, digest: seq<byte> -> string, a: State, o: Outcome)
    requires Coherent(a) && a.operation == Some(Inspect) && a.recovery.ExecuteUncertain?
    ensures var k := a.confirmed.value;
      var (a', result) := Finish(b, digest, a, o);
      if Tells(o, k.revision + 1) then
        result == Some(o.response)
        && a' == a.(operation := None, confirmed := Some(Confirmed(k.revision + 1, o.response.state.boundary, k.compatibility)))
      else
        && a' == a.(operation := None)
        && result == if Tells(o, k.revision) && o.response.state.boundary == k.boundary then Some(o.response) else None
  {
    hide CanonicalCommand.IsCanonical, IsSha256, NonemptyCompatibility;
    assert Finish(b, digest, a, o) == FinishInspect(a, o);
    hide Finish, Coherent;
  }

  /** In doubt of a restore, the adapter passes on any state, and believes none. */
  lemma InspectTakenAfterRestore(b: Binding, digest: seq<byte> -> string, a: State, o: Outcome)
    requires Coherent(a) && a.operation == Some(Inspect) && a.recovery.RestoreQuarantined?
    ensures Finish(b, digest, a, o).0 == a.(operation := None)
    ensures Finish(b, digest, a, o).1 ==
      if o.Reply? && o.response.InspectDone? && o.response.state.revision <= MAX_SAFE then Some(o.response) else None
  {
  }

  // Any run

  /** A call is made, or the operation under way ends. */
  datatype Move = Call(call: Request) | End(outcome: Outcome)

  function Step(b: Binding, digest: seq<byte> -> string, a: State, move: Move): State {
    match move
    case Call(call) =>
      (match Begin(digest, a, call)
       case Submitted(a') => a'
       case _ => a)
    case End(o) => if Coherent(a) && a.operation.Some? then Finish(b, digest, a, o).0 else a
  }

  function Run(b: Binding, digest: seq<byte> -> string, a: State, moves: seq<Move>): State {
    if moves == [] then a else Step(b, digest, Run(b, digest, a, moves[..|moves| - 1]), moves[|moves| - 1])
  }

  lemma StepCoherent(b: Binding, digest: seq<byte> -> string, a: State, move: Move)
    requires Coherent(a)
    ensures Coherent(Step(b, digest, a, move))
  {
    hide Coherent, Begin, Finish;
    match move {
      case Call(call) => BeginCoherent(digest, a, call);
      case End(o) =>
        if a.operation.Some? {
          FinishCoherent(b, digest, a, o);
        }
    }
  }

  /** An adapter whose boot was not taken is closed: whatever is called and replied, it stays as it is. */
  lemma {:induction false} ClosedForGood(b: Binding, digest: seq<byte> -> string, a: State, moves: seq<Move>)
    requires a.confirmed == None && a.recovery.BootQuarantined? && a.operation == None
    ensures Run(b, digest, a, moves) == a
  {
    if moves != [] {
      var init, last := moves[..|moves| - 1], moves[|moves| - 1];
      ClosedForGood(b, digest, a, init);
      hide IsSha256, CanonicalCommand.IsCanonical, NonemptyCompatibility, Run;
      assert Step(b, digest, a, last) == a;
    }
  }

  /** What is confirmed, after one move of any kind: the engine stays, and the revision goes on by one at most. */
  predicate MovesOn(a: State, a': State) {
    a.confirmed.Some? ==>
      && a'.confirmed.Some? && a'.confirmed.value.compatibility == a.confirmed.value.compatibility
      && (a'.confirmed == a.confirmed
        || a'.confirmed.value.revision == a.confirmed.value.revision + 1
        || (a.operation.Some? && a.operation.value.Restore?
          && a'.confirmed.value.revision == a.operation.value.snapshot.revision))
  }

  lemma ConfirmedMovesOn(b: Binding, digest: seq<byte> -> string, a: State, move: Move)
    requires Coherent(a)
    ensures MovesOn(a, Step(b, digest, a, move))
  {
    hide IsSha256, CanonicalCommand.IsCanonical, NonemptyCompatibility;
  }

  /** After a restore of unknown outcome nothing but inspections goes out, and nothing that they say is believed. */
  lemma {:induction false} RestoreInDoubtForGood(b: Binding, digest: seq<byte> -> string, a: State, moves: seq<Move>)
    requires Coherent(a) && a.recovery.RestoreQuarantined? && (a.operation == None || a.operation == Some(Inspect))
    ensures var a' := Run(b, digest, a, moves);
      && a'.recovery == a.recovery && a'.confirmed == a.confirmed
      && (a'.operation == None || a'.operation == Some(Inspect)) && Coherent(a')
  {
    if moves != [] {
      RestoreInDoubtForGood(b, digest, a, moves[..|moves| - 1]);
      var before := Run(b, digest, a, moves[..|moves| - 1]);
      hide Run, Coherent;
      StepCoherent(b, digest, before, moves[|moves| - 1]);
      StillInDoubt(b, digest, before, moves[|moves| - 1]);
    }
  }

  lemma StillInDoubt(b: Binding, digest: seq<byte> -> string, a: State, move: Move)
    requires Coherent(a) && a.recovery.RestoreQuarantined? && (a.operation == None || a.operation == Some(Inspect))
    ensures var a' := Step(b, digest, a, move);
      && a'.recovery == a.recovery && a'.confirmed == a.confirmed && (a'.operation == None || a'.operation == Some(Inspect))
  {
    hide IsSha256, CanonicalCommand.IsCanonical, NonemptyCompatibility;
  }
}
