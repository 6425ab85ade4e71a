/** Replacement restore is atomic and leaks no lease, whatever is aborted, lost or disposed on the way. */
module EngineSafety {
  import opened Wrappers
  import opened EngineTypes
  import opened Messages
  import opened Engine
  import Adapter
  import CanonicalCommand

  lemma BeginCallKeeps(env: Environment, e: Facade, call: Request, operation: Operation)
    requires Inv(e) && OperationOf(Some(operation), Some(call)) && CandidateOf(operation) == None
    requires operation.Executing? || operation.Snapshotting? || operation.Inspecting?
    ensures Inv(BeginCall(env, e, call, operation))
  {
    hide CanonicalCommand.IsCanonical, IsSha256;
    if e.active.Some? {
      Adapter.BeginCoherent(env.digest, e.active.value.adapter, call);
    }
  }

  lemma BeginsKeep(env: Environment, e: Facade, event: Event)
    requires Inv(e)
    requires event.BeginBoot? || event.BeginExecute? || event.BeginSnapshot? || event.BeginInspect? || event.BeginRestore?
    ensures Inv(Next(env, e, event))
  {
    hide IsSha256, Adapter.SnapshotAcceptable, BeginCall;
    match event {
      case BeginExecute(input, aborted) => BeginCallKeeps(env, e, Execute(input), Executing(input));
      case BeginSnapshot => BeginCallKeeps(env, e, Snapshot, Snapshotting);
      case BeginInspect => BeginCallKeeps(env, e, Inspect, Inspecting);
      case _ =>
    }
  }

  lemma DisposeKeeps(e: Facade)
    requires Inv(e)
    ensures Inv(DisposeStep(e))
  {
  }

  lemma AbandonedKeeps(e: Facade, lease: nat)
    requires Inv(e) && e.operation.Some? && CandidateOf(e.operation.value) == Some(lease)
    ensures Inv(Abandoned(e, lease))
  {
  }

  lemma EndedKeeps(e: Facade)
    requires Inv(e) && e.operation.Some? && CandidateOf(e.operation.value) == None
    requires e.active.Some? ==> e.active.value.adapter.operation == None
    ensures Inv(Ended(e))
  {
  }

  lemma FactoryKeeps(env: Environment, e: Facade, ok: bool, aborted: bool)
    requires Inv(e)
    ensures Inv(Next(env, e, FactoryDone(ok, aborted)))
  {
    hide IsSha256, Adapter.Admitted;
  }

  lemma DigestedKeeps(env: Environment, e: Facade, matches: bool, aborted: bool)
    requires Inv(e)
    ensures Inv(Next(env, e, Digested(matches, aborted)))
  {
  }

  lemma FirstBootedKeeps(env: Environment, e: Facade, o: Adapter.Outcome)
    requires Inv(e) && e.operation.Some? && e.operation.value.BootingFirst?
    ensures Inv(FirstBooted(env, e, e.operation.value, o))
  {
    hide IsSha256, Adapter.Admitted;
  }

  lemma ExecutedKeeps(e: Facade, input: ExecuteRequest, o: Adapter.Outcome)
    requires Inv(e) && e.operation == Some(Executing(input)) && e.active.Some?
    ensures Inv(Executed(e, input, o))
  {
    hide Adapter.ValidExecuteResult;
  }

  lemma SnapshottedKeeps(env: Environment, e: Facade, o: Adapter.Outcome)
    requires Inv(e) && e.operation == Some(Snapshotting) && e.active.Some?
    ensures Inv(Ended(WithAdapter(e, Adapter.FinishSnapshot(env.digest, e.active.value.adapter, o).0)))
  {
    hide Adapter.SnapshotAcceptable, IsSha256;
  }

  lemma InspectedKeeps(e: Facade, o: Adapter.Outcome)
    requires Inv(e) && e.operation == Some(Inspecting) && e.active.Some?
    ensures Inv(Inspected(e, o))
  {
  }

  lemma CandidateBootedKeeps(env: Environment, e: Facade, o: Adapter.Outcome)
    requires Inv(e) && e.operation.Some? && e.operation.value.Restoring? && e.operation.value.stage.BootingCandidate?
    ensures Inv(CandidateBooted(env, e, e.operation.value, o))
  {
    hide IsSha256, Adapter.SnapshotAcceptable, Adapter.NonemptyCompatibility, Adapter.Admitted,
      Adapter.ValidExecuteResult;
    AbandonedKeeps(e, e.operation.value.stage.lease);
  }

  lemma CandidateRestoredKeeps(env: Environment, e: Facade, o: Adapter.Outcome)
    requires Inv(e) && e.operation.Some? && e.operation.value.Restoring? && e.operation.value.stage.RestoringCandidate?
    ensures Inv(CandidateRestored(env, e, e.operation.value, o))
  {
    AbandonedKeeps(e, e.operation.value.stage.lease);
  }

  lemma CandidateInspectedKeeps(e: Facade, o: Adapter.Outcome)
    requires Inv(e) && e.operation.Some? && e.operation.value.Restoring? && e.operation.value.stage.InspectingCandidate?
    ensures Inv(CandidateInspected(e, e.operation.value, o))
  {
    AbandonedKeeps(e, e.operation.value.stage.lease);
  }

  lemma ExchangedKeeps(env: Environment, e: Facade, o: Adapter.Outcome, aborted: bool)
    requires Inv(e)
    ensures Inv(Next(env, e, Exchanged(o, aborted)))
  {
    hide FirstBooted, CandidateBooted, CandidateRestored, CandidateInspected, Executed, Inspected;
    hide Adapter.FinishSnapshot;
    if e.operation.Some? {
      var op := e.operation.value;
      if op.BootingFirst? {
        FirstBootedKeeps(env, e, o);
      } else if op.Restoring? {
        if CandidateOf(op).Some? {
          AbandonedKeeps(e, CandidateOf(op).value);
          match op.stage {
            case BootingCandidate(_, _) => CandidateBootedKeeps(env, e, o);
            case RestoringCandidate(_, _) => CandidateRestoredKeeps(env, e, o);
            case _ => CandidateInspectedKeeps(e, o);
          }
        }
      } else if e.active.Some? {
        match op {
          case Executing(input) => ExecutedKeeps(e, input, o);
          case Snapshotting => SnapshottedKeeps(env, e, o);
          case Inspecting => InspectedKeeps(e, o);
          case _ =>
        }
      } else if !op.CreatingFirst? {
        EndedKeeps(e);
      }
    }
  }

  lemma AbortedKeeps(env: Environment, e: Facade)
    requires Inv(e)
    ensures Inv(Next(env, e, Aborted))
  {
    if e.operation.Some? && e.operation.value.Restoring? && CandidateOf(e.operation.value).Some? {
      AbandonedKeeps(e, CandidateOf(e.operation.value).value);
    }
  }

  lemma NextKeeps(env: Environment, e: Facade, event: Event)
    requires Inv(e)
    ensures Inv(Next(env, e, event))
  {
    hide Inv, Next;
    match event {
      case Digested(matches, aborted) => DigestedKeeps(env, e, matches, aborted);
      case FactoryDone(ok, aborted) => FactoryKeeps(env, e, ok, aborted);
      case Exchanged(o, aborted) => ExchangedKeeps(env, e, o, aborted);
      case Aborted => AbortedKeeps(env, e);
      case Dispose => DisposedKeeps(env, e);
      case _ => BeginsKeep(env, e, event);
    }
  }

  lemma DisposedKeeps(env: Environment, e: Facade)
    requires Inv(e)
    ensures Inv(Next(env, e, Dispose))
  {
    hide Inv, DisposeStep;
    DisposeKeeps(e);
  }

  lemma {:induction false} PlayKeeps(env: Environment, e: Facade, events: seq<Event>)
    requires Inv(e)
    ensures Inv(Play(env, e, events))
    decreases |events|
  {
    hide Inv, Next;
    if events != [] {
      NextKeeps(env, e, events[0]);
      PlayKeeps(env, Next(env, e, events[0]), events[1..]);
    }
  }

  function Reached(env: Environment, events: seq<Event>): Facade {
    Play(env, INITIAL, events)
  }

  /**
   No lease leaks: whenever no operation is under way, the live leases are just the active worker's; after dispose
   there is none.
   */
  lemma NoLeaseLeaks(env: Environment, events: seq<Event>)
    requires Reached(env, events).operation == None
    ensures var e := Reached(env, events);
      && e.live == (if e.active.Some? then {e.active.value.lease} else {})
      && (e.disposed ==> e.live == {})
  {
    hide Next;
    PlayKeeps(env, INITIAL, events);
  }

  /** The facade is in doubt about an execute just when its active adapter is. */
  lemma DoubtMatchesAdapter(env: Environment, events: seq<Event>)
    requires Reached(env, events).active.Some?
    ensures Reached(env, events).uncertainExecute == Doubt(Reached(env, events).active.value.adapter)
  {
    hide Next;
    PlayKeeps(env, INITIAL, events);
  }

  /** The worker `w` is a complete replacement: booted, restored to the snapshot, and in no doubt. */
  predicate Replaces(w: ActiveWorker, op: Operation) {
    && op.Restoring? && CandidateOf(op) == Some(w.lease)
    && w.adapter.recovery.Ready? && w.adapter.operation == None && w.adapter.confirmed.Some?
    && w.adapter.confirmed.value.revision == op.snapshot.revision == w.state.revision
    && w.adapter.confirmed.value.boundary == w.state.boundary
    && w.adapter.confirmed.value.compatibility == op.snapshot.compatibility
    && w.bootRequest == op.from.bootRequest
  }

  /**
   Restore is atomic. In every step of a restore the active worker stays as it was, is dropped by a dispose, or is
   replaced whole by the last check; and in that case the old lease is terminated and only the new one is live.
   */
  lemma RestoreIsAtomic(env: Environment, e: Facade, event: Event)
    requires Inv(e) && e.operation.Some? && e.operation.value.Restoring?
    ensures var e' := Next(env, e, event);
      || e'.active == e.active
      || (event == Dispose && e'.active == None)
      || (e'.active.Some? && Replaces(e'.active.value, e.operation.value) && e'.operation == None
        && e'.live == {e'.active.value.lease} && e'.uncertainExecute == None)
  {
    hide IsSha256, Adapter.SnapshotAcceptable, Adapter.NonemptyCompatibility, Adapter.Admitted,
      Adapter.ValidExecuteResult;
  }

  /** When a restore ends without a replacement, the facade is as before, and the candidate's lease is terminated. */
  lemma FailedRestoreLeavesNothing(env: Environment, e: Facade, event: Event)
    requires Inv(e) && e.operation.Some? && e.operation.value.Restoring?
    requires Next(env, e, event).operation == None && Next(env, e, event).active == e.active
    ensures var e' := Next(env, e, event);
      && e'.live == (if e.active.Some? then {e.active.value.lease} else {})
      && e'.uncertainExecute == e.uncertainExecute && e'.disposed == e.disposed
  {
    hide IsSha256, Adapter.SnapshotAcceptable, Adapter.NonemptyCompatibility, Adapter.Admitted,
      Adapter.ValidExecuteResult;
  }
}
