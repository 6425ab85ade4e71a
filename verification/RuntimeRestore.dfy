/** A snapshot carries everything that the runtime's later answers depend on. */
module RuntimeRestore {
  import opened Wrappers
  import opened EngineTypes
  import opened Journal
  import opened Machine
  import opened Messages
  import opened Runtime
  import opened RuntimeSafety
  import opened SnapshotFormat
  import CanonicalCommand
  import Session

  /** Serves requests one after another: the state it ends in, and the answers. */
  ghost function Serve<M>(c: Config<M>, s: RuntimeState<M>, ms: seq<RequestMessage>): (RuntimeState<M>, seq<Response>)
    decreases |ms|
  {
    if ms == [] then (s, [])
    else
      var (s1, first) := Handle(c, s, ms[0]);
      var (s2, others) := Serve(c, s1, ms[1..]);
      (s2, [first] + others)
  }

  lemma {:induction false} ServeKeeps<M>(c: Config<M>, s: RuntimeState<M>, ms: seq<RequestMessage>)
    requires c.maxReceipts <= MAX_RECEIPTS && Inv(c, s)
    ensures Inv(c, Serve(c, s, ms).0)
    decreases |ms|
  {
    hide Inv, Handle;
    if ms != [] {
      HandleKeeps(c, s, ms[0]);
      ServeKeeps(c, Handle(c, s, ms[0]).0, ms[1..]);
    }
  }

  /**
   The journal never stands in the way of a snapshot: wherever the session can be checkpointed, the envelope is valid,
   and its bytes decode to exactly the state and the journal that the runtime holds.
   */
  lemma SnapshotSucceeds<M(!new)>(c: Config<M>, s: RuntimeState<M>)
    requires ValidConfig(c) && SavesFit(c.story) && Inv(c, s)
    ensures SnapshotStep(c, s).SnapshotDone? <==>
      s.session.Some? && Session.CheckpointOf(c.story, s.session.value).Some?
    ensures SnapshotStep(c, s).SnapshotDone? ==>
      var checkpoint := Session.CheckpointOf(c.story, s.session.value).value;
      && ValidEnvelope(EnvelopeOf(s, checkpoint))
      && SnapshotStep(c, s).snapshot.bytes == Wire(EnvelopeOf(s, checkpoint))
      && ParseEnvelope(SnapshotStep(c, s).snapshot.bytes) == Some(EnvelopeOf(s, checkpoint))
  {
    hide Coherent, ValidReceipts, JournalBytes, TextBytes, Wire, ParseEnvelope;
    if s.session.Some? && Session.CheckpointOf(c.story, s.session.value).Some? {
      RevisionBounded(c, s);
      EnvelopeInverse(EnvelopeOf(s, Session.CheckpointOf(c.story, s.session.value).value));
    }
  }

  /** The same, said of every state that any requests lead to. */
  lemma ReachableSnapshotSucceeds<M(!new)>(c: Config<M>, ms: seq<RequestMessage>)
    requires ValidConfig(c) && SavesFit(c.story)
    ensures var s := Serve(c, Initial(), ms).0;
      && Inv(c, s)
      && (SnapshotStep(c, s).SnapshotDone? <==>
        s.session.Some? && Session.CheckpointOf(c.story, s.session.value).Some?)
  {
    hide Inv, SnapshotStep;
    assert Inv(c, Initial()) by {
      InitialInv(c);
    }
    ServeKeeps(c, Initial(), ms);
    SnapshotSucceeds(c, Serve(c, Initial(), ms).0);
  }

  lemma InitialInv<M>(c: Config<M>)
    ensures Inv(c, Initial())
  {
  }

  // Runtimes that answer alike

  ghost predicate SameRuntime<M(!new)>(c: Config<M>, a: RuntimeState<M>, b: RuntimeState<M>) {
    && a.receipts == b.receipts && a.journalBytes == b.journalBytes
    && match (a.session, b.session)
       case (None, None) => true
       case (Some(x), Some(y)) => Session.SameState(c.story, x, y)
       case _ => false
  }

  lemma SameRuntimeReflexive<M(!new)>(c: Config<M>, a: RuntimeState<M>)
    requires SavesBehaviour(c.story)
    ensures SameRuntime(c, a, a)
  {
    if a.session.Some? && a.session.value.io.Waiting? {
      var m := a.session.value.io.machine;
      assert Same(c.story, m, m);
    }
  }

  lemma CommitSame<M(!new)>(c: Config<M>, a: RuntimeState<M>, b: RuntimeState<M>, input: ExecuteRequest)
    requires SavesBehaviour(c.story) && SameRuntime(c, a, b) && a.session.Some?
    ensures SameRuntime(c, Commit(c, a, input).0, Commit(c, b, input).0)
    ensures Commit(c, a, input).1 == Commit(c, b, input).1
  {
    hide SavesBehaviour, Session.AfterExecute, ReceiptBytes, Session.SameIo, Session.WellFormed;
    Session.ExecuteSame(c.story, a.session.value, b.session.value, input.command);
    Session.ExecuteRevision(c.story, a.session.value, input.command);
    Session.ExecuteRevision(c.story, b.session.value, input.command);
  }

  lemma ExecuteStepSame<M(!new)>(c: Config<M>, a: RuntimeState<M>, b: RuntimeState<M>, input: ExecuteRequest)
    requires SavesBehaviour(c.story) && SameRuntime(c, a, b)
    ensures SameRuntime(c, ExecuteStep(c, a, input).0, ExecuteStep(c, b, input).0)
    ensures ExecuteStep(c, a, input).1 == ExecuteStep(c, b, input).1
  {
    hide SavesBehaviour, Commit, ReceiptBytes, Session.SameIo, BoundedId, Lookup, WorstCase,
      CanonicalCommand.IsCanonical;
    if a.session.Some? {
      CommitSame(c, a, b, input);
    }
  }

  /** Runtimes that are the same answer every request with the same response, and stay the same. */
  lemma HandleSame<M(!new)>(c: Config<M>, a: RuntimeState<M>, b: RuntimeState<M>, m: RequestMessage)
    requires SavesBehaviour(c.story) && SameRuntime(c, a, b)
    ensures SameRuntime(c, Handle(c, a, m).0, Handle(c, b, m).0)
    ensures Handle(c, a, m).1 == Handle(c, b, m).1
  {
    hide SavesBehaviour, ExecuteStep, Session.SameIo, BoundedId, IsSha256, RestoredState, SnapshotShape,
      ValidEnvelope, Wire;
    hide Session.AfterBoot, Session.CheckpointOf;
    match m.request {
      case Boot(storyId, artifactSha256) =>
        SameRuntimeReflexive(c, BootStep(c, a, storyId, artifactSha256).0);
      case Execute(input) =>
        ExecuteStepSame(c, a, b, input);
      case Snapshot =>
        if a.session.Some? {
          Session.SnapshotSame(c.story, a.session.value, b.session.value);
        }
      case Restore(snapshot) =>
        if RestoredState(c, snapshot).Some? {
          SameRuntimeReflexive(c, RestoredState(c, snapshot).value);
        }
      case Inspect =>
    }
  }

  lemma {:induction false} ServeSame<M(!new)>(c: Config<M>, a: RuntimeState<M>, b: RuntimeState<M>, ms: seq<RequestMessage>)
    requires SavesBehaviour(c.story) && SameRuntime(c, a, b)
    ensures SameRuntime(c, Serve(c, a, ms).0, Serve(c, b, ms).0)
    ensures Serve(c, a, ms).1 == Serve(c, b, ms).1
    decreases |ms|
  {
    hide SavesBehaviour, SameRuntime, Handle;
    if ms != [] {
      HandleSame(c, a, b, ms[0]);
      ServeSame(c, Handle(c, a, ms[0]).0, Handle(c, b, ms[0]).0, ms[1..]);
    }
  }

  /** A runtime's own snapshot is accepted by every booted runtime of the same story and limits. */
  lemma RestoreOwnSnapshot<M(!new)>(c: Config<M>, a: RuntimeState<M>, b: RuntimeState<M>)
    requires ValidConfig(c) && Faithful(c.story) && Inv(c, a)
    requires SnapshotStep(c, a).SnapshotDone? && b.session.Some?
    ensures var (b', answer) := RestoreStep(c, b, SnapshotStep(c, a).snapshot);
      && SameRuntime(c, a, b')
      && answer == RestoreDone(Restored, a.session.value.revision, "", a.session.value.boundary)
  {
    hide Coherent, ValidReceipts, JournalBytes, TextBytes, Wire, ParseEnvelope;
    hide SavesBehaviour, LoadsSaved, SavesFit, Session.Restored, Session.CheckpointOf, Session.SameIo, Same;
    hide WellFormedCompatibility, IsSha256;
    SnapshotSucceeds(c, a);
    var checkpoint := Session.CheckpointOf(c.story, a.session.value).value;
    var e := EnvelopeOf(a, checkpoint);
    WireLength(e);
    Session.RestoreSnapshot(c.story, a.session.value);
  }

  /**
   Snapshot, then restore, preserves behaviour: a booted runtime that restores the snapshot answers every later
   sequence of requests - retries of journaled requests included - as the runtime that made the snapshot.
   */
  lemma SnapshotThenRestore<M(!new)>(c: Config<M>, a: RuntimeState<M>, b: RuntimeState<M>, ms: seq<RequestMessage>)
    requires ValidConfig(c) && Faithful(c.story) && Inv(c, a)
    requires SnapshotStep(c, a).SnapshotDone? && b.session.Some?
    ensures Serve(c, RestoreStep(c, b, SnapshotStep(c, a).snapshot).0, ms).1 == Serve(c, a, ms).1
  {
    hide ValidConfig, LoadsSaved, SavesFit, SavesBehaviour, Inv, SnapshotStep, RestoreStep, SameRuntime;
    RestoreOwnSnapshot(c, a, b);
    ServeSame(c, a, RestoreStep(c, b, SnapshotStep(c, a).snapshot).0, ms);
  }

  /** A restore either takes over the whole snapshot or changes nothing at all. */
  lemma RestoreAllOrNothing<M>(c: Config<M>, s: RuntimeState<M>, snapshot: EngineSnapshot)
    ensures var (s', answer) := RestoreStep(c, s, snapshot);
      && (answer.RestoreDone? && answer.status == Restored <==>
        s.session.Some? && SnapshotShape(snapshot) && snapshot.compatibility == c.compatibility
        && RestoredState(c, snapshot).Some?)
      && (answer.RestoreDone? && answer.status == Restored ==> s' == RestoredState(c, snapshot).value)
      && (!(answer.RestoreDone? && answer.status == Restored) ==> s' == s)
  {
    hide RestoredState, SnapshotShape;
  }
}
