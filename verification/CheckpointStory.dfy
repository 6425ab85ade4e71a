/**
 The checkpoint codec at its place: an interpreter whose state can be captured
 and relaunched, saved through the codec, is all that the runtime asks of a
 story.
 */
module CheckpointStory {
  import opened Wrappers
  import opened Bytes
  import opened Machine
  import CheckpointFormat
  import CheckpointLayout
  import CheckpointMeaning
  import CheckpointParse
  import Journal
  import SnapshotFormat

  const MAX_INSTRUCTIONS_PER_TURN: nat := 10_000_000

  datatype Interpreter<!M> = Interpreter(
    start: Run<M>,
    resume: (M, string) -> Run<M>,
    maxLength: M -> int,
    /** The whole state of a machine that waits for input. */
    capture: M -> CheckpointFormat.Checkpoint,
    /** What happens when a machine is started from a captured state. */
    relaunch: CheckpointFormat.Checkpoint -> Run<M>)

  /** The story file that checkpoints are bound to. */
  datatype Artifact = Artifact(storyId: string, sha256: string)

  predicate SameCapture<M>(i: Interpreter<M>, m: M, m': M) {
    i.capture(m) == i.capture(m')
  }

  predicate SameCaptureStop<M>(i: Interpreter<M>, s: Stop<M>, s': Stop<M>) {
    match (s, s')
    case (AwaitsInput(m), AwaitsInput(m')) => SameCapture(i, m, m')
    case (Finished, Finished) => true
    case (Crashed, Crashed) => true
    case _ => false
  }

  /** The captured state decides what the machine does next. */
  ghost predicate CaptureDecides<M(!new)>(i: Interpreter<M>) {
    forall m, m' {:trigger SameCapture(i, m, m')} :: SameCapture(i, m, m') ==>
      && i.maxLength(m) == i.maxLength(m')
      && forall command {:trigger i.resume(m, command)} {:trigger i.resume(m', command)} ::
        && i.resume(m, command).prints == i.resume(m', command).prints
        && SameCaptureStop(i, i.resume(m, command).stop, i.resume(m', command).stop)
  }

  /** A machine relaunched from a captured state prints nothing and waits in that state. */
  ghost predicate Relaunches<M(!new)>(i: Interpreter<M>) {
    forall m {:trigger i.capture(m)} ::
      && i.capture(m).config.maxInstructionsPerTurn <= MAX_INSTRUCTIONS_PER_TURN
      && (CheckpointFormat.ValidCheckpoint(i.capture(m)) ==>
        var run := i.relaunch(i.capture(m));
        run.prints == [] && run.stop.AwaitsInput? && SameCapture(i, m, run.stop.machine))
  }

  function EnvelopeFor(a: Artifact, revision: nat, output: string, state: CheckpointFormat.Checkpoint)
    : CheckpointFormat.Envelope
  {
    CheckpointFormat.Envelope(a.storyId, a.sha256, revision, output, state)
  }

  function Save(
    ids: CheckpointFormat.Identities, a: Artifact, revision: nat, output: string, state: CheckpointFormat.Checkpoint)
    : (r: Option<seq<byte>>)
    requires CheckpointFormat.ValidIdentities(ids)
  {
    var e := EnvelopeFor(a, revision, output, state);
    if CheckpointFormat.ValidEnvelope(e) then Some(CheckpointParse.Wire(ids, e)) else None
  }

  /** Refuses bytes of another story, and instruction limits that no session is configured with. */
  function Load<M>(ids: CheckpointFormat.Identities, a: Artifact, i: Interpreter<M>, bytes: seq<byte>): Option<Loaded<M>> {
    var e :- CheckpointParse.Parse(ids, bytes);
    if e.machine.config.maxInstructionsPerTurn > MAX_INSTRUCTIONS_PER_TURN then None
    else if e.storyId != a.storyId || e.artifactSha256 != a.sha256 then None
    else Some(Loaded(i.relaunch(e.machine), e.revision, e.lastOutput))
  }

  function StoryOf<M>(ids: CheckpointFormat.Identities, a: Artifact, i: Interpreter<M>): (story: Story<M>)
    requires CheckpointFormat.ValidIdentities(ids)
  {
    Story(
      i.start, i.resume, i.maxLength,
      (m, revision, output) => Save(ids, a, revision, output, i.capture(m)),
      bytes => Load(ids, a, i, bytes),
      (m, m') => SameCapture(i, m, m'))
  }

  /** What is saved is loaded again, whole. */
  lemma SaveLoads<M>(
    ids: CheckpointFormat.Identities, a: Artifact, i: Interpreter<M>,
    revision: nat, output: string, state: CheckpointFormat.Checkpoint)
    requires CheckpointFormat.ValidIdentities(ids)
    requires Save(ids, a, revision, output, state).Some?
    requires state.config.maxInstructionsPerTurn <= MAX_INSTRUCTIONS_PER_TURN
    ensures CheckpointFormat.ValidCheckpoint(state)
    ensures Load(ids, a, i, Save(ids, a, revision, output, state).value) ==
      Some(Loaded(i.relaunch(state), revision, output))
    ensures SnapshotFormat.MIN_INNER_BYTES <= |Save(ids, a, revision, output, state).value| < SnapshotFormat.MAX_INNER_BYTES
  {
    hide CheckpointParse.Parse, CheckpointFormat.ValidCheckpoint, Journal.TextBytes, CheckpointFormat.FramesBytes;
    CheckpointParse.EnvelopeInverse(ids, EnvelopeFor(a, revision, output, state));
  }

  /** The bytes hold this checkpoint of this story, with a limit on a turn that sessions are configured with. */
  predicate Holds(ids: CheckpointFormat.Identities, a: Artifact, bytes: seq<byte>, e: CheckpointFormat.Envelope) {
    && CheckpointMeaning.Sound(e) && CheckpointLayout.Laid(bytes, ids, e)
    && e.storyId == a.storyId && e.artifactSha256 == a.sha256
    && e.machine.config.maxInstructionsPerTurn <= 10_000_000
  }

  /** Bytes load exactly if they hold a checkpoint of this very story; the machine then goes on from what they hold. */
  lemma LoadsIff<M>(ids: CheckpointFormat.Identities, a: Artifact, i: Interpreter<M>, bytes: seq<byte>)
    requires CheckpointFormat.ValidIdentities(ids)
    ensures Load(ids, a, i, bytes).Some? <==> exists e :: Holds(ids, a, bytes, e)
    ensures forall e :: Holds(ids, a, bytes, e) ==>
              Load(ids, a, i, bytes) == Some(Loaded(i.relaunch(e.machine), e.revision, e.lastOutput))
  {
    hide CheckpointParse.Parse, CheckpointMeaning.Sound, CheckpointLayout.Laid;
    forall e
      ensures CheckpointParse.Parse(ids, bytes) == Some(e) <==>
                CheckpointMeaning.Sound(e) && CheckpointLayout.Laid(bytes, ids, e)
    {
      CheckpointMeaning.DecodesIff(ids, bytes, e);
    }
    if Load(ids, a, i, bytes).Some? {
      assert Holds(ids, a, bytes, CheckpointParse.Parse(ids, bytes).value);
    }
  }

  /** The checkpoint codec gives the runtime everything it relies on; its checkpoints fit the worker snapshot. */
  lemma CodecIsFaithful<M(!new)>(ids: CheckpointFormat.Identities, a: Artifact, i: Interpreter<M>)
    requires CheckpointFormat.ValidIdentities(ids)
    requires CaptureDecides(i) && Relaunches(i)
    ensures Faithful(StoryOf(ids, a, i))
  {
    hide Save, Load, CheckpointFormat.ValidCheckpoint;
    var story := StoryOf(ids, a, i);
    forall m, revision, output | story.save(m, revision, output).Some?
      ensures story.load(story.save(m, revision, output).value) ==
        Some(Loaded(i.relaunch(i.capture(m)), revision, output))
      ensures CheckpointFormat.ValidCheckpoint(i.capture(m))
      ensures 16 <= |story.save(m, revision, output).value| <= 1024 * 1024
    {
      SaveLoads(ids, a, i, revision, output, i.capture(m));
    }
    assert SavesBehaviour(story) by {
      BehavesAlike(ids, a, i);
    }
  }

  lemma BehavesAlike<M(!new)>(ids: CheckpointFormat.Identities, a: Artifact, i: Interpreter<M>)
    requires CheckpointFormat.ValidIdentities(ids) && CaptureDecides(i)
    ensures SavesBehaviour(StoryOf(ids, a, i))
  {
    hide Save, Load;
    var story := StoryOf(ids, a, i);
    forall m, m' | Same(story, m, m')
      ensures story.maxLength(m) == story.maxLength(m')
      ensures forall revision, output :: story.save(m, revision, output) == story.save(m', revision, output)
      ensures forall command ::
        && story.resume(m, command).prints == story.resume(m', command).prints
        && SameStop(story, story.resume(m, command).stop, story.resume(m', command).stop)
    {
      assert SameCapture(i, m, m');
    }
  }
}
