/**
 The story interpreter as the host sees it: a deterministic machine that, given
 the command it waits for, prints some texts and then waits again, finishes or
 crashes, and whose waiting states can be saved to bytes and loaded again.
 Everything here is a parameter of the project's theorems.
 */
module Machine {
  import opened Wrappers
  import opened Bytes

  datatype Stop<+M> = AwaitsInput(machine: M) | Finished | Crashed

  datatype Run<+M> = Run(prints: seq<string>, stop: Stop<M>)

  datatype Loaded<+M> = Loaded(run: Run<M>, revision: nat, lastOutput: string)

  datatype Story<!M> = Story(
    start: Run<M>,
    resume: (M, string) -> Run<M>,
    /** The input length that the waiting machine asked for. */
    maxLength: M -> int,
    /** The checkpoint bytes of a waiting machine; `None` when encoding fails. */
    save: (M, nat, string) -> Option<seq<byte>>,
    /** The machine relaunched from checkpoint bytes; `None` when they are refused. */
    load: seq<byte> -> Option<Loaded<M>>,
    /** Two machines that differ in nothing that matters. */
    alike: (M, M) -> bool)

  predicate Same<M>(story: Story<M>, m: M, m': M) {
    story.alike(m, m')
  }

  predicate SameStop<M>(story: Story<M>, s: Stop<M>, s': Stop<M>) {
    match (s, s')
    case (AwaitsInput(m), AwaitsInput(m')) => Same(story, m, m')
    case (Finished, Finished) => true
    case (Crashed, Crashed) => true
    case _ => false
  }

  /** Machines that are alike are saved to the same bytes, behave the same, and stay alike. */
  ghost predicate SavesBehaviour<M(!new)>(story: Story<M>) {
    && (forall m :: Same(story, m, m))
    && forall m, m' {:trigger Same(story, m, m')} :: Same(story, m, m') ==>
      && story.maxLength(m) == story.maxLength(m')
      && (forall revision, output {:trigger story.save(m, revision, output)} {:trigger story.save(m', revision, output)} ::
        story.save(m, revision, output) == story.save(m', revision, output))
      && forall command {:trigger story.resume(m, command)} {:trigger story.resume(m', command)} ::
        && story.resume(m, command).prints == story.resume(m', command).prints
        && SameStop(story, story.resume(m, command).stop, story.resume(m', command).stop)
  }

  /** Loading saved bytes gives back the revision, the output, and a silent machine that is alike. */
  ghost predicate LoadsSaved<M(!new)>(story: Story<M>) {
    forall m, revision, output {:trigger story.save(m, revision, output)} ::
      var saved := story.save(m, revision, output);
      saved.Some? ==>
        && story.load(saved.value).Some?
        && var loaded := story.load(saved.value).value;
          && loaded.revision == revision && loaded.lastOutput == output
          && loaded.run.prints == []
          && loaded.run.stop.AwaitsInput?
          && Same(story, m, loaded.run.stop.machine)
  }

  /** Saved checkpoints fit the place that a worker snapshot has for them. */
  ghost predicate SavesFit<M(!new)>(story: Story<M>) {
    forall m, revision, output {:trigger story.save(m, revision, output)} ::
      var saved := story.save(m, revision, output);
      saved.Some? ==> 16 <= |saved.value| <= 1024 * 1024
  }

  /** What the runtime relies on the interpreter and the checkpoint codec for. */
  ghost predicate Faithful<M(!new)>(story: Story<M>) {
    SavesBehaviour(story) && LoadsSaved(story) && SavesFit(story)
  }
}
