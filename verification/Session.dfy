/**
 One interpreter session: the output accounting of a turn, the input boundary,
 and the public revision. The functions say what each session operation does;
 the classes do it.
 */
module Session {
  import opened Wrappers
  import opened Bytes
  import opened EngineTypes
  import opened Machine
  import CanonicalCommand
  import Journal
  import Utf8

  const MAX_READ: int := 0xFFFF

  datatype Io<+M> = Waiting(machine: M) | Ended | Failed

  datatype State<+M> = State(revision: nat, lastOutput: string, boundary: Boundary, io: Io<M>)
  {
    function Public(): PublicState {
      PublicState(revision, lastOutput, boundary)
    }
  }

  /** A completed turn: what was printed, and where the machine stopped. */
  datatype Turn<+M> = Turn(output: string, boundary: Boundary, io: Io<M>)

  datatype Executed<+M> = TooLong | Broken | Turned(turn: Turn<M>)

  function Concat(prints: seq<string>): string {
    if prints == [] then "" else Concat(prints[..|prints| - 1]) + prints[|prints| - 1]
  }

  /** `None` is a turn that never reaches its boundary: a crash, too much output, or a bad read. */
  function TurnOf<M>(story: Story<M>, run: Run<M>): (t: Option<Turn<M>>)
    ensures t.Some? ==> Journal.TextBytes(t.value.output) <= Journal.MAX_OUTPUT_BYTES
    ensures t.Some? ==> (t.value.boundary == Terminated <==> t.value.io == Ended) && t.value.io != Failed
  {
    var output := Concat(run.prints);
    if Journal.TextBytes(output) > Journal.MAX_OUTPUT_BYTES then None
    else
      match run.stop
      case AwaitsInput(m) =>
        if 1 <= story.maxLength(m) <= MAX_READ then Some(Turn(output, InputRequested, Waiting(m))) else None
      case Finished => Some(Turn(output, Terminated, Ended))
      case Crashed => None
  }

  function AfterBoot<M>(story: Story<M>): Option<State<M>> {
    var turn :- TurnOf(story, story.start);
    Some(State(0, turn.output, turn.boundary, turn.io))
  }

  /** A command that is too long leaves the session as it was; a broken turn leaves it failed for good. */
  function AfterExecute<M>(story: Story<M>, s: State<M>, command: string): (State<M>, Executed<M>) {
    if !CanonicalCommand.IsCanonical(command) || !s.io.Waiting? then (s, Broken)
    else if Utf8.Utf16Length(command) >= story.maxLength(s.io.machine) then (s, TooLong)
    else
      match TurnOf(story, story.resume(s.io.machine, command))
      case None => (s.(io := Failed), Broken)
      case Some(turn) => (State(s.revision + 1, turn.output, turn.boundary, turn.io), Turned(turn))
  }

  /** `None` away from an input boundary, or when the checkpoint cannot be encoded. */
  function CheckpointOf<M>(story: Story<M>, s: State<M>): Option<seq<byte>> {
    if s.boundary != InputRequested || !s.io.Waiting? then None
    else story.save(s.io.machine, s.revision, s.lastOutput)
  }

  /** A session relaunched from a checkpoint must ask for input without printing. */
  function Restored<M>(story: Story<M>, checkpoint: seq<byte>): Option<State<M>> {
    var loaded :- story.load(checkpoint);
    var turn :- TurnOf(story, loaded.run);
    if turn.boundary != InputRequested || turn.output != "" then None
    else Some(State(loaded.revision, loaded.lastOutput, InputRequested, turn.io))
  }

  /** The boundary and the interpreter agree, and the last output is within its limit. */
  predicate WellFormed<M>(story: Story<M>, s: State<M>) {
    && (s.boundary == Terminated <==> s.io.Ended?)
    && (s.io.Waiting? ==> 1 <= story.maxLength(s.io.machine) <= MAX_READ)
    && Journal.TextBytes(s.lastOutput) <= Journal.MAX_OUTPUT_BYTES
  }

  lemma ExecuteWellFormed<M>(story: Story<M>, s: State<M>, command: string)
    requires WellFormed(story, s)
    ensures WellFormed(story, AfterExecute(story, s, command).0)
  {
    hide CanonicalCommand.IsCanonical, Utf8.Utf16Length, Journal.TextBytes, Concat;
  }

  /** A turn advances the revision by one; anything else leaves the public state alone. */
  lemma ExecuteRevision<M>(story: Story<M>, s: State<M>, command: string)
    ensures var (s', executed) := AfterExecute(story, s, command);
      && (executed.Turned? ==>
        && s'.revision == s.revision + 1
        && s'.lastOutput == executed.turn.output && s'.boundary == executed.turn.boundary
        && s'.io == executed.turn.io)
      && (!executed.Turned? ==> s'.Public() == s.Public())
      && (executed.TooLong? ==> s' == s)
  {
    hide CanonicalCommand.IsCanonical, Utf8.Utf16Length, Journal.TextBytes, Concat;
  }

  lemma TurnFits<M>(story: Story<M>, s: State<M>, command: string)
    ensures var executed := AfterExecute(story, s, command).1;
      executed.Turned? ==> Journal.TextBytes(executed.turn.output) <= Journal.MAX_OUTPUT_BYTES
  {
    hide CanonicalCommand.IsCanonical, Utf8.Utf16Length, Journal.TextBytes, Concat;
  }

  // What a turn tells

  lemma ConcatOne(text: string)
    ensures Concat([]) == "" && Concat([text]) == text
  {
  }

  /** The texts of a turn stand in the order in which they were printed. */
  lemma {:induction false} ConcatAppend(first: seq<string>, second: seq<string>)
    ensures Concat(first + second) == Concat(first) + Concat(second)
    decreases |second|
  {
    if second == [] {
      assert first + second == first;
    } else {
      var init, last := second[..|second| - 1], second[|second| - 1];
      assert (first + second)[..|first + second| - 1] == first + init;
      ConcatAppend(first, init);
    }
  }

  /** The boundary at which a run stops. */
  predicate StopsAt<M>(run: Run<M>, boundary: Boundary) {
    if boundary == InputRequested then run.stop.AwaitsInput? else run.stop.Finished?
  }

  /**
   A run is a turn exactly if it does not crash, prints no more than the limit and asks for a read of an allowed length;
   the turn then carries all the texts that it prints, and the boundary where it stops.
   */
  lemma TurnTells<M>(story: Story<M>, run: Run<M>)
    ensures TurnOf(story, run).Some? <==>
      && Journal.TextBytes(Concat(run.prints)) <= 256 * 1024 && !run.stop.Crashed?
      && (run.stop.AwaitsInput? ==> 1 <= story.maxLength(run.stop.machine) <= 0xFFFF)
    ensures var turn := TurnOf(story, run);
      turn.Some? ==> turn.value.output == Concat(run.prints) && StopsAt(run, turn.value.boundary)
  {
    hide Journal.TextBytes, Concat;
  }

  /** A command that runs its turn is told by the texts that the machine prints on it. */
  lemma ExecuteTells<M>(story: Story<M>, s: State<M>, command: string)
    requires AfterExecute(story, s, command).1.Turned?
    ensures s.io.Waiting?
    ensures var run := story.resume(s.io.machine, command);
      var (s', executed) := AfterExecute(story, s, command);
      && executed.turn.output == Concat(run.prints) && StopsAt(run, executed.turn.boundary)
      && s'.lastOutput == Concat(run.prints) && StopsAt(run, s'.boundary) && s'.revision == s.revision + 1
  {
    hide Journal.TextBytes, Concat, CanonicalCommand.IsCanonical, Utf8.Utf16Length, TurnOf, StopsAt;
    TurnTells(story, story.resume(s.io.machine, command));
  }

  lemma EmptyText()
    ensures Journal.TextBytes("") == 0
  {
  }

  // Sessions that no later operation can tell apart

  predicate SameIo<M>(story: Story<M>, a: Io<M>, b: Io<M>) {
    match (a, b)
    case (Waiting(m), Waiting(m')) => Same(story, m, m')
    case (Ended, Ended) => true
    case (Failed, Failed) => true
    case _ => false
  }

  predicate SameState<M>(story: Story<M>, a: State<M>, b: State<M>) {
    a.Public() == b.Public() && SameIo(story, a.io, b.io)
  }

  predicate SameExecuted<M>(story: Story<M>, a: Executed<M>, b: Executed<M>) {
    match (a, b)
    case (TooLong, TooLong) => true
    case (Broken, Broken) => true
    case (Turned(t), Turned(t')) => t.output == t'.output && t.boundary == t'.boundary && SameIo(story, t.io, t'.io)
    case _ => false
  }

  lemma ExecuteSame<M(!new)>(story: Story<M>, a: State<M>, b: State<M>, command: string)
    requires SavesBehaviour(story) && SameState(story, a, b)
    ensures var (a', ra) := AfterExecute(story, a, command);
      var (b', rb) := AfterExecute(story, b, command);
      SameState(story, a', b') && SameExecuted(story, ra, rb)
  {
    hide CanonicalCommand.IsCanonical, Utf8.Utf16Length, Journal.TextBytes, Concat;
    if a.io.Waiting? {
      var m, m' := a.io.machine, b.io.machine;
      assert Same(story, m, m');
      var s, s' := story.resume(m, command).stop, story.resume(m', command).stop;
      if s.AwaitsInput? {
        assert Same(story, s.machine, s'.machine);
      }
    }
  }

  lemma SnapshotSame<M(!new)>(story: Story<M>, a: State<M>, b: State<M>)
    requires SavesBehaviour(story) && SameState(story, a, b)
    ensures CheckpointOf(story, a) == CheckpointOf(story, b)
  {
  }

  /** Restoring a session's own checkpoint gives a session that behaves the same. */
  lemma RestoreSnapshot<M(!new)>(story: Story<M>, s: State<M>)
    requires Faithful(story) && WellFormed(story, s)
    requires CheckpointOf(story, s).Some?
    ensures Restored(story, CheckpointOf(story, s).value).Some?
    ensures SameState(story, s, Restored(story, CheckpointOf(story, s).value).value)
  {
    var saved := story.save(s.io.machine, s.revision, s.lastOutput);
    var loaded := story.load(saved.value).value;
    assert Same(story, s.io.machine, loaded.run.stop.machine);
    assert Utf8.Encode("") == [];
  }

  // The objects

  datatype IoTurn = IoTurn(output: string, boundary: Boundary)

  datatype Submission = Accepted | Refused | ExceedsLimit

  /**
   The interpreter's input and output. A turn that is asked for before it is
   emitted waits under a ticket; a ticket is settled once, with a turn or with
   a failure (`None`), and turns reach tickets in the order they were emitted.
   */
  class DorkCandidateIo {
    var turns: seq<IoTurn>
    var waiters: seq<nat>
    var settled: map<nat, Option<IoTurn>>
    var nextTicket: nat
    var pendingRead: Option<int>
    var output: string
    var outputBytes: nat
    var inputBoundaries: nat
    var failed: bool
    var terminated: bool
    var disposed: bool

    ghost predicate Valid()
      reads this
    {
      && (turns == [] || waiters == [])
      && (forall i :: 0 <= i < |waiters| ==> waiters[i] < nextTicket && waiters[i] !in settled)
      && (forall i, j :: 0 <= i < j < |waiters| ==> waiters[i] != waiters[j])
      && (forall k :: k in settled ==> k < nextTicket)
      && outputBytes == Journal.TextBytes(output) <= Journal.MAX_OUTPUT_BYTES
      && (failed || disposed ==> waiters == [])
    }

    /** No turn is queued and none is asked for; nothing was printed since the last boundary. */
    ghost predicate Quiet()
      reads this
    {
      Valid() && turns == [] && waiters == [] && output == ""
    }

    constructor ()
      ensures Quiet() && pendingRead == None && !failed && !terminated && !disposed
      ensures inputBoundaries == 0
    {
      turns, waiters, settled, nextTicket := [], [], map[], 0;
      pendingRead, output, outputBytes, inputBoundaries := None, "", 0, 0;
      failed, terminated, disposed := false, false, false;
    }

    /** `false` is the thrown error: disposed, terminated, or over the output limit of one turn. */
    method Print(text: string) returns (ok: bool)
      requires Valid()
      modifies this`output, this`outputBytes
      ensures Valid()
      ensures ok <==> !disposed && !terminated && Journal.TextBytes(old(output) + text) <= Journal.MAX_OUTPUT_BYTES
      ensures output == if ok then old(output) + text else old(output)
    {
      hide Utf8.Encode, Utf8.Utf16Length;
      Utf8.EncodeAppend(output, text);
      Utf8.Utf16NeverLonger(text);
      if disposed || terminated || Utf8.Utf16Length(text) > Journal.MAX_OUTPUT_BYTES {
        return false;
      }
      var nextBytes := |Utf8.Encode(text)|;
      if outputBytes + nextBytes > Journal.MAX_OUTPUT_BYTES {
        return false;
      }
      outputBytes := outputBytes + nextBytes;
      output := output + text;
      return true;
    }

    /** Gives the turn to the oldest ticket, or queues it. */
    method Emit(turn: IoTurn)
      requires Valid()
      modifies this`turns, this`waiters, this`settled
      ensures Valid()
      ensures old(waiters) == [] ==> turns == old(turns) + [turn] && waiters == [] && settled == old(settled)
      ensures old(waiters) != [] ==>
        turns == old(turns) && waiters == old(waiters)[1..] && settled == old(settled)[old(waiters)[0] := Some(turn)]
    {
      if waiters == [] {
        turns := turns + [turn];
      } else {
        settled := settled[waiters[0] := Some(turn)];
        waiters := waiters[1..];
      }
    }

    /** The machine asks for input: the turn so far is complete. */
    method Read(maxLength: int) returns (ok: bool)
      requires Valid()
      modifies this
      ensures Valid()
      ensures ok <==> !old(disposed) && 1 <= maxLength <= MAX_READ && old(pendingRead) == None
      ensures failed == old(failed) && terminated == old(terminated) && disposed == old(disposed)
      ensures nextTicket == old(nextTicket)
      ensures !ok ==> unchanged(this)
      ensures ok ==> pendingRead == Some(maxLength) && output == "" && inputBoundaries == old(inputBoundaries) + 1
      ensures ok && old(waiters) == [] ==>
        turns == old(turns) + [IoTurn(old(output), InputRequested)] && waiters == [] && settled == old(settled)
      ensures ok && old(waiters) != [] ==>
        && turns == old(turns) && waiters == old(waiters)[1..]
        && settled == old(settled)[old(waiters)[0] := Some(IoTurn(old(output), InputRequested))]
    {
      hide Journal.TextBytes;
      EmptyText();
      if disposed || maxLength < 1 || maxLength > MAX_READ || pendingRead.Some? {
        return false;
      }
      pendingRead := Some(maxLength);
      inputBoundaries := inputBoundaries + 1;
      var drained := output;
      output, outputBytes := "", 0;
      Emit(IoTurn(drained, InputRequested));
      return true;
    }

    method Submit(command: string) returns (r: Submission)
      requires Valid()
      modifies this`pendingRead
      ensures Valid()
      ensures r == Refused <==> disposed || terminated || old(pendingRead) == None
      ensures r == ExceedsLimit <==>
        !disposed && !terminated && old(pendingRead).Some? && Utf8.Utf16Length(command) >= old(pendingRead).value
      ensures pendingRead == if r == Accepted then None else old(pendingRead)
    {
      if disposed || terminated || pendingRead == None {
        return Refused;
      }
      if Utf8.Utf16Length(command) >= pendingRead.value {
        return ExceedsLimit;
      }
      pendingRead := None;
      return Accepted;
    }

    /** Asks for the next turn. */
    method NextTurn() returns (ticket: nat)
      requires Valid()
      modifies this`turns, this`waiters, this`settled, this`nextTicket
      ensures Valid()
      ensures ticket == old(nextTicket) && nextTicket == ticket + 1 && ticket !in old(settled)
      ensures disposed ==> settled == old(settled)[ticket := None] && turns == old(turns) && waiters == old(waiters)
      ensures !disposed && old(turns) != [] ==>
        settled == old(settled)[ticket := Some(old(turns)[0])] && turns == old(turns)[1..] && waiters == old(waiters)
      ensures !disposed && old(turns) == [] && failed ==>
        settled == old(settled)[ticket := None] && turns == [] && waiters == old(waiters)
      ensures !disposed && old(turns) == [] && !failed ==>
        settled == old(settled) && turns == [] && waiters == old(waiters) + [ticket]
    {
      ticket := nextTicket;
      nextTicket := nextTicket + 1;
      if disposed {
        settled := settled[ticket := None];
      } else if turns != [] {
        settled := settled[ticket := Some(turns[0])];
        turns := turns[1..];
      } else if failed {
        settled := settled[ticket := None];
      } else {
        waiters := waiters + [ticket];
      }
    }

    method Finish()
      requires Valid()
      modifies this
      ensures Valid()
      ensures old(disposed) || old(terminated) ==> unchanged(this)
      ensures !old(disposed) && !old(terminated) ==>
        && terminated && output == "" && pendingRead == old(pendingRead) && failed == old(failed) && !disposed
        && nextTicket == old(nextTicket)
        && (old(waiters) == [] ==>
          turns == old(turns) + [IoTurn(old(output), Terminated)] && waiters == [] && settled == old(settled))
        && (old(waiters) != [] ==>
          && turns == old(turns) && waiters == old(waiters)[1..]
          && settled == old(settled)[old(waiters)[0] := Some(IoTurn(old(output), Terminated))])
    {
      hide Journal.TextBytes;
      EmptyText();
      if disposed || terminated {
        return;
      }
      terminated := true;
      var drained := output;
      output, outputBytes := "", 0;
      Emit(IoTurn(drained, Terminated));
    }

    /** The machine broke: every ticket that waits fails. */
    method Fail()
      requires Valid()
      modifies this`failed, this`settled, this`waiters
      ensures Valid()
      ensures disposed || old(failed) ==> unchanged(this)
      ensures !disposed && !old(failed) ==>
        && failed && waiters == []
        && settled == old(settled) + map k | k in old(waiters) :: None
    {
      if disposed || failed {
        return;
      }
      failed := true;
      settled := settled + map k | k in waiters :: None;
      waiters := [];
    }

    method Dispose()
      requires Valid()
      modifies this
      ensures Valid() && disposed && turns == [] && waiters == []
    {
      hide Journal.TextBytes;
      EmptyText();
      if disposed {
        turns := [];
        return;
      }
      disposed := true;
      terminated := true;
      pendingRead := None;
      turns := [];
      settled := settled + map k | k in waiters :: None;
      waiters := [];
      output, outputBytes := "", 0;
    }

    /** The check on a session that was just launched; it never fails there. */
    method IsSingleInputBoundary() returns (clean: bool)
      requires Valid()
      ensures clean <==>
        && !disposed && !failed && !terminated && pendingRead.Some? && inputBoundaries == 1
        && turns == [] && waiters == [] && output == ""
    {
      hide Journal.TextBytes;
      EmptyText();
      clean := !disposed && !failed && !terminated && pendingRead.Some? && inputBoundaries == 1
        && turns == [] && waiters == [] && output == "" && outputBytes == 0;
    }
  }

  lemma EmptyConcat()
    ensures Concat([]) == ""
  {
  }

  lemma ConcatPrefix(prints: seq<string>, n: nat)
    requires n < |prints|
    ensures Concat(prints[..n + 1]) == Concat(prints[..n]) + prints[n]
  {
    assert prints[..n + 1][..n] == prints[..n];
  }

  /** A run whose printed texts overflow at some point has too much output in the end. */
  lemma {:induction false} ConcatGrows(prints: seq<string>, n: nat)
    requires n <= |prints|
    ensures Journal.TextBytes(Concat(prints[..n])) <= Journal.TextBytes(Concat(prints))
    decreases |prints| - n
  {
    hide Utf8.Encode, Concat;
    if n < |prints| {
      ConcatPrefix(prints, n);
      Utf8.EncodeAppend(Concat(prints[..n]), prints[n]);
      ConcatGrows(prints, n + 1);
    } else {
      assert prints[..n] == prints;
    }
  }

  /** What the host is told of a turn: `None` is the failure. */
  function Reported<M>(turn: Option<Turn<M>>): Option<IoTurn> {
    match turn
    case None => None
    case Some(t) => Some(IoTurn(t.output, t.boundary))
  }

  /** One interpreter with its host state, between and during operations. */
  class DorkCandidateSession<M> {
    const story: Story<M>
    const io: DorkCandidateIo
    var machine: Option<M>
    var started: bool
    var disposed: bool
    var operationInFlight: bool
    var revision: nat
    var lastOutput: string
    var boundary: Boundary

    /** The session rests between two operations. */
    ghost predicate Resting()
      reads this, io
    {
      && started && !disposed && !operationInFlight
      && io.Valid() && io.turns == [] && io.waiters == [] && !io.disposed
      && (!io.failed ==> io.output == "")
      && !(io.failed && io.terminated)
      && (io.failed || io.terminated ==> io.pendingRead == None)
      && (!io.failed && !io.terminated ==> machine.Some? && io.pendingRead == Some(story.maxLength(machine.value)))
    }

    ghost function IoState(): Io<M>
      requires Resting()
      reads this, io
    {
      if io.failed then Failed else if io.terminated then Ended else Waiting(machine.value)
    }

    ghost function Abstract(): State<M>
      requires Resting()
      reads this, io
    {
      State(revision, lastOutput, boundary, IoState())
    }

    constructor (story: Story<M>)
      ensures this.story == story && fresh(io)
      ensures !started && !disposed && !operationInFlight && revision == 0
      ensures io.Quiet() && io.pendingRead == None && !io.failed && !io.terminated && !io.disposed
      ensures io.inputBoundaries == 0
    {
      this.story := story;
      io := new DorkCandidateIo();
      machine := None;
      started, disposed, operationInFlight := false, false, false;
      revision, lastOutput, boundary := 0, "", InputRequested;
    }

    /** The interpreter works and nothing was printed yet. */
    ghost predicate Running()
      reads this, io
    {
      && io.Valid() && io.pendingRead == None && !io.failed && !io.terminated && !io.disposed
      && io.output == "" && io.turns == []
    }

    /** Prints until a text does not fit the turn any more. */
    method PrintAll(prints: seq<string>) returns (ok: bool)
      requires Running()
      modifies io`output, io`outputBytes
      ensures io.Valid()
      ensures ok <==> Journal.TextBytes(Concat(prints)) <= Journal.MAX_OUTPUT_BYTES
      ensures ok ==> io.output == Concat(prints)
    {
      hide Journal.TextBytes, Concat;
      var i := 0;
      assert prints[..0] == [];
      EmptyConcat();
      while i < |prints|
        modifies io`output, io`outputBytes
        invariant 0 <= i <= |prints|
        invariant io.Valid() && io.output == Concat(prints[..i])
      {
        ConcatPrefix(prints, i);
        ok := io.Print(prints[i]);
        if !ok {
          ConcatGrows(prints, i + 1);
          return;
        }
        i := i + 1;
      }
      assert prints[..i] == prints;
      return true;
    }

    /** The interpreter's promise is rejected. */
    method Break()
      requires io.Valid() && !io.failed && !io.disposed && |io.waiters| <= 1
      modifies io`failed, io`settled, io`waiters
      ensures io.Valid() && io.failed && io.waiters == []
      ensures io.settled == if old(io.waiters) == [] then old(io.settled) else old(io.settled)[old(io.waiters)[0] := None]
    {
      io.Fail();
    }

    /** How a turn shows in the host's queues: on the one ticket that waited, or queued. */
    twostate predicate Delivered(turn: Option<Turn<M>>)
      reads this, io
    {
      if old(io.waiters) == [] then
        io.settled == old(io.settled) && io.turns == if turn.None? then [] else [Reported(turn).value]
      else
        io.turns == [] && io.settled == old(io.settled)[old(io.waiters)[0] := Reported(turn)]
    }

    /** The interpreter stands where the turn left it; `boundaries` counts the reads so far. */
    ghost predicate StoppedAt(turn: Option<Turn<M>>, boundaries: nat)
      reads this, io
    {
      && io.Valid() && !io.disposed && io.waiters == []
      && io.failed == turn.None?
      && io.terminated == (turn.Some? && turn.value.io == Ended)
      && (!io.failed ==> io.output == "")
      && (if turn.Some? && turn.value.io.Waiting?
        then machine == Some(turn.value.io.machine) && io.pendingRead == Some(story.maxLength(turn.value.io.machine))
        else io.pendingRead == None)
      && (turn.Some? && turn.value.io.Waiting? ==> io.inputBoundaries == boundaries)
    }

    /** Lets the interpreter run until it stops; its turn goes to the one ticket that waits, or is queued. */
    method Drive(run: Run<M>)
      requires Running() && |io.waiters| <= 1
      modifies this`machine, io
      ensures StoppedAt(TurnOf(story, run), old(io.inputBoundaries) + 1)
      ensures Delivered(TurnOf(story, run))
      ensures io.nextTicket == old(io.nextTicket)
    {
      hide Journal.TextBytes, Concat;
      var ok := PrintAll(run.prints);
      if !ok {
        Break();
        return;
      }
      match run.stop {
        case AwaitsInput(m) =>
          ok := io.Read(story.maxLength(m));
          if ok {
            machine := Some(m);
          } else {
            Break();
          }
        case Finished =>
          io.Finish();
        case Crashed =>
          Break();
      }
    }

    /** The interpreter starts at once, so its turn is queued before it is asked for. */
    method LaunchTurn(run: Run<M>) returns (turn: Option<IoTurn>)
      requires Running() && io.waiters == []
      modifies this`machine, io
      ensures turn == Reported(TurnOf(story, run))
      ensures StoppedAt(TurnOf(story, run), old(io.inputBoundaries) + 1) && io.turns == []
    {
      hide TurnOf, DorkCandidateIo.Valid;
      Drive(run);
      var ticket := io.NextTurn();
      turn := io.settled[ticket];
    }

    /** The interpreter only goes on once the turn has been asked for. */
    method ResumedTurn(run: Run<M>) returns (turn: Option<IoTurn>)
      requires Running() && io.waiters == []
      modifies this`machine, io
      ensures turn == Reported(TurnOf(story, run))
      ensures StoppedAt(TurnOf(story, run), old(io.inputBoundaries) + 1) && io.turns == []
    {
      hide TurnOf, DorkCandidateIo.Valid;
      var ticket := io.NextTurn();
      Drive(run);
      turn := io.settled[ticket];
    }

    /** `None` is the thrown error; the session is then of no more use. */
    method Boot() returns (r: Option<IoTurn>)
      requires !started && !disposed && !operationInFlight && revision == 0 && Running() && io.waiters == []
      requires io.inputBoundaries == 0
      modifies this, io
      ensures r == Reported(TurnOf(story, story.start)) && io.Valid()
      ensures r.Some? ==> Resting() && AfterBoot(story) == Some(Abstract())
    {
      hide TurnOf, DorkCandidateIo.Valid;
      started, operationInFlight := true, true;
      r := LaunchTurn(story.start);
      operationInFlight := false;
      if r.Some? {
        if r.value.boundary == InputRequested {
          var clean := io.IsSingleInputBoundary();
          assert clean;
        }
        lastOutput, boundary := r.value.output, r.value.boundary;
      }
    }

    method Execute(command: string) returns (r: Executed<M>)
      requires Resting()
      modifies this, io
      ensures Resting()
      ensures (Abstract(), r) == AfterExecute(story, old(Abstract()), command)
    {
      hide TurnOf, CanonicalCommand.IsCanonical, Utf8.Utf16Length, DorkCandidateIo.Valid;
      if !CanonicalCommand.IsCanonical(command) {
        return Broken;
      }
      var submission := io.Submit(command);
      if submission == Refused {
        return Broken;
      }
      if submission == ExceedsLimit {
        return TooLong;
      }
      operationInFlight := true;
      var turn := ResumedTurn(story.resume(machine.value, command));
      operationInFlight := false;
      if turn == None {
        return Broken;
      }
      revision := revision + 1;
      lastOutput, boundary := turn.value.output, turn.value.boundary;
      r := Turned(Turn(lastOutput, boundary, if io.terminated then Ended else Waiting(machine.value)));
    }

    method Snapshot() returns (r: Option<seq<byte>>)
      requires Resting()
      modifies this`operationInFlight
      ensures Resting() && Abstract() == old(Abstract())
      ensures r == CheckpointOf(story, Abstract())
    {
      if boundary != InputRequested || io.pendingRead == None {
        return None;
      }
      operationInFlight := true;
      r := story.save(machine.value, revision, lastOutput);
      operationInFlight := false;
    }

    method InspectPublicState() returns (state: PublicState)
      requires Resting()
      ensures state == Abstract().Public()
    {
      state := PublicState(revision, lastOutput, boundary);
    }

    method Dispose()
      requires io.Valid()
      modifies this`disposed, io
      ensures disposed && io.Valid() && (!old(disposed) ==> io.disposed)
    {
      if disposed {
        return;
      }
      disposed := true;
      io.Dispose();
    }
  }

  /** Builds a session from a checkpoint; `None` when it is refused or does not come back silently to its input. */
  method RestoreFromSnapshot<M>(story: Story<M>, checkpoint: seq<byte>) returns (r: Option<DorkCandidateSession<M>>)
    ensures r.Some? <==> Restored(story, checkpoint).Some?
    ensures r.Some? ==> fresh(r.value) && fresh(r.value.io)
    ensures r.Some? ==> r.value.story == story && r.value.Resting() && Restored(story, checkpoint) == Some(r.value.Abstract())
  {
    hide Journal.TextBytes, Concat, DorkCandidateIo.Valid;
    var loaded := story.load(checkpoint);
    if loaded == None {
      return None;
    }
    var candidate := new DorkCandidateSession(story);
    candidate.started := true;
    candidate.revision, candidate.lastOutput := loaded.value.revision, loaded.value.lastOutput;
    var turn := candidate.LaunchTurn(loaded.value.run);
    if turn == None || turn.value.boundary != InputRequested || turn.value.output != "" {
      candidate.Dispose();
      return None;
    }
    var clean := candidate.io.IsSingleInputBoundary();
    assert clean;
    candidate.boundary := InputRequested;
    return Some(candidate);
  }
}
