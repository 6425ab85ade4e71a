/**
 Exactly once, at the worker: over any requests without a restore, a request is
 given to the interpreter at most once, its receipt answers every retry, and the
 session is what the journal's commits make of it.
 */
module RuntimeReplay {
  import opened Wrappers
  import opened Bytes
  import opened EngineTypes
  import opened Journal
  import opened Machine
  import opened Messages
  import opened Runtime
  import opened RuntimeRestore
  import opened RuntimeSafety
  import opened SnapshotFormat
  import CanonicalCommand
  import Session
  import SnapshotCodec
  import Utf8

  /** The request passes every check in front of the interpreter. */
  predicate Reaches<M>(c: Config<M>, s: RuntimeState<M>, input: ExecuteRequest) {
    && s.session.Some? && Admissible(input) && Lookup(s.receipts, input.requestId) == None
    && s.session.value.boundary == InputRequested
    && input.expectedRevision == s.session.value.revision < MAX_SAFE
    && CanRecord(c, s, ReceiptBytes(WorstCase(input, s.session.value.revision)))
  }

  /** The execute request, if any, on which this message makes the interpreter run. */
  function Resumed<M>(c: Config<M>, s: RuntimeState<M>, m: RequestMessage): Option<ExecuteRequest> {
    if BoundedId(m.messageId) && m.request.Execute? && Reaches(c, s, m.request.input)
      && s.session.value.io.Waiting?
      && Utf8.Utf16Length(m.request.input.command) < c.story.maxLength(s.session.value.io.machine)
    then Some(m.request.input)
    else None
  }

  /** The requests on which the interpreter ran, in order, while `ms` was served. */
  ghost function Runs<M>(c: Config<M>, s: RuntimeState<M>, ms: seq<RequestMessage>): seq<ExecuteRequest>
    decreases |ms|
  {
    if ms == [] then []
    else
      var others := Runs(c, Handle(c, s, ms[0]).0, ms[1..]);
      match Resumed(c, s, ms[0])
      case None => others
      case Some(input) => [input] + others
  }

  predicate NoRestore(ms: seq<RequestMessage>) {
    forall i :: 0 <= i < |ms| ==> !ms[i].request.Restore?
  }

  lemma ReachesCommit<M>(c: Config<M>, s: RuntimeState<M>, input: ExecuteRequest)
    requires Reaches(c, s, input)
    ensures ExecuteStep(c, s, input) == Commit(c, s, input)
  {
    hide CanonicalCommand.IsCanonical, ReceiptBytes, WorstCase, BoundedId, Lookup, Commit;
  }

  /** A message that does not run the interpreter leaves the session alone, and the journal only grows. */
  lemma QuietStep<M>(c: Config<M>, s: RuntimeState<M>, m: RequestMessage)
    requires c.maxReceipts <= MAX_RECEIPTS && Inv(c, s) && s.session.Some?
    requires !m.request.Restore? && Resumed(c, s, m) == None
    ensures var s' := Handle(c, s, m).0;
      && s'.session == s.session
      && (s'.receipts == s.receipts
        || (|s'.receipts| == |s.receipts| + 1 && s'.receipts[..|s.receipts|] == s.receipts
          && s'.receipts[|s.receipts|].result.status != Committed))
  {
    hide ReceiptBytes, WorstCase, BoundedId, Lookup, SnapshotStep, CanonicalCommand.IsCanonical;
    if m.request.Execute? && BoundedId(m.messageId) && Reaches(c, s, m.request.input) {
      ReachesCommit(c, s, m.request.input);
    }
  }

  /** A message that runs the interpreter either journals a commit of its request or breaks the session. */
  lemma RunStep<M>(c: Config<M>, s: RuntimeState<M>, m: RequestMessage)
    requires c.maxReceipts <= MAX_RECEIPTS && Inv(c, s) && Resumed(c, s, m).Some?
    ensures var input := m.request.input;
      var (after, executed) := Session.AfterExecute(c.story, s.session.value, input.command);
      var (s', answer) := Handle(c, s, m);
      && input.requestId !in RequestIds(s.receipts)
      && s'.session == Some(after)
      && (executed.Turned? ==>
        && answer.ExecuteDone?
        && answer.result == ExecuteResult(input.requestId, s.session.value.revision, after.revision, input.command,
             after.lastOutput, after.boundary, Committed)
        && s'.receipts == s.receipts + [ReceiptOf(input, answer.result)])
      && (!executed.Turned? ==>
        && executed.Broken? && answer == Error(InternalError)
        && after == s.session.value.(io := Session.Failed) && s'.receipts == s.receipts)
  {
    hide ReceiptBytes, WorstCase, BoundedId, Lookup, Session.TurnOf, Utf8.Utf16Length, TextBytes,
      CanonicalCommand.IsCanonical;
    hide ValidReceipts, Coherent;
    var input := m.request.input;
    ReachesCommit(c, s, input);
    CommitRecords(c, s, input);
    Session.ExecuteRevision(c.story, s.session.value, input.command);
  }

  lemma NoRunOnceBroken<M>(c: Config<M>, s: RuntimeState<M>, ms: seq<RequestMessage>)
    requires c.maxReceipts <= MAX_RECEIPTS && Inv(c, s) && s.session.Some? && s.session.value.io.Failed? && NoRestore(ms)
    ensures Runs(c, s, ms) == []
    decreases |ms|
  {
    hide Inv, Handle, Reaches;
    if ms != [] {
      QuietStep(c, s, ms[0]);
      HandleKeeps(c, s, ms[0]);
      assert forall i :: 0 <= i < |ms[1..]| ==> ms[1..][i] == ms[i + 1];
      NoRunOnceBroken(c, Handle(c, s, ms[0]).0, ms[1..]);
    }
  }

  predicate DistinctRequests(log: seq<ExecuteRequest>) {
    forall i, j :: 0 <= i < j < |log| ==> log[i].requestId != log[j].requestId
  }

  /** No request of the log has an id of the set. */
  predicate Avoids(log: seq<ExecuteRequest>, ids: set<string>) {
    forall i :: 0 <= i < |log| ==> log[i].requestId !in ids
  }

  lemma FreshRun(input: ExecuteRequest, rest: seq<ExecuteRequest>, ids: set<string>, later: set<string>)
    requires input.requestId !in ids && ids <= later
    requires DistinctRequests(rest) && Avoids(rest, later)
    requires rest != [] ==> input.requestId in later
    ensures DistinctRequests([input] + rest) && Avoids([input] + rest, ids)
  {
  }

  lemma GrownIds(rs: seq<Receipt>, rs': seq<Receipt>)
    requires |rs| <= |rs'| && rs'[..|rs|] == rs
    ensures RequestIds(rs) <= RequestIds(rs')
  {
    forall id | id in RequestIds(rs)
      ensures id in RequestIds(rs')
    {
      var i :| 0 <= i < |rs| && rs[i].requestId == id;
      assert rs'[i] == rs[i];
    }
  }

  /**
   The interpreter runs at most once for a request id, and never for one that the journal already holds: exactly-once
   execution on one branch, whatever requests arrive in whatever order.
   */
  lemma {:induction false} AtMostOnce<M>(c: Config<M>, s: RuntimeState<M>, ms: seq<RequestMessage>)
    requires c.maxReceipts <= MAX_RECEIPTS && Inv(c, s) && s.session.Some? && NoRestore(ms)
    ensures DistinctRequests(Runs(c, s, ms))
    ensures Avoids(Runs(c, s, ms), RequestIds(s.receipts))
    decreases |ms|
  {
    hide Inv, Handle, Reaches, Resumed, RequestIds, Session.AfterExecute, DistinctRequests, Avoids;
    if ms == [] {
      assert DistinctRequests([]) && Avoids([], RequestIds(s.receipts)) by {
        NoRuns(RequestIds(s.receipts));
      }
    } else {
      var m := ms[0];
      var s1 := Handle(c, s, m).0;
      var rest := Runs(c, s1, ms[1..]);
      assert NoRestore(ms[1..]) by {
        assert forall i :: 0 <= i < |ms[1..]| ==> ms[1..][i] == ms[i + 1];
      }
      HandleKeeps(c, s, m);
      if Resumed(c, s, m) == None {
        QuietStep(c, s, m);
        AtMostOnce(c, s1, ms[1..]);
        GrownIds(s.receipts, s1.receipts);
        Weaken(rest, RequestIds(s.receipts), RequestIds(s1.receipts));
      } else {
        RunStep(c, s, m);
        ResumedIsInput(c, s, m);
        var input := m.request.input;
        if s1.receipts == s.receipts {
          NoRunOnceBroken(c, s1, ms[1..]);
          NoRuns(RequestIds(s.receipts));
        } else {
          AtMostOnce(c, s1, ms[1..]);
          SnapshotCodec.RequestIdsSnoc(s.receipts, s1.receipts[|s.receipts|]);
        }
        FreshRun(input, rest, RequestIds(s.receipts), RequestIds(s1.receipts));
      }
    }
  }

  lemma Weaken(log: seq<ExecuteRequest>, ids: set<string>, later: set<string>)
    requires Avoids(log, later) && ids <= later
    ensures Avoids(log, ids)
  {
  }

  lemma NoRuns(ids: set<string>)
    ensures DistinctRequests([]) && Avoids([], ids)
  {
  }

  lemma ResumedIsInput<M>(c: Config<M>, s: RuntimeState<M>, m: RequestMessage)
    requires Resumed(c, s, m).Some?
    ensures m.request.Execute? && Resumed(c, s, m).value == m.request.input
  {
  }

  // The journal is a history of the interpreter

  /**
   Plays the commits of `rs` on a session, in journal order; `None` when a receipt is not what the interpreter does.
   */
  function Replay<M>(story: Story<M>, base: Session.State<M>, rs: seq<Receipt>): Option<Session.State<M>> {
    if rs == [] then Some(base)
    else
      var last := rs[|rs| - 1];
      var before :- Replay(story, base, rs[..|rs| - 1]);
      if last.result.status != Committed then Some(before)
      else
        var (after, executed) := Session.AfterExecute(story, before, last.command);
        if executed.Turned? && last.result == ExecuteResult(
          last.requestId, before.revision, after.revision, last.command, after.lastOutput, after.boundary, Committed)
        then Some(after)
        else None
  }

  lemma ReplaySnoc<M>(story: Story<M>, base: Session.State<M>, rs: seq<Receipt>, r: Receipt)
    requires Replay(story, base, rs).Some?
    ensures Replay(story, base, rs + [r]) ==
      var before := Replay(story, base, rs).value;
      var (after, executed) := Session.AfterExecute(story, before, r.command);
      if r.result.status != Committed then Some(before)
      else if executed.Turned? && r.result == ExecuteResult(
        r.requestId, before.revision, after.revision, r.command, after.lastOutput, after.boundary, Committed)
      then Some(after)
      else None
  {
    hide Session.AfterExecute;
    assert (rs + [r])[..|rs|] == rs;
  }

  /**
   The session is what the receipts recorded since `base` make of it, except that its interpreter may be broken, and
   then its public state still is what they make of it.
   */
  ghost predicate Explained<M>(c: Config<M>, base: Session.State<M>, n: nat, s: RuntimeState<M>) {
    && s.session.Some? && n <= |s.receipts|
    && var replayed := Replay(c.story, base, s.receipts[n..]);
      && replayed.Some?
      && (s.session.value == replayed.value
        || (s.session.value.io.Failed? && s.session.value.Public() == replayed.value.Public()))
  }

  lemma StepExplained<M>(c: Config<M>, base: Session.State<M>, n: nat, s: RuntimeState<M>, m: RequestMessage)
    requires c.maxReceipts <= MAX_RECEIPTS && Inv(c, s) && !m.request.Restore?
    requires Explained(c, base, n, s)
    ensures Explained(c, base, n, Handle(c, s, m).0)
  {
    hide Inv, Handle, Reaches, Session.AfterExecute, Replay;
    var s' := Handle(c, s, m).0;
    var recent := s.receipts[n..];
    if Resumed(c, s, m) == None {
      QuietStep(c, s, m);
      if s'.receipts != s.receipts {
        var r := s'.receipts[|s.receipts|];
        assert s'.receipts[n..] == recent + [r];
        ReplaySnoc(c.story, base, recent, r);
      }
    } else {
      ResumedIsInput(c, s, m);
      RunStep(c, s, m);
      if s'.receipts != s.receipts {
        var r := s'.receipts[|s.receipts|];
        assert s'.receipts[n..] == recent + [r];
        ReplaySnoc(c.story, base, recent, r);
      }
    }
  }

  lemma {:induction false} ServeExplained<M>(
    c: Config<M>, base: Session.State<M>, n: nat, s: RuntimeState<M>, ms: seq<RequestMessage>)
    requires c.maxReceipts <= MAX_RECEIPTS && Inv(c, s) && NoRestore(ms)
    requires Explained(c, base, n, s)
    ensures Explained(c, base, n, Serve(c, s, ms).0)
    decreases |ms|
  {
    hide Inv, Handle, Explained;
    if ms != [] {
      StepExplained(c, base, n, s, ms[0]);
      HandleKeeps(c, s, ms[0]);
      assert forall i :: 0 <= i < |ms[1..]| ==> ms[1..][i] == ms[i + 1];
      ServeExplained(c, base, n, Handle(c, s, ms[0]).0, ms[1..]);
    }
  }

  /**
   Linear history: from boot, whatever is requested (restores aside), replaying the journal's commits from the booted
   session reproduces every journaled result and the session itself.
   */
  lemma JournalIsHistory<M>(c: Config<M>, ms: seq<RequestMessage>)
    requires c.maxReceipts <= MAX_RECEIPTS && NoRestore(ms)
    requires Session.AfterBoot(c.story).Some?
    ensures var s := RuntimeState(Session.AfterBoot(c.story), [], 0);
      Inv(c, s) && Explained(c, Session.AfterBoot(c.story).value, 0, Serve(c, s, ms).0)
  {
    hide Session.TurnOf;
    var base := Session.AfterBoot(c.story).value;
    var s := RuntimeState(Some(base), [], 0);
    assert Inv(c, s) by {
      InitialInv(c);
      BootKeeps(c, Initial(), c.compatibility.storyId, c.compatibility.storySha256);
      BootedInv(c);
    }
    assert Explained(c, base, 0, s);
    ServeExplained(c, base, 0, s, ms);
  }

  lemma BootedInv<M>(c: Config<M>)
    requires Session.AfterBoot(c.story).Some?
    ensures Inv(c, RuntimeState(Session.AfterBoot(c.story), [], 0))
  {
    hide TextBytes, Session.Concat;
    SnapshotCodec.EmptyJournal(Session.AfterBoot(c.story).value.Public());
    SnapshotCodec.CoherentParts([], Session.AfterBoot(c.story).value.Public());
  }

  // Retries

  lemma {:induction false} ReceiptsGrow<M>(c: Config<M>, s: RuntimeState<M>, ms: seq<RequestMessage>)
    requires c.maxReceipts <= MAX_RECEIPTS && Inv(c, s) && s.session.Some? && NoRestore(ms)
    ensures s.receipts <= Serve(c, s, ms).0.receipts
    ensures Serve(c, s, ms).0.session.Some?
    decreases |ms|
  {
    hide Inv, Handle, Reaches, Session.AfterExecute;
    if ms != [] {
      if Resumed(c, s, ms[0]).Some? {
        ResumedIsInput(c, s, ms[0]);
        RunStep(c, s, ms[0]);
      } else {
        QuietStep(c, s, ms[0]);
      }
      HandleKeeps(c, s, ms[0]);
      assert forall i :: 0 <= i < |ms[1..]| ==> ms[1..][i] == ms[i + 1];
      ReceiptsGrow(c, Handle(c, s, ms[0]).0, ms[1..]);
    }
  }

  /**
   A receipt answers for good: after any further requests (restores aside), the exact request gets the journaled
   result again, and getting it changes nothing.
   */
  lemma RetryReplays<M>(c: Config<M>, s: RuntimeState<M>, i: nat, ms: seq<RequestMessage>, messageId: string)
    requires c.maxReceipts <= MAX_RECEIPTS && Inv(c, s) && s.session.Some? && NoRestore(ms)
    requires i < |s.receipts| && BoundedId(s.receipts[i].requestId) && BoundedId(messageId)
    ensures var r := s.receipts[i];
      var retry := RequestMessage(messageId, Execute(ExecuteRequest(r.requestId, r.expectedRevision, r.command)));
      var later := Serve(c, s, ms).0;
      Handle(c, later, retry) == (later, ExecuteDone(r.result))
  {
    hide BoundedId, Handle, Session.WellFormed, JournalBytes, CanonicalCommand.IsCanonical;
    ReceiptsGrow(c, s, ms);
    ServeKeeps(c, s, ms);
    var r := s.receipts[i];
    var later := Serve(c, s, ms).0;
    assert later.receipts[i] == r;
    RetryStep(c, later, r, messageId);
  }

  lemma RetryStep<M>(c: Config<M>, s: RuntimeState<M>, r: Receipt, messageId: string)
    requires s.session.Some? && Lookup(s.receipts, r.requestId) == Some(r)
    requires BoundedId(r.requestId) && BoundedId(messageId) && r.expectedRevision <= MAX_SAFE
    ensures Handle(c, s, RequestMessage(messageId, Execute(ExecuteRequest(r.requestId, r.expectedRevision, r.command))))
      == (s, ExecuteDone(r.result))
  {
    hide BoundedId, Lookup;
  }

  /** The receipt that a step appends answers the request from then on. */
  lemma Recorded<M>(c: Config<M>, s: RuntimeState<M>, input: ExecuteRequest, result: ExecuteResult)
    requires s.session.Some? && BoundedId(input.requestId) && input.expectedRevision <= MAX_SAFE
    requires s.receipts != [] && s.receipts[|s.receipts| - 1] == ReceiptOf(input, result)
    requires input.requestId !in RequestIds(s.receipts[..|s.receipts| - 1])
    ensures ExecuteStep(c, s, input) == (s, ExecuteDone(result))
  {
    hide BoundedId, Lookup;
    LookupLast(s.receipts);
  }

  lemma LookupLast(rs: seq<Receipt>)
    requires rs != [] && rs[|rs| - 1].requestId !in RequestIds(rs[..|rs| - 1])
    ensures Lookup(rs, rs[|rs| - 1].requestId) == Some(rs[|rs| - 1])
  {
    hide Lookup;
    var r := Lookup(rs, rs[|rs| - 1].requestId).value;
    var i :| 0 <= i < |rs| && rs[i] == r;
    Earlier(rs, i);
    hide RequestIds;
  }

  lemma Earlier(rs: seq<Receipt>, i: nat)
    requires i < |rs|
    ensures i < |rs| - 1 ==> rs[i].requestId in RequestIds(rs[..|rs| - 1])
  {
    if i < |rs| - 1 {
      assert rs[..|rs| - 1][i] == rs[i];
    }
  }

  /** A rejection that is journaled. */
  lemma RejectionRecorded<M>(c: Config<M>, s: RuntimeState<M>, input: ExecuteRequest)
    requires !Reaches(c, s, input) && ExecuteStep(c, s, input).0 != s
    ensures var (s', answer) := ExecuteStep(c, s, input);
      && s'.session.Some? && BoundedId(input.requestId) && input.expectedRevision <= MAX_SAFE
      && input.requestId !in RequestIds(s.receipts)
      && answer.ExecuteDone? && s'.receipts == s.receipts + [ReceiptOf(input, answer.result)]
  {
    hide CanonicalCommand.IsCanonical, ReceiptBytes, WorstCase, BoundedId, Lookup, Commit, RequestIds, CanRecord;
  }

  lemma BrokenAgain<M>(c: Config<M>, s: RuntimeState<M>, input: ExecuteRequest)
    requires Reaches(c, s, input) && Session.AfterExecute(c.story, s.session.value, input.command).1.Broken?
    ensures ExecuteStep(c, s, input).1 == Error(InternalError)
    ensures var s' := ExecuteStep(c, s, input).0;
      && s'.session.Some? && !s'.session.value.io.Waiting? && s'.receipts == s.receipts
      && ExecuteStep(c, s', input) == (s', Error(InternalError))
  {
    hide CanonicalCommand.IsCanonical, ReceiptBytes, WorstCase, BoundedId, Lookup, Session.TurnOf, Utf8.Utf16Length;
    ReachesCommit(c, s, input);
    var s' := ExecuteStep(c, s, input).0;
    assert Reaches(c, s', input);
    ReachesCommit(c, s', input);
  }

  /**
   Handling a request a second time, right after the first, changes nothing more and gives the same answer: whatever
   the first time was, a commit, a rejection with or without a receipt, or a failure.
   */
  lemma RetryIsIdempotent<M>(c: Config<M>, s: RuntimeState<M>, input: ExecuteRequest)
    requires c.maxReceipts <= MAX_RECEIPTS && Inv(c, s)
    ensures var (s', answer) := ExecuteStep(c, s, input);
      ExecuteStep(c, s', input) == (s', answer)
  {
    hide Inv, CanonicalCommand.IsCanonical, ReceiptBytes, WorstCase, BoundedId, Lookup, Commit, RequestIds, CanRecord;
    hide ExecuteStep, Session.AfterExecute;
    var (s', answer) := ExecuteStep(c, s, input);
    if Reaches(c, s, input) {
      ReachesCommit(c, s, input);
      CommitRecords(c, s, input);
      if Session.AfterExecute(c.story, s.session.value, input.command).1.Broken? {
        BrokenAgain(c, s, input);
      } else {
        assert s'.receipts[..|s'.receipts| - 1] == s.receipts;
        Recorded(c, s', input, answer.result);
      }
    } else if s' != s {
      RejectionRecorded(c, s, input);
      assert s'.receipts[..|s'.receipts| - 1] == s.receipts;
      Recorded(c, s', input, answer.result);
    }
  }
}
