/**
 The lease on one worker: a map of exchanges that await their reply. The
 functions say what each event does to the exchanges; the class does it.
 */
module Lease {
  import opened Wrappers
  import Journal

  const MAX_ID_BYTES: nat := 128

  datatype Kind = Initialized | EngineResponse | WorkerError

  datatype Reason = Aborted | WrongKind | ReportedError | PostFailed | WorkerFailed | LeaseTerminated

  datatype Settlement = Resolved | Rejected(reason: Reason)

  /** `endable`: it has a signal, or a time limit; of the requests to the engine only an execute has one of them. */
  datatype Exchange = Exchange(messageId: string, expected: Kind, endable: bool)

  /** Exchanges are numbered as they are posted; `pending` maps a message id to the exchange that awaits it. */
  datatype State = State(exchanges: seq<Exchange>, pending: map<string, nat>, settled: map<nat, Settlement>, terminated: bool)

  const INITIAL: State := State([], map[], map[], false)

  datatype Event =
    /** `aborted`: the signal already is; `posts`: the worker takes the message without throwing. */
    | Send(messageId: string, expected: Kind, endable: bool, aborted: bool, posts: bool)
    | Receive(messageId: string, kind: Kind)
    | ReceiveMalformed
    /** The signal of this exchange aborts, or its time is up. */
    | Abort(messageId: string)
    | Fail
    | Terminate

  predicate Sendable(s: State, messageId: string, aborted: bool) {
    !s.terminated && 0 < Journal.TextBytes(messageId) <= MAX_ID_BYTES && !aborted && messageId !in s.pending
  }

  function Post(s: State, messageId: string, expected: Kind, endable: bool): State {
    s.(exchanges := s.exchanges + [Exchange(messageId, expected, endable)], pending := s.pending[messageId := |s.exchanges|])
  }

  /** Settles the exchange that awaits `messageId`, if any does. */
  function Take(s: State, messageId: string, settlement: Settlement): State {
    if messageId !in s.pending then s
    else s.(pending := s.pending - {messageId}, settled := s.settled[s.pending[messageId] := settlement])
  }

  function Rejecting(settled: map<nat, Settlement>, tickets: set<nat>, reason: Reason): map<nat, Settlement> {
    settled + map t | t in tickets :: Rejected(reason)
  }

  function RejectAll(s: State, reason: Reason): State {
    s.(pending := map[], settled := Rejecting(s.settled, s.pending.Values, reason))
  }

  function SettlementOf(expected: Kind, kind: Kind): Settlement {
    if kind == WorkerError then Rejected(ReportedError)
    else if kind != expected then Rejected(WrongKind)
    else Resolved
  }

  predicate Endable(s: State, messageId: string) {
    messageId in s.pending && s.pending[messageId] < |s.exchanges| && s.exchanges[s.pending[messageId]].endable
  }

  function FailStep(s: State): State {
    RejectAll(s.(terminated := true), WorkerFailed)
  }

  function Step(s: State, event: Event): State {
    match event
    case Send(messageId, expected, endable, aborted, posts) =>
      if !Sendable(s, messageId, aborted) then s
      else if posts then Post(s, messageId, expected, endable)
      else Take(Post(s, messageId, expected, endable), messageId, Rejected(PostFailed))
    case Receive(messageId, kind) =>
      if messageId !in s.pending || s.pending[messageId] >= |s.exchanges| then s
      else Take(s, messageId, SettlementOf(s.exchanges[s.pending[messageId]].expected, kind))
    case ReceiveMalformed => if s.terminated then s else FailStep(s)
    case Abort(messageId) => if Endable(s, messageId) then Take(s, messageId, Rejected(Aborted)) else s
    case Fail => if s.terminated then s else FailStep(s)
    case Terminate => if s.terminated then s else RejectAll(s.(terminated := true), LeaseTerminated)
  }

  function Run(s: State, events: seq<Event>): State
    decreases |events|
  {
    if events == [] then s else Run(Step(s, events[0]), events[1..])
  }

  /** The pending map holds exactly the unsettled exchanges, each under its own id; a dead lease holds none. */
  ghost predicate Inv(s: State) {
    && (forall id :: id in s.pending ==> Awaits(s, id, s.pending[id]))
    && (forall t :: 0 <= t < |s.exchanges| && t !in s.settled ==>
      s.exchanges[t].messageId in s.pending && s.pending[s.exchanges[t].messageId] == t)
    && (forall t :: t in s.settled ==> t < |s.exchanges|)
    && (s.terminated ==> s.pending == map[])
  }

  predicate Awaits(s: State, id: string, t: nat) {
    t < |s.exchanges| && s.exchanges[t].messageId == id && t !in s.settled
  }

  /** Later states keep every exchange, and every settlement as it was. */
  ghost predicate Extends(s: State, s': State) {
    && s.exchanges <= s'.exchanges
    && (forall t :: t in s.settled ==> t in s'.settled && s'.settled[t] == s.settled[t])
    && (s.terminated ==> s'.terminated)
  }

  lemma TakeKeeps(s: State, id: string, settlement: Settlement)
    requires Inv(s)
    ensures Inv(Take(s, id, settlement)) && Extends(s, Take(s, id, settlement))
  {
    if id in s.pending {
      var s' := Take(s, id, settlement);
      forall i | i in s'.pending
        ensures Awaits(s', i, s'.pending[i])
      {
        assert Awaits(s, i, s.pending[i]) && Awaits(s, id, s.pending[id]);
      }
    }
  }

  lemma PostKeeps(s: State, id: string, expected: Kind, endable: bool)
    requires Inv(s) && !s.terminated && id !in s.pending
    ensures Inv(Post(s, id, expected, endable)) && Extends(s, Post(s, id, expected, endable))
  {
    var s' := Post(s, id, expected, endable);
    forall i | i in s'.pending
      ensures Awaits(s', i, s'.pending[i])
    {
      if i != id {
        assert Awaits(s, i, s.pending[i]);
      }
    }
  }

  lemma PendingUnsettled(s: State, t: nat)
    requires Inv(s) && t in s.pending.Values
    ensures t < |s.exchanges| && t !in s.settled
  {
    var id :| id in s.pending && s.pending[id] == t;
    assert Awaits(s, id, t);
  }

  lemma RejectAllKeeps(s: State, reason: Reason)
    requires Inv(s)
    ensures var s' := RejectAll(s.(terminated := true), reason);
      Inv(s') && Extends(s, s') && forall t :: 0 <= t < |s'.exchanges| ==> t in s'.settled
  {
    var s' := RejectAll(s.(terminated := true), reason);
    forall t: nat | t in s.pending.Values
      ensures t < |s.exchanges| && t !in s.settled
    {
      PendingUnsettled(s, t);
    }
    forall t | 0 <= t < |s.exchanges| && t !in s.settled
      ensures t in s'.settled
    {
      assert s.pending[s.exchanges[t].messageId] in s.pending.Values;
    }
  }

  lemma ValuesMinus(m: map<string, nat>, id: string)
    requires id in m
    ensures m.Values == (m - {id}).Values + {m[id]}
  {
    var m' := m - {id};
    forall t | t in m.Values && t != m[id]
      ensures t in m'.Values
    {
      var i :| i in m && m[i] == t;
      assert i in m' && m'[i] == t;
    }
  }

  /** Rejecting one by one comes to the same as rejecting all at once. */
  lemma RejectOneFirst(s: State, id: string, reason: Reason)
    requires id in s.pending
    ensures RejectAll(Take(s, id, Rejected(reason)), reason) == RejectAll(s, reason)
  {
    hide Rejecting;
    ValuesMinus(s.pending, id);
    RejectingOne(s.settled, (s.pending - {id}).Values, s.pending[id], reason);
  }

  lemma RejectingOne(settled: map<nat, Settlement>, tickets: set<nat>, t: nat, reason: Reason)
    ensures Rejecting(settled[t := Rejected(reason)], tickets, reason) == Rejecting(settled, tickets + {t}, reason)
  {
  }

  lemma StepKeeps(s: State, event: Event)
    requires Inv(s)
    ensures Inv(Step(s, event)) && Extends(s, Step(s, event))
  {
    hide Inv, Extends, Journal.TextBytes, Post, Take, RejectAll;
    ExtendsReflexive(s);
    match event {
      case Send(messageId, expected, endable, aborted, posts) =>
        if Sendable(s, messageId, aborted) {
          PostKeeps(s, messageId, expected, endable);
          TakeKeeps(Post(s, messageId, expected, endable), messageId, Rejected(PostFailed));
          ExtendsTransitive(s, Post(s, messageId, expected, endable),
            Take(Post(s, messageId, expected, endable), messageId, Rejected(PostFailed)));
        }
      case Receive(messageId, kind) =>
        if messageId in s.pending && s.pending[messageId] < |s.exchanges| {
          TakeKeeps(s, messageId, SettlementOf(s.exchanges[s.pending[messageId]].expected, kind));
        }
      case Abort(messageId) => TakeKeeps(s, messageId, Rejected(Aborted));
      case Terminate => RejectAllKeeps(s, LeaseTerminated);
      case _ => RejectAllKeeps(s, WorkerFailed);
    }
  }

  lemma ExtendsReflexive(s: State)
    ensures Extends(s, s)
  {
  }

  lemma ExtendsTransitive(s: State, s1: State, s2: State)
    requires Extends(s, s1) && Extends(s1, s2)
    ensures Extends(s, s2)
  {
  }

  /** Over any run, an exchange that is settled keeps its settlement: none settles twice. */
  lemma {:induction false} SettledOnce(s: State, events: seq<Event>)
    requires Inv(s)
    ensures Inv(Run(s, events)) && Extends(s, Run(s, events))
    decreases |events|
  {
    hide Inv, Extends, Step;
    if events == [] {
      ExtendsReflexive(s);
    } else {
      StepKeeps(s, events[0]);
      SettledOnce(Step(s, events[0]), events[1..]);
      ExtendsTransitive(s, Step(s, events[0]), Run(s, events));
    }
  }

  /** An exchange only resolves by a reply of its own id and of the kind it expects. */
  lemma ResolvedByOwnReply(s: State, event: Event, t: nat)
    requires Inv(s) && t < |s.exchanges| && t !in s.settled
    requires t in Step(s, event).settled && Step(s, event).settled[t] == Resolved
    ensures event == Receive(s.exchanges[t].messageId, s.exchanges[t].expected)
  {
    if event.Receive? && event.messageId in s.pending {
      assert Awaits(s, event.messageId, s.pending[event.messageId]);
    }
  }

  /**
   A message goes out exactly on a live lease, under an id of 1 to 128 bytes that no unsettled exchange has, and while
   its signal is not aborted. It is the next exchange, and settled at once only if the worker does not take it.
   */
  lemma SentIff(s: State, messageId: string, expected: Kind, endable: bool, aborted: bool, posts: bool)
    requires Inv(s)
    ensures var s' := Step(s, Send(messageId, expected, endable, aborted, posts));
      var n := |s.exchanges|;
      if s.terminated || aborted || Journal.TextBytes(messageId) == 0 || Journal.TextBytes(messageId) > 128
        || exists t :: 0 <= t < n && t !in s.settled && s.exchanges[t].messageId == messageId
      then s' == s
      else
        && s'.exchanges == s.exchanges + [Exchange(messageId, expected, endable)] && !s'.terminated
        && (posts ==> n !in s'.settled && messageId in s'.pending && s'.pending[messageId] == n)
        && (!posts ==> n in s'.settled && s'.settled[n] == Rejected(PostFailed) && s'.pending == s.pending)
  {
    hide Journal.TextBytes;
    if messageId in s.pending {
      assert Awaits(s, messageId, s.pending[messageId]);
    } else {
      assert s.pending[messageId := |s.exchanges|] - {messageId} == s.pending;
    }
  }

  /** The settlement that an event brings to an exchange that awaits its reply; `None` leaves it waiting. */
  lemma SettledExactlyBy(s: State, event: Event, t: nat)
    requires Inv(s) && t < |s.exchanges| && t !in s.settled
    ensures var x, settled := s.exchanges[t], Step(s, event).settled;
      && (t in settled <==>
        || (event.Receive? && event.messageId == x.messageId)
        || (event.Abort? && event.messageId == x.messageId && x.endable)
        || event.ReceiveMalformed? || event.Fail? || event.Terminate?)
      && (t in settled ==>
        match event
        case Receive(_, WorkerError) => settled[t] == Rejected(ReportedError)
        case Receive(_, kind) => settled[t] == if kind == x.expected then Resolved else Rejected(WrongKind)
        case Abort(_) => settled[t] == Rejected(Aborted)
        case Terminate => settled[t] == Rejected(LeaseTerminated)
        case _ => settled[t] == Rejected(WorkerFailed))
  {
    hide Journal.TextBytes;
    match event {
      case Receive(id, _) =>
        if id in s.pending {
          assert Awaits(s, id, s.pending[id]);
        }
      case Abort(id) =>
        if id in s.pending {
          assert Awaits(s, id, s.pending[id]);
        }
      case Send(messageId, _, _, _, _) =>
        assert t != |s.exchanges|;
      case _ =>
        assert s.exchanges[t].messageId in s.pending && s.pending[s.exchanges[t].messageId] == t;
        assert t in s.pending.Values;
    }
  }

  /**
   An exchange without a signal or a time limit is awaited to its end: while no reply of its own id comes and the lease
   lives, it stays pending.
   */
  lemma {:induction false} AwaitedToTheEnd(s: State, events: seq<Event>, t: nat)
    requires Inv(s) && t < |s.exchanges| && t !in s.settled && !s.exchanges[t].endable
    requires forall i :: 0 <= i < |events| && events[i].Receive? ==> events[i].messageId != s.exchanges[t].messageId
    requires !Run(s, events).terminated
    ensures t !in Run(s, events).settled
    decreases |events|
  {
    if events != [] {
      var s1 := Step(s, events[0]);
      assert Inv(s1) && Extends(s, s1) by {
        StepKeeps(s, events[0]);
      }
      StaysTerminated(s1, events[1..]);
      StillAwaited(s, events[0], t);
      assert s1.exchanges[t] == s.exchanges[t];
      assert forall i :: 0 <= i < |events[1..]| ==> events[1..][i] == events[i + 1];
      AwaitedToTheEnd(s1, events[1..], t);
    }
  }

  lemma StaysTerminated(s: State, events: seq<Event>)
    requires Inv(s)
    ensures s.terminated ==> Run(s, events).terminated
  {
    hide Inv, Step, Run;
    SettledOnce(s, events);
  }

  lemma StillAwaited(s: State, event: Event, t: nat)
    requires Inv(s) && t < |s.exchanges| && t !in s.settled && !s.exchanges[t].endable
    requires event.Receive? ==> event.messageId != s.exchanges[t].messageId
    requires !Step(s, event).terminated
    ensures t !in Step(s, event).settled
  {
    hide Journal.TextBytes;
    match event {
      case Receive(id, _) =>
        if id in s.pending {
          assert Awaits(s, id, s.pending[id]);
        }
      case Abort(id) =>
        if id in s.pending {
          assert Awaits(s, id, s.pending[id]);
        }
      case _ =>
    }
  }

  /** Once the lease has failed or was terminated, nothing is pending, everything is settled, and no event changes it. */
  lemma DeadForGood(s: State, events: seq<Event>)
    requires Inv(s) && s.terminated
    ensures Run(s, events) == s && s.pending == map[]
    ensures forall t :: 0 <= t < |s.exchanges| ==> t in s.settled
    decreases |events|
  {
    if events != [] {
      DeadForGood(Step(s, events[0]), events[1..]);
    }
  }

  // The object

  class BrowserDorkWorkerLease {
    /** What each exchange waits for; its number stands for the two ends of its promise. */
    var exchanges: seq<Exchange>
    var pending: map<string, nat>
    var settled: map<nat, Settlement>
    var terminated: bool

    function Abstract(): State
      reads this
    {
      State(exchanges, pending, settled, terminated)
    }

    ghost predicate Valid()
      reads this
    {
      Inv(Abstract())
    }

    constructor ()
      ensures Valid() && Abstract() == INITIAL
    {
      exchanges, pending, settled, terminated := [], map[], map[], false;
    }

    method SettleExchange(messageId: string, settlement: Settlement)
      modifies this`pending, this`settled
      ensures Abstract() == Take(old(Abstract()), messageId, settlement)
    {
      if messageId in pending {
        settled := settled[pending[messageId] := settlement];
        pending := pending - {messageId};
      }
    }

    /** `None` is the thrown error; otherwise the number of the exchange. */
    method Send(messageId: string, expected: Kind, endable: bool, aborted: bool, posts: bool) returns (ticket: Option<nat>)
      requires Valid()
      modifies this
      ensures Valid() && Abstract() == Step(old(Abstract()), Event.Send(messageId, expected, endable, aborted, posts))
      ensures ticket == if Sendable(old(Abstract()), messageId, aborted) then Some(|old(exchanges)|) else None
    {
      hide Inv, Journal.TextBytes;
      StepKeeps(Abstract(), Event.Send(messageId, expected, endable, aborted, posts));
      var n := Journal.TextBytes(messageId);
      if terminated || n == 0 || n > MAX_ID_BYTES || aborted || messageId in pending {
        return None;
      }
      ticket := Some(|exchanges|);
      pending := pending[messageId := |exchanges|];
      exchanges := exchanges + [Exchange(messageId, expected, endable)];
      if !posts {
        SettleExchange(messageId, Rejected(PostFailed));
      }
    }

    method Receive(messageId: string, kind: Kind)
      requires Valid()
      modifies this
      ensures Valid() && Abstract() == Step(old(Abstract()), Event.Receive(messageId, kind))
    {
      StepKeeps(Abstract(), Event.Receive(messageId, kind));
      if messageId !in pending {
        return;
      }
      assert Awaits(Abstract(), messageId, pending[messageId]);
      var expected := exchanges[pending[messageId]].expected;
      if kind == WorkerError {
        SettleExchange(messageId, Rejected(ReportedError));
      } else if kind != expected {
        SettleExchange(messageId, Rejected(WrongKind));
      } else {
        SettleExchange(messageId, Resolved);
      }
    }

    method Abort(messageId: string)
      requires Valid()
      modifies this
      ensures Valid() && Abstract() == Step(old(Abstract()), Event.Abort(messageId))
    {
      StepKeeps(Abstract(), Event.Abort(messageId));
      if messageId !in pending {
        return;
      }
      assert Awaits(Abstract(), messageId, pending[messageId]);
      if exchanges[pending[messageId]].endable {
        SettleExchange(messageId, Rejected(Aborted));
      }
    }

    /** Rejects one pending exchange after another. */
    method RejectPending(reason: Reason)
      modifies this`pending, this`settled
      ensures Abstract() == RejectAll(old(Abstract()), reason)
    {
      hide RejectAll;
      while pending.Keys != {}
        modifies this`pending, this`settled
        invariant RejectAll(Abstract(), reason) == RejectAll(old(Abstract()), reason)
        decreases |pending.Keys|
      {
        var messageId :| messageId in pending.Keys;
        RejectOneFirst(Abstract(), messageId, reason);
        assert (pending - {messageId}).Keys == pending.Keys - {messageId};
        SettleExchange(messageId, Rejected(reason));
      }
      NothingToReject(Abstract(), reason);
    }

    /** The worker reported an error, or sent something malformed. */
    method Fail()
      requires Valid()
      modifies this
      ensures Valid() && Abstract() == Step(old(Abstract()), Event.Fail)
    {
      StepKeeps(Abstract(), Event.Fail);
      NothingToReject(Abstract(), WorkerFailed);
      terminated := true;
      RejectPending(WorkerFailed);
    }

    method Terminate()
      requires Valid()
      modifies this
      ensures Valid() && Abstract() == Step(old(Abstract()), Event.Terminate)
    {
      hide Inv;
      StepKeeps(Abstract(), Event.Terminate);
      if terminated {
        return;
      }
      terminated := true;
      RejectPending(LeaseTerminated);
    }
  }

  lemma NothingToReject(s: State, reason: Reason)
    ensures s.pending == map[] ==> RejectAll(s, reason) == s
  {
    if s.pending == map[] {
      assert s.pending.Values == {};
    }
  }
}
