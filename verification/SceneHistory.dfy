/**
 What a scene owes to its log: every fact rests on outputs that showed it, what
 is current is what was shown and not unsettled since, and an event that was
 seen before changes nothing.
 */
module SceneHistory {
  import opened Wrappers
  import opened Scene
  import opened SceneValidator

  // ----- Events that come again -----

  lemma {:induction false} StillIgnored(s: Scene, log: seq<Event>, e: Event)
    requires Ignores(s.cursor, e)
    ensures Ignores(ProjectAll(s, log).cursor, e)
  {
    hide Advance, Thaw, BuildAffordances, FrozenEntities, FrozenRelations;
    if log != [] {
      StillIgnored(s, log[..|log| - 1], e);
    }
  }

  lemma ProjectAllAppend(s: Scene, a: seq<Event>, b: seq<Event>)
    ensures ProjectAll(s, a + b) == ProjectAll(ProjectAll(s, a), b)
  {
    hide Projected;
    if b == [] {
      assert a + b == a;
    } else {
      assert (a + b)[..|a + b| - 1] == a + b[..|b| - 1];
      ProjectAllAppend(s, a, b[..|b| - 1]);
    }
  }

  /** An event of the log that arrives again, whenever it does, leaves the scene as it is. */
  lemma ReplayChangesNothing(s: Scene, log: seq<Event>, i: nat)
    requires i < |log|
    ensures Projected(ProjectAll(s, log), log[i]) == ProjectAll(s, log)
  {
    hide Advance, Thaw, BuildAffordances, FrozenEntities, FrozenRelations, ProjectAll;
    var taken := Projected(ProjectAll(s, log[..i]), log[i]);
    assert Ignores(taken.cursor, log[i]);
    StillIgnored(taken, log[i + 1..], log[i]);
    assert log == log[..i] + ([log[i]] + log[i + 1..]);
    ProjectAllAppend(s, log[..i], [log[i]] + log[i + 1..]);
    ProjectAllAppend(ProjectAll(s, log[..i]), [log[i]], log[i + 1..]);
    OneEvent(ProjectAll(s, log[..i]), log[i]);
  }

  lemma OneEvent(s: Scene, e: Event)
    ensures ProjectAll(s, [e]) == Projected(s, e)
  {
    hide Projected;
    assert [e][..0] == [];
    assert ProjectAll(s, []) == s;
  }

  // ----- What one event of a log does -----

  /** The event is an output that the scene takes in. */
  predicate HeardAt(texts: Texts, log: seq<Event>, n: nat)
    requires n < |log|
  {
    var s := After(texts, log, n);
    && !Ignores(s.cursor, log[n]) && log[n].payload.Output?
    && (s.engineRevision == None || log[n].payload.revision > s.engineRevision.value)
  }

  function AnsweredAt(texts: Texts, log: seq<Event>, n: nat): Option<Pending>
    requires n < |log| && HeardAt(texts, log, n)
  {
    Answered(Thaw(After(texts, log, n)), log[n], log[n].payload.revision)
  }

  /** What the event shows in its place in the log. */
  function ShownAt(texts: Texts, log: seq<Event>, n: nat): Shown
    requires n < |log|
  {
    if HeardAt(texts, log, n) then
      ShownBy(texts, CommandOf(AnsweredAt(texts, log, n)), log[n].payload.revision, log[n].payload.exactText)
    else NOTHING
  }

  /** After the event, nothing told before it vouches for the object's being there. */
  predicate UnsettledAt(texts: Texts, log: seq<Event>, n: nat, l: Label)
    requires n < |log|
  {
    && HeardAt(texts, log, n)
    && var answered := AnsweredAt(texts, log, n);
       || Clears(answered, log[n].payload.revision)
       || (answered.Some? && !Refuses(texts, Some(answered.value.command), log[n].payload.exactText)
           && MovedObject(answered.value.command) == Some(l))
  }

  /** A log in which every event that the scene takes in brings bounded identities. */
  predicate GoodLog(texts: Texts, log: seq<Event>) {
    (forall e :: e in log ==> WellFormed(e)) && forall n :: 0 <= n < |log| ==> WellTaken(texts, log, n)
  }

  lemma {:induction false} TextsStay(s: Scene, log: seq<Event>)
    ensures ProjectAll(s, log).cursor.texts == s.cursor.texts
  {
    hide Advance, Thaw, BuildAffordances, FrozenEntities, FrozenRelations, Chosen;
    if log != [] {
      TextsStay(s, log[..|log| - 1]);
    }
  }

  lemma AfterTexts(texts: Texts, log: seq<Event>, n: nat)
    requires n <= |log|
    ensures After(texts, log, n).cursor.texts == texts
  {
    hide ProjectAll, BuildAffordances, FrozenEntities, FrozenRelations, Chosen;
    TextsStay(Blank(texts, true), log[..n]);
  }

  lemma StepHolds(texts: Texts, log: seq<Event>, n: nat)
    requires GoodLog(texts, log) && n < |log|
    ensures var m := Thaw(After(texts, log, n));
      && Holds(m) && After(texts, log, n).cursor.profiled
      && (!Ignores(After(texts, log, n).cursor, log[n]) ==>
            && Holds(Advance(texts, true, m, log[n]))
            && After(texts, log, n + 1) == Freeze(Moved(After(texts, log, n).cursor, log[n]), Advance(texts, true, m, log[n])))
      && (Ignores(After(texts, log, n).cursor, log[n]) ==> After(texts, log, n + 1) == After(texts, log, n))
  {
    hide Advance, Freeze, Thaw, Holds, After, Identified, WellFormed, Paired, Ignores, EntitiesAccepted,
      RelationsAccepted, LocationAccepted, PairAccepted, BuildAffordances;
    assert WellTaken(texts, log, n);
    AfterTexts(texts, log, n);
    AcceptedWhileWellTaken(texts, log, n);
    ThawHolds(After(texts, log, n));
    AfterNext(texts, log, n);
    if !Ignores(After(texts, log, n).cursor, log[n]) {
      AdvanceHolds(After(texts, log, n), log[n]);
    }
  }

  lemma FreezeCurrent(c: Cursor, m: Memory)
    ensures forall l :: l in Freeze(c, m).current <==> l in m.current
  {
    hide BuildAffordances, FrozenEntities, FrozenRelations, FrozenRecord, FrozenSources;
    OrdersComplete();
  }

  lemma CurrentStep(texts: Texts, log: seq<Event>, n: nat, l: Label)
    requires GoodLog(texts, log) && n < |log|
    ensures l in After(texts, log, n + 1).current <==>
              l in ShownAt(texts, log, n).labels || (l in After(texts, log, n).current && !UnsettledAt(texts, log, n, l))
  {
    hide Holds, After, Freeze, ShownBy, EntityMap, RelationMap, NotedEntities, NotedRelations, Refuses, MovedObject,
      Moves,
      GoodLog, Answered;
    StepHolds(texts, log, n);
    var s := After(texts, log, n);
    if !Ignores(s.cursor, log[n]) {
      FreezeCurrent(Moved(s.cursor, log[n]), Advance(texts, true, Thaw(s), log[n]));
    }
  }

  /**
   The objects of the scene are exactly those that some output of the log showed and that no later one unsettled.
   */
  lemma {:induction false} CurrentIffShownSince(texts: Texts, log: seq<Event>, n: nat, l: Label)
    requires GoodLog(texts, log) && n <= |log|
    ensures l in After(texts, log, n).current <==>
            exists i ::
              && 0 <= i < n && l in ShownAt(texts, log, i).labels
              && forall j :: i < j < n ==> !UnsettledAt(texts, log, j, l)
  {
    hide GoodLog, After, ShownAt, UnsettledAt;
    if n == 0 {
      NothingAtFirst(texts, log);
    } else {
      CurrentIffShownSince(texts, log, n - 1, l);
      CurrentStep(texts, log, n - 1, l);
    }
  }

  lemma NothingAtFirst(texts: Texts, log: seq<Event>)
    ensures After(texts, log, 0) == Blank(texts, true)
    ensures After(texts, log, 0).current == [] && After(texts, log, 0).entities == [] && After(texts, log, 0).relations == []
  {
    hide BuildAffordances;
    assert log[..0] == [];
  }

  // ----- Sources -----

  predicate Tells(t: Texts, text: string, shown: Shown) {
    || ((text == t.boot || text == t.room) &&
        shown == Shown({House, Door, Mailbox}, {PlayerWestOfHouse, HouseEastOfPlayer, DoorBoarded, MailboxHere}, true))
    || (text == t.revelation && shown == Shown({Mailbox, Leaflet}, {MailboxHere, LeafletHere, MailboxOpen}, false))
    || (text == t.refusal && shown == Shown({Mailbox}, {MailboxHere}, false))
  }

  /** One of the reviewed texts, word for word, that names the object. */
  ghost predicate NamesObject(t: Texts, e: Event, l: Label) {
    e.payload.Output? && exists shown :: Tells(t, e.payload.exactText, shown) && l in shown.labels
  }

  ghost predicate StatesRelation(t: Texts, e: Event, r: RelationId) {
    e.payload.Output? && exists shown :: Tells(t, e.payload.exactText, shown) && r in shown.relations
  }

  /** The first source is the output first seen in, the last source the output last seen in. */
  predicate Dated(log: seq<Event>, i: int, j: int, r: Record) {
    && 0 <= i <= j < |log| && log[i].payload.Output? && log[j].payload.Output?
    && r.sources == (if i == j then [log[i].id] else [log[i].id, log[j].id])
    && log[i].payload.revision == r.firstSeen && log[j].payload.revision == r.lastSeen
  }

  ghost predicate EntityBacked(texts: Texts, log: seq<Event>, n: nat, e: Entity) {
    exists i, j ::
      Dated(log, i, j, e.seen) && j < n && NamesObject(texts, log[i], e.name) && NamesObject(texts, log[j], e.name)
  }

  ghost predicate RelationBacked(texts: Texts, log: seq<Event>, n: nat, r: Relation) {
    exists i, j ::
      Dated(log, i, j, r.seen) && j < n && StatesRelation(texts, log[i], r.id) && StatesRelation(texts, log[j], r.id)
  }

  lemma ShownIsTold(t: Texts, command: Option<string>, revision: nat, text: string)
    ensures var shown := ShownBy(t, command, revision, text); shown == NOTHING || Tells(t, text, shown)
  {
  }

  lemma NotedDated(log: seq<Event>, n: nat, before: Option<Record>, i: int, j: int)
    requires n < |log| && log[n].payload.Output?
    requires forall k :: 0 <= k < n ==> log[k].id != log[n].id
    requires before.Some? ==> Dated(log, i, j, before.value) && j < n
    ensures Dated(log, if before.Some? then i else n, n, Noted(before, log[n].id, log[n].payload.revision))
  {
  }

  lemma FrozenIn(c: Cursor, m: Memory)
    requires Holds(m)
    ensures forall e :: e in Freeze(c, m).entities ==> e.name in m.entities && m.entities[e.name] == e
    ensures forall r :: r in Freeze(c, m).relations ==> r.id in m.relations && m.relations[r.id] == r
  {
    hide ValidRecord, BuildAffordances, FrozenEntities, FrozenRelations, Chosen, FrozenRecord, FrozenSources, Shape;
    OrdersComplete();
    FrozenEntitiesHold(LABELS, m.entities, m.engineRevision);
    FrozenRelationsHold(RELATION_IDS, m.relations, m.engineRevision);
  }

  lemma ThawedIn(s: Scene)
    requires Accepted(s)
    ensures forall l :: l in Thaw(s).entities ==> Thaw(s).entities[l] in s.entities && Thaw(s).entities[l].name == l
    ensures forall r :: r in Thaw(s).relations ==> Thaw(s).relations[r] in s.relations && Thaw(s).relations[r].id == r
  {
    hide ValidRecord, BuildAffordances, EntityMap, RelationMap;
    EntityMapHolds(s.entities);
    RelationMapHolds(s.relations);
  }

  /** What the memory holds after an event: noted from the event's showing, or as before. */
  lemma AdvanceNotes(texts: Texts, log: seq<Event>, n: nat)
    requires n < |log| && After(texts, log, n).cursor.profiled && !Ignores(After(texts, log, n).cursor, log[n])
    ensures var m := Thaw(After(texts, log, n));
      var m' := Advance(texts, true, m, log[n]);
      var revision := if log[n].payload.Output? then log[n].payload.revision else 0;
      && m'.entities == NotedEntities(m.entities, ShownAt(texts, log, n).labels, log[n].id, revision)
      && m'.relations == NotedRelations(m.relations, ShownAt(texts, log, n).relations, log[n].id, revision)
  {
    hide After, ShownBy, Answered, NotedEntity, NotedRelation, FocusAfter, EntityMap, RelationMap;
    var m := Thaw(After(texts, log, n));
    if !HeardAt(texts, log, n) {
      assert NotedEntities(m.entities, {}, log[n].id, 0) == m.entities;
      assert NotedRelations(m.relations, {}, log[n].id, 0) == m.relations;
      if log[n].payload.Output? {
        assert NotedEntities(m.entities, {}, log[n].id, log[n].payload.revision) == m.entities;
        assert NotedRelations(m.relations, {}, log[n].id, log[n].payload.revision) == m.relations;
      }
    }
  }

  lemma EntityStep(texts: Texts, log: seq<Event>, n: nat, e: Entity)
    requires GoodLog(texts, log) && n < |log|
    requires forall k :: 0 <= k < n ==> log[k].id != log[n].id
    requires forall x :: x in After(texts, log, n).entities ==> EntityBacked(texts, log, n, x)
    requires e in After(texts, log, n + 1).entities
    ensures EntityBacked(texts, log, n + 1, e)
  {
    hide Holds, After, Freeze, Thaw, ShownBy, Noted, GoodLog, Answered, NamesObject, Advance, Ignores, Accepted, Paired;
    var s := After(texts, log, n);
    StepHolds(texts, log, n);
    if Ignores(s.cursor, log[n]) {
      assert EntityBacked(texts, log, n, e);
    } else {
      GoodAccepted(texts, log, n);
      ThawedIn(s);
      AdvanceNotes(texts, log, n);
      FrozenIn(Moved(s.cursor, log[n]), Advance(texts, true, Thaw(s), log[n]));
      var m := Thaw(s);
      if e.name in m.entities {
        assert EntityBacked(texts, log, n, m.entities[e.name]);
        var i, j :| Dated(log, i, j, m.entities[e.name].seen) && j < n
                 && NamesObject(texts, log[i], e.name) && NamesObject(texts, log[j], e.name);
        if e.name in ShownAt(texts, log, n).labels {
          ShownNames(texts, log, n);
          NotedDated(log, n, Some(m.entities[e.name].seen), i, j);
          assert Dated(log, i, n, e.seen);
        }
      } else {
        ShownNames(texts, log, n);
        NotedDated(log, n, None, 0, 0);
        assert Dated(log, n, n, e.seen);
      }
    }
  }

  lemma GoodAccepted(texts: Texts, log: seq<Event>, n: nat)
    requires GoodLog(texts, log) && n <= |log|
    ensures Accepted(After(texts, log, n)) && Paired(After(texts, log, n))
  {
    hide Accepted, Paired, After, WellTaken, WellFormed;
    AcceptedWhileWellTaken(texts, log, n);
  }

  lemma ShownNames(texts: Texts, log: seq<Event>, n: nat)
    requires n < |log|
    ensures forall l :: l in ShownAt(texts, log, n).labels ==> HeardAt(texts, log, n) && NamesObject(texts, log[n], l)
    ensures forall r :: r in ShownAt(texts, log, n).relations ==> HeardAt(texts, log, n) && StatesRelation(texts, log[n], r)
  {
    hide ShownBy, After, Thaw, Answered, Tells;
    if HeardAt(texts, log, n) {
      ShownIsTold(texts, CommandOf(AnsweredAt(texts, log, n)), log[n].payload.revision, log[n].payload.exactText);
    }
  }

  lemma RelationStep(texts: Texts, log: seq<Event>, n: nat, r: Relation)
    requires GoodLog(texts, log) && n < |log|
    requires forall k :: 0 <= k < n ==> log[k].id != log[n].id
    requires forall x :: x in After(texts, log, n).relations ==> RelationBacked(texts, log, n, x)
    requires r in After(texts, log, n + 1).relations
    ensures RelationBacked(texts, log, n + 1, r)
  {
    hide Holds, After, Freeze, Thaw, ShownBy, Noted, GoodLog, Answered, StatesRelation, Advance, Ignores, Accepted,
      Paired,
      Told;
    var s := After(texts, log, n);
    StepHolds(texts, log, n);
    if Ignores(s.cursor, log[n]) {
      assert RelationBacked(texts, log, n, r);
    } else {
      GoodAccepted(texts, log, n);
      ThawedIn(s);
      AdvanceNotes(texts, log, n);
      FrozenIn(Moved(s.cursor, log[n]), Advance(texts, true, Thaw(s), log[n]));
      var m := Thaw(s);
      if r.id in m.relations {
        assert RelationBacked(texts, log, n, m.relations[r.id]);
        var i, j :| Dated(log, i, j, m.relations[r.id].seen) && j < n
                 && StatesRelation(texts, log[i], r.id) && StatesRelation(texts, log[j], r.id);
        if r.id in ShownAt(texts, log, n).relations {
          ShownNames(texts, log, n);
          NotedDated(log, n, Some(m.relations[r.id].seen), i, j);
          assert Dated(log, i, n, r.seen);
        }
      } else {
        ShownNames(texts, log, n);
        NotedDated(log, n, None, 0, 0);
        assert Dated(log, n, n, r.seen);
      }
    }
  }

  /**
   Nothing in the scene is made up: every object and every relation names the first and the last output that showed it,
   each of them one of the reviewed texts word for word, with their revisions.
   */
  lemma {:induction false} SourceBacked(texts: Texts, log: seq<Event>, n: nat)
    requires GoodLog(texts, log) && n <= |log|
    requires forall i, j :: 0 <= i < j < |log| ==> log[i].id != log[j].id
    ensures forall e :: e in After(texts, log, n).entities ==> EntityBacked(texts, log, n, e)
    ensures forall r :: r in After(texts, log, n).relations ==> RelationBacked(texts, log, n, r)
  {
    hide GoodLog, After, EntityBacked, RelationBacked;
    if n == 0 {
      NothingAtFirst(texts, log);
    } else {
      SourceBacked(texts, log, n - 1);
      forall e | e in After(texts, log, n).entities ensures EntityBacked(texts, log, n, e) {
        EntityStep(texts, log, n - 1, e);
      }
      forall r | r in After(texts, log, n).relations ensures RelationBacked(texts, log, n, r) {
        RelationStep(texts, log, n - 1, r);
      }
    }
  }
}
