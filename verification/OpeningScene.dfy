/** The reducer of the opening scene and its validator, step by step as the program runs them. */
module OpeningScene {
  import opened Wrappers
  import opened Scene
  import opened SceneValidator
  import Utf8

  function UpsertEntity(m: map<Label, Entity>, l: Label, id: string, revision: nat): map<Label, Entity> {
    m[l := NotedEntity(m, l, id, revision)]
  }

  function UpsertRelation(m: map<RelationId, Relation>, r: RelationId, id: string, revision: nat)
    : map<RelationId, Relation>
  {
    m[r := NotedRelation(m, r, id, revision)]
  }

  lemma NotedTwice(before: Option<Record>, id: string, revision: nat)
    ensures Noted(Some(Noted(before, id, revision)), id, revision) == Noted(before, id, revision)
  {
  }

  lemma EntitiesSnoc(m: map<Label, Entity>, labels: set<Label>, l: Label, id: string, revision: nat)
    ensures UpsertEntity(NotedEntities(m, labels, id, revision), l, id, revision)
         == NotedEntities(m, labels + {l}, id, revision)
  {
    hide Noted;
    NotedTwice(if l in m then Some(m[l].seen) else None, id, revision);
    var m' := NotedEntities(m, labels, id, revision);
    assert NotedEntity(m', l, id, revision) == NotedEntity(m, l, id, revision);
    hide NotedEntity;
  }

  lemma RelationsSnoc(m: map<RelationId, Relation>, ids: set<RelationId>, r: RelationId, id: string, revision: nat)
    ensures UpsertRelation(NotedRelations(m, ids, id, revision), r, id, revision)
         == NotedRelations(m, ids + {r}, id, revision)
  {
    hide Noted, Told;
    NotedTwice(if r in m then Some(m[r].seen) else None, id, revision);
    var m' := NotedRelations(m, ids, id, revision);
    assert NotedRelation(m', r, id, revision) == NotedRelation(m, r, id, revision);
    hide NotedRelation;
  }

  lemma NothingNoted(m: Memory, id: string, revision: nat)
    ensures NotedEntities(m.entities, {}, id, revision) == m.entities
    ensures NotedRelations(m.relations, {}, id, revision) == m.relations
    ensures Remember(m, NOTHING, id, revision) == m
  {
    hide NotedEntity, NotedRelation, Noted;
    assert NotedEntities(m.entities, {}, id, revision) == m.entities;
    assert NotedRelations(m.relations, {}, id, revision) == m.relations;
  }

  method ForgetRelations(relations: map<RelationId, Relation>, current: set<RelationId>, moved: Label)
    returns (left: set<RelationId>)
    ensures left == set r | r in current && !(r in relations && About(relations[r].fact, moved))
  {
    left := current;
    var todo := relations.Keys;
    while todo != {}
      invariant todo <= relations.Keys
      invariant left == set r | r in current && !(r in relations - todo && About(relations[r].fact, moved))
      decreases |todo|
    {
      var r :| r in todo;
      if About(relations[r].fact, moved) {
        left := left - {r};
      }
      todo := todo - {r};
    }
  }

  /** The texts that the program looks for one after the other are never shown together. */
  lemma OneShowing(t: Texts, command: Option<string>, revision: nat, text: string)
    ensures ShowsRoom(t, command, revision, text) ==> !Reveals(t, command, text) && !Refuses(t, command, text)
    ensures Reveals(t, command, text) ==> !Refuses(t, command, text)
  {
  }

  method RememberRoom(m: Memory, id: string, revision: nat) returns (noted: Memory)
    ensures noted == Remember(
              m, Shown({House, Door, Mailbox}, {PlayerWestOfHouse, HouseEastOfPlayer, DoorBoarded, MailboxHere}, true),
              id, revision)
  {
    hide NotedEntities, NotedRelations, UpsertEntity, UpsertRelation;
    NothingNoted(m, id, revision);
    var entities := UpsertEntity(m.entities, House, id, revision);
    EntitiesSnoc(m.entities, {}, House, id, revision);
    assert {} + {House} == {House};
    EntitiesSnoc(m.entities, {House}, Door, id, revision);
    entities := UpsertEntity(entities, Door, id, revision);
    assert {House} + {Door} == {House, Door} && {House, Door} + {Mailbox} == {House, Door, Mailbox};
    var relations := UpsertRelation(m.relations, PlayerWestOfHouse, id, revision);
    RelationsSnoc(m.relations, {}, PlayerWestOfHouse, id, revision);
    assert {} + {PlayerWestOfHouse} == {PlayerWestOfHouse};
    RelationsSnoc(m.relations, {PlayerWestOfHouse}, HouseEastOfPlayer, id, revision);
    relations := UpsertRelation(relations, HouseEastOfPlayer, id, revision);
    assert {PlayerWestOfHouse} + {HouseEastOfPlayer} == {PlayerWestOfHouse, HouseEastOfPlayer};
    RelationsSnoc(m.relations, {PlayerWestOfHouse, HouseEastOfPlayer}, DoorBoarded, id, revision);
    relations := UpsertRelation(relations, DoorBoarded, id, revision);
    assert {PlayerWestOfHouse, HouseEastOfPlayer} + {DoorBoarded} == {PlayerWestOfHouse, HouseEastOfPlayer, DoorBoarded};
    EntitiesSnoc(m.entities, {House, Door}, Mailbox, id, revision);
    entities := UpsertEntity(entities, Mailbox, id, revision);
    RelationsSnoc(m.relations, {PlayerWestOfHouse, HouseEastOfPlayer, DoorBoarded}, MailboxHere, id, revision);
    relations := UpsertRelation(relations, MailboxHere, id, revision);
    assert {PlayerWestOfHouse, HouseEastOfPlayer, DoorBoarded} + {MailboxHere}
        == {PlayerWestOfHouse, HouseEastOfPlayer, DoorBoarded, MailboxHere};
    noted := m.(
      entities := entities, current := m.current + {House} + {Door} + {Mailbox},
      location := Some(Noted(m.location, id, revision)), atLocation := true,
      relations := relations,
      currentRelations := m.currentRelations + {PlayerWestOfHouse} + {HouseEastOfPlayer} + {DoorBoarded} + {MailboxHere});
    assert noted.current == m.current + {House, Door, Mailbox};
    assert noted.currentRelations
        == m.currentRelations + {PlayerWestOfHouse, HouseEastOfPlayer, DoorBoarded, MailboxHere};
  }

  method RememberReveal(m: Memory, id: string, revision: nat) returns (noted: Memory)
    ensures noted == Remember(m, Shown({Mailbox, Leaflet}, {MailboxHere, LeafletHere, MailboxOpen}, false), id, revision)
  {
    hide NotedEntities, NotedRelations, UpsertEntity, UpsertRelation;
    NothingNoted(m, id, revision);
    var entities := UpsertEntity(m.entities, Mailbox, id, revision);
    EntitiesSnoc(m.entities, {}, Mailbox, id, revision);
    assert {} + {Mailbox} == {Mailbox};
    EntitiesSnoc(m.entities, {Mailbox}, Leaflet, id, revision);
    entities := UpsertEntity(entities, Leaflet, id, revision);
    assert {Mailbox} + {Leaflet} == {Mailbox, Leaflet};
    var relations := UpsertRelation(m.relations, MailboxHere, id, revision);
    RelationsSnoc(m.relations, {}, MailboxHere, id, revision);
    assert {} + {MailboxHere} == {MailboxHere};
    RelationsSnoc(m.relations, {MailboxHere}, LeafletHere, id, revision);
    relations := UpsertRelation(relations, LeafletHere, id, revision);
    assert {MailboxHere} + {LeafletHere} == {MailboxHere, LeafletHere};
    RelationsSnoc(m.relations, {MailboxHere, LeafletHere}, MailboxOpen, id, revision);
    relations := UpsertRelation(relations, MailboxOpen, id, revision);
    assert {MailboxHere, LeafletHere} + {MailboxOpen} == {MailboxHere, LeafletHere, MailboxOpen};
    noted := m.(
      entities := entities, current := m.current + {Mailbox} + {Leaflet}, relations := relations,
      currentRelations := m.currentRelations + {MailboxHere} + {LeafletHere} + {MailboxOpen});
    assert noted.current == m.current + {Mailbox, Leaflet};
    assert noted.currentRelations == m.currentRelations + {MailboxHere, LeafletHere, MailboxOpen};
  }

  method RememberRefusal(m: Memory, id: string, revision: nat) returns (noted: Memory)
    ensures noted == Remember(m, Shown({Mailbox}, {MailboxHere}, false), id, revision)
  {
    NothingNoted(m, id, revision);
    var entities := UpsertEntity(m.entities, Mailbox, id, revision);
    EntitiesSnoc(m.entities, {}, Mailbox, id, revision);
    assert {} + {Mailbox} == {Mailbox};
    var relations := UpsertRelation(m.relations, MailboxHere, id, revision);
    RelationsSnoc(m.relations, {}, MailboxHere, id, revision);
    assert {} + {MailboxHere} == {MailboxHere};
    noted := m.(
      entities := entities, current := m.current + {Mailbox},
      relations := relations, currentRelations := m.currentRelations + {MailboxHere});
  }

  method RememberShown(t: Texts, m: Memory, command: Option<string>, revision: nat, text: string, id: string)
    returns (noted: Memory)
    ensures noted == Remember(m, ShownBy(t, command, revision, text), id, revision)
  {
    hide NotedEntity, NotedRelation, ShowsRoom, Reveals, Refuses;
    OneShowing(t, command, revision, text);
    noted := m;
    NothingNoted(m, id, revision);
    if Utf8.Utf16Length(text) <= MAX_OUTPUT_LENGTH {
      if ShowsRoom(t, command, revision, text) {
        noted := RememberRoom(noted, id, revision);
      }
      if Reveals(t, command, text) {
        noted := RememberReveal(noted, id, revision);
      }
      if Refuses(t, command, text) {
        noted := RememberRefusal(noted, id, revision);
      }
    }
  }

  lemma RememberKeeps(m: Memory, shown: Shown, id: string, revision: nat)
    ensures Remember(m, shown, id, revision).pending == m.pending
  {
  }

  lemma UnsettledKeeps(t: Texts, m: Memory, answered: Option<Pending>, revision: nat, text: string)
    ensures Unsettled(t, m, answered, revision, text).pending == m.pending
  {
  }

  /** The facts that the output unsettles: all of them, those of one object, or none. */
  method Forget(t: Texts, before: Memory, matching: Option<Pending>, revision: nat, text: string)
    returns (m: Memory, clears: bool)
    ensures m == Unsettled(t, before, matching, revision, text) && clears == Clears(matching, revision)
  {
    hide Moves, MovedObject;
    m := before;
    var preservesMailbox := matching.Some? && matching.value.command == "read mailbox" && text == t.refusal;
    clears := (revision > 0 && matching == None) || (matching.Some? && Moves(matching.value.command));
    var moved := if matching == None || preservesMailbox then None else MovedObject(matching.value.command);
    if clears {
      m := m.(current := {}, currentRelations := {}, atLocation := false, focus := None);
    } else if moved.Some? {
      var left := ForgetRelations(m.relations, m.currentRelations, moved.value);
      m := m.(current := m.current - {moved.value}, currentRelations := left);
    }
  }

  method HearOutput(t: Texts, profiled: bool, before: Memory, event: Event, revision: nat, text: string)
    returns (m: Memory)
    ensures m == Heard(t, profiled, before, event, revision, text)
  {
    hide Remember, ShownBy, NotedEntities, NotedRelations, CommandObject, Unsettled, Answered, Clears;
    var matching := Answered(before, event, revision);
    var clears;
    m, clears := Forget(t, before, matching, revision, text);
    UnsettledKeeps(t, before, matching, revision, text);
    ghost var shown := if profiled then ShownBy(t, CommandOf(matching), revision, text) else NOTHING;
    RememberKeeps(m, shown, event.id, revision);
    NothingNoted(m, event.id, revision);
    if profiled {
      m := RememberShown(t, m, CommandOf(matching), revision, text, event.id);
    }
    m := m.(engineRevision := Some(revision));
    if !clears {
      var focused := if matching == None then None else CommandObject(matching.value.command);
      m := m.(focus :=
        if focused.Some? && focused.value in m.entities then
          Some(Focus(focused.value, matching.value.command, revision, [matching.value.sourceEventId, event.id]))
        else None);
    }
    if m.pending.Some? && revision >= m.pending.value.revision {
      m := m.(pending := None);
    }
  }

  method ProjectOpeningScene(projection: Scene, event: Event) returns (next: Scene)
    ensures next == Projected(projection, event)
  {
    hide Remember, ShownBy, Freeze, EntityMap, RelationMap, Moves,
      CommandObject, MovedObject;
    if projection.cursor.sessionId.Some? && event.sessionId != projection.cursor.sessionId.value {
      return projection;
    }
    if event.sequence <= projection.cursor.throughSequence {
      return projection;
    }
    var m := Thaw(projection);
    match event.payload {
      case Elsewhere =>
      case Committed(previousRevision, revision, command) =>
        if m.engineRevision == Some(previousRevision) && revision == previousRevision + 1 {
          m := m.(pending := Some(Pending(command, revision, event.id, event.correlationId)));
        }
      case Output(revision, text) =>
        if m.engineRevision == None || revision > m.engineRevision.value {
          m := HearOutput(projection.cursor.texts, projection.cursor.profiled, m, event, revision, text);
        }
    }
    next := Freeze(Moved(projection.cursor, event), m);
  }

  // ----- The validator -----

  function FirstRelation(relations: seq<Relation>, id: RelationId): (r: Option<Relation>)
    ensures r.Some? ==> r.value in relations && r.value.id == id
    ensures r == None ==> forall x :: x in relations ==> x.id != id
  {
    if relations == [] then None
    else if relations[0].id == id then Some(relations[0])
    else FirstRelation(relations[1..], id)
  }

  lemma SameRelation(relations: seq<Relation>, x: Relation, y: Relation)
    requires forall i, j :: 0 <= i < j < |relations| ==> relations[i].id != relations[j].id
    requires x in relations && y in relations && x.id == y.id
    ensures x == y
  {
  }

  method EntityNames(entities: seq<Entity>, engineRevision: Option<nat>) returns (names: Option<set<Label>>)
    ensures names.Some? <==>
      && (forall e :: e in entities ==> ValidRecord(e.seen, engineRevision))
      && (forall i, j :: 0 <= i < j < |entities| ==> entities[i].name != entities[j].name)
    ensures names.Some? ==> forall l :: l in names.value <==> exists e :: e in entities && e.name == l
  {
    hide ValidRecord;
    var found: set<Label> := {};
    for i := 0 to |entities|
      invariant forall k :: 0 <= k < i ==> ValidRecord(entities[k].seen, engineRevision)
      invariant forall k, j :: 0 <= k < j < i ==> entities[k].name != entities[j].name
      invariant forall l :: l in found <==> exists k :: 0 <= k < i && entities[k].name == l
    {
      if entities[i].name in found || !ValidRecord(entities[i].seen, engineRevision) {
        return None;
      }
      found := found + {entities[i].name};
    }
    return Some(found);
  }

  method RelationNames(relations: seq<Relation>, engineRevision: Option<nat>) returns (names: Option<set<RelationId>>)
    ensures names.Some? <==>
      && (forall r :: r in relations ==> r.fact == Shape(r.id) && ValidRecord(r.seen, engineRevision))
      && (forall i, j :: 0 <= i < j < |relations| ==> relations[i].id != relations[j].id)
    ensures names.Some? ==> forall l :: l in names.value <==> exists r :: r in relations && r.id == l
  {
    hide ValidRecord, Shape;
    var found: set<RelationId> := {};
    for i := 0 to |relations|
      invariant forall k :: 0 <= k < i ==>
        relations[k].fact == Shape(relations[k].id) && ValidRecord(relations[k].seen, engineRevision)
      invariant forall k, j :: 0 <= k < j < i ==> relations[k].id != relations[j].id
      invariant forall l :: l in found <==> exists k :: 0 <= k < i && relations[k].id == l
    {
      if relations[i].id in found || relations[i].fact != Shape(relations[i].id)
         || !ValidRecord(relations[i].seen, engineRevision) {
        return None;
      }
      found := found + {relations[i].id};
    }
    return Some(found);
  }

  method PairMatches(s: Scene) returns (ok: bool)
    ensures (forall i, j :: 0 <= i < j < |s.relations| ==> s.relations[i].id != s.relations[j].id) ==>
              ok == PairAccepted(s)
  {
    var east := FirstRelation(s.relations, HouseEastOfPlayer);
    var west := FirstRelation(s.relations, PlayerWestOfHouse);
    if forall i, j :: 0 <= i < j < |s.relations| ==> s.relations[i].id != s.relations[j].id {
      forall x, y | x in s.relations && y in s.relations && x.id == y.id ensures x == y {
        SameRelation(s.relations, x, y);
      }
    }
    ok := east == None
       || (west.Some? && east.value.seen == west.value.seen
           && (east.value.id in s.currentRelations ==> west.value.id in s.currentRelations));
  }

  method IsOpeningSceneProjection(s: Scene) returns (ok: bool)
    ensures ok == Accepted(s)
  {
    hide ValidRecord, BuildAffordances, FocusAccepted, PendingAccepted, Supported, Shape, PairAccepted;
    if !CursorAccepted(s.cursor, s.engineRevision)
       || (s.focus.Some? && !FocusAccepted(s.focus.value, s.engineRevision)) {
      return false;
    }
    var paired := PairMatches(s);
    var names := EntityNames(s.entities, s.engineRevision);
    if names == None || !AllDistinct(s.current) || (exists l :: l in s.current && l !in names.value)
       || (s.focus.Some? && s.focus.value.name !in names.value) {
      return false;
    }
    if !LocationAccepted(s) {
      return false;
    }
    var ids := RelationNames(s.relations, s.engineRevision);
    if !paired || ids == None || !AllDistinct(s.currentRelations)
       || (exists r :: r in s.currentRelations && r !in ids.value)
       || (exists x :: x in s.relations && x.id in s.currentRelations
             && !Supported(x.fact, (set l | l in s.current), s.atLocation)) {
      return false;
    }
    assert EntitiesAccepted(s);
    assert RelationsAccepted(s);
    return s.affordances == BuildAffordances(s.entities, s.current, s.relations, s.currentRelations)
        && (s.pending.Some? ==> PendingAccepted(s.pending.value, s.engineRevision));
  }
}
