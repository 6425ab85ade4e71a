/**
 The validator that the guide asks before it trusts a scene. It has its own
 table of relations and its own conditions; here it is proved that it refuses
 nothing that the reducer makes of well-identified events.
 */
module SceneValidator {
  import opened Wrappers
  import opened Bytes
  import opened Scene
  import EventLog
  import Text
  import Utf8

  const MAX_IDENTITY: nat := 160

  predicate Bounded(s: string) {
    s != "" && Utf8.Utf16Length(s) <= MAX_IDENTITY && !Text.HasControl(s)
  }

  predicate AllDistinct<T(==)>(values: seq<T>) {
    forall i, j :: 0 <= i < j < |values| ==> values[i] != values[j]
  }

  predicate ValidSources(values: seq<string>) {
    0 < |values| <= MAX_SOURCES && AllDistinct(values) && forall s :: s in values ==> Bounded(s)
  }

  predicate ValidRecord(r: Record, engineRevision: Option<nat>) {
    && ValidSources(r.sources)
    && r.firstSeen <= r.lastSeen <= MAX_SAFE
    && engineRevision.Some? && r.lastSeen <= engineRevision.value
  }

  /** The relations that the validator knows, with everything they have to say. */
  function Shape(id: RelationId): Fact {
    match id
    case PlayerWestOfHouse => Fact(You, WestOf, Some(Thing(House)), Seen, "You are west of the house.")
    case HouseEastOfPlayer => Fact(Thing(House), EastOfPlayer, Some(You), Inferred, "The house is east of you.")
    case DoorBoarded => Fact(Thing(Door), Boarded, None, Seen, "The house's front door is boarded.")
    case MailboxHere => Fact(Thing(Mailbox), Here, None, Seen, "The mailbox is here with you.")
    case LeafletHere => Fact(Thing(Leaflet), Here, None, Seen, "The leaflet is here with you.")
    case MailboxOpen => Fact(Thing(Mailbox), Open, None, Seen, "The mailbox is open.")
  }

  predicate CursorAccepted(c: Cursor, engineRevision: Option<nat>) {
    && c.profiled
    && (c.sessionId.Some? ==> Bounded(c.sessionId.value))
    && c.throughSequence <= MAX_SAFE
    && (c.throughSequence == 0) == (c.throughEventId == None)
    && (c.throughSequence == 0) == (c.sessionId == None)
    && (c.throughEventId.Some? ==> Bounded(c.throughEventId.value))
    && (engineRevision.Some? ==> engineRevision.value <= MAX_SAFE)
  }

  predicate FocusAccepted(f: Focus, engineRevision: Option<nat>) {
    && engineRevision.Some? && f.revision <= engineRevision.value && f.revision <= MAX_SAFE
    && Bounded(f.command) && ValidSources(f.sources)
  }

  predicate PendingAccepted(p: Pending, engineRevision: Option<nat>) {
    && Bounded(p.command) && Bounded(p.sourceEventId) && Bounded(p.correlationId)
    && p.revision <= MAX_SAFE && (engineRevision.Some? ==> p.revision > engineRevision.value)
  }

  predicate IsThere(b: Being, current: set<Label>) {
    b.Thing? ==> b.name in current
  }

  /** What a relation is about is there, and a direction needs the place it was seen from. */
  predicate Supported(f: Fact, current: set<Label>, atLocation: bool) {
    && IsThere(f.subject, current)
    && (f.object_.Some? ==> IsThere(f.object_.value, current))
    && (f.kind == WestOf || f.kind == EastOfPlayer ==> atLocation)
  }

  predicate EntitiesAccepted(s: Scene) {
    && (forall e :: e in s.entities ==> ValidRecord(e.seen, s.engineRevision))
    && (forall i, j :: 0 <= i < j < |s.entities| ==> s.entities[i].name != s.entities[j].name)
    && AllDistinct(s.current)
    && (forall l :: l in s.current ==> exists e :: e in s.entities && e.name == l)
    && (s.focus.Some? ==>
          FocusAccepted(s.focus.value, s.engineRevision) && exists e :: e in s.entities && e.name == s.focus.value.name)
  }

  predicate LocationAccepted(s: Scene) {
    && (s.location.Some? ==> ValidRecord(s.location.value, s.engineRevision))
    && (s.atLocation ==> s.location.Some?)
  }

  predicate RelationsAccepted(s: Scene) {
    && (forall r :: r in s.relations ==> r.fact == Shape(r.id) && ValidRecord(r.seen, s.engineRevision))
    && (forall i, j :: 0 <= i < j < |s.relations| ==> s.relations[i].id != s.relations[j].id)
    && AllDistinct(s.currentRelations)
    && (forall r :: r in s.currentRelations ==> exists x :: x in s.relations && x.id == r)
    && (forall x :: x in s.relations && x.id in s.currentRelations ==>
          Supported(x.fact, (set l | l in s.current), s.atLocation))
  }

  /** East is read off west: same sources, same revisions, and never current without it. */
  predicate PairAccepted(s: Scene) {
    forall east :: east in s.relations && east.id == HouseEastOfPlayer ==>
      && (exists west :: west in s.relations && west.id == PlayerWestOfHouse && west.seen == east.seen)
      && (HouseEastOfPlayer in s.currentRelations ==> PlayerWestOfHouse in s.currentRelations)
  }

  predicate Accepted(s: Scene) {
    && CursorAccepted(s.cursor, s.engineRevision)
    && EntitiesAccepted(s)
    && LocationAccepted(s)
    && RelationsAccepted(s)
    && PairAccepted(s)
    && s.affordances == BuildAffordances(s.entities, s.current, s.relations, s.currentRelations)
    && (s.pending.Some? ==> PendingAccepted(s.pending.value, s.engineRevision))
  }

  /** The reducer never records west without east either, which the validator does not ask for. */
  predicate Paired(s: Scene) {
    forall west :: west in s.relations && west.id == PlayerWestOfHouse ==>
      exists east :: east in s.relations && east.id == HouseEastOfPlayer
  }

  // ----- The same demands on what the reducer remembers -----

  ghost predicate EntitiesHold(m: Memory) {
    && (forall l :: l in m.entities ==> m.entities[l].name == l && ValidRecord(m.entities[l].seen, m.engineRevision))
    && m.current <= m.entities.Keys
  }

  ghost predicate RelationsHold(m: Memory) {
    && (forall r :: r in m.relations ==>
          m.relations[r].id == r && m.relations[r].fact == Shape(r) && ValidRecord(m.relations[r].seen, m.engineRevision))
    && m.currentRelations <= m.relations.Keys
    && (forall r :: r in m.currentRelations ==> Supported(Shape(r), m.current, m.atLocation))
    && (HouseEastOfPlayer in m.relations <==> PlayerWestOfHouse in m.relations)
    && (HouseEastOfPlayer in m.relations ==>
          m.relations[PlayerWestOfHouse].seen == m.relations[HouseEastOfPlayer].seen)
    && (HouseEastOfPlayer in m.currentRelations ==> PlayerWestOfHouse in m.currentRelations)
  }

  function FrozenFocus(f: Focus): Focus {
    f.(sources := FrozenSources(f.sources))
  }

  ghost predicate RestHolds(m: Memory) {
    && (m.location.Some? ==> ValidRecord(m.location.value, m.engineRevision))
    && (m.atLocation ==> m.location.Some?)
    && (m.engineRevision.Some? ==> m.engineRevision.value <= MAX_SAFE)
    && (m.focus.Some? ==> FocusAccepted(FrozenFocus(m.focus.value), m.engineRevision) && m.focus.value.name in m.entities)
    && (m.pending.Some? ==> PendingAccepted(m.pending.value, m.engineRevision))
  }

  ghost predicate Holds(m: Memory) {
    EntitiesHold(m) && RelationsHold(m) && RestHolds(m)
  }

  // ----- Thawing -----

  lemma {:induction false} EntityMapHolds(values: seq<Entity>)
    requires forall i, j :: 0 <= i < j < |values| ==> values[i].name != values[j].name
    ensures forall l :: l in EntityMap(values) <==> exists e :: e in values && e.name == l
    ensures forall e :: e in values ==> EntityMap(values)[e.name] == e
  {
    if values != [] {
      EntityMapHolds(values[..|values| - 1]);
      assert values == values[..|values| - 1] + [values[|values| - 1]];
    }
  }

  lemma {:induction false} RelationMapHolds(values: seq<Relation>)
    requires forall i, j :: 0 <= i < j < |values| ==> values[i].id != values[j].id
    ensures forall r :: r in RelationMap(values) <==> exists x :: x in values && x.id == r
    ensures forall x :: x in values ==> RelationMap(values)[x.id] == x
  {
    if values != [] {
      RelationMapHolds(values[..|values| - 1]);
      assert values == values[..|values| - 1] + [values[|values| - 1]];
    }
  }

  lemma {:induction false} DistinctKeeps(values: seq<string>)
    requires AllDistinct(values)
    ensures Distinct(values) == values
  {
    if values != [] {
      DistinctKeeps(values[..|values| - 1]);
      assert values == values[..|values| - 1] + [values[|values| - 1]];
    }
  }

  lemma FocusKeeps(f: Focus, engineRevision: Option<nat>)
    requires FocusAccepted(f, engineRevision)
    ensures FrozenFocus(f) == f
  {
    DistinctKeeps(f.sources);
  }

  lemma ThawHolds(s: Scene)
    requires Accepted(s) && Paired(s)
    ensures Holds(Thaw(s))
  {
    hide ValidRecord, PendingAccepted, FocusAccepted, BuildAffordances, Shape, Supported;
    EntityMapHolds(s.entities);
    RelationMapHolds(s.relations);
    if s.focus.Some? {
      FocusKeeps(s.focus.value, s.engineRevision);
    }
    assert EntitiesHold(Thaw(s));
    assert RelationsHold(Thaw(s));
  }

  // ----- Freezing -----

  lemma FrozenRecordKeeps(r: Record, engineRevision: Option<nat>)
    requires ValidRecord(r, engineRevision)
    ensures FrozenRecord(r) == r
  {
    DistinctKeeps(r.sources);
  }

  lemma {:induction false} FrozenEntitiesHold(order: seq<Label>, m: map<Label, Entity>, engineRevision: Option<nat>)
    requires AllDistinct(order)
    requires forall l :: l in m ==> m[l].name == l && ValidRecord(m[l].seen, engineRevision)
    ensures var es := FrozenEntities(order, m);
      && (forall e :: e in es ==> e.name in order && e.name in m && m[e.name] == e)
      && (forall l :: l in order && l in m ==> m[l] in es)
      && (forall i, j :: 0 <= i < j < |es| ==> es[i].name != es[j].name)
  {
    hide ValidRecord;
    if order != [] {
      FrozenEntitiesHold(order[1..], m, engineRevision);
      if order[0] in m {
        FrozenRecordKeeps(m[order[0]].seen, engineRevision);
      }
      assert order == [order[0]] + order[1..];
    }
  }

  lemma {:induction false} FrozenRelationsHold(
    order: seq<RelationId>, m: map<RelationId, Relation>, engineRevision: Option<nat>)
    requires AllDistinct(order)
    requires forall r :: r in m ==> m[r].id == r && ValidRecord(m[r].seen, engineRevision)
    ensures var xs := FrozenRelations(order, m);
      && (forall x :: x in xs ==> x.id in order && x.id in m && m[x.id] == x)
      && (forall r :: r in order && r in m ==> m[r] in xs)
      && (forall i, j :: 0 <= i < j < |xs| ==> xs[i].id != xs[j].id)
  {
    hide ValidRecord;
    if order != [] {
      FrozenRelationsHold(order[1..], m, engineRevision);
      if order[0] in m {
        FrozenRecordKeeps(m[order[0]].seen, engineRevision);
      }
      assert order == [order[0]] + order[1..];
    }
  }

  lemma {:induction false} ChosenDistinct<K(!new)>(order: seq<K>, chosen: set<K>)
    requires AllDistinct(order)
    ensures AllDistinct(Chosen(order, chosen))
  {
    if order != [] {
      ChosenDistinct(order[1..], chosen);
      assert order == [order[0]] + order[1..];
      var rest := Chosen(order[1..], chosen);
      assert forall i :: 0 <= i < |rest| ==> rest[i] in order[1..];
    }
  }

  lemma OrdersComplete()
    ensures AllDistinct(LABELS) && forall l: Label :: l in LABELS
    ensures AllDistinct(RELATION_IDS) && forall r: RelationId :: r in RELATION_IDS
  {
    assert LABELS[0] == Door && LABELS[1] == House && LABELS[2] == Leaflet && LABELS[3] == Mailbox;
    assert RELATION_IDS[0] == DoorBoarded && RELATION_IDS[1] == HouseEastOfPlayer && RELATION_IDS[2] == LeafletHere;
    assert RELATION_IDS[3] == MailboxHere && RELATION_IDS[4] == MailboxOpen && RELATION_IDS[5] == PlayerWestOfHouse;
    forall l: Label ensures l in LABELS {
      assert l.Door? || l.House? || l.Leaflet? || l.Mailbox?;
    }
    forall r: RelationId ensures r in RELATION_IDS {
      assert r.DoorBoarded? || r.HouseEastOfPlayer? || r.LeafletHere? || r.MailboxHere? || r.MailboxOpen? ||
             r.PlayerWestOfHouse?;
    }
  }

  lemma FreezeAccepted(c: Cursor, m: Memory)
    requires Holds(m) && CursorAccepted(c, m.engineRevision)
    ensures Accepted(Freeze(c, m)) && Paired(Freeze(c, m))
  {
    hide ValidRecord, PendingAccepted, BuildAffordances, Shape, Supported, FrozenEntities, FrozenRelations, Chosen,
      FrozenRecord, FrozenSources, ValidSources;
    var s := Freeze(c, m);
    FrozenEntitiesHold(LABELS, m.entities, m.engineRevision);
    FrozenRelationsHold(RELATION_IDS, m.relations, m.engineRevision);
    ChosenDistinct(LABELS, m.current);
    ChosenDistinct(RELATION_IDS, m.currentRelations);
    OrdersComplete();
    assert (set l | l in s.current) == m.current;
    if m.location.Some? {
      FrozenRecordKeeps(m.location.value, m.engineRevision);
    }
    assert EntitiesAccepted(s);
    assert RelationsAccepted(s);
    assert PairAccepted(s);
  }

  // ----- Taking in one event -----

  /** Numbers as the event contracts have them. */
  predicate WellFormed(e: Event) {
    && e.sequence <= MAX_SAFE
    && match e.payload
       case Elsewhere => true
       case Committed(_, revision, _) => revision <= MAX_SAFE
       case Output(revision, _) => revision <= MAX_SAFE
  }

  /** The event is a commit that the scene waits for the output of. */
  predicate TakesUp(s: Scene, e: Event) {
    && e.payload.Committed?
    && s.engineRevision == Some(e.payload.previousRevision) && e.payload.revision == e.payload.previousRevision + 1
  }

  /** What the validator asks of the identities that this event brings into the scene. */
  predicate Identified(s: Scene, e: Event) {
    && Bounded(e.id)
    && (s.cursor.sessionId == None ==> Bounded(e.sessionId))
    && (TakesUp(s, e) ==> Bounded(e.payload.command) && Bounded(e.correlationId))
  }

  /** The objects of the relations are shown with them, the place with the directions, and east with west. */
  ghost predicate Closed(shown: Shown) {
    && (forall r :: r in shown.relations ==> Supported(Shape(r), shown.labels, shown.location))
    && (HouseEastOfPlayer in shown.relations <==> PlayerWestOfHouse in shown.relations)
  }

  lemma ShownByClosed(t: Texts, command: Option<string>, revision: nat, text: string)
    ensures Closed(ShownBy(t, command, revision, text)) && Closed(NOTHING)
  {
    hide ShowsRoom, Reveals, Refuses, Utf8.Utf16Length;
  }

  lemma NotedHolds(before: Option<Record>, id: string, revision: nat, engineRevision: Option<nat>)
    requires before.Some? ==> ValidRecord(before.value, engineRevision)
    requires engineRevision.Some? ==> engineRevision.value <= revision
    requires Bounded(id) && revision <= MAX_SAFE
    ensures ValidRecord(Noted(before, id, revision), Some(revision))
  {
    hide Bounded;
  }

  lemma LaterHolds(r: Record, before: Option<nat>, revision: nat)
    requires ValidRecord(r, before) && (before.Some? ==> before.value <= revision)
    ensures ValidRecord(r, Some(revision))
  {
  }

  lemma NotedEntitiesHold(m: map<Label, Entity>, labels: set<Label>, id: string, revision: nat, before: Option<nat>)
    requires forall l :: l in m ==> m[l].name == l && ValidRecord(m[l].seen, before)
    requires before.Some? ==> before.value <= revision
    requires Bounded(id) && revision <= MAX_SAFE
    ensures var m' := NotedEntities(m, labels, id, revision);
      forall l :: l in m' ==> m'[l].name == l && ValidRecord(m'[l].seen, Some(revision))
  {
    hide Bounded, Noted, ValidSources;
    var m' := NotedEntities(m, labels, id, revision);
    forall l | l in m' ensures m'[l].name == l && ValidRecord(m'[l].seen, Some(revision)) {
      NotedHolds(if l in m then Some(m[l].seen) else None, id, revision, before);
    }
  }

  lemma NotedRelationsHold(
    m: map<RelationId, Relation>, ids: set<RelationId>, id: string, revision: nat, before: Option<nat>)
    requires forall r :: r in m ==> m[r].id == r && m[r].fact == Shape(r) && ValidRecord(m[r].seen, before)
    requires before.Some? ==> before.value <= revision
    requires Bounded(id) && revision <= MAX_SAFE
    ensures var m' := NotedRelations(m, ids, id, revision);
      forall r :: r in m' ==> m'[r].id == r && m'[r].fact == Shape(r) && ValidRecord(m'[r].seen, Some(revision))
  {
    hide Bounded, Noted, ValidSources;
    var m' := NotedRelations(m, ids, id, revision);
    forall r | r in m' ensures m'[r].id == r && m'[r].fact == Shape(r) && ValidRecord(m'[r].seen, Some(revision)) {
      NotedHolds(if r in m then Some(m[r].seen) else None, id, revision, before);
      assert Told(r) == Shape(r);
    }
  }

  lemma MoreSupported(f: Fact, current: set<Label>, atLocation: bool, more: set<Label>, also: bool)
    requires Supported(f, current, atLocation)
    ensures Supported(f, current + more, atLocation || also)
  {
  }

  lemma RememberHolds(m: Memory, shown: Shown, id: string, revision: nat)
    requires EntitiesHold(m) && RelationsHold(m) && Closed(shown)
    requires m.location.Some? ==> ValidRecord(m.location.value, m.engineRevision)
    requires m.atLocation ==> m.location.Some?
    requires m.engineRevision.Some? ==> m.engineRevision.value <= revision
    requires Bounded(id) && revision <= MAX_SAFE
    ensures var m' := Remember(m, shown, id, revision).(engineRevision := Some(revision));
      && EntitiesHold(m') && RelationsHold(m')
      && (m'.location.Some? ==> ValidRecord(m'.location.value, m'.engineRevision))
      && (m'.atLocation ==> m'.location.Some?)
  {
    hide Bounded, ValidRecord, Noted, Shape, Told, Supported;
    forall r | r in m.currentRelations + shown.relations
      ensures Supported(Shape(r), m.current + shown.labels, m.atLocation || shown.location)
    {
      if r in m.currentRelations {
        MoreSupported(Shape(r), m.current, m.atLocation, shown.labels, shown.location);
      } else {
        MoreSupported(Shape(r), shown.labels, shown.location, m.current, m.atLocation);
        assert m.current + shown.labels == shown.labels + m.current;
      }
    }
    NotedEntitiesHold(m.entities, shown.labels, id, revision, m.engineRevision);
    NotedRelationsHold(m.relations, shown.relations, id, revision, m.engineRevision);
    NotedHolds(m.location, id, revision, m.engineRevision);
    if m.location.Some? {
      LaterHolds(m.location.value, m.engineRevision, revision);
    }
  }

  lemma PairAbout(l: Label)
    ensures About(Shape(HouseEastOfPlayer), l) <==> About(Shape(PlayerWestOfHouse), l)
  {
  }

  lemma WithoutHolds(m: Memory, l: Label)
    requires Holds(m)
    ensures Holds(Without(m, l))
  {
    hide ValidRecord, FocusAccepted, PendingAccepted, Shape, FrozenFocus;
    PairAbout(l);
    assert RelationsHold(Without(m, l));
  }

  lemma UnsettledHolds(t: Texts, m: Memory, answered: Option<Pending>, revision: nat, text: string)
    requires Holds(m)
    ensures Holds(Unsettled(t, m, answered, revision, text))
  {
    hide ValidRecord, Refuses, MovedObject, FocusAccepted, PendingAccepted, Moves, Shape, FrozenFocus, Without,
      Supported;
    if answered.Some? && MovedObject(answered.value.command).Some? {
      WithoutHolds(m, MovedObject(answered.value.command).value);
    }
  }

  lemma FocusHolds(answered: Pending, e: Event, name: Label, revision: nat)
    requires Bounded(answered.command) && Bounded(answered.sourceEventId) && Bounded(e.id) && revision <= MAX_SAFE
    ensures FocusAccepted(
              FrozenFocus(Focus(name, answered.command, revision, [answered.sourceEventId, e.id])), Some(revision))
  {
    hide Bounded;
    var values := [answered.sourceEventId, e.id];
    assert values[..1] == [answered.sourceEventId] && [answered.sourceEventId][..0] == [];
    assert Distinct([answered.sourceEventId]) == [answered.sourceEventId];
    assert Distinct(values) == if answered.sourceEventId == e.id then [e.id] else values;
  }

  lemma HeardHolds(t: Texts, m: Memory, e: Event, revision: nat, text: string)
    requires Holds(m) && Bounded(e.id) && revision <= MAX_SAFE
    requires m.engineRevision.Some? ==> m.engineRevision.value < revision
    ensures Holds(Heard(t, true, m, e, revision, text))
  {
    hide NotedEntities, NotedRelations, ShownBy, ValidRecord, Bounded, Closed, FrozenFocus, Shape, Supported,
      MovedObject,
      CommandObject, Refuses, Moves, FocusAccepted;
    var answered := Answered(m, e, revision);
    UnsettledHolds(t, m, answered, revision, text);
    ShownByClosed(t, CommandOf(answered), revision, text);
    RememberHolds(Unsettled(t, m, answered, revision, text), ShownBy(t, CommandOf(answered), revision, text), e.id, revision);
    if answered.Some? && CommandObject(answered.value.command).Some? {
      FocusHolds(answered.value, e, CommandObject(answered.value.command).value, revision);
    }
    var after := Heard(t, true, m, e, revision, text);
    assert RestHolds(after);
  }

  lemma AdvanceHolds(s: Scene, e: Event)
    requires Accepted(s) && Paired(s) && WellFormed(e) && Identified(s, e)
    ensures Holds(Advance(s.cursor.texts, true, Thaw(s), e))
  {
    hide EntityMap, RelationMap, Accepted, Paired, Heard, Bounded, FrozenFocus, FocusAccepted, ValidRecord, Shape,
      Supported;
    ThawHolds(s);
    if e.payload.Output? && (s.engineRevision == None || s.engineRevision.value < e.payload.revision) {
      HeardHolds(s.cursor.texts, Thaw(s), e, e.payload.revision, e.payload.exactText);
    }
  }

  /**
   One step, for any scene that the validator accepts: what the reducer makes of the next event is accepted exactly if
   the identities that the event brings in are bounded - and a caller can see that before the call.
   */
  lemma AcceptedIffIdentified(s: Scene, e: Event)
    requires Accepted(s) && Paired(s) && WellFormed(e)
    ensures Paired(Projected(s, e)) || !Identified(s, e)
    ensures Accepted(Projected(s, e)) <==> Ignores(s.cursor, e) || Identified(s, e)
  {
    hide Heard, EntitiesHold, RelationsHold, Bounded, EntitiesAccepted, RelationsAccepted, LocationAccepted,
      PairAccepted, BuildAffordances,
      FrozenEntities, FrozenRelations, EntityMap, RelationMap, FrozenSources, Chosen;
    if !Ignores(s.cursor, e) && Identified(s, e) {
      AdvanceHolds(s, e);
      FreezeAccepted(Moved(s.cursor, e), Advance(s.cursor.texts, true, Thaw(s), e));
    }
  }

  lemma BlankAccepted(texts: Texts)
    ensures Accepted(Blank(texts, true)) && Paired(Blank(texts, true))
  {
    hide BuildAffordances;
    FreezeAccepted(Cursor(texts, true, None, 0, None), BLANK);
  }

  /** A new scene is accepted exactly if it is of the reviewed story, id and artifact hash both. */
  lemma CreatedAcceptedIffReviewed(texts: Texts, story: Story)
    ensures Accepted(Created(texts, story)) <==> story == REVIEWED
  {
    hide BuildAffordances;
    if story == REVIEWED {
      BlankAccepted(texts);
    }
  }

  /** An event id of one character more than the validator takes. */
  function LongId(): string {
    seq(MAX_IDENTITY + 1, _ => 'e')
  }

  lemma {:induction false} PlainLength(s: string)
    requires forall i :: 0 <= i < |s| ==> s[i] as int < 0x1_0000
    ensures Utf8.Utf16Length(s) == |s|
  {
    if s != "" {
      PlainLength(s[1..]);
    }
  }

  /**
   The event allocator takes any nonempty id, so it takes one that is too long for the validator; the scene that the
   reducer makes of such an event is refused.
   */
  lemma LongIdRefused(texts: Texts, sequence: nat)
    requires 0 < sequence <= MAX_SAFE
    ensures EventLog.Usable(EventLog.Supply(LongId(), true))
    ensures var e := Event("session", LongId(), sequence, "turn", None, Elsewhere);
      && WellFormed(e) && Accepted(Blank(texts, true))
      && !Accepted(Projected(Blank(texts, true), e))
  {
    hide Accepted, Paired, Blank, Freeze, Advance, Thaw;
    BlankAccepted(texts);
    PlainLength(LongId());
    var e := Event("session", LongId(), sequence, "turn", None, Elsewhere);
    assert !Ignores(Blank(texts, true).cursor, e) by {
      BlankStart(texts);
    }
    AcceptedIffIdentified(Blank(texts, true), e);
  }

  lemma BlankStart(texts: Texts)
    ensures Blank(texts, true).cursor.throughSequence == 0 && Blank(texts, true).cursor.sessionId == None
  {
  }

  /** The reviewed story's scene after the first events of a log. */
  function After(texts: Texts, log: seq<Event>, n: nat): Scene
    requires n <= |log|
  {
    ProjectAll(Blank(texts, true), log[..n])
  }

  predicate WellTaken(texts: Texts, log: seq<Event>, n: nat)
    requires n < |log|
  {
    Ignores(After(texts, log, n).cursor, log[n]) || Identified(After(texts, log, n), log[n])
  }

  lemma AfterNext(texts: Texts, log: seq<Event>, n: nat)
    requires n < |log|
    ensures After(texts, log, n + 1) == Projected(After(texts, log, n), log[n])
  {
    assert log[..n + 1][..n] == log[..n];
  }

  lemma StepOfRun(texts: Texts, log: seq<Event>, n: nat)
    requires n < |log| && WellFormed(log[n])
    requires Accepted(After(texts, log, n)) && Paired(After(texts, log, n))
    ensures Accepted(After(texts, log, n + 1)) <==> WellTaken(texts, log, n)
    ensures Accepted(After(texts, log, n + 1)) ==> Paired(After(texts, log, n + 1))
  {
    hide Accepted, Paired, Identified, WellFormed, Freeze, Advance, Thaw, After;
    AfterNext(texts, log, n);
    AcceptedIffIdentified(After(texts, log, n), log[n]);
  }

  lemma FirstScene(texts: Texts, log: seq<Event>)
    ensures After(texts, log, 0) == Blank(texts, true)
    ensures Accepted(After(texts, log, 0)) && Paired(After(texts, log, 0))
  {
    hide Accepted, Paired, Projected, Freeze;
    BlankAccepted(texts);
    assert log[..0] == [];
  }

  lemma {:induction false} AcceptedWhileWellTaken(texts: Texts, log: seq<Event>, n: nat)
    requires n <= |log| && forall e :: e in log ==> WellFormed(e)
    requires (forall k :: 0 <= k < n ==> WellTaken(texts, log, k)) ||
             (forall k :: 0 <= k <= n ==> Accepted(After(texts, log, k)))
    ensures Accepted(After(texts, log, n)) && Paired(After(texts, log, n))
    ensures forall k :: 0 <= k < n ==> WellTaken(texts, log, k)
  {
    hide Accepted, Paired, WellTaken, WellFormed, After;
    if n == 0 {
      FirstScene(texts, log);
    } else {
      AcceptedWhileWellTaken(texts, log, n - 1);
      StepOfRun(texts, log, n - 1);
    }
  }

  /**
   Whole runs: the validator accepts the scene of the reviewed story at every point of the log exactly if every event
   that the scene takes in brings bounded identities.
   */
  lemma AcceptedThroughout(texts: Texts, log: seq<Event>)
    requires forall e :: e in log ==> WellFormed(e)
    ensures (forall n :: 0 <= n <= |log| ==> Accepted(After(texts, log, n))) <==>
            (forall n :: 0 <= n < |log| ==> WellTaken(texts, log, n))
  {
    hide Accepted, WellTaken, After, WellFormed;
    if forall n :: 0 <= n < |log| ==> WellTaken(texts, log, n) {
      forall n | 0 <= n <= |log| ensures Accepted(After(texts, log, n)) {
        AcceptedWhileWellTaken(texts, log, n);
      }
    }
    if forall n :: 0 <= n <= |log| ==> Accepted(After(texts, log, n)) {
      AcceptedWhileWellTaken(texts, log, |log|);
    }
  }
}
