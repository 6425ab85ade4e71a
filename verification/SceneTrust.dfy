/** What an accepted scene can be relied on for, and what it offers: said without the validator's own conditions. */
module SceneTrust {
  import opened Wrappers
  import opened Scene
  import opened SceneValidator
  import SceneAffordances
  import SceneShowing
  import Text
  import Utf8

  /** One to 160 units long, and no control character in it. */
  predicate Plain(s: string) {
    1 <= |s| && Utf8.Utf16Length(s) <= 160 && forall i :: 0 <= i < |s| ==> !Text.IsControl(s[i])
  }

  /** One to sixteen different, plain references. */
  predicate Refers(sources: seq<string>) {
    && 1 <= |sources| <= 16 && (forall i :: 0 <= i < |sources| ==> Plain(sources[i]))
    && forall i, j :: 0 <= i < j < |sources| ==> sources[i] != sources[j]
  }

  /** What was seen was seen no later than the engine is. */
  predicate Dated(r: Record, engineRevision: Option<nat>) {
    && Refers(r.sources) && engineRevision.Some?
    && r.firstSeen <= r.lastSeen <= engineRevision.value && r.lastSeen <= 9_007_199_254_740_991
  }

  predicate Knows(s: Scene, l: Label) {
    exists e :: e in s.entities && e.name == l && Dated(e.seen, s.engineRevision)
  }

  predicate Relates(s: Scene, r: RelationId) {
    exists x :: x in s.relations && x.id == r && Dated(x.seen, s.engineRevision)
  }

  lemma PlainIff(s: string)
    ensures Bounded(s) <==> Plain(s)
  {
    hide Utf8.Utf16Length, Text.IsControl;
  }

  lemma DatedIff(r: Record, engineRevision: Option<nat>)
    ensures ValidRecord(r, engineRevision) <==> Dated(r, engineRevision)
  {
    RefersIff(r.sources);
    hide ValidSources, Refers;
  }

  lemma RefersIff(sources: seq<string>)
    ensures ValidSources(sources) <==> Refers(sources)
  {
    hide Bounded, Plain;
    forall s
      ensures Bounded(s) <==> Plain(s)
    {
      PlainIff(s);
    }
  }

  /** Every object that is there, and the place, was seen; nothing was seen that is not on record with good references. */
  lemma ObjectsAreKnown(s: Scene)
    requires Accepted(s)
    ensures forall l :: l in s.current ==> Knows(s, l)
    ensures forall e :: e in s.entities ==> Dated(e.seen, s.engineRevision)
    ensures forall i, j :: 0 <= i < j < |s.entities| ==> s.entities[i].name != s.entities[j].name
    ensures forall i, j :: 0 <= i < j < |s.current| ==> s.current[i] != s.current[j]
    ensures s.location.Some? ==> Dated(s.location.value, s.engineRevision)
    ensures s.atLocation ==> s.location.Some?
  {
    hide RelationsAccepted, PairAccepted, CursorAccepted, BuildAffordances, ValidRecord, Dated, FocusAccepted,
      PendingAccepted;
    forall r
      ensures ValidRecord(r, s.engineRevision) <==> Dated(r, s.engineRevision)
    {
      DatedIff(r, s.engineRevision);
    }
  }

  /** The six things that can be known, word for word. */
  predicate Says(f: Fact, id: RelationId) {
    match id
    case PlayerWestOfHouse =>
      && f.subject == You && f.kind == WestOf && f.object_ == Some(Thing(House)) && f.confidence == Seen
      && f.statement == "You are west of the house."
    case HouseEastOfPlayer =>
      && f.subject == Thing(House) && f.kind == EastOfPlayer && f.object_ == Some(You) && f.confidence == Inferred
      && f.statement == "The house is east of you."
    case DoorBoarded =>
      && f.subject == Thing(Door) && f.kind == Boarded && f.object_ == None && f.confidence == Seen
      && f.statement == "The house's front door is boarded."
    case MailboxHere =>
      && f.subject == Thing(Mailbox) && f.kind == Here && f.object_ == None && f.confidence == Seen
      && f.statement == "The mailbox is here with you."
    case LeafletHere =>
      && f.subject == Thing(Leaflet) && f.kind == Here && f.object_ == None && f.confidence == Seen
      && f.statement == "The leaflet is here with you."
    case MailboxOpen =>
      && f.subject == Thing(Mailbox) && f.kind == Open && f.object_ == None && f.confidence == Seen
      && f.statement == "The mailbox is open."
  }

  lemma ShapeSays(f: Fact, id: RelationId)
    ensures f == Shape(id) <==> Says(f, id)
    ensures Told(id) == Shape(id)
  {
  }

  /** The object that a relation is about is there while it holds, and a direction holds only at its place. */
  predicate Stands(s: Scene, r: RelationId) {
    match r
    case PlayerWestOfHouse => House in s.current && s.atLocation
    case HouseEastOfPlayer => House in s.current && s.atLocation && PlayerWestOfHouse in s.currentRelations
    case DoorBoarded => Door in s.current
    case MailboxHere => Mailbox in s.current
    case LeafletHere => Leaflet in s.current
    case MailboxOpen => Mailbox in s.current
  }

  /** Every relation that holds is on record, says its own words, and its objects are there; east is read off west. */
  lemma RelationsAreKnown(s: Scene)
    requires Accepted(s)
    ensures forall r :: r in s.currentRelations ==> Relates(s, r) && Stands(s, r)
    ensures forall x :: x in s.relations ==> Says(x.fact, x.id) && Dated(x.seen, s.engineRevision)
    ensures forall i, j :: 0 <= i < j < |s.relations| ==> s.relations[i].id != s.relations[j].id
    ensures forall i, j :: 0 <= i < j < |s.currentRelations| ==> s.currentRelations[i] != s.currentRelations[j]
    ensures forall east :: east in s.relations && east.id == HouseEastOfPlayer ==>
              exists west :: west in s.relations && west.id == PlayerWestOfHouse && west.seen == east.seen
  {
    hide EntitiesAccepted, LocationAccepted, CursorAccepted, BuildAffordances, ValidRecord, Dated, FocusAccepted,
      PendingAccepted;
    forall r
      ensures ValidRecord(r, s.engineRevision) <==> Dated(r, s.engineRevision)
    {
      DatedIff(r, s.engineRevision);
    }
    forall f, id
      ensures f == Shape(id) <==> Says(f, id)
    {
      ShapeSays(f, id);
    }
    forall r | r in s.currentRelations
      ensures Relates(s, r) && Stands(s, r)
    {
      var x :| x in s.relations && x.id == r;
      assert Supported(x.fact, (set l | l in s.current), s.atLocation);
      assert x.fact == Shape(r);
      if r == HouseEastOfPlayer {
        assert PlayerWestOfHouse in s.currentRelations;
      }
    }
  }

  /** Where the scene stands in the log, what it waits for and what it is about. */
  lemma RestIsKnown(s: Scene)
    requires Accepted(s)
    ensures s.cursor.profiled && s.cursor.throughSequence <= 9_007_199_254_740_991
    ensures s.cursor.throughSequence == 0 <==> s.cursor.sessionId == None
    ensures s.cursor.throughSequence == 0 <==> s.cursor.throughEventId == None
    ensures s.cursor.sessionId.Some? ==> Plain(s.cursor.sessionId.value)
    ensures s.cursor.throughEventId.Some? ==> Plain(s.cursor.throughEventId.value)
    ensures s.engineRevision.Some? ==> s.engineRevision.value <= 9_007_199_254_740_991
    ensures s.pending.Some? ==>
              && Plain(s.pending.value.command) && Plain(s.pending.value.sourceEventId) && Plain(s.pending.value.correlationId)
              && s.pending.value.revision <= 9_007_199_254_740_991
              && (s.engineRevision.Some? ==> s.engineRevision.value < s.pending.value.revision)
    ensures s.focus.Some? ==>
              && Plain(s.focus.value.command) && Refers(s.focus.value.sources)
              && s.engineRevision.Some? && s.focus.value.revision <= s.engineRevision.value
              && exists e :: e in s.entities && e.name == s.focus.value.name
  {
    hide RelationsAccepted, PairAccepted, LocationAccepted, BuildAffordances, ValidRecord, Bounded, Plain, ValidSources,
      Refers;
    forall x
      ensures Bounded(x) <==> Plain(x)
    {
      PlainIff(x);
    }
    if s.focus.Some? {
      RefersIff(s.focus.value.sources);
    }
  }

  // What is offered

  /** The offer is made of this scene. */
  predicate Offered(s: Scene, o: SceneShowing.Offer) {
    || o == SceneShowing.Offer("grammar.look", None, "looking around", 1, 40)
    || o == SceneShowing.Offer("grammar.inventory", None, "checking your inventory", 1, 90)
    || (Leaflet in s.current && (
         || o == SceneShowing.Offer("grammar.examine", Some(Leaflet), "examining the leaflet", 2, 5)
         || o == SceneShowing.Offer("grammar.read", Some(Leaflet), "reading the leaflet", 3, 6)))
    || (Mailbox in s.current && o == SceneShowing.Offer("grammar.examine", Some(Mailbox), "examining the mailbox", 2, 10))
    || (Mailbox in s.current && MailboxOpen !in s.currentRelations
         && o == SceneShowing.Offer("grammar.open", Some(Mailbox), "opening the mailbox", 3, 15))
    || (Door in s.current && o == SceneShowing.Offer("grammar.examine", Some(Door), "examining the boarded door", 2, 20))
    || (House in s.current && o == SceneShowing.Offer("grammar.examine", Some(House), "examining the house", 2, 30))
  }

  predicate OffersOfName(l: Label, open: bool, o: SceneShowing.Offer) {
    match l
    case Leaflet =>
      || o == SceneShowing.Offer("grammar.examine", Some(Leaflet), "examining the leaflet", 2, 5)
      || o == SceneShowing.Offer("grammar.read", Some(Leaflet), "reading the leaflet", 3, 6)
    case Mailbox =>
      || o == SceneShowing.Offer("grammar.examine", Some(Mailbox), "examining the mailbox", 2, 10)
      || (!open && o == SceneShowing.Offer("grammar.open", Some(Mailbox), "opening the mailbox", 3, 15))
    case Door => o == SceneShowing.Offer("grammar.examine", Some(Door), "examining the boarded door", 2, 20)
    case House => o == SceneShowing.Offer("grammar.examine", Some(House), "examining the house", 2, 30)
  }

  lemma ObjectOffered(e: Entity, open: bool, o: SceneShowing.Offer)
    ensures Offers(e, open, o) <==> OffersOfName(e.name, open, o)
  {
    hide FrozenSources;
    var offers := ObjectAffordances(e, open);
    assert offers[0] in offers;
    if |offers| > 1 {
      assert offers[1] in offers;
    }
  }

  predicate Offers(e: Entity, open: bool, o: SceneShowing.Offer) {
    exists a :: a in ObjectAffordances(e, open) && SceneShowing.OfferOf(a) == o
  }

  predicate Makes(values: seq<Affordance>, o: SceneShowing.Offer) {
    exists a :: a in values && SceneShowing.OfferOf(a) == o
  }

  lemma {:induction false} CurrentOffered(
    entities: seq<Entity>, current: seq<Label>, open: bool, o: SceneShowing.Offer)
    ensures Makes(CurrentAffordances(entities, current, open), o) <==>
      exists e :: e in entities && e.name in current && Offers(e, open, o)
  {
    hide ObjectAffordances;
    if entities != [] {
      CurrentOffered(entities[1..], current, open, o);
      assert entities == [entities[0]] + entities[1..];
    }
  }

  lemma OpenIff(s: Scene)
    requires Accepted(s)
    ensures MailboxIsOpen(s.relations, s.currentRelations) <==> MailboxOpen in s.currentRelations
  {
    hide BuildAffordances, Dated;
    RelationsAreKnown(s);
    hide Accepted;
    if MailboxOpen in s.currentRelations {
      assert Relates(s, MailboxOpen);
    }
  }

  /** An accepted scene makes exactly these offers. */
  lemma OffersExactly(s: Scene, o: SceneShowing.Offer)
    requires Accepted(s)
    ensures Makes(s.affordances, o) <==> Offered(s, o)
  {
    hide CurrentAffordances, ObjectAffordances, MailboxIsOpen, Knows;
    SceneAffordances.OffersAreCurrent(s);
    ObjectsAreKnown(s);
    OpenIff(s);
    hide Accepted, BuildAffordances;
    var open := MailboxIsOpen(s.relations, s.currentRelations);
    var global := [
      Affordance("grammar.look", None, "looking around", 1, 40, ["grammar.look"]),
      Affordance("grammar.inventory", None, "checking your inventory", 1, 90, ["grammar.inventory"])];
    var offers := CurrentAffordances(s.entities, s.current, open);
    SameOffers(s.affordances, global + offers, o);
    GlobalOffered(global, offers, o);
    CurrentOffered(s.entities, s.current, open, o);
    KnownOffered(s, open, o);
  }

  lemma SameOffers(a: seq<Affordance>, b: seq<Affordance>, o: SceneShowing.Offer)
    requires multiset(a) == multiset(b)
    ensures Makes(a, o) <==> Makes(b, o)
  {
    assert forall x :: x in a <==> x in multiset(a);
    assert forall x :: x in b <==> x in multiset(b);
  }

  lemma GlobalOffered(global: seq<Affordance>, offers: seq<Affordance>, o: SceneShowing.Offer)
    requires |global| == 2
    ensures Makes(global + offers, o) <==>
      || o == SceneShowing.OfferOf(global[0]) || o == SceneShowing.OfferOf(global[1]) || Makes(offers, o)
  {
    assert global[0] in global + offers && global[1] in global + offers;
    assert forall a :: a in offers ==> a in global + offers;
  }

  lemma KnownOffered(s: Scene, open: bool, o: SceneShowing.Offer)
    requires forall l :: l in s.current ==> Knows(s, l)
    requires open <==> MailboxOpen in s.currentRelations
    ensures (exists e :: e in s.entities && e.name in s.current && Offers(e, open, o))
      || o == SceneShowing.Offer("grammar.look", None, "looking around", 1, 40)
      || o == SceneShowing.Offer("grammar.inventory", None, "checking your inventory", 1, 90)
      <==> Offered(s, o)
  {
    hide ObjectAffordances, Offers, Dated;
    forall e
      ensures Offers(e, open, o) <==> OffersOfName(e.name, open, o)
    {
      ObjectOffered(e, open, o);
    }
    if o.object_.Some? && o.object_.value in s.current {
      assert Knows(s, o.object_.value);
    }
  }
}
