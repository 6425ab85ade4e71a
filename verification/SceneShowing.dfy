/**
 What each output makes of the scene, text by text: the four reviewed texts, each
 in answer to its commands, and everything else.
 */
module SceneShowing {
  import opened Wrappers
  import opened Scene
  import opened SceneValidator
  import Utf8

  /** The event is an output that a scene of the reviewed story takes in. */
  predicate Taken(s: Scene, e: Event) {
    && s.cursor.profiled && (s.cursor.sessionId == None || s.cursor.sessionId == Some(e.sessionId))
    && e.sequence > s.cursor.throughSequence && e.payload.Output?
    && (s.engineRevision == None || e.payload.revision > s.engineRevision.value)
  }

  /** It answers this command, the one committed last. */
  predicate Answers(s: Scene, e: Event, command: string) {
    && e.payload.Output? && e.causationId.Some?
    && s.pending == Some(Pending(command, e.payload.revision, e.causationId.value, e.correlationId))
  }

  ghost predicate Unanswering(s: Scene, e: Event) {
    forall command :: !Answers(s, e, command)
  }

  predicate Steps(command: string) {
    command == "north" || command == "south" || command == "east" || command == "west" || command == "up"
    || command == "down"
  }

  predicate Short(text: string) {
    Utf8.Utf16Length(text) <= 32_768
  }

  function Objects(s: Scene): set<Label> {
    set l | l in s.current
  }

  function Facts(s: Scene): set<RelationId> {
    set r | r in s.currentRelations
  }

  lemma FrozenSets(c: Cursor, m: Memory)
    ensures Objects(Freeze(c, m)) == m.current && Facts(Freeze(c, m)) == m.currentRelations
  {
    hide BuildAffordances, FrozenEntities, FrozenRelations, FrozenRecord, FrozenSources;
    OrdersComplete();
  }

  lemma AnsweredOf(s: Scene, e: Event)
    requires e.payload.Output?
    ensures Unanswering(s, e) ==> Answered(Thaw(s), e, e.payload.revision) == None
    ensures forall command :: Answers(s, e, command) ==>
      Answered(Thaw(s), e, e.payload.revision).Some? &&
      Answered(Thaw(s), e, e.payload.revision).value.command == command
  {
    hide EntityMap, RelationMap;
    if Answered(Thaw(s), e, e.payload.revision).Some? {
      assert Answers(s, e, s.pending.value.command);
    }
  }

  lemma StepsMove(command: string)
    ensures Steps(command) <==> Moves(command)
  {
  }

  /** One output, as the step on the scene's memory. */
  lemma HeardSets(s: Scene, e: Event)
    requires Taken(s, e)
    ensures var answered := Answered(Thaw(s), e, e.payload.revision);
      var unsettled := Unsettled(s.cursor.texts, Thaw(s), answered, e.payload.revision, e.payload.exactText);
      var shown := ShownBy(s.cursor.texts, CommandOf(answered), e.payload.revision, e.payload.exactText);
      var s' := Projected(s, e);
      && Objects(s') == unsettled.current + shown.labels
      && Facts(s') == unsettled.currentRelations + shown.relations
      && s'.atLocation == (unsettled.atLocation || shown.location)
      && (shown.location ==> s'.location.Some?)
      && s'.engineRevision == Some(e.payload.revision)
  {
    hide Freeze, Thaw, ShownBy, Unsettled, Answered, NotedEntities, NotedRelations, FocusAfter;
    var m := Advance(s.cursor.texts, true, Thaw(s), e);
    ThawCursor(s);
    FrozenSets(Moved(s.cursor, e), m);
    FrozenPlace(Moved(s.cursor, e), m);
  }

  lemma ThawCursor(s: Scene)
    ensures var m := Thaw(s);
      m.engineRevision == s.engineRevision && m.pending == s.pending && m.current == Objects(s)
      && m.currentRelations == Facts(s) && m.atLocation == s.atLocation && m.location == s.location
  {
    hide EntityMap, RelationMap;
  }

  lemma FrozenPlace(c: Cursor, m: Memory)
    ensures var s := Freeze(c, m);
      s.atLocation == m.atLocation && (m.location.Some? ==> s.location.Some?) && s.engineRevision == m.engineRevision
  {
    hide BuildAffordances, FrozenEntities, FrozenRelations, FrozenSources, Chosen;
  }

  // The four texts

  /** The opening text, at revision zero and in answer to nothing, shows house, door and mailbox west of the house. */
  lemma BootShows(s: Scene, e: Event)
    requires Taken(s, e) && Unanswering(s, e)
    requires e.payload.revision == 0 && e.payload.exactText == s.cursor.texts.boot && Short(e.payload.exactText)
    ensures var s' := Projected(s, e);
      && Objects(s') == Objects(s) + {House, Door, Mailbox}
      && Facts(s') == Facts(s) + {PlayerWestOfHouse, HouseEastOfPlayer, DoorBoarded, MailboxHere}
      && s'.atLocation && s'.location.Some?
  {
    hide Projected, Thaw, Answered, Utf8.Utf16Length;
    AnsweredOf(s, e);
    HeardSets(s, e);
    ThawCursor(s);
  }

  /** The room text shows the same in answer to "look", and afresh in answer to a movement. */
  lemma RoomShows(s: Scene, e: Event, command: string)
    requires Taken(s, e) && Answers(s, e, command) && (command == "look" || Steps(command))
    requires e.payload.exactText == s.cursor.texts.room && Short(e.payload.exactText)
    ensures var s' := Projected(s, e);
      && Objects(s') == (if command == "look" then Objects(s) else {}) + {House, Door, Mailbox}
      && Facts(s') == (if command == "look" then Facts(s) else {}) +
        {PlayerWestOfHouse, HouseEastOfPlayer, DoorBoarded, MailboxHere}
      && s'.atLocation && s'.location.Some?
  {
    hide Projected, Thaw, Answered, Utf8.Utf16Length, Moves;
    AnsweredOf(s, e);
    HeardSets(s, e);
    ThawCursor(s);
    StepsMove(command);
    if command == "look" {
      LookStays();
    }
  }

  lemma LookStays()
    ensures !Steps("look") && !("read " <= "look") && !("take " <= "look")
  {
    assert "look"[0] == 'l' && "read "[0] == 'r' && "take "[0] == 't';
  }

  /** Opening the mailbox shows the leaflet, when the game says so. */
  lemma RevelationShows(s: Scene, e: Event)
    requires Taken(s, e) && Answers(s, e, "open mailbox")
    requires e.payload.exactText == s.cursor.texts.revelation && Short(e.payload.exactText)
    ensures var s' := Projected(s, e);
      && Objects(s') == Objects(s) + {Mailbox, Leaflet}
      && Facts(s') == Facts(s) + {MailboxHere, LeafletHere, MailboxOpen}
      && s'.atLocation == s.atLocation
  {
    hide Projected, Thaw, Answered, Utf8.Utf16Length, Moves;
    AnsweredOf(s, e);
    HeardSets(s, e);
    ThawCursor(s);
    StepsMove("open mailbox");
    OpenStays();
  }

  lemma OpenStays()
    ensures !Steps("open mailbox") && "open mailbox" != "look"
    ensures !("read " <= "open mailbox") && !("take " <= "open mailbox")
  {
    assert "open mailbox"[0] == 'o' && "read "[0] == 'r' && "take "[0] == 't';
  }

  /** A mailbox that cannot be read is there, and nothing else changes. */
  lemma RefusalShows(s: Scene, e: Event)
    requires Taken(s, e) && Answers(s, e, "read mailbox")
    requires e.payload.exactText == s.cursor.texts.refusal && Short(e.payload.exactText)
    ensures var s' := Projected(s, e);
      Objects(s') == Objects(s) + {Mailbox} && Facts(s') == Facts(s) + {MailboxHere} && s'.atLocation == s.atLocation
  {
    hide Projected, Thaw, Answered, Utf8.Utf16Length, Moves;
    AnsweredOf(s, e);
    HeardSets(s, e);
    ThawCursor(s);
    StepsMove("read mailbox");
    assert "read mailbox"[0] == 'r';
    assert !Steps("read mailbox") && "read mailbox" != "look" && "read mailbox" != "open mailbox";
  }

  // Every other text

  /** None of the four texts in its place. */
  ghost predicate Other(s: Scene, e: Event) {
    e.payload.Output? && var text := e.payload.exactText;
    || !Short(text)
    || (&& (Unanswering(s, e) && e.payload.revision == 0 ==> text != s.cursor.texts.boot)
        && forall command :: Answers(s, e, command) ==>
          && (command == "look" || Steps(command) ==> text != s.cursor.texts.room)
          && (command == "open mailbox" ==> text != s.cursor.texts.revelation)
          && (command == "read mailbox" ==> text != s.cursor.texts.refusal))
  }

  /** Any other text shows nothing; what was known can only be given up. */
  lemma OthersShowNothing(s: Scene, e: Event)
    requires Taken(s, e) && Other(s, e)
    ensures var s' := Projected(s, e);
      && Objects(s') <= Objects(s) && Facts(s') <= Facts(s) && (s'.atLocation ==> s.atLocation)
      && (Unanswering(s, e) && e.payload.revision > 0 ==> Objects(s') == {} && Facts(s') == {} && !s'.atLocation)
      && (Unanswering(s, e) && e.payload.revision == 0 ==> Objects(s') == Objects(s) && Facts(s') == Facts(s))
      && (forall command :: Answers(s, e, command) && Steps(command) ==>
        Objects(s') == {} && Facts(s') == {} && !s'.atLocation)
  {
    hide Projected, Thaw, Answered, Utf8.Utf16Length, Moves, Steps, MovedObject;
    AnsweredOf(s, e);
    HeardSets(s, e);
    ThawCursor(s);
    var answered := Answered(Thaw(s), e, e.payload.revision);
    if answered.Some? {
      StepsMove(answered.value.command);
      assert Answers(s, e, answered.value.command) by {
        AnswersOf(s, e);
      }
    }
  }

  lemma AnswersOf(s: Scene, e: Event)
    requires e.payload.Output? && Answered(Thaw(s), e, e.payload.revision).Some?
    ensures Answers(s, e, Answered(Thaw(s), e, e.payload.revision).value.command)
  {
    hide EntityMap, RelationMap;
  }

  /** The commands that may move an object. */
  predicate Displaces(command: string, l: Label) {
    match l
    case Door => command == "read door" || command == "take door"
    case House => command == "read house" || command == "take house"
    case Leaflet => command == "read leaflet" || command == "take leaflet"
    case Mailbox => command == "read mailbox" || command == "take mailbox"
  }

  function FactsAbout(l: Label): set<RelationId> {
    match l
    case Door => {DoorBoarded}
    case House => {PlayerWestOfHouse, HouseEastOfPlayer}
    case Leaflet => {LeafletHere}
    case Mailbox => {MailboxHere, MailboxOpen}
  }

  lemma FirstLetter(command: string)
    ensures "read " <= command ==> command[0] == 'r'
    ensures "take " <= command ==> command[0] == 't'
    ensures |command| >= 5 && command[..5] == "read " ==> "read " <= command
    ensures |command| >= 5 && command[..5] == "take " ==> "take " <= command
  {
  }

  lemma MovedIff(command: string, l: Label)
    ensures MovedObject(command) == Some(l) <==> Displaces(command, l)
  {
    FirstLetter(command);
    if Displaces(command, l) {
      assert command[..5] == "read " || command[..5] == "take ";
    }
  }

  lemma WithoutFacts(s: Scene, l: Label)
    requires Accepted(s) && Paired(s)
    ensures Without(Thaw(s), l).current == Objects(s) - {l}
    ensures Without(Thaw(s), l).currentRelations == Facts(s) - FactsAbout(l)
    ensures Without(Thaw(s), l).atLocation == s.atLocation
  {
    hide Accepted, Paired, Thaw, EntitiesHold, RestHolds, ValidRecord, Supported, Shape, FactsAbout, About;
    ThawHolds(s);
    ThawCursor(s);
    var m := Thaw(s);
    forall r | r in m.currentRelations
      ensures r in m.relations && (About(m.relations[r].fact, l) <==> r in FactsAbout(l))
    {
      assert m.relations[r].fact == Shape(r);
      AboutShape(r, l);
    }
  }

  lemma AboutShape(r: RelationId, l: Label)
    ensures About(Shape(r), l) <==> r in FactsAbout(l)
  {
  }

  /**
   In answer to a command that moves nobody, any other text keeps everything, but for the object that is read or taken:
   that object, and what was known of it, is given up.
   */
  lemma OthersKeep(s: Scene, e: Event, command: string)
    requires Accepted(s) && Paired(s) && Taken(s, e) && Other(s, e) && Answers(s, e, command) && !Steps(command)
    requires command == "read mailbox" ==> e.payload.exactText != s.cursor.texts.refusal
    ensures var s' := Projected(s, e);
      && s'.atLocation == s.atLocation
      && (forall l :: Displaces(command, l) ==>
        Objects(s') == Objects(s) - {l} && Facts(s') == Facts(s) - FactsAbout(l))
      && ((forall l :: !Displaces(command, l)) ==> Objects(s') == Objects(s) && Facts(s') == Facts(s))
  {
    hide Projected, Thaw, Answered, Utf8.Utf16Length, Moves, Steps, MovedObject, Accepted, Paired, Displaces, FactsAbout,
      Without;
    AnsweredOf(s, e);
    HeardSets(s, e);
    ThawCursor(s);
    StepsMove(command);
    forall l
      ensures MovedObject(command) == Some(l) <==> Displaces(command, l)
    {
      MovedIff(command, l);
    }
    if MovedObject(command).Some? {
      WithoutFacts(s, MovedObject(command).value);
    }
  }

  // Events that are not taken in

  /** Another session's event, or one that is not after what the scene reaches, changes nothing at all. */
  predicate Foreign(s: Scene, e: Event) {
    (s.cursor.sessionId.Some? && s.cursor.sessionId != Some(e.sessionId)) || e.sequence <= s.cursor.throughSequence
  }

  /** An event of another kind, or an output that is not later than the engine is. */
  predicate Idle(s: Scene, e: Event) {
    || e.payload.Elsewhere?
    || (e.payload.Output? && s.engineRevision.Some? && e.payload.revision <= s.engineRevision.value)
  }

  /** Every event but a foreign one moves the scene on in the log; an idle one does nothing else. */
  lemma MovesOn(s: Scene, e: Event)
    ensures Foreign(s, e) ==> Projected(s, e) == s
    ensures !Foreign(s, e) ==>
              Projected(s, e).cursor == Cursor(s.cursor.texts, s.cursor.profiled, Some(e.sessionId), e.sequence, Some(e.id))
    ensures Idle(s, e) ==>
              var s' := Projected(s, e);
              && Objects(s') == Objects(s) && Facts(s') == Facts(s) && s'.atLocation == s.atLocation
              && s'.engineRevision == s.engineRevision && s'.pending == s.pending
  {
    hide Thaw, Freeze, Heard, BuildAffordances;
    ThawCursor(s);
    var m := Advance(s.cursor.texts, s.cursor.profiled, Thaw(s), e);
    FrozenSets(Moved(s.cursor, e), m);
    FrozenRest(Moved(s.cursor, e), m);
    FrozenPlace(Moved(s.cursor, e), m);
    FrozenCursor(Moved(s.cursor, e), m);
  }

  lemma FrozenCursor(c: Cursor, m: Memory)
    ensures Freeze(c, m).cursor == c
  {
    hide BuildAffordances, FrozenEntities, FrozenRelations, FrozenSources, Chosen;
  }

  // Commands and the object in focus

  /** A commit of the next revision is the command that a later output can answer; any other event leaves it. */
  lemma CommitPends(s: Scene, e: Event)
    requires !Ignores(s.cursor, e) && e.payload.Committed?
    ensures Projected(s, e).pending ==
      if s.engineRevision == Some(e.payload.previousRevision) && e.payload.revision == e.payload.previousRevision + 1
      then Some(Pending(e.payload.command, e.payload.revision, e.id, e.correlationId)) else s.pending
    ensures Objects(Projected(s, e)) == Objects(s) && Facts(Projected(s, e)) == Facts(s)
    ensures Projected(s, e).engineRevision == s.engineRevision
  {
    hide Thaw, Freeze;
    ThawCursor(s);
    var m := Advance(s.cursor.texts, s.cursor.profiled, Thaw(s), e);
    FrozenSets(Moved(s.cursor, e), m);
    FrozenRest(Moved(s.cursor, e), m);
  }

  lemma FrozenRest(c: Cursor, m: Memory)
    ensures var s := Freeze(c, m);
      && s.pending == m.pending && s.engineRevision == m.engineRevision
      && (s.focus.Some? <==> m.focus.Some?)
      && (m.focus.Some? ==>
        s.focus.value.name == m.focus.value.name && s.focus.value.command == m.focus.value.command
        && s.focus.value.revision == m.focus.value.revision)
  {
    hide BuildAffordances, FrozenEntities, FrozenRelations, FrozenSources, Chosen;
  }

  /** The object that a command names, in literal spelling. */
  predicate Names(command: string, l: Label) {
    match l
    case Door => command in ["examine door", "open door", "read door", "take door"]
    case House => command in ["examine house", "open house", "read house", "take house"]
    case Leaflet => command in ["examine leaflet", "open leaflet", "read leaflet", "take leaflet"]
    case Mailbox => command in ["examine mailbox", "open mailbox", "read mailbox", "take mailbox"]
  }

  lemma NamesObjectOf(command: string, l: Label)
    ensures CommandObject(command) == Some(l) <==> Names(command, l)
  {
  }

  /** The answer to a command about a known object puts that object in focus; no other output leaves one there. */
  lemma FocusTells(s: Scene, e: Event)
    requires Accepted(s) && Paired(s) && Taken(s, e)
    ensures var s' := Projected(s, e);
      && (s'.focus.Some? ==>
        && Answers(s, e, s'.focus.value.command) && Names(s'.focus.value.command, s'.focus.value.name)
        && s'.focus.value.revision == e.payload.revision)
      && (forall command, l :: Answers(s, e, command) && Names(command, l) && l in Objects(s') ==>
        s'.focus.Some? && s'.focus.value.name == l && s'.focus.value.command == command)
      && s'.pending == if s.pending.Some? && s.pending.value.revision <= e.payload.revision then None else s.pending
  {
    hide Accepted, Paired, Freeze, ShownBy, Thaw, Answered, Moves, Names, CommandObject, MovedObject, Refuses,
      NotedEntity, NotedRelations;
    AnsweredOf(s, e);
    ThawCursor(s);
    ThawHolds(s);
    hide RelationsHold, RestHolds, ValidRecord;
    var t, revision, text := s.cursor.texts, e.payload.revision, e.payload.exactText;
    var m := Advance(t, true, Thaw(s), e);
    FrozenSets(Moved(s.cursor, e), m);
    FrozenRest(Moved(s.cursor, e), m);
    assert m.current <= m.entities.Keys;
    var answered := Answered(Thaw(s), e, revision);
    if answered.Some? {
      AnswersOf(s, e);
      forall l
        ensures CommandObject(answered.value.command) == Some(l) <==> Names(answered.value.command, l)
      {
        NamesObjectOf(answered.value.command, l);
      }
      MoversNameNothing(answered.value.command);
    }
  }

  lemma MoversNameNothing(command: string)
    ensures Moves(command) ==> forall l :: !Names(command, l)
  {
  }

  // The first screen, word for word

  function FirstRecord(id: string): Record {
    Record([id], 0, 0)
  }

  /** What the reducer remembers of the opening text. */
  function FirstMemory(id: string): Memory {
    var seen := FirstRecord(id);
    Memory(
      Some(0),
      map[Door := Entity(Door, seen), House := Entity(House, seen), Mailbox := Entity(Mailbox, seen)],
      {Door, House, Mailbox}, Some(seen), true,
      map[
        DoorBoarded := Relation(DoorBoarded,
          Fact(Thing(Door), Boarded, None, Seen, "The house's front door is boarded."), seen),
        HouseEastOfPlayer := Relation(HouseEastOfPlayer,
          Fact(Thing(House), EastOfPlayer, Some(You), Inferred, "The house is east of you."), seen),
        MailboxHere := Relation(MailboxHere,
          Fact(Thing(Mailbox), Here, None, Seen, "The mailbox is here with you."), seen),
        PlayerWestOfHouse := Relation(PlayerWestOfHouse,
          Fact(You, WestOf, Some(Thing(House)), Seen, "You are west of the house."), seen)],
      {DoorBoarded, HouseEastOfPlayer, MailboxHere, PlayerWestOfHouse}, None, None)
  }

  lemma FirstNotes(id: string)
    ensures var shown := Shown({House, Door, Mailbox}, {PlayerWestOfHouse, HouseEastOfPlayer, DoorBoarded, MailboxHere}, true);
      Remember(BLANK, shown, id, 0).(engineRevision := Some(0)) == FirstMemory(id)
  {
    var shown := Shown({House, Door, Mailbox}, {PlayerWestOfHouse, HouseEastOfPlayer, DoorBoarded, MailboxHere}, true);
    var m := Remember(BLANK, shown, id, 0);
    assert m.entities == FirstMemory(id).entities;
    assert m.relations == FirstMemory(id).relations;
  }

  lemma FirstAdvance(texts: Texts, e: Event)
    requires e.payload == Output(0, texts.boot) && Short(texts.boot)
    ensures Advance(texts, true, BLANK, e) == FirstMemory(e.id)
  {
    hide Utf8.Utf16Length, NotedEntities, NotedRelations;
    FirstNotes(e.id);
  }

  lemma ThawBlank(texts: Texts)
    ensures Thaw(Blank(texts, true)) == BLANK
    ensures Blank(texts, true).cursor == Cursor(texts, true, None, 0, None)
  {
    hide BuildAffordances;
  }

  lemma OneSource(id: string)
    ensures FrozenSources([id]) == [id]
  {
    assert [id][..0] == [];
    assert Distinct([]) == [];
  }

  lemma FrozenEntitiesOf(m: map<Label, Entity>)
    requires m.Keys == {Door, House, Mailbox}
    requires forall l :: l in m ==> FrozenRecord(m[l].seen) == m[l].seen
    ensures FrozenEntities(LABELS, m) == [m[Door], m[House], m[Mailbox]]
  {
    hide FrozenRecord;
    var four := LABELS;
    var three, two, one := [House, Leaflet, Mailbox], [Leaflet, Mailbox], [Mailbox];
    assert four[1..] == three && three[1..] == two && two[1..] == one && one[1..] == [];
    assert FrozenEntities(one, m) == [m[Mailbox]];
    assert FrozenEntities(two, m) == [m[Mailbox]];
    assert FrozenEntities(three, m) == [m[House], m[Mailbox]];
  }

  lemma FrozenRelationsOf(m: map<RelationId, Relation>)
    requires m.Keys == {DoorBoarded, HouseEastOfPlayer, MailboxHere, PlayerWestOfHouse}
    requires forall r :: r in m ==> FrozenRecord(m[r].seen) == m[r].seen
    ensures FrozenRelations(RELATION_IDS, m) ==
      [m[DoorBoarded], m[HouseEastOfPlayer], m[MailboxHere], m[PlayerWestOfHouse]]
  {
    hide FrozenRecord;
    var five, four := [HouseEastOfPlayer, LeafletHere, MailboxHere, MailboxOpen, PlayerWestOfHouse],
      [LeafletHere, MailboxHere, MailboxOpen, PlayerWestOfHouse];
    var three, two, one := [MailboxHere, MailboxOpen, PlayerWestOfHouse], [MailboxOpen, PlayerWestOfHouse],
      [PlayerWestOfHouse];
    assert RELATION_IDS[1..] == five && five[1..] == four && four[1..] == three && three[1..] == two;
    assert two[1..] == one && one[1..] == [];
    assert FrozenRelations(one, m) == [m[PlayerWestOfHouse]];
    assert FrozenRelations(two, m) == [m[PlayerWestOfHouse]];
    assert FrozenRelations(three, m) == [m[MailboxHere], m[PlayerWestOfHouse]];
    assert FrozenRelations(four, m) == [m[MailboxHere], m[PlayerWestOfHouse]];
    assert FrozenRelations(five, m) == [m[HouseEastOfPlayer], m[MailboxHere], m[PlayerWestOfHouse]];
  }

  lemma ChosenLabels()
    ensures Chosen(LABELS, {Door, House, Mailbox}) == [Door, House, Mailbox]
  {
    var three, two, one := [House, Leaflet, Mailbox], [Leaflet, Mailbox], [Mailbox];
    var chosen := {Door, House, Mailbox};
    assert LABELS[1..] == three && three[1..] == two && two[1..] == one && one[1..] == [];
    assert Chosen(one, chosen) == [Mailbox] && Chosen(two, chosen) == [Mailbox];
    assert Chosen(three, chosen) == [House, Mailbox];
  }

  lemma ChosenStep<K(!new)>(k: K, rest: seq<K>, chosen: set<K>)
    ensures Chosen([k] + rest, chosen) == (if k in chosen then [k] else []) + Chosen(rest, chosen)
  {
    assert ([k] + rest)[1..] == rest;
  }

  lemma ChosenRelations()
    ensures Chosen(RELATION_IDS, {DoorBoarded, HouseEastOfPlayer, MailboxHere, PlayerWestOfHouse}) ==
      [DoorBoarded, HouseEastOfPlayer, MailboxHere, PlayerWestOfHouse]
  {
    var chosen := {DoorBoarded, HouseEastOfPlayer, MailboxHere, PlayerWestOfHouse};
    var two := [MailboxOpen, PlayerWestOfHouse];
    var four := [LeafletHere, MailboxHere] + two;
    ChosenStep(PlayerWestOfHouse, [], chosen);
    ChosenStep(MailboxOpen, [PlayerWestOfHouse], chosen);
    ChosenStep(MailboxHere, two, chosen);
    ChosenStep(LeafletHere, [MailboxHere] + two, chosen);
    ChosenStep(HouseEastOfPlayer, four, chosen);
    ChosenStep(DoorBoarded, [HouseEastOfPlayer] + four, chosen);
    hide Chosen;
    assert [MailboxOpen] + [PlayerWestOfHouse] == two && [LeafletHere] + ([MailboxHere] + two) == four;
    assert [PlayerWestOfHouse] + [] == [PlayerWestOfHouse];
    assert RELATION_IDS == [DoorBoarded] + ([HouseEastOfPlayer] + four);
    NoneChosen(chosen);
  }

  lemma NoneChosen(chosen: set<RelationId>)
    ensures Chosen([], chosen) == []
  {
  }

  lemma FirstFrozen(c: Cursor, id: string)
    ensures var s := Freeze(c, FirstMemory(id));
      var m := FirstMemory(id);
      && s.entities == [m.entities[Door], m.entities[House], m.entities[Mailbox]]
      && s.current == [Door, House, Mailbox]
      && s.relations == [m.relations[DoorBoarded], m.relations[HouseEastOfPlayer], m.relations[MailboxHere],
           m.relations[PlayerWestOfHouse]]
      && s.currentRelations == [DoorBoarded, HouseEastOfPlayer, MailboxHere, PlayerWestOfHouse]
      && s.location == Some(FirstRecord(id)) && s.atLocation && s.engineRevision == Some(0)
      && s.pending == None && s.focus == None && s.cursor == c
      && s.affordances ==
        if c.profiled then BuildAffordances(s.entities, s.current, s.relations, s.currentRelations) else []
  {
    hide BuildAffordances, FrozenSources, FrozenEntities, FrozenRelations, Chosen;
    OneSource(id);
    var m := FirstMemory(id);
    assert FrozenRecord(FirstRecord(id)) == FirstRecord(id);
    hide FrozenRecord;
    FrozenEntitiesOf(m.entities);
    FrozenRelationsOf(m.relations);
    ChosenLabels();
    ChosenRelations();
  }

  /** An offer without its sources. */
  datatype Offer = Offer(ruleId: string, object_: Option<Label>, spoken: string, riskTier: nat, priority: nat)

  function OfferOf(a: Affordance): Offer {
    Offer(a.ruleId, a.object_, a.spokenExample, a.riskTier, a.helpPriority)
  }

  function OffersOf(values: seq<Affordance>): (r: seq<Offer>)
    ensures |r| == |values|
  {
    seq(|values|, i requires 0 <= i < |values| => OfferOf(values[i]))
  }

  lemma CurrentAffordancesOf(entities: seq<Entity>, current: seq<Label>)
    requires |entities| == 3 && entities[0].name == Door && entities[1].name == House && entities[2].name == Mailbox
    requires current == [Door, House, Mailbox]
    ensures CurrentAffordances(entities, current, false) == [
      ForObject("grammar.examine", "examining the boarded door", 2, 20, entities[0]),
      ForObject("grammar.examine", "examining the house", 2, 30, entities[1]),
      ForObject("grammar.examine", "examining the mailbox", 2, 10, entities[2]),
      ForObject("grammar.open", "opening the mailbox", 3, 15, entities[2])]
  {
    hide ForObject;
    var two, one := entities[1..], entities[2..];
    assert two[1..] == one && one[1..] == [];
    assert CurrentAffordances(one, current, false) == ObjectAffordances(entities[2], false) + [];
    assert CurrentAffordances(two, current, false) == ObjectAffordances(entities[1], false) + CurrentAffordances(one, current, false);
  }

  lemma Sorts(a: Affordance, rest: seq<Affordance>)
    ensures ByPriority([a] + rest) == Inserted(a, ByPriority(rest))
  {
    assert ([a] + rest)[1..] == rest;
  }

  lemma Inserts(a: Affordance, first: Affordance, rest: seq<Affordance>)
    ensures Inserted(a, []) == [a]
    ensures [first] + rest != [] && ([first] + rest)[0] == first
    ensures a.helpPriority <= first.helpPriority ==> Inserted(a, [first] + rest) == [a] + ([first] + rest)
    ensures a.helpPriority > first.helpPriority ==> Inserted(a, [first] + rest) == [first] + Inserted(a, rest)
  {
    assert ([first] + rest)[1..] == rest;
  }

  /** Look and inventory, then the offers of door, house and mailbox, in the order of their priorities. */
  lemma SixSorted(
    look: Affordance, inventory: Affordance, door: Affordance, house: Affordance, mailbox: Affordance, open: Affordance)
    requires mailbox.helpPriority == 10 && open.helpPriority == 15 && door.helpPriority == 20
    requires house.helpPriority == 30 && look.helpPriority == 40 && inventory.helpPriority == 90
    ensures ByPriority([look, inventory, door, house, mailbox, open]) == [mailbox, open, door, house, look, inventory]
  {
    hide ByPriority, Inserted;
    assert ByPriority([]) == [] by {
      NothingSorted();
    }
    Sorts(open, []);
    Sorts(mailbox, [open]);
    Sorts(house, [mailbox, open]);
    Sorts(door, [house, mailbox, open]);
    Sorts(inventory, [door, house, mailbox, open]);
    Sorts(look, [inventory, door, house, mailbox, open]);
    Inserts(open, open, []);
    Inserts(mailbox, open, []);
    Inserts(house, mailbox, [open]);
    Inserts(house, open, []);
    Inserts(door, mailbox, [open, house]);
    Inserts(door, open, [house]);
    Inserts(door, house, []);
    Inserts(inventory, mailbox, [open, door, house]);
    Inserts(inventory, open, [door, house]);
    Inserts(inventory, door, [house]);
    Inserts(inventory, house, []);
    Inserts(look, mailbox, [open, door, house, inventory]);
    Inserts(look, open, [door, house, inventory]);
    Inserts(look, door, [house, inventory]);
    Inserts(look, house, [inventory]);
    Inserts(look, inventory, []);
    assert [open] + [] == [open] && [mailbox] + [open] == [mailbox, open];
    assert [house] + [] == [house] && [inventory] + [] == [inventory] && [door] + [house] == [door, house];
    assert [open] + [door, house] == [open, door, house] && [house] + [inventory] == [house, inventory];
    assert [door] + [house, inventory] == [door, house, inventory];
    assert [open] + [door, house, inventory] == [open, door, house, inventory];
    assert ByPriority([open]) == [open] && ByPriority([mailbox, open]) == [mailbox, open];
    assert [house] + [mailbox, open] == [house, mailbox, open] && [door] + [house, mailbox, open] == [door, house, mailbox, open];
    assert ByPriority([house, mailbox, open]) == [mailbox, open, house];
    assert [mailbox] + [open, house] == [mailbox, open, house] && [open] + [house] == [open, house];
    assert ByPriority([door, house, mailbox, open]) == [mailbox, open, door, house];
    assert [inventory] + [door, house, mailbox, open] == [inventory, door, house, mailbox, open];
    assert [mailbox] + [open, door, house] == [mailbox, open, door, house];
    assert ByPriority([inventory, door, house, mailbox, open]) == [mailbox, open, door, house, inventory];
    assert [look] + [inventory, door, house, mailbox, open] == [look, inventory, door, house, mailbox, open];
    assert [mailbox] + [open, door, house, inventory] == [mailbox, open, door, house, inventory];
  }

  lemma NothingSorted()
    ensures ByPriority([]) == []
  {
  }

  /** What is offered of house, door and closed mailbox. */
  lemma FirstOffers(
    entities: seq<Entity>, relations: seq<Relation>, current: seq<Label>, currentRelations: seq<RelationId>)
    requires |entities| == 3 && entities[0].name == Door && entities[1].name == House && entities[2].name == Mailbox
    requires current == [Door, House, Mailbox]
    requires forall r :: r in relations ==> r.fact.kind != Open
    ensures OffersOf(BuildAffordances(entities, current, relations, currentRelations)) == [
      Offer("grammar.examine", Some(Mailbox), "examining the mailbox", 2, 10),
      Offer("grammar.open", Some(Mailbox), "opening the mailbox", 3, 15),
      Offer("grammar.examine", Some(Door), "examining the boarded door", 2, 20),
      Offer("grammar.examine", Some(House), "examining the house", 2, 30),
      Offer("grammar.look", None, "looking around", 1, 40),
      Offer("grammar.inventory", None, "checking your inventory", 1, 90)]
  {
    var look := Affordance("grammar.look", None, "looking around", 1, 40, ["grammar.look"]);
    var inventory := Affordance("grammar.inventory", None, "checking your inventory", 1, 90, ["grammar.inventory"]);
    var door := ForObject("grammar.examine", "examining the boarded door", 2, 20, entities[0]);
    var house := ForObject("grammar.examine", "examining the house", 2, 30, entities[1]);
    var mailbox := ForObject("grammar.examine", "examining the mailbox", 2, 10, entities[2]);
    var open := ForObject("grammar.open", "opening the mailbox", 3, 15, entities[2]);
    CurrentAffordancesOf(entities, current);
    hide CurrentAffordances, ForObject, FrozenSources;
    assert !MailboxIsOpen(relations, currentRelations);
    SixSorted(look, inventory, door, house, mailbox, open);
    assert [look, inventory] + [door, house, mailbox, open] == [look, inventory, door, house, mailbox, open];
  }
  /**
   The first screen, word for word: the opening text, taken in by a new scene of the reviewed story, makes this scene and
   these offers.
   */
  lemma FirstScene(texts: Texts, e: Event)
    requires e.payload == Output(0, texts.boot) && Short(texts.boot) && e.sequence > 0
    ensures var s := Projected(Created(texts, REVIEWED), e);
      var seen := Record([e.id], 0, 0);
      && s.entities == [Entity(Door, seen), Entity(House, seen), Entity(Mailbox, seen)]
      && s.current == [Door, House, Mailbox] && s.location == Some(seen) && s.atLocation
      && s.relations == [
           Relation(DoorBoarded, Fact(Thing(Door), Boarded, None, Seen, "The house's front door is boarded."), seen),
           Relation(HouseEastOfPlayer,
             Fact(Thing(House), EastOfPlayer, Some(You), Inferred, "The house is east of you."), seen),
           Relation(MailboxHere, Fact(Thing(Mailbox), Here, None, Seen, "The mailbox is here with you."), seen),
           Relation(PlayerWestOfHouse, Fact(You, WestOf, Some(Thing(House)), Seen, "You are west of the house."), seen)]
      && s.currentRelations == [DoorBoarded, HouseEastOfPlayer, MailboxHere, PlayerWestOfHouse]
      && s.cursor == Cursor(texts, true, Some(e.sessionId), e.sequence, Some(e.id)) && s.engineRevision == Some(0)
      && OffersOf(s.affordances) == [
           Offer("grammar.examine", Some(Mailbox), "examining the mailbox", 2, 10),
           Offer("grammar.open", Some(Mailbox), "opening the mailbox", 3, 15),
           Offer("grammar.examine", Some(Door), "examining the boarded door", 2, 20),
           Offer("grammar.examine", Some(House), "examining the house", 2, 30),
           Offer("grammar.look", None, "looking around", 1, 40),
           Offer("grammar.inventory", None, "checking your inventory", 1, 90)]
  {
    hide Advance, Thaw, Freeze, Blank, BuildAffordances, OffersOf, Utf8.Utf16Length;
    ThawBlank(texts);
    FirstAdvance(texts, e);
    FirstFrozen(Moved(Blank(texts, true).cursor, e), e.id);
    var s := Projected(Created(texts, REVIEWED), e);
    FirstOffers(s.entities, s.relations, s.current, s.currentRelations);
  }
}
