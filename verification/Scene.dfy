/**
 The memory of the opening scene, folded from the events of a session: what the
 game has shown on the reviewed first screen, where each fact was read, and
 which of the facts still hold.
 */
module Scene {
  import opened Wrappers
  import Utf8

  const MAX_SOURCES: nat := 16
  const MAX_AFFORDANCES: nat := 12
  const MAX_OUTPUT_LENGTH: nat := 32_768

  /** In the order of their identifiers. */
  datatype Label = Door | House | Leaflet | Mailbox

  const LABELS: seq<Label> := [Door, House, Leaflet, Mailbox]

  datatype Being = You | Thing(name: Label)

  datatype Kind = WestOf | EastOfPlayer | Here | Boarded | Open

  datatype Confidence = Seen | Inferred

  /** In the order of their identifiers. */
  datatype RelationId = DoorBoarded | HouseEastOfPlayer | LeafletHere | MailboxHere | MailboxOpen | PlayerWestOfHouse

  const RELATION_IDS: seq<RelationId> :=
    [DoorBoarded, HouseEastOfPlayer, LeafletHere, MailboxHere, MailboxOpen, PlayerWestOfHouse]

  datatype Record = Record(sources: seq<string>, firstSeen: nat, lastSeen: nat)

  datatype Entity = Entity(name: Label, seen: Record)

  datatype Fact = Fact(subject: Being, kind: Kind, object_: Option<Being>, confidence: Confidence, statement: string)

  datatype Relation = Relation(id: RelationId, fact: Fact, seen: Record)

  datatype Affordance = Affordance(
    ruleId: string, object_: Option<Label>, spokenExample: string, riskTier: nat, helpPriority: nat,
    sourceIds: seq<string>)

  datatype Pending = Pending(command: string, revision: nat, sourceEventId: string, correlationId: string)

  datatype Focus = Focus(name: Label, command: string, revision: nat, sources: seq<string>)

  datatype Story = Story(id: string, artifactSha256: string)

  /** The four reviewed texts. They are only ever compared with, and everything below holds whatever they say. */
  datatype Texts = Texts(room: string, boot: string, revelation: string, refusal: string)

  /** Whether the story is the reviewed one, and how far into the log the scene reaches. */
  datatype Cursor = Cursor(
    texts: Texts, profiled: bool, sessionId: Option<string>, throughSequence: nat, throughEventId: Option<string>)

  /** The only location ever recorded is the one west of the house. */
  datatype Scene = Scene(
    cursor: Cursor, engineRevision: Option<nat>,
    entities: seq<Entity>, current: seq<Label>,
    location: Option<Record>, atLocation: bool,
    relations: seq<Relation>, currentRelations: seq<RelationId>,
    affordances: seq<Affordance>, pending: Option<Pending>, focus: Option<Focus>)

  datatype Payload =
    | Committed(previousRevision: nat, revision: nat, command: string)
    | Output(revision: nat, exactText: string)
    | Elsewhere

  datatype Event = Event(
    sessionId: string, id: string, sequence: nat, correlationId: string, causationId: Option<string>, payload: Payload)

  const REVIEWED: Story := Story(
    "zork1-release-119", "37084966477dff679282de42974b2077156b1bd68fad92a65d4ea94d8eb64d79")

  // ----- What the scene remembers while an event is taken in -----

  datatype Memory = Memory(
    engineRevision: Option<nat>,
    entities: map<Label, Entity>, current: set<Label>,
    location: Option<Record>, atLocation: bool,
    relations: map<RelationId, Relation>, currentRelations: set<RelationId>,
    pending: Option<Pending>, focus: Option<Focus>)

  function EntityMap(values: seq<Entity>): map<Label, Entity> {
    if values == [] then map[]
    else EntityMap(values[..|values| - 1])[values[|values| - 1].name := values[|values| - 1]]
  }

  function RelationMap(values: seq<Relation>): map<RelationId, Relation> {
    if values == [] then map[]
    else RelationMap(values[..|values| - 1])[values[|values| - 1].id := values[|values| - 1]]
  }

  function Thaw(s: Scene): Memory {
    Memory(
      s.engineRevision, EntityMap(s.entities), (set l | l in s.current), s.location, s.atLocation,
      RelationMap(s.relations), (set r | r in s.currentRelations), s.pending, s.focus)
  }

  /** Keeps the first of equal sources. */
  function Distinct(values: seq<string>): (r: seq<string>) {
    if values == [] then []
    else
      var before := Distinct(values[..|values| - 1]);
      if values[|values| - 1] in before then before else before + [values[|values| - 1]]
  }

  function FrozenSources(values: seq<string>): (r: seq<string>) {
    var distinct := Distinct(values);
    if |distinct| <= MAX_SOURCES then distinct else distinct[..MAX_SOURCES]
  }

  function FrozenRecord(r: Record): Record {
    r.(sources := FrozenSources(r.sources))
  }

  function FrozenEntities(order: seq<Label>, m: map<Label, Entity>): seq<Entity> {
    if order == [] then []
    else
      (if order[0] in m then [m[order[0]].(seen := FrozenRecord(m[order[0]].seen))] else [])
      + FrozenEntities(order[1..], m)
  }

  function FrozenRelations(order: seq<RelationId>, m: map<RelationId, Relation>): seq<Relation> {
    if order == [] then []
    else
      (if order[0] in m then [m[order[0]].(seen := FrozenRecord(m[order[0]].seen))] else [])
      + FrozenRelations(order[1..], m)
  }

  function Chosen<K(==, !new)>(order: seq<K>, chosen: set<K>): (r: seq<K>)
    ensures forall k :: k in r <==> k in order && k in chosen
  {
    if order == [] then []
    else (if order[0] in chosen then [order[0]] else []) + Chosen(order[1..], chosen)
  }

  /** The public form: everything in the order of its identifier, sources bounded, affordances worked out anew. */
  function Freeze(c: Cursor, m: Memory): Scene {
    var entities := FrozenEntities(LABELS, m.entities);
    var current := Chosen(LABELS, m.current);
    var relations := FrozenRelations(RELATION_IDS, m.relations);
    var currentRelations := Chosen(RELATION_IDS, m.currentRelations);
    Scene(
      c, m.engineRevision, entities, current,
      if m.location == None then None else Some(FrozenRecord(m.location.value)), m.atLocation,
      relations, currentRelations,
      if c.profiled then BuildAffordances(entities, current, relations, currentRelations) else [],
      m.pending,
      if m.focus == None then None else Some(m.focus.value.(sources := FrozenSources(m.focus.value.sources))))
  }

  const BLANK: Memory := Memory(None, map[], {}, None, false, map[], {}, None, None)

  function Blank(texts: Texts, profiled: bool): Scene {
    Freeze(Cursor(texts, profiled, None, 0, None), BLANK)
  }

  function Created(texts: Texts, story: Story): Scene {
    Blank(texts, story == REVIEWED)
  }

  // ----- What the player could say next -----

  function ForObject(ruleId: string, spoken: string, riskTier: nat, priority: nat, e: Entity): Affordance {
    Affordance(ruleId, Some(e.name), spoken, riskTier, priority, FrozenSources([ruleId] + e.seen.sources))
  }

  function ObjectAffordances(e: Entity, mailboxOpen: bool): seq<Affordance> {
    match e.name
    case Leaflet => [
      ForObject("grammar.examine", "examining the leaflet", 2, 5, e),
      ForObject("grammar.read", "reading the leaflet", 3, 6, e)]
    case Mailbox =>
      [ForObject("grammar.examine", "examining the mailbox", 2, 10, e)]
      + if mailboxOpen then [] else [ForObject("grammar.open", "opening the mailbox", 3, 15, e)]
    case Door => [ForObject("grammar.examine", "examining the boarded door", 2, 20, e)]
    case House => [ForObject("grammar.examine", "examining the house", 2, 30, e)]
  }

  function CurrentAffordances(entities: seq<Entity>, current: seq<Label>, mailboxOpen: bool): seq<Affordance> {
    if entities == [] then []
    else
      (if entities[0].name in current then ObjectAffordances(entities[0], mailboxOpen) else [])
      + CurrentAffordances(entities[1..], current, mailboxOpen)
  }

  predicate MailboxIsOpen(relations: seq<Relation>, currentRelations: seq<RelationId>) {
    exists r :: r in relations && r.id in currentRelations && r.fact.subject == Thing(Mailbox) && r.fact.kind == Open
  }

  /** Stable insertion by help priority; no two affordances of one scene share one. */
  function Inserted(a: Affordance, sorted: seq<Affordance>): seq<Affordance> {
    if sorted == [] || a.helpPriority <= sorted[0].helpPriority then [a] + sorted
    else [sorted[0]] + Inserted(a, sorted[1..])
  }

  function ByPriority(values: seq<Affordance>): seq<Affordance> {
    if values == [] then [] else Inserted(values[0], ByPriority(values[1..]))
  }

  function BuildAffordances(
    entities: seq<Entity>, current: seq<Label>, relations: seq<Relation>, currentRelations: seq<RelationId>)
    : seq<Affordance>
  {
    var offered := ByPriority(
      [ Affordance("grammar.look", None, "looking around", 1, 40, ["grammar.look"]),
        Affordance("grammar.inventory", None, "checking your inventory", 1, 90, ["grammar.inventory"]) ]
      + CurrentAffordances(entities, current, MailboxIsOpen(relations, currentRelations)));
    if |offered| <= MAX_AFFORDANCES then offered else offered[..MAX_AFFORDANCES]
  }

  // ----- Taking in one event -----

  predicate Moves(command: string) {
    command in ["north", "south", "east", "west", "up", "down"]
  }

  /** The object that a reviewed verb acts on. */
  function CommandObject(command: string): Option<Label> {
    if command in ["examine house", "open house", "read house", "take house"] then Some(House)
    else if command in ["examine door", "open door", "read door", "take door"] then Some(Door)
    else if command in ["examine mailbox", "open mailbox", "read mailbox", "take mailbox"] then Some(Mailbox)
    else if command in ["examine leaflet", "open leaflet", "read leaflet", "take leaflet"] then Some(Leaflet)
    else None
  }

  /** The object that the command may have moved. */
  function MovedObject(command: string): Option<Label> {
    if "read " <= command || "take " <= command then CommandObject(command) else None
  }

  /** The committed command that this output answers. */
  function Answered(m: Memory, e: Event, revision: nat): Option<Pending> {
    if m.pending.Some? && m.pending.value.revision == revision && m.pending.value.correlationId == e.correlationId
       && e.causationId == Some(m.pending.value.sourceEventId)
    then m.pending else None
  }

  /** What a reviewed text shows. */
  datatype Shown = Shown(labels: set<Label>, relations: set<RelationId>, location: bool)

  const NOTHING: Shown := Shown({}, {}, false)

  predicate ShowsRoom(t: Texts, command: Option<string>, revision: nat, text: string) {
    if revision == 0 && command == None then text == t.boot
    else command.Some? && (command.value == "look" || Moves(command.value)) && text == t.room
  }

  predicate Reveals(t: Texts, command: Option<string>, text: string) {
    command == Some("open mailbox") && text == t.revelation
  }

  predicate Refuses(t: Texts, command: Option<string>, text: string) {
    command == Some("read mailbox") && text == t.refusal
  }

  function ShownBy(t: Texts, command: Option<string>, revision: nat, text: string): Shown {
    if Utf8.Utf16Length(text) > MAX_OUTPUT_LENGTH then NOTHING
    else if ShowsRoom(t, command, revision, text) then
      Shown({House, Door, Mailbox}, {PlayerWestOfHouse, HouseEastOfPlayer, DoorBoarded, MailboxHere}, true)
    else if Reveals(t, command, text) then Shown({Mailbox, Leaflet}, {MailboxHere, LeafletHere, MailboxOpen}, false)
    else if Refuses(t, command, text) then Shown({Mailbox}, {MailboxHere}, false)
    else NOTHING
  }

  /** The relation as the reducer writes it down. */
  function Told(id: RelationId): Fact {
    match id
    case PlayerWestOfHouse => Fact(You, WestOf, Some(Thing(House)), Seen, "You are west of the house.")
    case HouseEastOfPlayer => Fact(Thing(House), EastOfPlayer, Some(You), Inferred, "The house is east of you.")
    case DoorBoarded => Fact(Thing(Door), Boarded, None, Seen, "The house's front door is boarded.")
    case MailboxHere => Fact(Thing(Mailbox), Here, None, Seen, "The mailbox is here with you.")
    case LeafletHere => Fact(Thing(Leaflet), Here, None, Seen, "The leaflet is here with you.")
    case MailboxOpen => Fact(Thing(Mailbox), Open, None, Seen, "The mailbox is open.")
  }

  /** Keeps the first source and the latest. */
  function AddSource(sources: seq<string>, id: string): seq<string> {
    if id in sources then sources else if sources == [] then [id] else [sources[0], id]
  }

  function Noted(before: Option<Record>, id: string, revision: nat): Record {
    match before
    case None => Record([id], revision, revision)
    case Some(r) => Record(AddSource(r.sources, id), r.firstSeen, revision)
  }

  function NotedEntity(m: map<Label, Entity>, l: Label, id: string, revision: nat): Entity {
    Entity(if l in m then m[l].name else l, Noted(if l in m then Some(m[l].seen) else None, id, revision))
  }

  function NotedRelation(m: map<RelationId, Relation>, r: RelationId, id: string, revision: nat): Relation {
    Relation(r, Told(r), Noted(if r in m then Some(m[r].seen) else None, id, revision))
  }

  function NotedEntities(m: map<Label, Entity>, labels: set<Label>, id: string, revision: nat): map<Label, Entity> {
    map l | l in m.Keys + labels :: if l in labels then NotedEntity(m, l, id, revision) else m[l]
  }

  function NotedRelations(m: map<RelationId, Relation>, ids: set<RelationId>, id: string, revision: nat)
    : map<RelationId, Relation>
  {
    map r | r in m.Keys + ids :: if r in ids then NotedRelation(m, r, id, revision) else m[r]
  }

  function Remember(m: Memory, shown: Shown, id: string, revision: nat): Memory {
    m.(entities := NotedEntities(m.entities, shown.labels, id, revision), current := m.current + shown.labels,
       location := if shown.location then Some(Noted(m.location, id, revision)) else m.location,
       atLocation := m.atLocation || shown.location,
       relations := NotedRelations(m.relations, shown.relations, id, revision),
       currentRelations := m.currentRelations + shown.relations)
  }

  predicate About(f: Fact, l: Label) {
    f.subject == Thing(l) || f.object_ == Some(Thing(l))
  }

  /** Nothing that is known of the object's place holds any more. */
  function Without(m: Memory, l: Label): Memory {
    m.(current := m.current - {l},
       currentRelations := set r | r in m.currentRelations && !(r in m.relations && About(m.relations[r].fact, l)))
  }

  predicate Clears(answered: Option<Pending>, revision: nat) {
    if answered == None then revision > 0 else Moves(answered.value.command)
  }

  function CommandOf(answered: Option<Pending>): Option<string> {
    if answered == None then None else Some(answered.value.command)
  }

  /** What an output makes of the facts that held before it. */
  function Unsettled(t: Texts, m: Memory, answered: Option<Pending>, revision: nat, text: string): Memory {
    if Clears(answered, revision) then m.(current := {}, currentRelations := {}, atLocation := false, focus := None)
    else if answered == None || Refuses(t, Some(answered.value.command), text) then m
    else if MovedObject(answered.value.command) == None then m
    else Without(m, MovedObject(answered.value.command).value)
  }

  function FocusAfter(m: Memory, answered: Option<Pending>, e: Event, revision: nat): Option<Focus> {
    if Clears(answered, revision) then m.focus
    else if answered == None then None
    else
      var object_ := CommandObject(answered.value.command);
      if object_.Some? && object_.value in m.entities then
        Some(Focus(object_.value, answered.value.command, revision, [answered.value.sourceEventId, e.id]))
      else None
  }

  function Heard(t: Texts, profiled: bool, m: Memory, e: Event, revision: nat, text: string): Memory {
    var answered := Answered(m, e, revision);
    var shown := if profiled then ShownBy(t, CommandOf(answered), revision, text) else NOTHING;
    var noted := Remember(Unsettled(t, m, answered, revision, text), shown, e.id, revision);
    noted.(
      engineRevision := Some(revision),
      focus := FocusAfter(noted, answered, e, revision),
      pending := if m.pending.Some? && revision >= m.pending.value.revision then None else m.pending)
  }

  /** A commit is taken up only as the next revision, an output only as a later one. */
  function Advance(t: Texts, profiled: bool, m: Memory, e: Event): Memory {
    match e.payload
    case Elsewhere => m
    case Committed(previous, revision, command) =>
      if m.engineRevision == Some(previous) && revision == previous + 1
      then m.(pending := Some(Pending(command, revision, e.id, e.correlationId)))
      else m
    case Output(revision, text) =>
      if m.engineRevision.Some? && revision <= m.engineRevision.value then m else Heard(t, profiled, m, e, revision, text)
  }

  /** Another session's event, or one that the scene already reaches past. */
  predicate Ignores(c: Cursor, e: Event) {
    (c.sessionId.Some? && e.sessionId != c.sessionId.value) || e.sequence <= c.throughSequence
  }

  function Moved(c: Cursor, e: Event): Cursor {
    c.(sessionId := if c.sessionId == None then Some(e.sessionId) else c.sessionId,
       throughSequence := e.sequence, throughEventId := Some(e.id))
  }

  function Projected(s: Scene, e: Event): Scene {
    if Ignores(s.cursor, e) then s else Freeze(Moved(s.cursor, e), Advance(s.cursor.texts, s.cursor.profiled, Thaw(s), e))
  }

  function ProjectAll(s: Scene, log: seq<Event>): Scene {
    if log == [] then s else Projected(ProjectAll(s, log[..|log| - 1]), log[|log| - 1])
  }
}
