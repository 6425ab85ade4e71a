/** What the scene offers the player to say: in order, complete, and only about what is there. */
module SceneAffordances {
  import opened Wrappers
  import opened Scene
  import opened SceneValidator

  predicate Sorted(values: seq<Affordance>) {
    forall i, j :: 0 <= i < j < |values| ==> values[i].helpPriority <= values[j].helpPriority
  }

  lemma {:induction false} InsertedKeeps(a: Affordance, sorted: seq<Affordance>)
    ensures multiset(Inserted(a, sorted)) == multiset(sorted) + multiset{a}
  {
    if sorted != [] && a.helpPriority > sorted[0].helpPriority {
      InsertedKeeps(a, sorted[1..]);
      assert sorted == [sorted[0]] + sorted[1..];
    }
  }

  lemma {:induction false} InsertedSorted(a: Affordance, sorted: seq<Affordance>)
    requires Sorted(sorted)
    ensures Sorted(Inserted(a, sorted))
    ensures Inserted(a, sorted) != []
    ensures Inserted(a, sorted)[0] == a || (sorted != [] && Inserted(a, sorted)[0] == sorted[0])
  {
    if sorted != [] && a.helpPriority > sorted[0].helpPriority {
      var rest := Inserted(a, sorted[1..]);
      InsertedSorted(a, sorted[1..]);
      assert forall i :: 1 <= i < |[sorted[0]] + rest| ==> ([sorted[0]] + rest)[i] == rest[i - 1];
    }
  }

  lemma {:induction false} ByPrioritySorted(values: seq<Affordance>)
    ensures Sorted(ByPriority(values)) && multiset(ByPriority(values)) == multiset(values)
    ensures |ByPriority(values)| == |values|
  {
    hide Inserted;
    if values != [] {
      ByPrioritySorted(values[1..]);
      InsertedSorted(values[0], ByPriority(values[1..]));
      InsertedKeeps(values[0], ByPriority(values[1..]));
      assert values == [values[0]] + values[1..];
      assert |multiset(ByPriority(values))| == |ByPriority(values)|;
      assert |multiset(values)| == |values|;
    }
  }

  lemma {:induction false} DistinctAtMost(labels: seq<Label>, all: set<Label>)
    requires AllDistinct(labels) && forall i :: 0 <= i < |labels| ==> labels[i] in all
    ensures |labels| <= |all|
  {
    if labels != [] {
      var init, last := labels[..|labels| - 1], labels[|labels| - 1];
      DistinctAtMost(init, all - {last});
    }
  }

  lemma OneOfFour(l: Label)
    ensures l in {Door, House, Leaflet, Mailbox}
  {
  }

  lemma FourLabels(entities: seq<Entity>)
    requires forall i, j :: 0 <= i < j < |entities| ==> entities[i].name != entities[j].name
    ensures |entities| <= 4
  {
    var labels := seq(|entities|, i requires 0 <= i < |entities| => entities[i].name);
    forall i | 0 <= i < |labels|
      ensures labels[i] in {Door, House, Leaflet, Mailbox}
    {
      OneOfFour(labels[i]);
    }
    DistinctAtMost(labels, {Door, House, Leaflet, Mailbox});
  }

  predicate Opens(a: Affordance) {
    a.ruleId == "grammar.open"
  }

  lemma {:induction false} CurrentOffers(entities: seq<Entity>, current: seq<Label>, mailboxOpen: bool)
    ensures var offers := CurrentAffordances(entities, current, mailboxOpen);
      && |offers| <= 2 * |entities|
      && (forall a :: a in offers ==> a.object_.Some? && a.object_.value in current)
      && ((exists a :: a in offers && Opens(a)) <==>
            !mailboxOpen && Mailbox in current && exists e :: e in entities && e.name == Mailbox)
  {
    if entities != [] {
      CurrentOffers(entities[1..], current, mailboxOpen);
      assert entities == [entities[0]] + entities[1..];
      ObjectOffers(entities[0], mailboxOpen);
    }
  }

  lemma ObjectOffers(e: Entity, mailboxOpen: bool)
    ensures var offers := ObjectAffordances(e, mailboxOpen);
      && |offers| <= 2
      && (forall a :: a in offers ==> a.object_ == Some(e.name))
      && ((exists a :: a in offers && Opens(a)) <==> !mailboxOpen && e.name == Mailbox)
  {
    hide FrozenSources;
    if e.name == Mailbox && !mailboxOpen {
      assert Opens(ObjectAffordances(e, mailboxOpen)[1]);
    }
  }

  lemma WhatAccepted(s: Scene)
    requires Accepted(s)
    ensures s.affordances == BuildAffordances(s.entities, s.current, s.relations, s.currentRelations)
    ensures forall i, j :: 0 <= i < j < |s.entities| ==> s.entities[i].name != s.entities[j].name
    ensures forall l :: l in s.current ==> exists e :: e in s.entities && e.name == l
  {
    hide BuildAffordances, ValidRecord, RelationsAccepted, PairAccepted, LocationAccepted, CursorAccepted;
  }

  /**
   In an accepted scene the offers are in the order of their priority, the cut at twelve takes none of them away, each
   one that names an object names a current one, and opening the mailbox is offered exactly while it is there and not
   known to be open.
   */
  lemma OffersAreCurrent(s: Scene)
    requires Accepted(s)
    ensures Sorted(s.affordances)
    ensures multiset(s.affordances) == multiset(
              [ Affordance("grammar.look", None, "looking around", 1, 40, ["grammar.look"]),
                Affordance("grammar.inventory", None, "checking your inventory", 1, 90, ["grammar.inventory"]) ]
              + CurrentAffordances(s.entities, s.current, MailboxIsOpen(s.relations, s.currentRelations)))
    ensures forall a :: a in s.affordances && a.object_.Some? ==> a.object_.value in s.current
    ensures (exists a :: a in s.affordances && Opens(a)) <==>
              Mailbox in s.current && !MailboxIsOpen(s.relations, s.currentRelations)
  {
    hide ByPriority, CurrentAffordances, MailboxIsOpen, Accepted;
    WhatAccepted(s);
    var mailboxOpen := MailboxIsOpen(s.relations, s.currentRelations);
    var global := [
      Affordance("grammar.look", None, "looking around", 1, 40, ["grammar.look"]),
      Affordance("grammar.inventory", None, "checking your inventory", 1, 90, ["grammar.inventory"])];
    var offers := CurrentAffordances(s.entities, s.current, mailboxOpen);
    CurrentOffers(s.entities, s.current, mailboxOpen);
    FourLabels(s.entities);
    ByPrioritySorted(global + offers);
    assert forall a :: a in s.affordances <==> a in multiset(s.affordances);
    assert forall a :: a in s.affordances <==> a in global || a in offers;
    assert !Opens(global[0]) && !Opens(global[1]);
  }
}
