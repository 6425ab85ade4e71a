/**
 Paging back through the transcript. The functions say what an update, opening,
 closing and the two buttons make of the view; the object does it.
 */
module PagedView {
  import opened Wrappers
  import opened EventLog
  import opened Projection
  import opened Paging

  /** `events` is what the host's event source holds, `latest` the projection that the host passed in last. */
  datatype View = View(events: seq<Event>, latest: State, isOpen: bool, cutoffs: seq<nat>, first: Option<nat>)

  datatype Click = Updated(log: seq<Event>, latest: State) | Opened | Closed | Older | Newer

  /** The projection that is shown; over a log in order, the prefix in front of a cutoff always has one. */
  function Showing(v: View): State {
    if v.cutoffs == [] then v.latest
    else
      match Project(Before(v.events, v.cutoffs[|v.cutoffs| - 1]))
      case Some(s) => s
      case None => v.latest
  }

  /** There is no older page, as far as the view knows. */
  predicate OlderDisabled(v: View) {
    var s := Showing(v);
    s.transcript == [] || v.first == None || s.transcript[0].introducedAt <= v.first.value
  }

  /** The event source only ever grows, in order. */
  predicate Continues(v: View, log: seq<Event>) {
    v.events <= log && Ordered(log)
  }

  function Next(v: View, click: Click): View {
    match click
    case Updated(log, latest) => if Continues(v, log) then v.(events := log, latest := latest) else v
    case Opened => if v.isOpen then v else v.(isOpen := true, cutoffs := [], first := FirstLine(v.events))
    case Closed => if v.isOpen then v.(isOpen := false, cutoffs := []) else v
    case Older =>
      if !v.isOpen || OlderDisabled(v) then v
      else v.(cutoffs := v.cutoffs + [Showing(v).transcript[0].introducedAt])
    case Newer => if !v.isOpen || v.cutoffs == [] then v else v.(cutoffs := v.cutoffs[..|v.cutoffs| - 1])
  }

  function Run(v: View, clicks: seq<Click>): View {
    if clicks == [] then v else Next(Run(v, clicks[..|clicks| - 1]), clicks[|clicks| - 1])
  }

  /** The host passes in what its log projects to. */
  predicate Agrees(v: View) {
    Project(v.events) == Some(v.latest)
  }

  predicate Faithful(clicks: seq<Click>) {
    forall i :: 0 <= i < |clicks| && clicks[i].Updated? ==> Project(clicks[i].log) == Some(clicks[i].latest)
  }

  // What the cutoffs mean

  /** Cutoff `i` is the first line of page `i`, counted from the `base` lines that there were when paging began. */
  predicate CutAt(v: View, base: nat, i: nat)
    requires i < |v.cutoffs|
  {
    && i < |Pages(base)| && Pages(base)[i].start < |Lines(v.events)|
    && v.cutoffs[i] == Lines(v.events)[Pages(base)[i].start].sequence
  }

  predicate Valid(v: View, base: nat) {
    && Ordered(v.events) && Agrees(v)
    && base <= |Lines(v.events)| && |v.cutoffs| < |Pages(base)|
    && (forall i :: 0 <= i < |v.cutoffs| ==> CutAt(v, base, i))
    && (v.cutoffs != [] ==> v.first.Some?)
    && (v.first.Some? ==> v.first == FirstLine(v.events))
  }

  /** The page that is current: the newest, or the one that the cutoffs lead to. */
  function Current(v: View, base: nat): Page
    requires Valid(v, base)
  {
    if v.cutoffs == [] then PageBefore(|Lines(v.events)|) else Pages(base)[|v.cutoffs|]
  }

  /** The number of lines that paging is counted from, after a click. */
  function BaseAfter(v: View, base: nat, click: Click): nat {
    if click.Older? && v.cutoffs == [] then |Lines(v.events)|
    else if (click.Opened? && !v.isOpen) || (click.Closed? && v.isOpen) then 0
    else base
  }

  /** What is shown is the current page of the log, and the button says whether there is a page in front of it. */
  lemma ShowsCurrent(v: View, base: nat)
    requires Valid(v, base)
    ensures Shows(Showing(v), v.events, Current(v, base))
    ensures OlderDisabled(v) <==> Current(v, base).start == 0 || v.first == None
  {
    hide Project, Lines, StandsFor, Before;
    NewestPage(v.events);
    if v.cutoffs != [] {
      var k := |v.cutoffs| - 1;
      assert CutAt(v, base, k);
      PagesAt(base, k);
      PageOfPrefix(v.events, Pages(base)[k].start);
    }
    FirstOfPage(Showing(v), v.events, Current(v, base));
  }

  lemma UpdatedValid(v: View, base: nat, log: seq<Event>, latest: State)
    requires Valid(v, base) && Project(log) == Some(latest)
    ensures Valid(Next(v, Updated(log, latest)), base)
    ensures v.cutoffs != [] ==> Current(Next(v, Updated(log, latest)), base) == Current(v, base)
  {
    hide Project, Pages, Ordered;
    if Continues(v, log) {
      LinesGrow(v.events, log);
      var v' := Next(v, Updated(log, latest));
      forall i | 0 <= i < |v'.cutoffs|
        ensures CutAt(v', base, i)
      {
        assert CutAt(v, base, i);
      }
    }
  }

  lemma OlderValid(v: View, base: nat)
    requires Valid(v, base) && v.isOpen && !OlderDisabled(v)
    ensures var base' := BaseAfter(v, base, Older);
      && Valid(Next(v, Older), base')
      && Current(Next(v, Older), base') == PageBefore(Current(v, base).start)
  {
    hide Project, Lines, StandsFor;
    var page := Current(v, base);
    ShowsCurrent(v, base);
    FirstOfPage(Showing(v), v.events, page);
    var v', base' := Next(v, Older), BaseAfter(v, base, Older);
    PagesAt(base', |v.cutoffs|);
    assert page == Pages(base')[|v.cutoffs|];
    forall i | 0 <= i < |v'.cutoffs|
      ensures CutAt(v', base', i)
    {
      if i < |v.cutoffs| {
        assert CutAt(v, base, i);
      }
    }
  }

  /** Every click keeps the cutoffs on the pages, and one page back is the page in front. */
  lemma NextValid(v: View, base: nat, click: Click)
    requires Valid(v, base) && Faithful([click])
    ensures Valid(Next(v, click), BaseAfter(v, base, click))
  {
    hide Project, Lines, Ordered, OlderDisabled;
    match click {
      case Updated(log, latest) =>
        assert [click][0] == click;
        UpdatedValid(v, base, log, latest);
      case Older =>
        if v.isOpen && !OlderDisabled(v) {
          OlderValid(v, base);
        } else {
          assert Pages(BaseAfter(v, base, click)) != [];
        }
      case Newer =>
        var v' := Next(v, click);
        forall i | 0 <= i < |v'.cutoffs|
          ensures CutAt(v', base, i)
        {
          assert CutAt(v, base, i);
        }
      case _ =>
    }
  }

  /** The button for newer pages takes back the one for older pages. */
  lemma NewerUndoesOlder(v: View)
    requires v.isOpen && !OlderDisabled(v)
    ensures Next(Next(v, Older), Newer) == v
  {
    hide Showing;
    var cutoff := Showing(v).transcript[0].introducedAt;
    assert (v.cutoffs + [cutoff])[..|v.cutoffs|] == v.cutoffs;
  }

  /** From an older page it leads to the page behind it, and from the first of these to the newest page. */
  lemma NewerIsNext(v: View, base: nat)
    requires Valid(v, base) && v.isOpen && v.cutoffs != []
    ensures var v' := Next(v, Newer);
      && Valid(v', base) && v'.isOpen && v'.events == v.events
      && (|v.cutoffs| > 1 ==> Current(v', base).start == Current(v, base).end)
      && (|v.cutoffs| == 1 ==> Showing(v') == v.latest && Current(v', base) == PageBefore(|Lines(v.events)|))
  {
    hide Project, Lines, Before;
    assert Faithful([Newer]);
    NextValid(v, base, Newer);
    var k := |v.cutoffs|;
    PagesAt(base, k - 1);
  }

  lemma {:induction false} RunValid(v: View, base: nat, clicks: seq<Click>) returns (base': nat)
    requires Valid(v, base) && Faithful(clicks)
    ensures Valid(Run(v, clicks), base')
  {
    hide Valid, Next, BaseAfter;
    if clicks == [] {
      base' := base;
    } else {
      var init, last := clicks[..|clicks| - 1], clicks[|clicks| - 1];
      assert Faithful(init) && Faithful([last]);
      var b := RunValid(v, base, init);
      NextValid(Run(v, init), b, last);
      base' := BaseAfter(Run(v, init), b, last);
    }
  }

  // Where paging fails

  /** The view stays open. */
  predicate Stays(clicks: seq<Click>) {
    forall i :: 0 <= i < |clicks| ==> !clicks[i].Opened? && !clicks[i].Closed?
  }

  function Olders(k: nat): seq<Click> {
    seq(k, _ => Older)
  }

  lemma {:induction false} StaysOpen(v: View, clicks: seq<Click>)
    requires v.isOpen && Stays(clicks)
    ensures Run(v, clicks).isOpen && Run(v, clicks).first == v.first && v.events <= Run(v, clicks).events
    ensures v.first == None && v.cutoffs == [] ==> Run(v, clicks).cutoffs == []
  {
    hide Showing, Ordered;
    if clicks != [] {
      StaysOpen(v, clicks[..|clicks| - 1]);
    }
  }

  lemma RunStep(v: View, clicks: seq<Click>, click: Click)
    ensures Run(v, clicks + [click]) == Next(Run(v, clicks), click)
  {
    hide Next;
    assert (clicks + [click])[..|clicks|] == clicks;
  }

  lemma OldersStep(v: View, k: nat)
    requires k > 0
    ensures Run(v, Olders(k)) == Next(Run(v, Olders(k - 1)), Older)
    ensures Run(v, Olders(0)) == v
  {
    hide Next;
    assert Olders(k) == Olders(k - 1) + [Older];
    RunStep(v, Olders(k - 1), Older);
  }

  lemma {:induction false} StuckOlders(v: View, k: nat)
    requires v.first == None
    ensures Run(v, Olders(k)) == v
  {
    hide Showing;
    if k > 0 {
      OldersStep(v, k);
      StuckOlders(v, k - 1);
    }
  }

  /** With a first line known and more lines than a page holds, the button leads away from the newest page. */
  lemma {:induction false} FreeOlders(v: View, base: nat, k: nat) returns (base': nat)
    requires Valid(v, base) && v.isOpen && v.first.Some? && |Lines(v.events)| > TRANSCRIPT_LIMIT
    requires k > 0
    ensures var w := Run(v, Olders(k)); Valid(w, base') && w.cutoffs != [] && w.isOpen && w.first.Some?
    ensures Run(v, Olders(k)).events == v.events && Run(v, Olders(k)).latest == v.latest
    ensures v.cutoffs == [] && k == 1 ==> Current(Run(v, Olders(1)), base') == PageBefore(Current(v, base).start)
  {
    hide Valid, Showing, Lines, Before, Project;
    OldersStep(v, k);
    var before, b := v, base;
    if k > 1 {
      b := FreeOlders(v, base, k - 1);
      before := Run(v, Olders(k - 1));
    }
    OneOlder(before, b);
    base' := BaseAfter(before, b, Older);
  }

  lemma OneOlder(v: View, base: nat)
    requires Valid(v, base) && v.isOpen && v.first.Some? && |Lines(v.events)| > TRANSCRIPT_LIMIT
    ensures var w, base' := Next(v, Older), BaseAfter(v, base, Older);
      && Valid(w, base') && w.cutoffs != [] && w.isOpen && w.first.Some?
      && w.events == v.events && w.latest == v.latest
      && (v.cutoffs == [] ==> Current(w, base') == PageBefore(Current(v, base).start))
  {
    hide Project, Lines, StandsFor, OlderDisabled;
    ShowsCurrent(v, base);
    assert Faithful([Older]);
    NextValid(v, base, Older);
    if !OlderDisabled(v) {
      OlderValid(v, base);
    }
  }

  /** Away from the newest page, what is shown is the projection of a shorter log. */
  lemma PagedAway(v: View, base: nat)
    requires Valid(v, base) && v.cutoffs != []
    ensures Showing(v) != v.latest
  {
    hide Lines;
    var k := |v.cutoffs| - 1;
    assert CutAt(v, base, k);
    var cutoff, line := v.cutoffs[k], Lines(v.events)[Pages(base)[k].start];
    LinesSubset(v.events);
    assert line in v.events;
    BeforeIsPrefix(v.events, cutoff);
    ProjectWindow(Before(v.events, cutoff));
    ProjectWindow(v.events);
    var i :| 0 <= i < |v.events| && v.events[i] == line;
    var b := Before(v.events, cutoff);
    assert b != [] ==> b[|b| - 1] == v.events[|b| - 1];
  }

  /**
   Where paging fails. The view is opened, its log may grow and its buttons be pressed, until the log has more lines
   than a page holds. From then on the button for older pages, however often it is pressed, leaves the newest page
   shown exactly if the log had no line when the view was opened; it is then disabled and changes nothing.
   */
  lemma StuckIffOpenedEmpty(v: View, clicks: seq<Click>, k: nat)
    requires Ordered(v.events) && Agrees(v) && !v.isOpen && Stays(clicks) && Faithful(clicks) && k > 0
    requires |Lines(Run(Next(v, Opened), clicks).events)| > TRANSCRIPT_LIMIT
    ensures var late := Run(Next(v, Opened), clicks);
      && (Showing(Run(late, Olders(k))) == late.latest <==> Lines(v.events) == [])
      && (Lines(v.events) == [] ==> OlderDisabled(late) && Run(late, Olders(k)) == late)
  {
    hide Showing, Lines, Project, Ordered;
    var begun := Next(v, Opened);
    var late := Run(begun, clicks);
    assert Valid(begun, 0) by {
      assert Pages(0) != [];
    }
    var base := RunValid(begun, 0, clicks);
    StaysOpen(begun, clicks);
    if Lines(v.events) == [] {
      StuckOlders(late, k);
      assert late.cutoffs == [] ==> Showing(late) == late.latest by {
        NewestShown(late);
      }
    } else {
      var base' := FreeOlders(late, base, k);
      PagedAway(Run(late, Olders(k)), base');
    }
  }

  lemma NewestShown(v: View)
    ensures v.cutoffs == [] ==> Showing(v) == v.latest
  {
  }

  /** Closing and opening the view again frees it: the button then shows the page in front of the newest. */
  lemma ReopenedIsFree(v: View, base: nat)
    requires Valid(v, base) && v.isOpen && |Lines(v.events)| > TRANSCRIPT_LIMIT
    ensures var again := Next(Next(Next(v, Closed), Opened), Older);
      Shows(Showing(again), v.events, PageBefore(PageBefore(|Lines(v.events)|).start))
  {
    hide Showing, Lines, Project;
    var begun := Next(Next(v, Closed), Opened);
    assert Valid(begun, 0) by {
      assert Pages(0) != [];
    }
    OneOlder(begun, 0);
    ShowsCurrent(Next(begun, Older), BaseAfter(begun, 0, Older));
  }

  // A run that shows it

  function Lined(n: nat): seq<Event> {
    seq(n, (i: nat) => Event("line", i + 1, "turn", None, TranscriptFinal("look")))
  }

  lemma LinedOrdered(n: nat)
    ensures Ordered(Lined(n))
  {
  }

  lemma {:induction false} LinedLines(n: nat)
    ensures Lines(Lined(n)) == Lined(n)
  {
    hide Introduces;
    if n > 0 {
      var all := Lined(n);
      LinedLines(n - 1);
      assert all[..n - 1] == Lined(n - 1);
      assert all == Lined(n - 1) + [all[n - 1]];
      assert Introduces(all[n - 1].payload).Some? by {
        LookIsLine();
      }
    }
  }

  lemma LookIsLine()
    ensures Introduces(TranscriptFinal("look")).Some?
  {
  }

  const CLOSED: View := View([], INITIAL, false, [], None)

  /** Opened on an empty log that then gets one line more than a page holds: the first line is out of reach. */
  lemma FirstLineOutOfReach()
    ensures var log := Lined(TRANSCRIPT_LIMIT + 1);
      && Project(log).Some?
      && var stuck := Run(CLOSED, [Opened, Updated(log, Project(log).value)]);
        && Run(CLOSED, [Opened, Updated(log, Project(log).value), Older]) == stuck
        && Shows(Showing(stuck), log, Page(1, TRANSCRIPT_LIMIT + 1))
        && OlderDisabled(stuck)
  {
    hide Showing, Project, Shows, Lines, Lined, FirstLine;
    var log := Lined(TRANSCRIPT_LIMIT + 1);
    LinedLines(TRANSCRIPT_LIMIT + 1);
    LinedOrdered(TRANSCRIPT_LIMIT + 1);
    assert |log| == TRANSCRIPT_LIMIT + 1 by {
      LinedLength(TRANSCRIPT_LIMIT + 1);
    }
    NewestPage(log);
    var latest := Project(log).value;
    var two := [Opened, Updated(log, latest)];
    assert two == [Opened] + [Updated(log, latest)] && two + [Older] == [Opened, Updated(log, latest), Older];
    assert [] + [Opened] == [Opened];
    RunStep(CLOSED, [], Opened);
    RunStep(CLOSED, [Opened], Updated(log, latest));
    RunStep(CLOSED, two, Older);
    assert FirstLine([]) == None by {
      NoFirstLine();
    }
    NewestShown(Run(CLOSED, two));
  }

  lemma LinedLength(n: nat)
    ensures |Lined(n)| == n
  {
  }

  lemma NoFirstLine()
    ensures FirstLine([]) == None
  {
  }

  /** The transcript view of the event log. */
  class OptionalEventLogPresentation {
    /** What the host's event source holds. */
    var events: seq<Event>
    var projection: State
    var transcriptOpen: bool
    var cutoffs: seq<nat>
    var firstTranscriptSequence: Option<nat>
    /** What is rendered. */
    var shown: seq<Item>
    var olderDisabled: bool
    var newerDisabled: bool

    function Abstract(): View
      reads this
    {
      View(events, projection, transcriptOpen, cutoffs, firstTranscriptSequence)
    }

    ghost predicate Rendered()
      reads this
    {
      && shown == Showing(Abstract()).transcript
      && (olderDisabled <==> OlderDisabled(Abstract()))
      && (newerDisabled <==> cutoffs == [])
    }

    constructor (log: seq<Event>, initialProjection: State)
      ensures Abstract() == View(log, initialProjection, false, [], None)
    {
      events, projection := log, initialProjection;
      transcriptOpen, cutoffs, firstTranscriptSequence := false, [], None;
      shown, olderDisabled, newerDisabled := [], true, true;
    }

    method ProjectionBefore(cutoff: nat) returns (r: State)
      requires Ordered(events)
      ensures Some(r) == Project(Before(events, cutoff))
    {
      r := INITIAL;
      BeforeIsPrefix(events, cutoff);
      ghost var b := Before(events, cutoff);
      var i := 0;
      while i < |events| && events[i].sequence < cutoff
        invariant 0 <= i <= |b| && Some(r) == Project(b[..i])
        decreases |events| - i
      {
        assert i < |b|;
        assert b[..i + 1][..i] == b[..i];
        assert Ordered(b[..i + 1]);
        ProjectWindow(b[..i + 1]);
        assert b[i] == events[i];
        r := Reduce(r, events[i]).value;
        i := i + 1;
      }
      assert i == |b|;
      assert b[..i] == b;
    }

    method TranscriptProjection() returns (r: State)
      requires Ordered(events)
      ensures r == Showing(Abstract())
    {
      hide Project, Before;
      if cutoffs == [] {
        return projection;
      }
      r := ProjectionBefore(cutoffs[|cutoffs| - 1]);
    }

    method Render()
      requires Ordered(events)
      modifies this`shown, this`olderDisabled, this`newerDisabled
      ensures Rendered()
    {
      hide Showing;
      var s := TranscriptProjection();
      shown := s.transcript;
      olderDisabled := s.transcript == [] || firstTranscriptSequence == None
        || s.transcript[0].introducedAt <= firstTranscriptSequence.value;
      newerDisabled := cutoffs == [];
    }

    /** The host's log grew; while an older page is shown, nothing is rendered anew. */
    method Update(log: seq<Event>, latest: State)
      requires Continues(Abstract(), log)
      modifies this
      ensures Abstract() == Next(old(Abstract()), Updated(log, latest))
      ensures transcriptOpen && cutoffs == [] ==> Rendered()
      ensures !transcriptOpen || cutoffs != [] ==> shown == old(shown)
    {
      hide Showing;
      events, projection := log, latest;
      if transcriptOpen && cutoffs == [] {
        Render();
      }
    }

    method SetTranscriptOpen(open: bool)
      requires Ordered(events)
      modifies this
      ensures Abstract() == Next(old(Abstract()), if open then Opened else Closed)
      ensures open && !old(transcriptOpen) ==> Rendered()
      ensures !open && old(transcriptOpen) ==> shown == []
      ensures open == old(transcriptOpen) ==> unchanged(this)
    {
      hide Showing, FirstLine;
      if transcriptOpen == open {
        return;
      }
      transcriptOpen := open;
      cutoffs := [];
      if !open {
        shown := [];
        return;
      }
      firstTranscriptSequence := FirstLine(events);
      Render();
    }

    method ShowOlder()
      requires Ordered(events)
      modifies this
      ensures Abstract() == Next(old(Abstract()), Older)
      ensures Abstract() == old(Abstract()) ==> unchanged(this)
      ensures Abstract() != old(Abstract()) ==> Rendered()
    {
      hide Showing;
      if !transcriptOpen {
        return;
      }
      var s := TranscriptProjection();
      if s.transcript == [] || firstTranscriptSequence == None
        || s.transcript[0].introducedAt <= firstTranscriptSequence.value
      {
        return;
      }
      cutoffs := cutoffs + [s.transcript[0].introducedAt];
      Render();
    }

    method ShowNewer()
      requires Ordered(events)
      modifies this
      ensures Abstract() == Next(old(Abstract()), Newer)
      ensures Abstract() == old(Abstract()) ==> unchanged(this)
      ensures Abstract() != old(Abstract()) ==> Rendered()
    {
      hide Showing;
      if !transcriptOpen || cutoffs == [] {
        return;
      }
      cutoffs := cutoffs[..|cutoffs| - 1];
      Render();
    }
  }
}
