/**
 The pages of the transcript: every page is the projection of a prefix of the
 log, cut at the first line of the page after it.
 */
module Paging {
  import opened Wrappers
  import opened EventLog
  import opened Projection

  /** The events in front of a sequence number. */
  function Before(log: seq<Event>, cutoff: nat): seq<Event> {
    if log == [] || log[0].sequence >= cutoff then [] else [log[0]] + Before(log[1..], cutoff)
  }

  function FirstLine(log: seq<Event>): Option<nat> {
    if Lines(log) == [] then None else Some(Lines(log)[0].sequence)
  }

  lemma {:induction false} BeforeIsPrefix(log: seq<Event>, cutoff: nat)
    requires Ordered(log)
    ensures var b := Before(log, cutoff);
      && b <= log && Ordered(b)
      && (forall i :: 0 <= i < |log| ==> (i < |b| <==> log[i].sequence < cutoff))
    decreases |log|
  {
    if log != [] && log[0].sequence < cutoff {
      assert forall i :: 0 <= i < |log[1..]| ==> log[1..][i] == log[i + 1];
      BeforeIsPrefix(log[1..], cutoff);
      var b, rest := Before(log, cutoff), Before(log[1..], cutoff);
      forall i | 0 <= i < |log|
        ensures i < |b| <==> log[i].sequence < cutoff
      {
        if i > 0 {
          assert i - 1 < |rest| <==> log[1..][i - 1].sequence < cutoff;
        }
      }
      assert b == log[..|b|];
    } else if log != [] {
      forall i | 0 <= i < |log|
        ensures log[i].sequence >= cutoff
      {
        assert i > 0 ==> log[0].sequence < log[i].sequence;
      }
    }
  }

  lemma {:induction false} LinesAppend(a: seq<Event>, b: seq<Event>)
    ensures Lines(a + b) == Lines(a) + Lines(b)
    decreases |b|
  {
    if b == [] {
      assert a + b == a;
    } else {
      var init, last := b[..|b| - 1], b[|b| - 1];
      assert (a + b)[..|a + b| - 1] == a + init;
      LinesAppend(a, init);
    }
  }

  /** Whatever holds of all events of a log holds of its lines. */
  lemma {:induction false} LinesWithin(log: seq<Event>, low: nat, high: nat)
    requires forall i :: 0 <= i < |log| ==> low <= log[i].sequence < high
    ensures forall i :: 0 <= i < |Lines(log)| ==> low <= Lines(log)[i].sequence < high
  {
    if log != [] {
      var init := log[..|log| - 1];
      assert forall i :: 0 <= i < |init| ==> init[i] == log[i];
      LinesWithin(init, low, high);
    }
  }

  lemma {:induction false} LinesOrdered(log: seq<Event>)
    requires Ordered(log)
    ensures Ordered(Lines(log))
  {
    if log != [] {
      var init, last := log[..|log| - 1], log[|log| - 1];
      assert forall i :: 0 <= i < |init| ==> init[i] == log[i];
      LinesOrdered(init);
      LinesWithin(init, 1, last.sequence);
    }
  }

  lemma SplitAt(below: seq<Event>, rest: seq<Event>, a: nat, cutoff: nat)
    requires Ordered(below + rest) && a < |below + rest| && (below + rest)[a].sequence == cutoff
    requires forall i :: 0 <= i < |below| ==> below[i].sequence < cutoff
    requires forall i :: 0 <= i < |rest| ==> rest[i].sequence >= cutoff
    ensures below == (below + rest)[..a]
  {
    var all, n := below + rest, |below|;
    assert a >= n;
    if n < |all| {
      assert all[n] == rest[0];
    }
  }

  /** Cutting the log in front of its line `a` keeps just the lines before it. */
  lemma LinesBefore(log: seq<Event>, a: nat)
    requires Ordered(log) && a < |Lines(log)|
    ensures Ordered(Before(log, Lines(log)[a].sequence))
    ensures Lines(Before(log, Lines(log)[a].sequence)) == Lines(log)[..a]
  {
    hide Lines, Before;
    var cutoff := Lines(log)[a].sequence;
    BeforeIsPrefix(log, cutoff);
    var b := Before(log, cutoff);
    var rest := log[|b|..];
    assert log == b + rest;
    LinesAppend(b, rest);
    LinesOrdered(log);
    LinesWithin(b, 0, cutoff);
    var high := if log == [] then 1 else log[|log| - 1].sequence + 1;
    LinesWithin(rest, cutoff, high);
    SplitAt(Lines(b), Lines(rest), a, cutoff);
  }

  /** The lines `from..to` of the log, which a page shows. */
  datatype Page = Page(start: nat, end: nat)

  function PageBefore(end: nat): Page {
    Page(if end <= TRANSCRIPT_LIMIT then 0 else end - TRANSCRIPT_LIMIT, end)
  }

  /** Newest first: the current page, and the one in front of it, and so on until the first line is shown. */
  function Pages(end: nat): (r: seq<Page>)
    decreases end
  {
    var page := PageBefore(end);
    if page.start == 0 then [page] else [page] + Pages(page.start)
  }

  function Shown(lines: seq<Event>, pages: seq<Page>): seq<Event>
    requires forall i :: 0 <= i < |pages| ==> pages[i].start <= pages[i].end <= |lines|
  {
    if pages == [] then [] else Shown(lines, pages[1..]) + lines[pages[0].start..pages[0].end]
  }

  /**
   The pages tile the log: none is over the limit, none but the page of an empty log is empty, each ends where the
   next newer one begins, and read start the oldest end the newest they are all lines of the log, once each, in order.
   */
  lemma {:induction false} PagesTile(lines: seq<Event>, end: nat)
    requires end <= |lines|
    ensures var r := Pages(end);
      && (forall i :: 0 <= i < |r| ==> r[i].start <= r[i].end <= |lines| && r[i].end - r[i].start <= TRANSCRIPT_LIMIT)
      && (forall i :: 0 <= i < |r| ==> r[i].start < r[i].end || end == 0)
      && (forall i :: 0 <= i < |r| - 1 ==> r[i].start == r[i + 1].end)
      && r[0].end == end && r[|r| - 1].start == 0
      && Shown(lines, r) == lines[..end]
    decreases end
  {
    var page := PageBefore(end);
    if page.start > 0 {
      PagesTile(lines, page.start);
      assert ([page] + Pages(page.start))[1..] == Pages(page.start);
    } else {
      assert [page][1..] == [];
    }
  }

  /** The projection shows a page of the log. */
  ghost predicate Shows(s: State, log: seq<Event>, page: Page) {
    && page.start <= page.end <= |Lines(log)|
    && page == PageBefore(page.end)
    && StandsFor(s.transcript, Lines(log)[page.start..page.end])
  }

  /** The latest projection shows the newest page. */
  lemma NewestPage(log: seq<Event>)
    requires Ordered(log)
    ensures Project(log).Some? && Shows(Project(log).value, log, PageBefore(|Lines(log)|))
  {
    hide Project, StandsFor, Lines;
    ProjectWindow(log);
    var lines := Lines(log);
    assert lines[PageBefore(|lines|).start..|lines|] == Latest(lines, TRANSCRIPT_LIMIT);
  }

  /** Projecting what is in front of a page's first line shows the page before it. */
  lemma OlderPage(log: seq<Event>, s: State, page: Page)
    requires Ordered(log) && Shows(s, log, page) && page.start > 0
    ensures s.transcript != []
    ensures var older := Project(Before(log, s.transcript[0].introducedAt));
      older.Some? && Shows(older.value, log, PageBefore(page.start))
  {
    hide Project, StandsFor, Lines;
    var lines := Lines(log);
    var start := page.start;
    assert s.transcript != [] && s.transcript[0].introducedAt == lines[start].sequence by {
      FirstShown(s.transcript, lines[start..page.end]);
    }
    LinesBefore(log, start);
    var b := Before(log, lines[start].sequence);
    NewestPage(b);
    var older := PageBefore(start);
    assert Lines(b) == lines[..start];
    assert lines[..start][older.start..older.end] == lines[older.start..older.end];
  }

  lemma FirstShown(items: seq<Item>, lines: seq<Event>)
    requires StandsFor(items, lines) && lines != []
    ensures items != [] && items[0].introducedAt == lines[0].sequence
  {
  }

  /** A page in front of a cutoff stays what it is while the log grows. */
  lemma OlderPageStays(log: seq<Event>, more: seq<Event>, cutoff: nat)
    requires Ordered(log + more) && log != [] && cutoff <= log[|log| - 1].sequence
    ensures Before(log + more, cutoff) == Before(log, cutoff)
  {
    var all := log + more;
    assert Ordered(log) by {
      assert forall i :: 0 <= i < |log| ==> all[i] == log[i];
    }
    BeforeIsPrefix(all, cutoff);
    BeforeIsPrefix(log, cutoff);
    var b, b' := Before(log, cutoff), Before(all, cutoff);
    assert all[|log| - 1] == log[|log| - 1];
    assert |b| < |log| && |b'| < |log| by {
      assert !(|log| - 1 < |b'|);
    }
    assert all[|b|] == log[|b|] && all[|b'|] == log[|b'|];
    assert |b| == |b'|;
  }

  lemma {:induction false} PagesAt(end: nat, k: nat)
    requires k < |Pages(end)|
    ensures Pages(end)[k] == PageBefore(Pages(end)[k].end) && Pages(end)[k].start <= Pages(end)[k].end <= end
    ensures Pages(end)[k].start > 0 <==> k + 1 < |Pages(end)|
    ensures k + 1 < |Pages(end)| ==> Pages(end)[k + 1] == PageBefore(Pages(end)[k].start)
    decreases end
  {
    var page := PageBefore(end);
    if page.start > 0 && k > 0 {
      PagesAt(page.start, k - 1);
    }
  }

  lemma LinesGrow(log: seq<Event>, more: seq<Event>)
    requires log <= more
    ensures Lines(log) <= Lines(more)
  {
    assert more == log + more[|log|..];
    LinesAppend(log, more[|log|..]);
  }

  lemma PageOfPrefix(log: seq<Event>, start: nat)
    requires Ordered(log) && start < |Lines(log)|
    ensures var older := Project(Before(log, Lines(log)[start].sequence));
      older.Some? && Shows(older.value, log, PageBefore(start))
  {
    hide Project, StandsFor, Lines;
    var lines := Lines(log);
    LinesBefore(log, start);
    NewestPage(Before(log, lines[start].sequence));
    var older := PageBefore(start);
    assert lines[..start][older.start..older.end] == lines[older.start..older.end];
  }

  /** The first item of a page stands for the line that the page starts with; only a page of no lines is empty. */
  lemma FirstOfPage(s: State, log: seq<Event>, page: Page)
    requires Ordered(log) && Shows(s, log, page)
    ensures s.transcript == [] <==> page.end == 0
    ensures s.transcript != [] ==> page.start < |Lines(log)| && s.transcript[0].introducedAt == Lines(log)[page.start].sequence
    ensures s.transcript != [] ==>
      FirstLine(log).Some? && (s.transcript[0].introducedAt <= FirstLine(log).value <==> page.start == 0)
  {
    LinesOrdered(log);
  }
}
