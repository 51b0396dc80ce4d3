/** The table-of-contents widget beside a blog post: which heading is
    highlighted while the reader scrolls, what a click on an entry does,
    and which entries are listed.

    Element positions are inputs: `tops` maps a heading id to the
    `offsetTop` of the element with that id, and an id it does not map has
    no element. React's deferred state updates, the scroll listener, the
    timers and the smooth scroll itself are not modelled: a handler's
    updates take effect when it returns. */
module TableOfContentsView {
  import opened Js
  import opened Seqs
  import opened RichText
  import opened TocGenerator

  const MobileOffset := 450
  const DesktopOffset := 100
  const DesktopMinWidth := 1024

  /** `getScrollOffset()`: `innerWidth` is `None` without a window. */
  function ScrollOffset(innerWidth: Option<int>): (r: int)
    ensures r == MobileOffset <==> innerWidth.Some? && innerWidth.value < DesktopMinWidth
    ensures r == DesktopOffset <==> !(innerWidth.Some? && innerWidth.value < DesktopMinWidth)
  {
    if innerWidth.None? then DesktopOffset
    else if innerWidth.value < DesktopMinWidth then MobileOffset else DesktopOffset
  }

  /** The heading's element exists and its top has reached `pos`. */
  predicate Passed(item: TocItem, tops: map<string, int>, pos: int) {
    item.id in tops && tops[item.id] <= pos
  }

  predicate PassedBefore(items: seq<TocItem>, tops: map<string, int>, pos: int, n: nat)
    requires n <= |items|
  {
    exists m :: 0 <= m < n && Passed(items[m], tops, pos)
  }

  /** Among the first `n` items, `j` is a passed heading with the greatest
      top, and the first one with that top. */
  predicate LatestUpTo(items: seq<TocItem>, tops: map<string, int>, pos: int, n: nat, j: int)
    requires n <= |items|
  {
    && 0 <= j < n
    && Passed(items[j], tops, pos)
    && (forall m :: 0 <= m < n && Passed(items[m], tops, pos) ==> tops[items[m].id] <= tops[items[j].id])
    && (forall m :: 0 <= m < j && Passed(items[m], tops, pos) ==> tops[items[m].id] < tops[items[j].id])
  }

  /** At most one heading is the latest passed one. */
  lemma LatestUnique(items: seq<TocItem>, tops: map<string, int>, pos: int, j1: int, j2: int)
    requires LatestUpTo(items, tops, pos, |items|, j1) && LatestUpTo(items, tops, pos, |items|, j2)
    ensures j1 == j2
  {
  }

  function Abs(x: int): int {
    if x < 0 then -x else x
  }

  /** Among the first `n` items, `j` has an element whose top is nearest
      `viewportTop`, and is the first one at that distance. */
  predicate ClosestUpTo(items: seq<TocItem>, tops: map<string, int>, viewportTop: int, n: nat, j: int)
    requires n <= |items|
  {
    && 0 <= j < n
    && items[j].id in tops
    && (forall m :: 0 <= m < n && items[m].id in tops ==>
          Abs(tops[items[j].id] - viewportTop) <= Abs(tops[items[m].id] - viewportTop))
    && (forall m :: 0 <= m < j && items[m].id in tops ==>
          Abs(tops[items[j].id] - viewportTop) < Abs(tops[items[m].id] - viewportTop))
  }

  predicate PlacedBefore(items: seq<TocItem>, tops: map<string, int>, n: nat)
    requires n <= |items|
  {
    exists m :: 0 <= m < n && items[m].id in tops
  }

  /** At most one heading is the closest one. */
  lemma ClosestUnique(items: seq<TocItem>, tops: map<string, int>, viewportTop: int, j1: int, j2: int)
    requires ClosestUpTo(items, tops, viewportTop, |items|, j1) && ClosestUpTo(items, tops, viewportTop, |items|, j2)
    ensures j1 == j2
  {
  }

  /** The best heading seen so far by one of the two loops. */
  datatype Candidate = Candidate(id: string, score: int)

  /** The widget's state: the highlighted heading, whether a click-driven
      scroll is under way, and whether the mobile dropdown is open. */
  class TocState {
    var activeId: string
    var isScrolling: bool
    var isOpen: bool

    constructor()
      ensures activeId == "" && !isScrolling && !isOpen
    {
      activeId := "";
      isScrolling := false;
      isOpen := false;
    }

    /** `findActiveHeading()`: highlights the heading with the greatest top
        at or above `scrollY + offset`, the earlier one on a tie. It does
        nothing while a click-driven scroll is under way, and leaves the
        highlight alone when no heading has been passed. */
    method FindActiveHeading(items: seq<TocItem>, tops: map<string, int>, innerWidth: int, scrollY: int)
      modifies this
      ensures isScrolling == old(isScrolling) && isOpen == old(isOpen)
      ensures old(isScrolling) ==> activeId == old(activeId)
      ensures var pos := scrollY + ScrollOffset(Some(innerWidth));
        !old(isScrolling) && !PassedBefore(items, tops, pos, |items|) ==> activeId == old(activeId)
      ensures var pos := scrollY + ScrollOffset(Some(innerWidth));
        !old(isScrolling) && PassedBefore(items, tops, pos, |items|) ==>
          exists j :: LatestUpTo(items, tops, pos, |items|, j) && activeId == items[j].id
    {
      if isScrolling {
        return;
      }
      var offset := ScrollOffset(Some(innerWidth));
      var scrollPosition := scrollY + offset;
      var currentActive: Option<Candidate> := None;
      ghost var best := 0;
      for i := 0 to |items|
        invariant currentActive.None? <==> !PassedBefore(items, tops, scrollPosition, i)
        invariant currentActive.Some? ==>
          LatestUpTo(items, tops, scrollPosition, i, best)
          && currentActive.value == Candidate(items[best].id, tops[items[best].id])
      {
        var item := items[i];
        if item.id in tops {
          var elementTop := tops[item.id];
          if elementTop <= scrollPosition {
            assert Passed(items[i], tops, scrollPosition);
            if currentActive.None? || elementTop > currentActive.value.score {
              currentActive := Some(Candidate(item.id, elementTop));
              best := i;
            }
          }
        }
      }
      if currentActive.Some? {
        activeId := currentActive.value.id;
      }
    }

    /** `handleLinkClick(item)`: the entry is highlighted at once and
        updates from scrolling are paused. When its heading exists, the page
        scrolls to the heading's top (`rectTop + pageYOffset`) less the
        scroll offset, which is the returned target, and the dropdown
        closes; otherwise nothing is scheduled. */
    method LinkClick(item: TocItem, tops: map<string, int>, innerWidth: int, rectTop: int, pageYOffset: int)
      returns (target: Option<int>)
      modifies this
      ensures activeId == item.id && isScrolling
      ensures target.Some? <==> item.id in tops
      ensures target.Some? ==> target.value == rectTop + pageYOffset - ScrollOffset(Some(innerWidth))
      ensures isOpen == (old(isOpen) && item.id !in tops)
    {
      activeId := item.id;
      isScrolling := true;
      target := None;
      if item.id in tops {
        var offset := ScrollOffset(Some(innerWidth));
        var offsetPosition := rectTop + pageYOffset - offset;
        target := Some(offsetPosition);
        isOpen := false;
      }
    }

    /** The check that runs once a click-driven scroll is over: updates
        from scrolling resume, and the heading nearest `scrollY + offset`
        (the offset of the click) is highlighted, the earlier one on a tie.
        With no heading on the page the highlight stays. */
    method AfterClickScroll(items: seq<TocItem>, tops: map<string, int>, scrollY: int, offset: int)
      modifies this
      ensures !isScrolling && isOpen == old(isOpen)
      ensures !PlacedBefore(items, tops, |items|) ==> activeId == old(activeId)
      ensures PlacedBefore(items, tops, |items|) ==>
        exists j :: ClosestUpTo(items, tops, scrollY + offset, |items|, j) && activeId == items[j].id
    {
      isScrolling := false;
      var viewportTop := scrollY + offset;
      var closestHeading: Option<Candidate> := None;
      ghost var best := 0;
      for i := 0 to |items|
        invariant closestHeading.None? <==> !PlacedBefore(items, tops, i)
        invariant closestHeading.Some? ==>
          ClosestUpTo(items, tops, viewportTop, i, best)
          && closestHeading.value == Candidate(items[best].id, Abs(tops[items[best].id] - viewportTop))
      {
        var tocItem := items[i];
        if tocItem.id in tops {
          var elTop := tops[tocItem.id];
          var distance := Abs(elTop - viewportTop);
          if closestHeading.None? || distance < closestHeading.value.score {
            closestHeading := Some(Candidate(tocItem.id, distance));
            best := i;
          }
        }
      }
      if closestHeading.Some? {
        activeId := closestHeading.value.id;
      }
    }

    /** The dropdown button. */
    method ToggleOpen()
      modifies this
      ensures isOpen == !old(isOpen)
      ensures activeId == old(activeId) && isScrolling == old(isScrolling)
    {
      isOpen := !isOpen;
    }
  }

  // ---------------------------------------------------------------------
  // The list.

  datatype Entry = Entry(id: string, text: string, href: string, active: bool)

  /** An item without a text or an id is not listed. */
  predicate Listed(item: TocItem) {
    item.text != "" && item.id != ""
  }

  function ToEntry(item: TocItem, activeId: string): Entry {
    Entry(item.id, item.text, "#" + item.id, item.id == activeId)
  }

  /** What the widget renders: nothing without items, else the listed
      items, the active one marked. */
  function TocList(items: Option<seq<TocItem>>, activeId: string): (r: Option<seq<Entry>>)
    ensures r.None? <==> items.None? || items.value == []
  {
    if items.None? || items.value == [] then None
    else Some(Map(Filter(items.value, Listed), (item: TocItem) => ToEntry(item, activeId)))
  }

  /** Every entry of a generated table of contents is listed, in order,
      and at most one of them is marked active. */
  lemma GeneratedTocListed(body: Body, activeId: string)
    requires Toc(body) != []
    ensures var r := TocList(Some(Toc(body)), activeId);
      && r.Some? && |r.value| == |Toc(body)|
      && (forall i :: 0 <= i < |Toc(body)| ==> r.value[i].id == Toc(body)[i].id && r.value[i].text == Toc(body)[i].text)
      && (forall i, j :: 0 <= i < |r.value| && 0 <= j < |r.value| && r.value[i].active && r.value[j].active ==> i == j)
  {
    var items := Toc(body);
    var bs := PreOrder(BodyBlocks(body));
    TocEntriesWellFormed(bs, 0);
    EntriesNumbering(Kinds(bs), 0);
    TocIdsUnique(bs, 0);
    forall i | 0 <= i < |items|
      ensures Listed(items[i])
    {
      assert items[i].id == HeadingId(EntryNumbers(Kinds(bs), 0)[i]);
    }
    FilterAll(items, Listed);
  }
}
