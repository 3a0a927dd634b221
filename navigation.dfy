/** The navigation bar: the `scrolled` style and the highlighted link, both
    recomputed on every scroll event. */
module Navigation {
  import opened Wrappers

  /** A `section[id]` element: its id and its `offsetTop`. */
  datatype Section = Section(id: string, top: real)

  /** The page has scrolled to within 200 pixels above the section. */
  predicate Reached(s: Section, scrollY: real) {
    scrollY >= s.top - 200.0
  }

  /** The last section in document order that has been reached. */
  function LastReached(sections: seq<Section>, scrollY: real): (r: Option<nat>)
    ensures r.None? <==> forall i :: 0 <= i < |sections| ==> !Reached(sections[i], scrollY)
    ensures r.Some? ==>
      && r.value < |sections| && Reached(sections[r.value], scrollY)
      && forall j :: r.value < j < |sections| ==> !Reached(sections[j], scrollY)
  {
    if |sections| == 0 then None
    else if Reached(sections[|sections| - 1], scrollY) then Some(|sections| - 1)
    else LastReached(sections[..|sections| - 1], scrollY)
  }

  /** `current`: the id of the last section reached, or `''` when none is. */
  function CurrentId(sections: seq<Section>, scrollY: real): (id: string)
    ensures (forall i :: 0 <= i < |sections| ==> !Reached(sections[i], scrollY)) ==> id == ""
    ensures (exists i :: 0 <= i < |sections| && Reached(sections[i], scrollY)) ==>
      exists i :: 0 <= i < |sections| && Reached(sections[i], scrollY) && id == sections[i].id
        && forall j :: i < j < |sections| ==> !Reached(sections[j], scrollY)
  {
    match LastReached(sections, scrollY)
    case None => ""
    case Some(i) => sections[i].id
  }

  /** Which links are highlighted: exactly those pointing at the current section. */
  function LinkFlags(hrefs: seq<string>, current: string): (flags: seq<bool>)
    ensures |flags| == |hrefs|
    ensures forall k :: 0 <= k < |hrefs| ==> (flags[k] <==> hrefs[k] == "#" + current)
  {
    seq(|hrefs|, k requires 0 <= k < |hrefs| => hrefs[k] == "#" + current)
  }

  /** With no section reached, the highlighted links are those whose href is
      the bare `#`. */
  lemma NothingReachedHighlightsHash(sections: seq<Section>, scrollY: real, hrefs: seq<string>)
    requires forall i :: 0 <= i < |sections| ==> !Reached(sections[i], scrollY)
    ensures forall k :: 0 <= k < |hrefs| ==> (LinkFlags(hrefs, CurrentId(sections, scrollY))[k] <==> hrefs[k] == "#")
  {
    assert CurrentId(sections, scrollY) == "";
    assert "#" + "" == "#";
  }

  /** Scrolling further down never moves the highlight back up: a section
      reached stays reached, so the last one reached is at least as late. */
  lemma LastReachedMonotone(sections: seq<Section>, y1: real, y2: real)
    requires y1 <= y2 && LastReached(sections, y1).Some?
    ensures LastReached(sections, y2).Some?
    ensures LastReached(sections, y1).value <= LastReached(sections, y2).value
  {
    var i := LastReached(sections, y1).value;
    assert Reached(sections[i], y2);
  }

  /** The navigation bar's state: the section last highlighted and whether the
      bar has its `scrolled` style. */
  class Page {
    var currentSection: string
    var scrolled: bool

    /** The page as it loads: the hero section, no `scrolled` style. */
    constructor()
      ensures currentSection == "hero" && !scrolled
    {
      currentSection := "hero";
      scrolled := false;
    }

    /** `updateActiveNavLink`: the sections are visited in order and the last
        one reached wins; every link is cleared and those pointing at it are
        highlighted; the winner's id is remembered. */
    method UpdateActiveNavLink(sections: seq<Section>, scrollY: real, hrefs: seq<string>, active: array<bool>)
      requires active.Length == |hrefs|
      modifies this, active
      ensures currentSection == CurrentId(sections, scrollY)
      ensures active[..] == LinkFlags(hrefs, currentSection)
      ensures scrolled == old(scrolled)
    {
      var current := "";
      var i := 0;
      while i < |sections|
        invariant 0 <= i <= |sections|
        invariant current == CurrentId(sections[..i], scrollY)
        invariant scrolled == old(scrolled)
      {
        assert sections[..i + 1][..i] == sections[..i];
        if Reached(sections[i], scrollY) {
          current := sections[i].id;
        }
        i := i + 1;
      }
      assert sections[..i] == sections;
      var k := 0;
      while k < active.Length
        invariant 0 <= k <= active.Length
        invariant forall j :: 0 <= j < k ==> active[j] == (hrefs[j] == "#" + current)
        invariant scrolled == old(scrolled)
      {
        active[k] := false;
        if hrefs[k] == "#" + current {
          active[k] := true;
        }
        k := k + 1;
      }
      currentSection := current;
    }

    /** The scroll listener: the bar is `scrolled` exactly when the page is
        more than 50 pixels down, then the highlight is recomputed. */
    method OnScroll(sections: seq<Section>, scrollY: real, hrefs: seq<string>, active: array<bool>)
      requires active.Length == |hrefs|
      modifies this, active
      ensures scrolled <==> scrollY > 50.0
      ensures currentSection == CurrentId(sections, scrollY)
      ensures active[..] == LinkFlags(hrefs, currentSection)
    {
      scrolled := scrollY > 50.0;
      UpdateActiveNavLink(sections, scrollY, hrefs, active);
    }
  }
}
