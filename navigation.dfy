/** Navigation sync on the home page: which section the scroll position is
    in, and which in-page home links carry the active marker for it. */
module Navigation {
  import opened Dom
  import Pages

  /** A `#home-page section[id]`: its id and its `offsetTop`/`offsetHeight`. */
  datatype Section = Section(id: string, top: int, height: int)

  /** Below this scroll position the answer is always the hero section. */
  const TopZone: int := 100
  /** How far below the scroll position a section is looked for. */
  const LookAhead: int := 150

  predicate Spans(s: Section, pos: int) {
    s.top <= pos < s.top + s.height
  }

  /** The index of the last section, in document order, whose span holds pos. */
  function LastMatch(sections: seq<Section>, pos: int): (r: Option<nat>)
    ensures r.Some? ==>
      r.value < |sections| && Spans(sections[r.value], pos) &&
      forall j :: r.value < j < |sections| ==> !Spans(sections[j], pos)
    ensures r.None? ==> forall j :: 0 <= j < |sections| ==> !Spans(sections[j], pos)
  {
    if sections == [] then None
    else if Spans(sections[|sections| - 1], pos) then Some(|sections| - 1)
    else LastMatch(sections[..|sections| - 1], pos)
  }

  /** The section id a match names, "home" when there is none. */
  function MatchedId(sections: seq<Section>, m: Option<nat>): string
    requires m.Some? ==> m.value < |sections|
  {
    match m
    case None => "home"
    case Some(k) => sections[k].id
  }

  /** The section the navigation highlights for a window scroll position. */
  function SectionAt(sections: seq<Section>, scrollY: int): (r: string)
    ensures scrollY < TopZone ==> r == "home"
    ensures scrollY >= TopZone && (forall j :: 0 <= j < |sections| ==> !Spans(sections[j], scrollY + LookAhead)) ==>
      r == "home"
    ensures scrollY >= TopZone && (exists j :: 0 <= j < |sections| && Spans(sections[j], scrollY + LookAhead)) ==>
      exists k :: 0 <= k < |sections| && r == sections[k].id && Spans(sections[k], scrollY + LookAhead) &&
        forall j :: k < j < |sections| ==> !Spans(sections[j], scrollY + LookAhead)
  {
    if scrollY < TopZone then "home" else MatchedId(sections, LastMatch(sections, scrollY + LookAhead))
  }

  /** The scan both the scroll handler and the resize handler run: start from
      "home" and let every section whose span holds the look-ahead position
      overwrite the answer. */
  method CurrentSection(sections: seq<Section>, scrollY: int) returns (current: string)
    ensures current == SectionAt(sections, scrollY)
  {
    current := "home";
    var scrollPosition := scrollY + LookAhead;
    if scrollY < TopZone {
      current := "home";
    } else {
      var i := 0;
      while i < |sections|
        invariant 0 <= i <= |sections|
        invariant current == MatchedId(sections, LastMatch(sections[..i], scrollPosition))
      {
        var section := sections[i];
        if scrollPosition >= section.top && scrollPosition < section.top + section.height {
          current := section.id;
        }
        assert sections[..i + 1][..i] == sections[..i];
        i := i + 1;
      }
      assert sections[..i] == sections;
    }
  }

  // ---------------------------------------------------------------------
  // Marking the in-page home links
  // ---------------------------------------------------------------------

  /** Whether an `href` designates the current section: `#<section>`, or the
      bare `#` while the section is "home". */
  predicate HrefMatches(href: string, current: string) {
    href == "#" + current || (href == "#" && current == "home")
  }

  /** An `href` matches exactly one designation of the section, except that
      the hero section is also named by the bare `#`. */
  lemma HrefMatchesCases(href: string, current: string)
    ensures current != "home" ==> (HrefMatches(href, current) <==> href == "#" + current)
    ensures current == "home" ==> (HrefMatches(href, current) <==> href == "#" || href == "#home")
  {
  }

  function MarkLinkForSection(l: Link, current: string): Link {
    if IsHomeSectionLink(l) then l.(active := HrefMatches(l.href.value, current)) else l
  }

  /** The link list after the navigation sync marks `current`. */
  function MarkedForSection(links: seq<Link>, current: string): (r: seq<Link>)
    ensures |r| == |links|
  {
    if links == [] then [] else [MarkLinkForSection(links[0], current)] + MarkedForSection(links[1..], current)
  }

  /** Each in-page home link ends up active exactly when its href designates
      the section; every other element keeps its marker, and no element
      changes otherwise. */
  lemma {:induction false} MarkedForSectionExact(links: seq<Link>, current: string)
    ensures |MarkedForSection(links, current)| == |links|
    ensures forall i :: 0 <= i < |links| ==>
      var r := MarkedForSection(links, current)[i];
      SameElement(r, links[i]) &&
      r.active == (if IsHomeSectionLink(links[i]) then HrefMatches(links[i].href.value, current) else links[i].active)
  {
    if links != [] {
      MarkedForSectionExact(links[1..], current);
      forall i | 1 <= i < |links|
        ensures MarkedForSection(links, current)[i] == MarkedForSection(links[1..], current)[i - 1]
      {
      }
    }
  }

  /** When the in-page home links have pairwise different hrefs and the
      section is not the hero, at most one of them is left active. */
  lemma AtMostOneSectionLinkActive(links: seq<Link>, current: string)
    requires current != "home"
    requires forall i, j :: 0 <= i < j < |links| && IsHomeSectionLink(links[i]) && IsHomeSectionLink(links[j]) ==>
      links[i].href != links[j].href
    ensures forall i, j ::
      (0 <= i < |links| && 0 <= j < |links| && IsHomeSectionLink(links[i]) && IsHomeSectionLink(links[j]) &&
       MarkedForSection(links, current)[i].active && MarkedForSection(links, current)[j].active) ==> i == j
  {
    MarkedForSectionExact(links, current);
  }

  method UpdateHomeLinks(nav: LinkList, current: string)
    modifies nav
    ensures nav.links == MarkedForSection(old(nav.links), current)
  {
    ghost var before := nav.links;
    MarkedForSectionExact(before, current);
    var i := 0;
    while i < |nav.links|
      invariant 0 <= i <= |nav.links| == |before|
      invariant forall k :: 0 <= k < i ==> nav.links[k] == MarkedForSection(before, current)[k]
      invariant forall k :: i <= k < |nav.links| ==> nav.links[k] == before[k]
    {
      var link := nav.links[i];
      if IsHomeSectionLink(link) {
        link := link.(active := false);
        var href := link.href.value;
        if href == "#" + current || (href == "#" && current == "home") {
          link := link.(active := true);
        }
      }
      nav.links := nav.links[i := link];
      i := i + 1;
    }
  }

  /** The throttled scroll handler: nothing off the home page; on it, the
      in-page home links are marked for the section at the scroll position. */
  method UpdateActiveNavigation(pc: Pages.PageController, sections: seq<Section>, scrollY: int)
    modifies pc.nav
    ensures pc.currentPage != Pages.Home ==> unchanged(pc.nav)
    ensures pc.currentPage == Pages.Home ==>
      pc.nav.links == MarkedForSection(old(pc.nav.links), SectionAt(sections, scrollY))
  {
    if pc.currentPage != Pages.Home {
      return;
    }
    var current := CurrentSection(sections, scrollY);
    UpdateHomeLinks(pc.nav, current);
  }

  /** A section spanning 800 to 1200 with no later section holding 850: at
      scroll position 700 it is the one highlighted, and of the in-page home
      links exactly those pointing at it are active. */
  lemma ScrollIntoSectionScenario(sections: seq<Section>, k: nat, links: seq<Link>)
    requires k < |sections| && sections[k] == Section("menu-story", 800, 400)
    requires forall j :: k < j < |sections| ==> !Spans(sections[j], 850)
    ensures SectionAt(sections, 700) == "menu-story"
    ensures forall i :: 0 <= i < |links| && IsHomeSectionLink(links[i]) ==>
      (MarkedForSection(links, "menu-story")[i].active <==> links[i].href == Some("#menu-story"))
  {
    assert Spans(sections[k], 700 + LookAhead);
    assert "#" + "menu-story" == "#menu-story";
    MarkedForSectionExact(links, "menu-story");
  }
}
