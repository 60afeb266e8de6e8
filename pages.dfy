/** The page controller: which of the two content containers (home, menu) is
    shown, the current-page variable other handlers read, and the nav-link
    marking that follows every page switch. */
module Pages {
  import opened Dom

  datatype Page = Home | Menu

  function PageId(p: Page): string {
    match p
    case Home => "home"
    case Menu => "menu"
  }

  /** The page a `showPage` argument names, if any. */
  function ParsePage(id: string): (r: Option<Page>)
    ensures r.Some? <==> id == "home" || id == "menu"
    ensures r.Some? ==> PageId(r.value) == id
  {
    if id == "home" then Some(Home) else if id == "menu" then Some(Menu) else None
  }

  lemma PageIdRoundTrip(p: Page)
    ensures ParsePage(PageId(p)) == Some(p)
  {
  }

  // ---------------------------------------------------------------------
  // Marking nav links for a page
  // ---------------------------------------------------------------------

  /** One element as `updateNavigationForPage(pageId)` leaves it: a nav link
      loses the marker and regains it when its `data-page` is pageId; any
      other element is not selected and keeps its marker. */
  function MarkLinkForPage(l: Link, pageId: string): Link {
    if IsNavLink(l) then l.(active := l.dataPage == Some(pageId)) else l
  }

  /** The whole link list after `updateNavigationForPage(pageId)`. */
  function MarkedForPage(links: seq<Link>, pageId: string): (r: seq<Link>)
    ensures |r| == |links|
  {
    if links == [] then [] else [MarkLinkForPage(links[0], pageId)] + MarkedForPage(links[1..], pageId)
  }

  /** Every nav link ends up active exactly when its `data-page` is pageId;
      elements outside `.nav-link, .mobile-nav-link` keep their marker, and
      no element changes otherwise. */
  lemma {:induction false} MarkedForPageExact(links: seq<Link>, pageId: string)
    ensures |MarkedForPage(links, pageId)| == |links|
    ensures forall i :: 0 <= i < |links| ==>
      var r := MarkedForPage(links, pageId)[i];
      SameElement(r, links[i]) &&
      r.active == (if IsNavLink(links[i]) then links[i].dataPage == Some(pageId) else links[i].active)
  {
    if links != [] {
      MarkedForPageExact(links[1..], pageId);
      forall i | 1 <= i < |links|
        ensures MarkedForPage(links, pageId)[i] == MarkedForPage(links[1..], pageId)[i - 1]
      {
      }
    }
  }

  /** Marking for the same page twice is the same as marking once. */
  lemma {:induction false} MarkedForPageIdempotent(links: seq<Link>, pageId: string)
    ensures MarkedForPage(MarkedForPage(links, pageId), pageId) == MarkedForPage(links, pageId)
  {
    if links != [] {
      MarkedForPageIdempotent(links[1..], pageId);
      var m := MarkedForPage(links, pageId);
      assert m[1..] == MarkedForPage(links[1..], pageId);
    }
  }

  /** A page id that no nav link's `data-page` names leaves every nav link
      unmarked. */
  lemma {:induction false} UnknownPageMarksNothing(links: seq<Link>, pageId: string)
    requires forall i :: 0 <= i < |links| && IsNavLink(links[i]) ==> links[i].dataPage != Some(pageId)
    ensures forall i :: 0 <= i < |links| && IsNavLink(links[i]) ==> !MarkedForPage(links, pageId)[i].active
  {
    MarkedForPageExact(links, pageId);
  }

  /** Switching to the menu page leaves no in-page home link of the nav marked. */
  lemma {:induction false} MenuClearsHomeSectionLinks(links: seq<Link>)
    ensures forall i :: 0 <= i < |links| && IsNavLink(links[i]) && IsHomeSectionLink(links[i]) ==>
      !MarkedForPage(links, "menu")[i].active
  {
    MarkedForPageExact(links, "menu");
  }

  // ---------------------------------------------------------------------
  // Clicks on `[data-page]` elements
  // ---------------------------------------------------------------------

  /** A click on an element carrying `data-page`: whether the element is an
      anchor, its `href` attribute and its `data-page` value. */
  datatype Click = Click(isAnchor: bool, href: Option<string>, dataPage: string)

  /** What the click handler does at once: whether it suppresses the default
      navigation, which page id it passes to `showPage`, and the hash it
      scrolls to after its short delay. */
  datatype ClickEffect = ClickEffect(preventDefault: bool, show: Option<string>, deferredScroll: Option<string>)

  predicate InPageAnchor(c: Click) {
    c.isAnchor && c.href.Some? && StartsWith(c.href.value, "#")
  }

  function ClickEffectOf(c: Click): (r: ClickEffect)
    requires c.isAnchor ==> c.href.Some?
    ensures r.preventDefault <==> r.show.Some?
    ensures r.show.Some? ==> r.show.value == c.dataPage
    ensures r.show.None? <==> InPageAnchor(c) && c.dataPage != "home" && c.dataPage != "menu"
    ensures r.deferredScroll.Some? <==> InPageAnchor(c) && c.dataPage == "home" && c.href.value != "#"
    ensures r.deferredScroll.Some? ==> r.deferredScroll == c.href
  {
    if InPageAnchor(c) then
      if c.dataPage == "home" then
        var href := c.href.value;
        ClickEffect(true, Some("home"), if href != "#" && href != "" then Some(href) else None)
      else if c.dataPage == "menu" then
        ClickEffect(true, Some("menu"), None)
      else
        ClickEffect(false, None, None)
    else
      ClickEffect(true, Some(c.dataPage), None)
  }

  /** A click on any element whose `data-page` is "menu" switches to the menu page. */
  lemma MenuClickShowsMenu(c: Click)
    requires c.isAnchor ==> c.href.Some?
    requires c.dataPage == "menu"
    ensures ClickEffectOf(c) == ClickEffect(true, Some("menu"), None)
  {
  }

  // ---------------------------------------------------------------------
  // The controller
  // ---------------------------------------------------------------------

  class PageController {
    /** The page `getCurrentPage()` reports. */
    var currentPage: Page
    /** Whether the home (resp. menu) container's display is `block`. */
    var homeVisible: bool
    var menuVisible: bool
    /** The vertical position last passed to `window.scrollTo`. */
    var scrollTarget: int
    /** The document's link-like elements. */
    const nav: LinkList

    /** Exactly one container is shown, and it is the current page's. */
    ghost predicate Consistent()
      reads this
    {
      homeVisible != menuVisible && homeVisible == (currentPage == Home)
    }

    constructor (nav: LinkList, homeVisible: bool, menuVisible: bool, scrollTarget: int)
      ensures this.nav == nav && currentPage == Home
      ensures this.homeVisible == homeVisible && this.menuVisible == menuVisible
      ensures this.scrollTarget == scrollTarget
    {
      this.nav := nav;
      this.currentPage := Home;
      this.homeVisible := homeVisible;
      this.menuVisible := menuVisible;
      this.scrollTarget := scrollTarget;
    }

    /** The state `showPage(pageId)` leaves, relative to the state before it:
        a known id shows its container, hides the other, records the page and
        scrolls to the top; any other id leaves all of that alone. The links
        are marked for pageId either way. */
    twostate predicate ShowPageDone(pageId: string)
      reads this, nav
    {
      (match ParsePage(pageId)
       case Some(p) =>
         currentPage == p && homeVisible == (p == Home) && menuVisible == (p == Menu) && scrollTarget == 0
       case None =>
         currentPage == old(currentPage) && homeVisible == old(homeVisible) &&
         menuVisible == old(menuVisible) && scrollTarget == old(scrollTarget)) &&
      nav.links == MarkedForPage(old(nav.links), pageId)
    }

    method ShowPage(pageId: string)
      modifies this, nav
      ensures ShowPageDone(pageId)
      ensures ParsePage(pageId).Some? || old(Consistent()) ==> Consistent()
    {
      if pageId == "home" {
        homeVisible, menuVisible := true, false;
        currentPage := Home;
        scrollTarget := 0;
      } else if pageId == "menu" {
        homeVisible, menuVisible := false, true;
        currentPage := Menu;
        scrollTarget := 0;
      }
      UpdateNavigationForPage(pageId);
    }

    /** Showing the same page twice in a row leaves the state one call leaves. */
    method ShowPageTwice(pageId: string)
      modifies this, nav
      ensures ShowPageDone(pageId)
    {
      ghost var before := nav.links;
      ShowPage(pageId);
      ShowPage(pageId);
      MarkedForPageIdempotent(before, pageId);
    }

    method UpdateNavigationForPage(pageId: string)
      modifies nav
      ensures nav.links == MarkedForPage(old(nav.links), pageId)
    {
      ghost var before := nav.links;
      MarkedForPageExact(before, pageId);
      var i := 0;
      while i < |nav.links|
        invariant 0 <= i <= |nav.links| == |before|
        invariant forall k :: 0 <= k < i ==> nav.links[k] == MarkedForPage(before, pageId)[k]
        invariant forall k :: i <= k < |nav.links| ==> nav.links[k] == before[k]
      {
        var link := nav.links[i];
        if IsNavLink(link) {
          link := link.(active := false);
          if link.dataPage == Some(pageId) {
            link := link.(active := true);
          }
        }
        nav.links := nav.links[i := link];
        i := i + 1;
      }
    }

    /** The handler of a click on a `[data-page]` element; it returns the hash
        whose section it scrolls to after its delay, if any. */
    method OnNavigationClick(c: Click) returns (pendingScroll: Option<string>)
      requires c.isAnchor ==> c.href.Some?
      modifies this, nav
      ensures pendingScroll == ClickEffectOf(c).deferredScroll
      ensures ClickEffectOf(c).show.Some? ==> ShowPageDone(ClickEffectOf(c).show.value)
      ensures ClickEffectOf(c).show.None? ==> unchanged(this) && unchanged(nav)
    {
      var effect := ClickEffectOf(c);
      if effect.show.Some? {
        ShowPage(effect.show.value);
      }
      pendingScroll := effect.deferredScroll;
    }
  }
}
