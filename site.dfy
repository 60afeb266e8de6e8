/** The handlers that tie the components together. A handler whose source
    defers part of its work with `setTimeout` is split in two: the method
    for the event does the immediate part, and a separate method is the
    delayed step, which the caller runs later, after any other events it
    chooses. The delayed step re-reads nothing the source does not re-read. */
module Site {
  import opened Dom
  import Pages
  import Navigation
  import MobileMenu
  import Scrolling
  import Accessibility

  /** Above this window width the drawer is closed on resize. */
  const DesktopBreakpoint: int := 768

  /** The delayed step of a navigation click and of a click on a mobile nav
      link: the drawer closes, whatever happened in between. */
  method CloseAfterDelay(d: MobileMenu.Drawer)
    modifies d
    ensures d.State() == MobileMenu.ClosedState
  {
    d.Close();
  }

  /** A delayed scroll to a section: the click's scroll to its hash and the
      load-time scroll to the URL's hash. `sectionTop` is the `offsetTop` of
      the element the selector finds when the step runs, None when it finds
      nothing; the current page is not checked again. */
  method ScrollToSection(pc: Pages.PageController, sectionTop: Option<int>, headerOffsetHeight: nat)
    modifies pc`scrollTarget
    ensures sectionTop.Some? ==> pc.scrollTarget == Scrolling.ScrollTarget(sectionTop.value, headerOffsetHeight)
    ensures sectionTop.Some? ==> pc.scrollTarget >= 0
    ensures sectionTop.None? ==> pc.scrollTarget == old(pc.scrollTarget)
  {
    if sectionTop.Some? {
      pc.scrollTarget := Scrolling.ScrollTarget(sectionTop.value, headerOffsetHeight);
    }
  }

  /** Enter or Space on a page button clicks it: the immediate part of the
      click handler for a non-anchor element, `showPage` with its
      `data-page`. The click's delayed step is `CloseAfterDelay`. */
  method OnPageButtonKeydown(pc: Pages.PageController, dataPage: string, key: string)
    modifies pc, pc.nav
    ensures Accessibility.IsActivationKey(key) ==> pc.ShowPageDone(dataPage)
    ensures !Accessibility.IsActivationKey(key) ==> unchanged(pc) && unchanged(pc.nav)
  {
    if key == "Enter" || key == " " {
      var pendingScroll := pc.OnNavigationClick(Pages.Click(false, None, dataPage));
    }
  }

  /** The debounced resize handler: a wide window closes the drawer at once;
      on the home page a recomputation of the navigation is scheduled, and
      the result says whether it was. */
  method OnResize(pc: Pages.PageController, d: MobileMenu.Drawer, innerWidth: int) returns (scheduled: bool)
    modifies d
    ensures innerWidth > DesktopBreakpoint ==> d.State() == MobileMenu.ClosedState
    ensures innerWidth <= DesktopBreakpoint ==> unchanged(d)
    ensures scheduled <==> pc.currentPage == Pages.Home
  {
    if innerWidth > DesktopBreakpoint {
      d.Close();
    }
    scheduled := pc.currentPage == Pages.Home;
  }

  /** The resize handler's delayed step: the in-page home links are marked
      for the section at the scroll position. It does not check the page
      again, so it marks them even if the menu page was shown meanwhile. */
  method ResizeSettled(nav: LinkList, sections: seq<Navigation.Section>, scrollY: int)
    modifies nav
    ensures nav.links == Navigation.MarkedForSection(old(nav.links), Navigation.SectionAt(sections, scrollY))
  {
    var current := Navigation.CurrentSection(sections, scrollY);
    Navigation.UpdateHomeLinks(nav, current);
  }

  /** The hash-change handler, which acts at once: on the home page, a
      non-empty hash whose section exists under the home container scrolls
      to that section's target. `sectionTop` is that section's `offsetTop`,
      None when the selector finds nothing. */
  function HashScroll(page: Pages.Page, hash: string, sectionTop: Option<int>, headerOffsetHeight: nat): (r: Option<int>)
    ensures r.Some? <==> page == Pages.Home && hash != "" && sectionTop.Some?
    ensures r.Some? ==> r.value >= 0 && r.value == Scrolling.ScrollTarget(sectionTop.value, headerOffsetHeight)
  {
    if page != Pages.Home then None
    else if hash == "" then None
    else match sectionTop
      case None => None
      case Some(top) => Some(Scrolling.ScrollTarget(top, headerOffsetHeight))
  }

  /** The load-time hash handler's immediate part: a scroll to the hash is
      scheduled exactly when the URL has a hash and the page is home. Its
      delayed step is `ScrollToSection`. */
  method OnLoadHash(pc: Pages.PageController, hash: string) returns (scheduled: bool)
    ensures scheduled <==> hash != "" && pc.currentPage == Pages.Home
  {
    scheduled := hash != "" && pc.currentPage == Pages.Home;
  }

  /** The load path run through to its delayed step, with nothing in between:
      it leaves the scroll position where the hash-change handler would put
      it for the same page, hash and section, and untouched where that
      handler would not scroll. */
  method LoadHashThenScroll(pc: Pages.PageController, hash: string, sectionTop: Option<int>, headerOffsetHeight: nat)
    returns (scheduled: bool)
    modifies pc`scrollTarget
    ensures scheduled <==> hash != "" && pc.currentPage == Pages.Home
    ensures HashScroll(pc.currentPage, hash, sectionTop, headerOffsetHeight).Some? ==>
      Some(pc.scrollTarget) == HashScroll(pc.currentPage, hash, sectionTop, headerOffsetHeight)
    ensures HashScroll(pc.currentPage, hash, sectionTop, headerOffsetHeight).None? ==>
      pc.scrollTarget == old(pc.scrollTarget)
  {
    scheduled := OnLoadHash(pc, hash);
    if scheduled {
      ScrollToSection(pc, sectionTop, headerOffsetHeight);
    }
  }
}
