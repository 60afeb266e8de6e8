/** The mobile drawer: the `active` class on the toggle button and on the
    drawer, and the body's scroll lock (`document.body.style.overflow`). */
module MobileMenu {

  /** The three things the drawer operations write. */
  datatype DrawerState = DrawerState(toggleActive: bool, navActive: bool, bodyOverflow: string)

  /** What `openMobileMenu` writes, whatever was there before. */
  const OpenState: DrawerState := DrawerState(true, true, "hidden")
  /** What `closeMobileMenu` writes, whatever was there before. */
  const ClosedState: DrawerState := DrawerState(false, false, "")

  /** The two classes agree and the scroll lock is on exactly while they are set. */
  predicate Synced(s: DrawerState) {
    s.toggleActive == s.navActive && s.bodyOverflow == (if s.navActive then "hidden" else "")
  }

  /** `toggleMobileMenu`: dispatch on the drawer's own class. */
  function Toggled(s: DrawerState): (r: DrawerState)
    ensures Synced(r)
    ensures r.navActive == !s.navActive
  {
    if s.navActive then ClosedState else OpenState
  }

  /** On a synchronised state, toggling twice changes nothing. */
  lemma ToggleInvolutive(s: DrawerState)
    requires Synced(s)
    ensures Toggled(Toggled(s)) == s
  {
  }

  /** The synchronised states are exactly the open and the closed one. */
  lemma SyncedStates(s: DrawerState)
    ensures Synced(s) <==> s == OpenState || s == ClosedState
  {
  }

  class Drawer {
    var toggleActive: bool
    var navActive: bool
    var bodyOverflow: string

    function State(): DrawerState
      reads this
    {
      DrawerState(toggleActive, navActive, bodyOverflow)
    }

    constructor (bodyOverflow: string)
      ensures State() == DrawerState(false, false, bodyOverflow)
    {
      toggleActive, navActive := false, false;
      this.bodyOverflow := bodyOverflow;
    }

    method Open()
      modifies this
      ensures State() == OpenState
    {
      toggleActive := true;
      navActive := true;
      bodyOverflow := "hidden";
    }

    method Close()
      modifies this
      ensures State() == ClosedState
    {
      toggleActive := false;
      navActive := false;
      bodyOverflow := "";
    }

    method Toggle()
      modifies this
      ensures State() == Toggled(old(State()))
    {
      if navActive {
        Close();
      } else {
        Open();
      }
    }

    /** The document-level click handler: a click outside both the drawer and
        the toggle closes an open drawer. */
    method OnDocumentClick(insideDrawer: bool, onToggle: bool)
      modifies this
      ensures !insideDrawer && !onToggle && old(navActive) ==> State() == ClosedState
      ensures insideDrawer || onToggle || !old(navActive) ==> unchanged(this)
    {
      if !insideDrawer && !onToggle && navActive {
        Close();
      }
    }

    /** The document-level keydown handler: Escape closes an open drawer. */
    method OnEscapeKeydown(key: string)
      modifies this
      ensures key == "Escape" && old(navActive) ==> State() == ClosedState
      ensures key != "Escape" || !old(navActive) ==> unchanged(this)
    {
      if key == "Escape" && navActive {
        Close();
      }
    }
  }
}
