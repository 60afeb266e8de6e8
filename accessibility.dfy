/** Keyboard affordances: activation keys on the drawer toggle and on page
    buttons, and the focus trap that keeps Tab inside the open drawer. */
module Accessibility {
  import opened Dom
  import MobileMenu

  /** Enter and Space activate a control. */
  predicate IsActivationKey(key: string) {
    key == "Enter" || key == " "
  }

  /** The toggle's keydown handler: an activation key toggles the drawer. */
  method OnToggleKeydown(d: MobileMenu.Drawer, key: string)
    modifies d
    ensures IsActivationKey(key) ==> d.State() == MobileMenu.Toggled(old(d.State()))
    ensures !IsActivationKey(key) ==> unchanged(d)
  {
    if key == "Enter" || key == " " {
      d.Toggle();
    }
  }

  /** What the focus trap does with a keydown: nothing, or move focus to the
      focusable element at `index` (and suppress the browser's own move). */
  datatype FocusMove = Stay | MoveTo(index: nat)

  /** The focus trap. The drawer's focusable elements are numbered 0 to
      count - 1 in document order; `focused` is the number of the focused
      element when it is one of them. */
  function TrapFocus(drawerOpen: bool, key: string, shift: bool, count: nat, focused: Option<nat>): (m: FocusMove)
    ensures m.MoveTo? ==> m.index < count
    ensures m.MoveTo? <==>
      drawerOpen && key == "Tab" && count > 0 && focused == Some(if shift then 0 else count - 1)
    ensures m.MoveTo? ==> m.index == (if shift then count - 1 else 0)
  {
    if !drawerOpen || key != "Tab" || count == 0 then Stay
    else if shift then
      if focused == Some(0) then MoveTo(count - 1) else Stay
    else
      if focused == Some(count - 1) then MoveTo(0) else Stay
  }

  /** Where focus goes on Tab (or Shift+Tab) from focusable element i of the
      open drawer: the trap's target, or else the browser's next (previous)
      element in document order. */
  function NextFocus(count: nat, i: nat, shift: bool): int
    requires i < count
  {
    match TrapFocus(true, "Tab", shift, count, Some(i))
    case MoveTo(j) => j
    case Stay => if shift then i - 1 else i + 1
  }

  /** Focus never leaves the open drawer: Tab and Shift+Tab cycle through
      its focusable elements, wrapping at either end. */
  lemma FocusStaysInDrawer(count: nat, i: nat, shift: bool)
    requires i < count
    ensures 0 <= NextFocus(count, i, shift) < count
    ensures !shift ==> NextFocus(count, i, shift) == (i + 1) % count
    ensures shift ==> NextFocus(count, i, shift) == (i + count - 1) % count
  {
  }

  /** Tab then Shift+Tab comes back to the same element. */
  lemma TabThenShiftTab(count: nat, i: nat)
    requires i < count
    ensures 0 <= NextFocus(count, i, false) < count
    ensures NextFocus(count, NextFocus(count, i, false) as nat, true) == i
  {
  }
}
