/** The header's `scrolled` class, set from the vertical scroll offset. */
module Header {

  /** The offset above which the header counts as scrolled. */
  const ScrolledThreshold: int := 50

  /** `window.pageYOffset || document.documentElement.scrollTop`: the first
      offset unless it is 0, which is falsy. */
  function ScrollTop(pageYOffset: int, documentScrollTop: int): int {
    if pageYOffset != 0 then pageYOffset else documentScrollTop
  }

  predicate IsScrolled(scrollTop: int) {
    scrollTop > ScrolledThreshold
  }

  /** The threshold is strict: 50 leaves the class off, 51 puts it on. */
  lemma ScrolledBoundary()
    ensures !IsScrolled(50) && IsScrolled(51)
  {
  }

  /** Scrolling further down never takes the class off. */
  lemma ScrolledMonotone(a: int, b: int)
    requires a <= b
    ensures IsScrolled(a) ==> IsScrolled(b)
  {
  }

  class HeaderBar {
    /** Whether the header carries the class `scrolled`. */
    var scrolled: bool

    constructor (scrolled: bool)
      ensures this.scrolled == scrolled
    {
      this.scrolled := scrolled;
    }

    /** The throttled scroll handler: the class is present exactly when the
        effective offset is above the threshold, whatever it was before. */
    method HandleHeaderScroll(pageYOffset: int, documentScrollTop: int)
      modifies this
      ensures scrolled == IsScrolled(ScrollTop(pageYOffset, documentScrollTop))
    {
      var scrollTop := if pageYOffset != 0 then pageYOffset else documentScrollTop;
      if scrollTop > 50 {
        scrolled := true;
      } else {
        scrolled := false;
      }
    }
  }
}
