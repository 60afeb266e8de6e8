/** Where the window scrolls to bring an in-page section below the fixed
    header: used by the home-link click, the hash-change handler and the
    load-time hash handler. */
module Scrolling {

  /** The header height assumed when the header's `offsetHeight` is 0. */
  const FallbackHeaderHeight: nat := 70
  /** The gap kept between the header and the section's top. */
  const ScrollMargin: nat := 20

  /** `header.offsetHeight || 70`. */
  function HeaderHeight(offsetHeight: nat): (h: nat)
    ensures h > 0
    ensures offsetHeight > 0 ==> h == offsetHeight
    ensures offsetHeight == 0 ==> h == FallbackHeaderHeight
  {
    if offsetHeight != 0 then offsetHeight else FallbackHeaderHeight
  }

  /** `Math.max(0, offsetTop - headerHeight - 20)`: the scroll position that
      puts the section's top just below the header, clamped at the page top. */
  function ScrollTarget(offsetTop: int, headerOffsetHeight: nat): (top: int)
    ensures top >= 0
    ensures top >= offsetTop - HeaderHeight(headerOffsetHeight) - ScrollMargin
    ensures top == 0 || top == offsetTop - HeaderHeight(headerOffsetHeight) - ScrollMargin
  {
    var targetPosition := offsetTop - HeaderHeight(headerOffsetHeight) - ScrollMargin;
    if targetPosition > 0 then targetPosition else 0
  }

  /** Unless clamped at the page top, the section lands exactly the margin
      below the header; when clamped, it lands no lower than that. */
  lemma SectionLandsBelowHeader(offsetTop: int, headerOffsetHeight: nat)
    ensures ScrollTarget(offsetTop, headerOffsetHeight) > 0 ==>
      offsetTop - ScrollTarget(offsetTop, headerOffsetHeight) == HeaderHeight(headerOffsetHeight) + ScrollMargin
    ensures offsetTop - ScrollTarget(offsetTop, headerOffsetHeight) <= HeaderHeight(headerOffsetHeight) + ScrollMargin
  {
  }

  /** A section in the first 90 pixels with no header height is reached by
      scrolling to the very top. */
  lemma FallbackClampsToTop(offsetTop: int)
    requires offsetTop <= FallbackHeaderHeight + ScrollMargin
    ensures ScrollTarget(offsetTop, 0) == 0
  {
  }
}
