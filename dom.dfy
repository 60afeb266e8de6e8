/** The parts of the page's DOM that the handlers read and write, reduced to
    values: an optional attribute, the link-like elements that carry the
    `nav-link--active` marker, and the shared list those elements live in. */
module Dom {

  datatype Option<T> = None | Some(value: T)

  predicate StartsWith(s: string, prefix: string) {
    |prefix| <= |s| && s[..|prefix|] == prefix
  }

  /** A link or button: whether it carries the class `nav-link` or
      `mobile-nav-link`, its `data-page` and `href` attributes (None when the
      attribute is absent) and whether it carries `nav-link--active`. */
  datatype Link = Link(navClass: bool, dataPage: Option<string>, href: Option<string>, active: bool)

  /** Selected by `.nav-link, .mobile-nav-link`. */
  predicate IsNavLink(l: Link) {
    l.navClass
  }

  /** Selected by `[data-page="home"][href^="#"]`: an in-page link of the home page. */
  predicate IsHomeSectionLink(l: Link) {
    l.dataPage == Some("home") && l.href.Some? && StartsWith(l.href.value, "#")
  }

  /** Two links are the same element apart from the active marker. */
  predicate SameElement(a: Link, b: Link) {
    a.navClass == b.navClass && a.dataPage == b.dataPage && a.href == b.href
  }

  /** The document's link-like elements, in document order. Both the page
      controller and the scroll-driven navigation sync write their markers. */
  class LinkList {
    var links: seq<Link>

    constructor (links: seq<Link>)
      ensures this.links == links
    {
      this.links := links;
    }
  }
}
