/**
 * The navigation bar (src/components/Navbar.jsx).
 *
 * The bar turns translucent once the page is scrolled past a threshold,
 * and on small screens a button folds and unfolds the link menu; following
 * a link from that menu folds it again.
 */
module Navbar {

  /** Scroll offset (in CSS pixels) past which the bar counts as scrolled. */
  const ScrollThreshold: real := 20.0

  /** The value the scroll handler stores for a scroll offset: strictly past the threshold. */
  function ScrolledAt(scrollY: real): bool
  {
    scrollY > ScrollThreshold
  }

  /** The threshold itself does not count as scrolled. */
  lemma ThresholdIsNotScrolled()
    ensures !ScrolledAt(ScrollThreshold)
    ensures forall y: real :: y <= ScrollThreshold ==> !ScrolledAt(y)
  {
  }

  datatype NavLink = NavLink(name: string, href: string)

  /** The links of the bar, in display order. */
  const NavLinks: seq<NavLink> := [
    NavLink("Home", "#home"),
    NavLink("Projects", "#projects"),
    NavLink("About Me", "#about"),
    NavLink("Blog", "#blog"),
    NavLink("Services", "#services")
  ]

  /** No two links share a name (the names are the keys of the rendered list). */
  predicate DistinctNames(links: seq<NavLink>)
  {
    forall i, j :: 0 <= i < j < |links| ==> links[i].name != links[j].name
  }

  lemma NavLinkNamesDistinct()
    ensures DistinctNames(NavLinks)
  {
  }

  /** The mounted navigation bar. */
  class NavBar {
    var isOpen: bool
    var isScrolled: bool

    constructor ()
      ensures !isOpen && !isScrolled
    {
      isOpen := false;
      isScrolled := false;
    }

    /** The window scrolled to `scrollY`. */
    method OnScroll(scrollY: real)
      modifies this
      ensures isScrolled == ScrolledAt(scrollY)
      ensures isOpen == old(isOpen)
    {
      isScrolled := scrollY > ScrollThreshold;
    }

    /** The menu button. */
    method ToggleMenu()
      modifies this
      ensures isOpen == !old(isOpen)
      ensures isScrolled == old(isScrolled)
    {
      isOpen := !isOpen;
    }

    /** A click on any link of the mobile menu. */
    method ClickMobileLink(link: NavLink)
      requires link in NavLinks
      modifies this
      ensures !isOpen
      ensures isScrolled == old(isScrolled)
    {
      isOpen := false;
    }
  }

  /** Two presses of the menu button restore the menu. */
  method MenuTwiceRestores(bar: NavBar)
    modifies bar
    ensures bar.isOpen == old(bar.isOpen) && bar.isScrolled == old(bar.isScrolled)
  {
    bar.ToggleMenu();
    bar.ToggleMenu();
  }
}
