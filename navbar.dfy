/**
 * The navigation bar of components/Navbar.tsx: the scroll handler that sets the
 * "scrolled" look and picks the active section from the sections' positions,
 * the link clicks, and the mobile menu toggle.
 */
module Navbar {
  import opened Wrappers
  import Page

  /** A navigation link: the caption shown and the section id it targets. */
  datatype NavLink = NavLink(caption: string, id: string)

  const NavLinks: seq<NavLink> := [
    NavLink("Home", "home"),
    NavLink("About", "about"),
    NavLink("Skills", "skills"),
    NavLink("Projects", "projects"),
    NavLink("Contact", "contact")
  ]

  /**
   * A section element as measured by the scroll handler: its `id` attribute
   * (None when `getAttribute` gives null) and the top of its bounding box,
   * relative to the viewport.
   */
  datatype SectionRect = SectionRect(id: Option<string>, top: real)

  /** The section's top lies strictly inside (-h/2, h/2), for a viewport of height h. */
  predicate InWindow(top: real, innerHeight: real)
  {
    top < innerHeight / 2.0 && top > -innerHeight / 2.0
  }

  /** `getAttribute("id") || ""`: a missing id reads as the empty string. */
  function IdOrEmpty(id: Option<string>): (r: string)
    ensures id.Some? ==> r == id.value
    ensures id.None? ==> r == ""
  {
    match id
    case Some(v) => v
    case None => ""
  }

  /**
   * The active section after one scroll event, starting from `current`: every
   * section in the window sets it in turn, so the last one wins.
   */
  function ActiveAfterScroll(sections: seq<SectionRect>, innerHeight: real, current: string): string
  {
    if sections == [] then current
    else if InWindow(sections[|sections| - 1].top, innerHeight) then IdOrEmpty(sections[|sections| - 1].id)
    else ActiveAfterScroll(sections[..|sections| - 1], innerHeight, current)
  }

  /** When no section lies in the window, a scroll leaves the active section as it was. */
  lemma {:induction false} NoSectionInWindowKeepsActive(sections: seq<SectionRect>, innerHeight: real, current: string)
    requires forall i :: 0 <= i < |sections| ==> !InWindow(sections[i].top, innerHeight)
    ensures ActiveAfterScroll(sections, innerHeight, current) == current
  {
    if sections != [] {
      NoSectionInWindowKeepsActive(sections[..|sections| - 1], innerHeight, current);
    }
  }

  /**
   * Otherwise the active section is the id of the last section, in document
   * order, whose top lies in the window ("" if it has no id).
   */
  lemma {:induction false} LastSectionInWindowWins(sections: seq<SectionRect>, innerHeight: real, current: string, i: nat)
    requires i < |sections| && InWindow(sections[i].top, innerHeight)
    requires forall j :: i < j < |sections| ==> !InWindow(sections[j].top, innerHeight)
    ensures ActiveAfterScroll(sections, innerHeight, current) == IdOrEmpty(sections[i].id)
  {
    if i < |sections| - 1 {
      var init := sections[..|sections| - 1];
      assert init[i] == sections[i];
      LastSectionInWindowWins(init, innerHeight, current, i);
    }
  }

  /** The `forEach` of the scroll handler over the sections, as the loop it is. */
  method ScrollSpy(sections: seq<SectionRect>, innerHeight: real, current: string) returns (active: string)
    ensures active == ActiveAfterScroll(sections, innerHeight, current)
  {
    active := current;
    for k := 0 to |sections|
      invariant active == ActiveAfterScroll(sections[..k], innerHeight, current)
    {
      assert sections[..k + 1][..k] == sections[..k];
      if InWindow(sections[k].top, innerHeight) {
        active := IdOrEmpty(sections[k].id);
      }
    }
    assert sections[..|sections|] == sections;
  }

  /** The link ids are distinct, so at most one link is highlighted for any active section. */
  lemma AtMostOneHighlighted(activeSection: string)
    ensures forall i, j ::
              0 <= i < |NavLinks| && 0 <= j < |NavLinks| && NavLinks[i].id == activeSection && NavLinks[j].id == activeSection
              ==> i == j
  {
  }

  /** The "Projects" link targets no section of the page, so clicking it highlights it without scrolling. */
  lemma ProjectsLinkHasNoSection()
    ensures NavLinks[3].id == "projects" && NavLinks[3].id !in Page.SectionIds
    ensures forall i :: 0 <= i < |NavLinks| && i != 3 ==> NavLinks[i].id in Page.SectionIds
  {
  }

  /** The navigation bar's own state; the active section belongs to the page. */
  class Navbar {
    var isScrolled: bool
    var isMobileMenuOpen: bool

    constructor ()
      ensures !isScrolled && !isMobileMenuOpen
    {
      isScrolled := false;
      isMobileMenuOpen := false;
    }

    /**
     * One scroll event, given the window's scroll offset and height and the
     * measured sections in document order.
     */
    method HandleScroll(page: Page.Index, scrollY: real, innerHeight: real, sections: seq<SectionRect>)
      modifies this, page
      ensures isScrolled <==> scrollY > 10.0
      ensures isMobileMenuOpen == old(isMobileMenuOpen)
      ensures page.activeSection == ActiveAfterScroll(sections, innerHeight, old(page.activeSection))
      ensures page.loading == old(page.loading)
    {
      isScrolled := scrollY > 10.0;
      var active := ScrollSpy(sections, innerHeight, page.activeSection);
      page.SetActiveSection(active);
    }

    /**
     * A click on a link: the page's active section becomes the link's id, the
     * mobile menu closes, and the page scrolls only if an element with that id
     * exists.
     */
    method HandleNavClick(page: Page.Index, sectionId: string, elementIds: set<string>) returns (scrolled: bool)
      modifies this, page
      ensures page.activeSection == sectionId
      ensures !isMobileMenuOpen
      ensures isScrolled == old(isScrolled)
      ensures page.loading == old(page.loading)
      ensures scrolled <==> sectionId in elementIds
    {
      page.SetActiveSection(sectionId);
      isMobileMenuOpen := false;
      scrolled := sectionId in elementIds;
    }

    /** The menu button flips the mobile menu. */
    method ToggleMenu()
      modifies this
      ensures isMobileMenuOpen == !old(isMobileMenuOpen)
      ensures isScrolled == old(isScrolled)
    {
      isMobileMenuOpen := !isMobileMenuOpen;
    }
  }

  /** Two clicks on the menu button leave the menu as it was. */
  method ToggleTwiceRestores(bar: Navbar)
    modifies bar
    ensures bar.isMobileMenuOpen == old(bar.isMobileMenuOpen)
    ensures bar.isScrolled == old(bar.isScrolled)
  {
    bar.ToggleMenu();
    bar.ToggleMenu();
  }

  /**
   * A click on the "Projects" link highlights it; it scrolls only if some
   * element of the document carries the id "projects", which no section of the
   * page does.
   */
  method ProjectsLinkClick(bar: Navbar, page: Page.Index, elementIds: set<string>) returns (scrolled: bool)
    modifies bar, page
    ensures page.activeSection == "projects"
    ensures !bar.isMobileMenuOpen
    ensures bar.isScrolled == old(bar.isScrolled)
    ensures page.loading == old(page.loading)
    ensures scrolled <==> "projects" in elementIds
  {
    ProjectsLinkHasNoSection();
    scrolled := bar.HandleNavClick(page, NavLinks[3].id, elementIds);
  }
}
