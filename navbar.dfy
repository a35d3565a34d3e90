/** The navigation bar (src/components/Navbar.tsx): its colour scheme follows
    the page and, on the home page, the section under the bar while the page
    scrolls; on small screens it also has a drop-down menu. */
module Navbar {
  import opened Common

  datatype NavbarStyle = FirstSection | SecondSection | Default | DarkPage

  predicate IsHomePage(pathname: string) { pathname == "/" }

  /** The style a page starts with (`getInitialStyle`) and the style the
      pathname effect sets. */
  function PageStyle(pathname: string): (s: NavbarStyle)
    ensures s == FirstSection <==> IsHomePage(pathname)
    ensures s == DarkPage <==> !IsHomePage(pathname)
  {
    if IsHomePage(pathname) then FirstSection else DarkPage
  }

  /** The element sizes read when the thresholds are computed, in whole
      pixels; `None` for an element that is not there (the `?.` chains). */
  datatype Measurements = Measurements(
    navbarHeight: Option<int>,
    sectionOneTop: Option<int>, sectionOneHeight: Option<int>,
    sectionTwoTop: Option<int>, sectionTwoHeight: Option<int>)

  /** The values the scroll handler closes over. */
  datatype Thresholds = Thresholds(
    navbarHeight: int,
    sectionOneTop: int, sectionOneBottom: int,
    sectionTwoTop: int, sectionTwoBottom: int)

  /** `calculateThresholds`; a missing measurement counts as 0. Section one's
      window ends one bar height early, section two's window is shifted up by
      one bar height and is exactly as tall as the section. */
  function CalculateThresholds(m: Measurements): (t: Thresholds)
    ensures t.navbarHeight == m.navbarHeight.GetOr(0)
    ensures t.sectionOneTop == m.sectionOneTop.GetOr(0)
    ensures t.sectionOneBottom - t.sectionOneTop == m.sectionOneHeight.GetOr(0) - t.navbarHeight
    ensures t.sectionTwoTop + t.navbarHeight == m.sectionTwoTop.GetOr(0)
    ensures t.sectionTwoBottom - t.sectionTwoTop == m.sectionTwoHeight.GetOr(0)
  {
    var navbarHeight := m.navbarHeight.GetOr(0);
    var sectionTwoTop := m.sectionTwoTop.GetOr(0) - navbarHeight;
    Thresholds(
      navbarHeight,
      m.sectionOneTop.GetOr(0),
      m.sectionOneTop.GetOr(0) + m.sectionOneHeight.GetOr(0) - navbarHeight,
      sectionTwoTop,
      sectionTwoTop + m.sectionTwoHeight.GetOr(0))
  }

  predicate InSectionOne(t: Thresholds, p: int) { t.sectionOneTop <= p <= t.sectionOneBottom }

  predicate InSectionTwo(t: Thresholds, p: int) { t.sectionTwoTop <= p <= t.sectionTwoBottom }

  /** `handleScroll`: the style for a scroll offset, judged at the bar's lower
      edge `scrollTop + navbarHeight`. Section one wins where the windows
      overlap, and scrolling never yields the dark-page style. */
  function ScrollStyle(t: Thresholds, scrollTop: int): (s: NavbarStyle)
    ensures s == FirstSection <==> InSectionOne(t, scrollTop + t.navbarHeight)
    ensures s == SecondSection <==> !InSectionOne(t, scrollTop + t.navbarHeight) && InSectionTwo(t, scrollTop + t.navbarHeight)
    ensures s == Default <==> !InSectionOne(t, scrollTop + t.navbarHeight) && !InSectionTwo(t, scrollTop + t.navbarHeight)
    ensures s != DarkPage
  {
    var divScrollTop := scrollTop + t.navbarHeight;
    if divScrollTop >= t.sectionOneTop && divScrollTop <= t.sectionOneBottom then FirstSection
    else if divScrollTop >= t.sectionTwoTop && divScrollTop <= t.sectionTwoBottom then SecondSection
    else Default
  }

  /** In terms of the measurements: with section two starting where section
      one ends (as on the home page), every offset from the top of section
      one to the end of section two's window gives one of the two section
      styles: the windows leave no gap. */
  lemma SectionsLeaveNoGap(m: Measurements, scrollTop: int)
    requires m.sectionTwoTop.GetOr(0) == m.sectionOneTop.GetOr(0) + m.sectionOneHeight.GetOr(0)
    requires m.sectionTwoHeight.GetOr(0) >= 0
    requires var t := CalculateThresholds(m);
      t.sectionOneTop <= scrollTop + t.navbarHeight <= t.sectionTwoBottom
    ensures ScrollStyle(CalculateThresholds(m), scrollTop) in {FirstSection, SecondSection}
  {
  }

  /** The logo reads `RS` over the first section and `Reactive Shots`
      otherwise. */
  function LogoText(style: NavbarStyle): (r: string)
    ensures r == "RS" <==> style == FirstSection
    ensures r == "Reactive Shots" <==> style != FirstSection
  {
    if style == FirstSection then "RS" else "Reactive Shots"
  }

  /** The state of one mounted `Navbar`. */
  class NavbarState {
    var pathname: string
    var navbarStyle: NavbarStyle
    var isMenuOpen: bool
    /** Whether `handleScroll` is attached to the scroll container. */
    var listening: bool
    /** The thresholds `handleScroll` closed over when it was attached. */
    var thresholds: Thresholds

    /** The listener is attached exactly on the home page, and the dark style
        is shown exactly off it. */
    ghost predicate Valid()
      reads this
    {
      listening == IsHomePage(pathname) &&
      (navbarStyle == DarkPage <==> !IsHomePage(pathname))
    }

    /** Mounting runs both effects: on the home page the thresholds are
        measured and the listener attached; the style is the page's. */
    constructor (pathname: string, m: Measurements)
      ensures Valid()
      ensures this.pathname == pathname
      ensures navbarStyle == PageStyle(pathname)
      ensures !isMenuOpen && listening == IsHomePage(pathname)
      ensures IsHomePage(pathname) ==> thresholds == CalculateThresholds(m)
    {
      this.pathname := pathname;
      navbarStyle := PageStyle(pathname);
      isMenuOpen := false;
      listening := IsHomePage(pathname);
      thresholds := CalculateThresholds(m);
    }

    /** A scroll event on the home page's scroll container. Off the home page
        nothing listens. */
    method OnScroll(scrollTop: int)
      requires Valid()
      modifies this`navbarStyle
      ensures Valid()
      ensures listening ==> navbarStyle == ScrollStyle(thresholds, scrollTop)
      ensures !listening ==> navbarStyle == old(navbarStyle)
    {
      if listening {
        navbarStyle := ScrollStyle(thresholds, scrollTop);
      }
    }

    /** A new pathname. Both effects depend on `isHomePage` only, so they run
        again only when that flips; `m` is what the layout measures then. */
    method OnPathChange(newPathname: string, m: Measurements)
      requires Valid()
      modifies this
      ensures Valid()
      ensures pathname == newPathname
      ensures IsHomePage(newPathname) != IsHomePage(old(pathname)) ==> navbarStyle == PageStyle(newPathname)
      ensures IsHomePage(newPathname) == IsHomePage(old(pathname)) ==> navbarStyle == old(navbarStyle)
      ensures !IsHomePage(newPathname) ==> navbarStyle == DarkPage
      ensures thresholds == if IsHomePage(newPathname) && !IsHomePage(old(pathname))
                            then CalculateThresholds(m) else old(thresholds)
      ensures listening == IsHomePage(newPathname) && isMenuOpen == old(isMenuOpen)
    {
      var wasHome := IsHomePage(pathname);
      pathname := newPathname;
      if IsHomePage(newPathname) != wasHome {
        // the scroll effect
        if !IsHomePage(newPathname) {
          navbarStyle := DarkPage;
          listening := false;
        } else {
          thresholds := CalculateThresholds(m);
          listening := true;
        }
        // the pathname effect
        navbarStyle := PageStyle(newPathname);
      }
    }

    /** The menu button. */
    method ToggleMenu()
      requires Valid()
      modifies this`isMenuOpen
      ensures Valid()
      ensures isMenuOpen == !old(isMenuOpen)
      ensures navbarStyle == old(navbarStyle)
    {
      isMenuOpen := !isMenuOpen;
    }

    /** A click on the backdrop or on a link of the open menu. */
    method CloseMenu()
      requires Valid()
      modifies this`isMenuOpen
      ensures Valid()
      ensures !isMenuOpen
      ensures navbarStyle == old(navbarStyle)
    {
      isMenuOpen := false;
    }
  }
}
