/**
  The site navigation bar (src/components/Navbar.tsx): which links are
  highlighted for the current location, the three-level desktop hover
  menus with their delayed closing, and the mobile menu's items and link
  clicks.
 */
module Navbar {
  import opened Outcomes
  import opened Text

  // ---------------------------------------------------------------------------
  // Active links

  /** The href prefix of the links that select a tab of the savings and loans page. */
  const SavingLoanTabPrefix := "/saving-loan?tab="

  /** The `tab` parameter of a tab link: it is the link's first query parameter. */
  function TabOfHref(href: string): (tab: string)
    requires StartsWith(href, SavingLoanTabPrefix)
    ensures StartsWith(href[|SavingLoanTabPrefix|..], tab)
    ensures forall i :: 0 <= i < |tab| ==> tab[i] != '&' && tab[i] != '#'
  {
    QueryValue(href[|SavingLoanTabPrefix|..])
  }

  /** The link to a tab of the savings and loans page. */
  function TabHref(tab: string): (href: string)
    ensures StartsWith(href, SavingLoanTabPrefix)
    ensures href[|SavingLoanTabPrefix|..] == tab
  {
    assert (SavingLoanTabPrefix + tab)[..|SavingLoanTabPrefix|] == SavingLoanTabPrefix;
    SavingLoanTabPrefix + tab
  }

  /** The tab of a tab link built from a plain value is that value. */
  lemma TabOfTabHref(tab: string)
    requires forall i :: 0 <= i < |tab| ==> tab[i] != '&' && tab[i] != '#'
    ensures TabOfHref(TabHref(tab)) == tab
  {
    QueryValueOfPlain(tab, []);
    assert tab + [] == tab;
  }

  /**
    `isActiveLink`: the home link needs the home path and no truthy `tab`
    parameter; a tab link needs the savings and loans path and the same
    `tab`; any other link matches its own path and every path below it.
   */
  predicate IsActiveLink(href: string, pathname: string, currentTab: Option<string>)
    ensures IsActiveLink(href, pathname, currentTab) && href == "/" ==> pathname == "/"
    ensures IsActiveLink(href, pathname, currentTab) && StartsWith(href, SavingLoanTabPrefix) ==>
      pathname == "/saving-loan" && currentTab.Some?
    ensures IsActiveLink(href, pathname, currentTab) && href != "/" && !StartsWith(href, SavingLoanTabPrefix) ==>
      StartsWith(pathname, href)
  {
    if href == "/" then
      pathname == "/" && !IsTruthy(currentTab)
    else if StartsWith(href, SavingLoanTabPrefix) then
      pathname == "/saving-loan" && currentTab == Some(TabOfHref(href))
    else
      pathname == href || StartsWith(pathname, href + "/")
  }

  lemma HomeActiveIff(pathname: string, currentTab: Option<string>)
    ensures IsActiveLink("/", pathname, currentTab) <==> pathname == "/" && (currentTab.None? || currentTab.value == "")
  {
  }

  /** A tab link is active exactly on the savings and loans page showing that tab. */
  lemma TabLinkActiveIff(tab: string, pathname: string, currentTab: Option<string>)
    requires forall i :: 0 <= i < |tab| ==> tab[i] != '&' && tab[i] != '#'
    ensures IsActiveLink(TabHref(tab), pathname, currentTab) <==> pathname == "/saving-loan" && currentTab == Some(tab)
  {
    TabOfTabHref(tab);
    assert TabHref(tab) != "/" by {
      assert |TabHref(tab)| >= |SavingLoanTabPrefix| > 1;
    }
  }

  /** The `''` used for a sub-link without `href` is highlighted on every path that starts with `/`. */
  lemma EmptyHrefAlwaysActive(pathname: string, currentTab: Option<string>)
    requires StartsWith(pathname, "/")
    ensures IsActiveLink("", pathname, currentTab)
  {
    assert "" + "/" == "/";
  }

  /** A plain link is active on its own path and on every path below it, whatever the tab. */
  lemma PlainLinkActiveBelow(href: string, rest: string, currentTab: Option<string>)
    requires href != "/" && !StartsWith(href, SavingLoanTabPrefix)
    ensures IsActiveLink(href, href, currentTab)
    ensures IsActiveLink(href, href + "/" + rest, currentTab)
  {
    assert (href + "/" + rest)[..|href + "/"|] == href + "/";
  }

  // ---------------------------------------------------------------------------
  // Desktop hover menus

  /** The three menu levels, outermost first. */
  datatype Level = Top | Sub | SubSub {
    function Depth(): nat {
      match this
      case Top => 0
      case Sub => 1
      case SubSub => 2
    }
  }

  /** `activeMenu`, `activeSubMenu` and `activeSubSubMenu`: the label open at each level, if any. */
  datatype Menus = Menus(active: Option<string>, sub: Option<string>, subSub: Option<string>) {
    function At(level: Level): Option<string> {
      match level
      case Top => active
      case Sub => sub
      case SubSub => subSub
    }
  }

  /**
    One level's leave timeouts: the timers still scheduled, and the one the
    level's ref holds. A leave overwrites the ref without clearing the timer
    it held, so an earlier timer stays scheduled.
   */
  datatype LeaveTimers = LeaveTimers(pending: set<nat>, ref: Option<nat>)

  /** The hover state: the open menus, each level's timers, and the id the next timer gets. */
  datatype HoverState = HoverState(menus: Menus, timers: map<Level, LeaveTimers>, nextTimer: nat) {
    ghost predicate Valid() {
      forall level: Level :: level in timers
    }
  }

  const NoTimers := LeaveTimers({}, None)

  const InitialHover := HoverState(Menus(None, None, None), map[Top := NoTimers, Sub := NoTimers, SubSub := NoTimers], 0)

  /** Opens `caption` at `level` and closes every deeper level; shallower levels are kept. */
  function OpenAt(m: Menus, level: Level, caption: string): (r: Menus)
    ensures r.At(level) == Some(caption)
    ensures forall l: Level :: l.Depth() < level.Depth() ==> r.At(l) == m.At(l)
    ensures forall l: Level :: l.Depth() > level.Depth() ==> r.At(l) == None
  {
    match level
    case Top => Menus(Some(caption), None, None)
    case Sub => Menus(m.active, Some(caption), None)
    case SubSub => Menus(m.active, m.sub, Some(caption))
  }

  /** Closes `level` and every deeper level; shallower levels are kept. */
  function CloseFrom(m: Menus, level: Level): (r: Menus)
    ensures forall l: Level :: l.Depth() < level.Depth() ==> r.At(l) == m.At(l)
    ensures forall l: Level :: l.Depth() >= level.Depth() ==> r.At(l) == None
  {
    match level
    case Top => Menus(None, None, None)
    case Sub => Menus(m.active, None, None)
    case SubSub => Menus(m.active, m.sub, None)
  }

  /** The mouse enters an item of `level`: the level's ref'd timer is cleared, then the menus open. */
  function Enter(s: HoverState, level: Level, caption: string): (r: HoverState)
    requires s.Valid()
    ensures r.Valid() && r.nextTimer == s.nextTimer
    ensures r.menus == OpenAt(s.menus, level, caption)
    ensures r.timers[level].ref.None?
    ensures s.timers[level].ref.Some? ==> r.timers[level].pending == s.timers[level].pending - {s.timers[level].ref.value}
    ensures s.timers[level].ref.None? ==> r.timers[level].pending == s.timers[level].pending
    ensures forall l: Level :: l != level ==> r.timers[l] == s.timers[l]
  {
    var t := s.timers[level];
    var cleared := if t.ref.Some? then LeaveTimers(t.pending - {t.ref.value}, None) else t;
    HoverState(OpenAt(s.menus, level, caption), s.timers[level := cleared], s.nextTimer)
  }

  /** The mouse leaves an item of `level`: a fresh timer is scheduled and the level's ref points to it. */
  function Leave(s: HoverState, level: Level): (r: HoverState)
    requires s.Valid()
    ensures r.Valid() && r.menus == s.menus && r.nextTimer == s.nextTimer + 1
    ensures r.timers[level] == LeaveTimers(s.timers[level].pending + {s.nextTimer}, Some(s.nextTimer))
    ensures forall l: Level :: l != level ==> r.timers[l] == s.timers[l]
  {
    var t := s.timers[level];
    HoverState(s.menus, s.timers[level := LeaveTimers(t.pending + {s.nextTimer}, Some(s.nextTimer))], s.nextTimer + 1)
  }

  /** Timer `id` of `level` comes due: if still scheduled, it closes its level and every deeper one. */
  function Fire(s: HoverState, level: Level, id: nat): (r: HoverState)
    requires s.Valid()
    ensures r.Valid() && r.nextTimer == s.nextTimer
    ensures id in s.timers[level].pending ==> r.menus == CloseFrom(s.menus, level)
    ensures id in s.timers[level].pending ==> r.timers[level].pending == s.timers[level].pending - {id}
    ensures id !in s.timers[level].pending ==> r == s
    ensures r.timers[level].ref == s.timers[level].ref
    ensures forall l: Level :: l != level ==> r.timers[l] == s.timers[l]
  {
    var t := s.timers[level];
    if id in t.pending then
      HoverState(CloseFrom(s.menus, level), s.timers[level := LeaveTimers(t.pending - {id}, t.ref)], s.nextTimer)
    else s
  }

  /** Leaving and coming back before the timeout keeps the menu open: the leave's timer no longer fires. */
  lemma LeaveThenEnterKeepsOpen(s: HoverState, level: Level, caption: string)
    requires s.Valid()
    ensures var s2 := Enter(Leave(s, level), level, caption);
      Fire(s2, level, s.nextTimer) == s2 && s2.menus.At(level) == Some(caption)
  {
  }

  /** A timer cleared by an enter never fires, at any level. */
  lemma ClearedTimerNeverFires(s: HoverState, level: Level, caption: string)
    requires s.Valid() && s.timers[level].ref.Some?
    ensures var s2 := Enter(s, level, caption);
      Fire(s2, level, s.timers[level].ref.value) == s2
  {
  }

  /** Firing a scheduled timer never closes a shallower level. */
  lemma FireKeepsShallowerLevels(s: HoverState, level: Level, id: nat, l: Level)
    requires s.Valid() && l.Depth() < level.Depth()
    ensures Fire(s, level, id).menus.At(l) == s.menus.At(l)
  {
  }

  /**
    A leave followed by a second leave before any enter leaves the first
    timer scheduled: an enter then clears only the second, and the first
    still closes the menu.
   */
  lemma StaleTimerStillCloses(s: HoverState, level: Level, caption: string)
    requires s.Valid()
    ensures var s2 := Enter(Leave(Leave(s, level), level), level, caption);
      Fire(s2, level, s.nextTimer).menus.At(level) == None
  {
    var s1 := Leave(Leave(s, level), level);
    assert s.nextTimer in s1.timers[level].pending;
    assert s1.timers[level].ref == Some(s.nextTimer + 1);
  }

  // ---------------------------------------------------------------------------
  // Mobile menu

  /**
    A navigation entry at any level: its caption, its `href` if it has one,
    and whichever of the three kinds of child lists it carries.
   */
  datatype NavItem = NavItem(
    caption: string,
    href: Option<string>,
    subLinks: Option<seq<NavItem>>,
    subSubLinks: Option<seq<NavItem>>,
    subSubSubLinks: Option<seq<NavItem>>)

  function NonEmpty(children: Option<seq<NavItem>>): bool {
    children.Some? && |children.value| > 0
  }

  /** The children shown when expanded: the first non-empty of the three lists, else none. */
  function SubItems(item: NavItem): (items: seq<NavItem>)
    ensures NonEmpty(item.subLinks) ==> items == item.subLinks.value
    ensures !NonEmpty(item.subLinks) && NonEmpty(item.subSubLinks) ==> items == item.subSubLinks.value
    ensures !NonEmpty(item.subLinks) && !NonEmpty(item.subSubLinks) && NonEmpty(item.subSubSubLinks) ==> items == item.subSubSubLinks.value
    ensures items == [] <==> !NonEmpty(item.subLinks) && !NonEmpty(item.subSubLinks) && !NonEmpty(item.subSubSubLinks)
  {
    if NonEmpty(item.subLinks) then item.subLinks.value
    else if NonEmpty(item.subSubLinks) then item.subSubLinks.value
    else if NonEmpty(item.subSubSubLinks) then item.subSubSubLinks.value
    else []
  }

  /** `linkHref`: the item's `href` when truthy; only then is the entry a link. */
  function LinkHref(item: NavItem): (href: Option<string>)
    ensures href.Some? <==> IsTruthy(item.href)
    ensures href.Some? ==> href.value == item.href.value
  {
    if item.href.Some? && item.href.value != "" then item.href else None
  }

  /** An entry with an `href` and no children. */
  function Leaf(caption: string, href: string): NavItem {
    NavItem(caption, Some(href), None, None, None)
  }

  /** The Services entry: every link below it selects a tab of the savings and loans page, or is the loan form. */
  const ServicesLink := NavItem("Services", Some(SavingTabHref), Some([
    NavItem("Savings", Some(SavingTabHref), None, Some([
      Leaf("Regular Savings", SavingTabHref),
      Leaf("Term Savings", SavingTabHref),
      Leaf("Time deposit", SavingTabHref)]), None),
    NavItem("Loans", Some(FinancingTabHref), None, Some([
      Leaf("Working Capital Credit", FinancingTabHref),
      Leaf("Consumer Credit", FinancingTabHref),
      Leaf("Investment credit", FinancingTabHref),
      Leaf("Loan Application Form", "/saving-loan/loans/loan-application-form")]), None)]), None, None)

  const SavingTabHref := "/saving-loan?tab=saving-product"
  const FinancingTabHref := "/saving-loan?tab=financing-product"

  /** `navLinks`: the site's menu, the same for the desktop and the mobile bar. */
  const NavLinks: seq<NavItem> := [
    Leaf("Home", "/"),
    NavItem("About us", Some("/about/mission-statement"), Some([
      Leaf("Mission Statement, Values & Company Motto", "/about/mission-statement"),
      Leaf("Customer Complaints", "/about/customer-complaints"),
      Leaf("Office Branch Locations", "/about/office-locations")]), None, None),
    ServicesLink,
    NavItem("Publication", Some("/publication"), Some([
      NavItem("Report", Some("/publication?section=report"), None, Some([
        Leaf("Financial Report", "/publication?section=financial-report"),
        Leaf("Annual Report", "/publication?section=annual-report")]), None),
      Leaf("IDIC / LPS", "/publication?section=idic-lps"),
      Leaf("Information", "/publication?section=information")]), None, None),
    Leaf("Contact", "/Contact"),
    Leaf("Blog", "/blog")]

  /** What a click on a mobile link does: the route pushed, whether the entry toggles, whether the menu closes. */
  datatype ClickEffect = ClickEffect(push: Option<string>, toggles: bool, closes: bool)

  /**
    `handleLinkClick` for a link with href `href`: `#` only toggles the
    entry; a tab link pushes the tab route when its tab is non-empty; any
    other link is pushed as it is; every link but `#` closes the menu.
   */
  function LinkClick(href: string): (e: ClickEffect)
    requires href != ""
    ensures e.toggles <==> href == "#"
    ensures e.closes <==> href != "#"
    ensures href == "#" ==> e.push.None?
    ensures href != "#" && !StartsWith(href, SavingLoanTabPrefix) ==> e.push == Some(href)
    ensures StartsWith(href, SavingLoanTabPrefix) ==>
      (e.push.Some? <==> TabOfHref(href) != "") && (e.push.Some? ==> e.push.value == TabHref(TabOfHref(href)))
  {
    if href == "#" then ClickEffect(None, true, false)
    else if StartsWith(href, SavingLoanTabPrefix) then
      var tab := TabOfHref(href);
      ClickEffect(if tab != "" then Some(TabHref(tab)) else None, false, true)
    else ClickEffect(Some(href), false, true)
  }

  /** Clicking a tab link built from a plain, non-empty tab navigates to exactly that link. */
  lemma TabLinkClickPushesItself(tab: string)
    requires tab != ""
    requires forall i :: 0 <= i < |tab| ==> tab[i] != '&' && tab[i] != '#'
    ensures LinkClick(TabHref(tab)) == ClickEffect(Some(TabHref(tab)), false, true)
  {
    TabOfTabHref(tab);
    assert TabHref(tab) != "#" by {
      assert |TabHref(tab)| > 1;
    }
  }

  /** A mobile menu entry: its item and whether its children are shown. */
  class MobileMenuItem {
    const item: NavItem
    var isExpanded: bool

    constructor(item: NavItem)
      ensures this.item == item && !isExpanded
    {
      this.item := item;
      isExpanded := false;
    }

    /** The chevron button, present only when there are children. */
    method HandleToggle()
      requires SubItems(item) != []
      modifies this
      ensures isExpanded == !old(isExpanded)
    {
      isExpanded := !isExpanded;
    }

    /** The children rendered below the entry. */
    function Children(): (items: seq<NavItem>)
      reads this
      ensures isExpanded ==> items == SubItems(item)
      ensures !isExpanded ==> items == []
    {
      if isExpanded then SubItems(item) else []
    }

    /** The link's click handler, attached only when the entry is a link. */
    method HandleLinkClick() returns (e: ClickEffect)
      requires LinkHref(item).Some?
      modifies this
      ensures e == LinkClick(LinkHref(item).value)
      ensures isExpanded == (if e.toggles then !old(isExpanded) else old(isExpanded))
    {
      e := LinkClick(LinkHref(item).value);
      if e.toggles {
        isExpanded := !isExpanded;
      }
    }
  }

  // ---------------------------------------------------------------------------
  // The bar

  class NavigationBar {
    var isOpen: bool
    var hover: HoverState

    constructor()
      ensures !isOpen && hover == InitialHover && hover.Valid()
    {
      isOpen := false;
      hover := InitialHover;
      forall level: Level
        ensures level in InitialHover.timers
      {
        match level {
          case Top =>
          case Sub =>
          case SubSub =>
        }
      }
    }

    /** The hamburger button. */
    method ToggleOpen()
      modifies this
      ensures isOpen == !old(isOpen) && hover == old(hover)
    {
      isOpen := !isOpen;
    }

    /** `onCloseNav`, run by a mobile link click that closes. */
    method CloseNav()
      modifies this
      ensures !isOpen && hover == old(hover)
    {
      isOpen := false;
    }

    /**
      `handleMouseEnter`, `handleSubMouseEnter` and `handleSubSubMouseEnter`.
      Any level and caption are accepted, even a level below an entry that
      renders no deeper menu: the hover lemmas hold for every event.
     */
    method MouseEnter(level: Level, caption: string)
      requires hover.Valid()
      modifies this
      ensures hover == Enter(old(hover), level, caption) && isOpen == old(isOpen)
      ensures hover.Valid()
    {
      hover := Enter(hover, level, caption);
    }

    /** `handleMouseLeave`, `handleSubMouseLeave` and `handleSubSubMouseLeave`. */
    method MouseLeave(level: Level)
      requires hover.Valid()
      modifies this
      ensures hover == Leave(old(hover), level) && isOpen == old(isOpen)
      ensures hover.Valid()
    {
      hover := Leave(hover, level);
    }

    /** The 200 ms callback of timer `id` of `level`. */
    method TimerFires(level: Level, id: nat)
      requires hover.Valid()
      modifies this
      ensures hover == Fire(old(hover), level, id) && isOpen == old(isOpen)
      ensures hover.Valid()
    {
      hover := Fire(hover, level, id);
    }
  }
}
