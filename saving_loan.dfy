/**
  The savings and loans page (src/app/saving-loan/page.tsx): the product
  family shown, chosen by a dropdown and kept in step with the URL's `tab`
  parameter.
 */
module SavingLoan {
  import opened Outcomes
  import Navbar
  import Text

  datatype Icon = PiggyBank | Calculator

  /** An entry of the dropdown. */
  datatype DropdownItem = DropdownItem(id: string, caption: string, icon: Icon)

  const SavingItem := DropdownItem("saving-product", "Savings & Deposits", PiggyBank)
  const FinancingItem := DropdownItem("financing-product", "Credits & Loans", Calculator)
  const DropdownItems := [SavingItem, FinancingItem]

  /** The tab the page falls back to. */
  const DefaultTab := "saving-product"
  const DefaultCaption := "Savings & Deposits"

  /** `dropdownItems.find(item => item.id === id)`. */
  function Find(id: string): (found: Option<DropdownItem>)
    ensures found.Some? <==> id == SavingItem.id || id == FinancingItem.id
    ensures found.Some? ==> found.value in DropdownItems && found.value.id == id
  {
    if id == SavingItem.id then Some(SavingItem)
    else if id == FinancingItem.id then Some(FinancingItem)
    else None
  }

  /** The page state: `activeTab` and `selectedDropdownLabel`. */
  datatype TabState = TabState(activeTab: string, caption: string)

  /** The initial state: the URL's `tab` when truthy, else the default; the caption of that item, else the default caption. */
  function Initial(urlTab: Option<string>): (s: TabState)
    ensures IsTruthy(urlTab) ==> s.activeTab == urlTab.value
    ensures !IsTruthy(urlTab) ==> s.activeTab == DefaultTab
    ensures Find(s.activeTab).Some? ==> s.caption == Find(s.activeTab).value.caption
    ensures Find(s.activeTab).None? ==> s.caption == DefaultCaption
  {
    var tab := if urlTab.Some? && urlTab.value != "" then urlTab.value else DefaultTab;
    TabState(tab, match Find(tab) case Some(item) => item.caption case None => DefaultCaption)
  }

  /**
    `handleDropdownSelect(id, label)`: both fields take the item's values.
    Once the URL names the chosen id, the sync effect keeps the choice.
   */
  function Select(id: string, caption: string): (s: TabState)
    ensures Find(id).Some? && caption == Find(id).value.caption ==> Sync(s, Some(id)) == s
    ensures Find(id).Some? ==> CurrentIcon(s.activeTab) == Find(id).value.icon
    ensures ShowsSavings(s.activeTab) <==> id == DefaultTab
  {
    TabState(id, caption)
  }

  /**
    The URL the selection replaces the current one with: the navigation
    bar's link to that tab, from which it reads the id back up to its first
    `&` or `#`.
   */
  function SelectUrl(id: string): (url: string)
    ensures url == Navbar.TabHref(id)
    ensures Navbar.TabOfHref(url) == Text.QueryValue(id)
  {
    "/saving-loan?tab=" + id
  }

  /**
    The URL sync effect: a truthy URL tab naming a known item other than the
    active one is adopted with its caption; an unknown one changes nothing;
    without a URL tab the state returns to the default unless already there.
   */
  function Sync(s: TabState, urlTab: Option<string>): (r: TabState)
    ensures IsTruthy(urlTab) && Find(urlTab.value).Some? && urlTab.value != s.activeTab ==>
      r == TabState(urlTab.value, Find(urlTab.value).value.caption)
    ensures IsTruthy(urlTab) && urlTab.value == s.activeTab ==> r == s
    ensures IsTruthy(urlTab) && Find(urlTab.value).None? ==> r == s
    ensures !IsTruthy(urlTab) && s.activeTab != DefaultTab ==> r == TabState(DefaultTab, DefaultCaption)
    ensures !IsTruthy(urlTab) && s.activeTab == DefaultTab ==> r == s
  {
    if urlTab.Some? && urlTab.value != "" then
      match Find(urlTab.value)
      case Some(item) => if item.id != s.activeTab then TabState(item.id, item.caption) else s
      case None => s
    else if s.activeTab != DefaultTab then TabState(DefaultTab, DefaultCaption)
    else s
  }

  /** The effect runs again after it changes the state; its second run changes nothing, so the page settles. */
  lemma SyncSettles(s: TabState, urlTab: Option<string>)
    ensures Sync(Sync(s, urlTab), urlTab) == Sync(s, urlTab)
  {
  }

  /** Selecting an item and then syncing with the URL the selection wrote keeps the selection. */
  lemma SelectThenSyncKeeps(item: DropdownItem)
    requires item in DropdownItems
    ensures Sync(Select(item.id, item.caption), Some(item.id)) == Select(item.id, item.caption)
  {
  }

  /**
    The sync effect also runs right after a dropdown choice, while the URL
    still holds the old `tab`: picking the financing entry on a URL naming
    the savings tab, or naming no tab, flips the page back to savings.
   */
  lemma SelectRevertsUntilUrlArrives()
    ensures Sync(Select(FinancingItem.id, FinancingItem.caption), Some(SavingItem.id)) == TabState(DefaultTab, DefaultCaption)
    ensures Sync(Select(FinancingItem.id, FinancingItem.caption), None) == TabState(DefaultTab, DefaultCaption)
  {
  }

  /**
    Whatever the old URL made of a dropdown choice, the sync with the
    replaced URL brings the chosen entry back.
   */
  lemma ReplacedUrlRestoresChoice(item: DropdownItem, urlTab: Option<string>)
    requires item in DropdownItems
    ensures Sync(Sync(Select(item.id, item.caption), urlTab), Some(item.id)) == Select(item.id, item.caption)
  {
  }

  /** A known URL tab puts its own caption on the button, after the first render or after the sync. */
  lemma KnownTabShowsItsCaption(tab: string)
    requires Find(tab).Some?
    ensures Initial(Some(tab)) == TabState(tab, Find(tab).value.caption)
    ensures Sync(Initial(Some(tab)), Some(tab)) == Initial(Some(tab))
  {
  }

  /** Savings products are shown only for the default tab; any other tab shows financing products. */
  predicate ShowsSavings(activeTab: string) {
    activeTab == DefaultTab
  }

  /** The button's icon: the active item's, else the piggy bank. */
  function CurrentIcon(activeTab: string): (icon: Icon)
    ensures Find(activeTab).Some? ==> icon == Find(activeTab).value.icon
    ensures Find(activeTab).None? ==> icon == PiggyBank
  {
    match Find(activeTab)
    case Some(item) => item.icon
    case None => PiggyBank
  }

  /**
    An unknown URL tab is kept by both the first render and the sync: the
    page then shows financing products under the savings caption and icon.
   */
  lemma UnknownTabShowsFinancingUnderSavingsCaption(tab: string)
    requires tab != "" && Find(tab).None?
    ensures var s := Sync(Initial(Some(tab)), Some(tab));
      && s == Initial(Some(tab))
      && !ShowsSavings(s.activeTab)
      && s.caption == DefaultCaption
      && CurrentIcon(s.activeTab) == PiggyBank
  {
  }

  class SavingLoanPage {
    var activeTab: string
    var selectedDropdownLabel: string

    constructor(urlTab: Option<string>)
      ensures TabState(activeTab, selectedDropdownLabel) == Initial(urlTab)
    {
      var s := Initial(urlTab);
      activeTab := s.activeTab;
      selectedDropdownLabel := s.caption;
    }

    /**
      A dropdown entry is chosen; the returned URL replaces the current one
      later. The sync effect runs in this step too, because the choice
      changes `activeTab`, and it still sees the URL's old `tab`, `urlTab`.
     */
    method HandleDropdownSelect(id: string, caption: string, urlTab: Option<string>) returns (replaceUrl: string)
      modifies this
      ensures TabState(activeTab, selectedDropdownLabel) == Sync(Select(id, caption), urlTab)
      ensures replaceUrl == SelectUrl(id)
    {
      var s := Sync(Select(id, caption), urlTab);
      activeTab, selectedDropdownLabel := s.activeTab, s.caption;
      replaceUrl := SelectUrl(id);
    }

    /** The sync effect, given the URL's current `tab` parameter. */
    method SyncWithUrl(urlTab: Option<string>)
      modifies this
      ensures TabState(activeTab, selectedDropdownLabel) == Sync(old(TabState(activeTab, selectedDropdownLabel)), urlTab)
    {
      var s := Sync(TabState(activeTab, selectedDropdownLabel), urlTab);
      activeTab, selectedDropdownLabel := s.activeTab, s.caption;
    }

    function ShowsSavingsProducts(): (savings: bool)
      reads this
      ensures savings <==> activeTab == "saving-product"
    {
      ShowsSavings(activeTab)
    }
  }

  /** The navigation bar's savings tab link names the savings entry. */
  lemma NavbarSavingTabIsKnown()
    ensures Find(Navbar.TabOfHref(Navbar.SavingTabHref)) == Some(SavingItem)
  {
    var tab := "saving-product";
    assert Navbar.SavingTabHref == Navbar.TabHref(tab);
    Navbar.TabOfTabHref(tab);
  }

  /** The navigation bar's financing tab link names the financing entry. */
  lemma NavbarFinancingTabIsKnown()
    ensures Find(Navbar.TabOfHref(Navbar.FinancingTabHref)) == Some(FinancingItem)
  {
    var tab := "financing-product";
    assert Navbar.FinancingTabHref == Navbar.TabHref(tab);
    Navbar.TabOfTabHref(tab);
  }
}
