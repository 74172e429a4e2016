/** `TabComponent`: a row of tabs, at most one of which is meant to be active, and the
    id of the tab last activated. */
module Tabs {
  import opened Wrappers
  import opened Text

  /** A `TabConfig`; `labelText` is its `label` (a reserved word here). */
  datatype Tab = Tab(id: string, labelText: string, isActive: bool)

  datatype TabBar = TabBar(tabs: seq<Tab>, activeTabId: string)

  /** What `init` reads from one `.tab` element: its `data-tab-id` attribute, its text
      and whether it carries the `active` class. */
  datatype TabElement = TabElement(tabId: Option<string>, text: Option<string>, hasActiveClass: bool)

  /** The tab `init` records for the element at `index`: the attribute, or `tab-<index>`
      when it is absent or empty; the trimmed text; the `active` class. */
  function TabFor(e: TabElement, index: nat): (t: Tab)
    ensures t.id != ""
    ensures e.tabId.Some? && e.tabId.value != "" ==> t.id == e.tabId.value
    ensures e.tabId.None? || e.tabId.value == "" ==> t.id == "tab-" + NatToString(index)
    ensures t.labelText == Trim(e.text.GetOr("")) && t.isActive == e.hasActiveClass
  {
    var id := if e.tabId.Some? && e.tabId.value != "" then e.tabId.value else "tab-" + NatToString(index);
    Tab(id, Trim(e.text.GetOr("")), e.hasActiveClass)
  }

  /** The position of the last active tab. */
  function LastActive(tabs: seq<Tab>): (r: Option<nat>)
    ensures r.Some? ==> r.value < |tabs| && tabs[r.value].isActive
    ensures r.Some? ==> forall k :: r.value < k < |tabs| ==> !tabs[k].isActive
    ensures r.None? <==> forall k :: 0 <= k < |tabs| ==> !tabs[k].isActive
  {
    if |tabs| == 0 then None
    else if tabs[|tabs| - 1].isActive then Some(|tabs| - 1)
    else LastActive(tabs[..|tabs| - 1])
  }

  /** `init`: one tab per element, in document order; the active id is that of the last
      element marked active, or empty when none is. */
  method Init(elements: seq<TabElement>) returns (bar: TabBar)
    ensures |bar.tabs| == |elements|
    ensures forall i :: 0 <= i < |elements| ==> bar.tabs[i] == TabFor(elements[i], i)
    ensures LastActive(bar.tabs).None? ==> bar.activeTabId == ""
    ensures LastActive(bar.tabs).Some? ==> bar.activeTabId == bar.tabs[LastActive(bar.tabs).value].id
  {
    var tabs: seq<Tab> := [];
    var activeTabId := "";
    var index := 0;
    while index < |elements|
      invariant index <= |elements| && |tabs| == index
      invariant forall i :: 0 <= i < index ==> tabs[i] == TabFor(elements[i], i)
      invariant LastActive(tabs).None? ==> activeTabId == ""
      invariant LastActive(tabs).Some? ==> activeTabId == tabs[LastActive(tabs).value].id
    {
      var tab := TabFor(elements[index], index);
      var before := tabs;
      tabs := before + [tab];
      assert tabs[..|tabs| - 1] == before;
      forall i | 0 <= i <= index
        ensures tabs[i] == TabFor(elements[i], i)
      {
        if i < index {
          assert tabs[i] == before[i];
        }
      }
      if tab.isActive {
        activeTabId := tab.id;
        assert LastActive(tabs) == Some(index);
      } else {
        assert LastActive(tabs) == LastActive(before);
      }
      index := index + 1;
    }
    bar := TabBar(tabs, activeTabId);
  }

  /** Every tab active exactly when its id is `tabId`; ids and labels kept. */
  function ActivateOnly(tabs: seq<Tab>, tabId: string): (r: seq<Tab>)
    ensures |r| == |tabs|
    ensures forall i :: 0 <= i < |r| ==>
              r[i].id == tabs[i].id && r[i].labelText == tabs[i].labelText && r[i].isActive == (tabs[i].id == tabId)
  {
    if |tabs| == 0 then []
    else [tabs[0].(isActive := tabs[0].id == tabId)] + ActivateOnly(tabs[1..], tabId)
  }

  /** `switchTab(tabId)`: the tab with that id becomes the only active one and the
      active id is recorded, even when no tab has that id. */
  function SwitchTab(bar: TabBar, tabId: string): (r: TabBar)
    ensures r.activeTabId == tabId
    ensures |r.tabs| == |bar.tabs|
    ensures forall i :: 0 <= i < |r.tabs| ==> r.tabs[i] == bar.tabs[i].(isActive := bar.tabs[i].id == tabId)
  {
    TabBar(ActivateOnly(bar.tabs, tabId), tabId)
  }

  /** `getActiveTab`: the first active tab, if any. */
  function GetActiveTab(tabs: seq<Tab>): (r: Option<Tab>)
    ensures r.Some? ==> r.value.isActive && r.value in tabs
    ensures r.Some? ==> exists i :: 0 <= i < |tabs| && tabs[i] == r.value
                          && forall k :: 0 <= k < i ==> !tabs[k].isActive
    ensures r.None? <==> forall k :: 0 <= k < |tabs| ==> !tabs[k].isActive
  {
    if |tabs| == 0 then None
    else if tabs[0].isActive then Some(tabs[0])
    else GetActiveTab(tabs[1..])
  }

  /** The first tab carrying the given id. */
  function IndexOfId(tabs: seq<Tab>, tabId: string): (r: Option<nat>)
    ensures r.Some? ==> r.value < |tabs| && tabs[r.value].id == tabId
    ensures r.Some? ==> forall k :: 0 <= k < r.value ==> tabs[k].id != tabId
    ensures r.None? <==> forall k :: 0 <= k < |tabs| ==> tabs[k].id != tabId
  {
    if |tabs| == 0 then None
    else if tabs[0].id == tabId then Some(0)
    else match IndexOfId(tabs[1..], tabId)
      case None => None
      case Some(i) => Some(i + 1)
  }

  /** After `switchTab(tabId)` the active tab is the (first) tab with that id, now marked
      active, or there is none when no tab has that id. */
  lemma {:induction false} SwitchThenGetActive(tabs: seq<Tab>, tabId: string)
    ensures var r := ActivateOnly(tabs, tabId);
            match IndexOfId(tabs, tabId)
            case None => GetActiveTab(r).None?
            case Some(i) => GetActiveTab(r) == Some(tabs[i].(isActive := true))
  {
    if |tabs| > 0 {
      var r := ActivateOnly(tabs, tabId);
      assert r[1..] == ActivateOnly(tabs[1..], tabId);
      SwitchThenGetActive(tabs[1..], tabId);
    }
  }

  /** Switching to the same tab twice is switching once. */
  lemma SwitchTabIdempotent(bar: TabBar, tabId: string)
    ensures SwitchTab(SwitchTab(bar, tabId), tabId) == SwitchTab(bar, tabId)
  {
    var once := SwitchTab(bar, tabId);
    var twice := SwitchTab(once, tabId);
    assert twice.tabs == once.tabs;
  }

  /** `addTab(tab)`: the tab goes at the end and the others are untouched; when it is
      active, `renderTab` also records its id as the active one, without deactivating
      the others. */
  function AddTab(bar: TabBar, tab: Tab): (r: TabBar)
    ensures |r.tabs| == |bar.tabs| + 1 && r.tabs[..|bar.tabs|] == bar.tabs && r.tabs[|bar.tabs|] == tab
    ensures r.activeTabId == if tab.isActive then tab.id else bar.activeTabId
  {
    TabBar(bar.tabs + [tab], if tab.isActive then tab.id else bar.activeTabId)
  }

  /** Appending a tab changes the first active tab only when there was none before. */
  lemma {:induction false} AddTabKeepsFirstActive(tabs: seq<Tab>, tab: Tab)
    ensures GetActiveTab(tabs + [tab]) ==
              if GetActiveTab(tabs).Some? then GetActiveTab(tabs)
              else if tab.isActive then Some(tab) else None
  {
    if |tabs| > 0 {
      assert (tabs + [tab])[1..] == tabs[1..] + [tab];
      AddTabKeepsFirstActive(tabs[1..], tab);
    } else {
      assert tabs + [tab] == [tab];
    }
  }

  /** Adding an active tab to a row that already has one leaves two active tabs: the
      recorded active id then names the new tab while `getActiveTab` still returns the
      earlier one. */
  lemma AddActiveTabDisagrees()
    ensures var bar := AddTab(TabBar([Tab("a", "A", true)], "a"), Tab("b", "B", true));
            bar.activeTabId == "b" && GetActiveTab(bar.tabs) == Some(Tab("a", "A", true))
  {
    var bar := AddTab(TabBar([Tab("a", "A", true)], "a"), Tab("b", "B", true));
    assert bar.tabs[0] == Tab("a", "A", true);
  }
}
