/**
 * src/hooks/useTabs.ts: the side panel's tab snapshot and its
 * hover-preview state machine. The hook's state cells and refs are the
 * fields of `TabsHook`; each handler is a method that runs to completion
 * (the single-threaded event loop), with the results of the provider calls
 * it awaits passed in as arguments and the activation it requests returned.
 * The 500 ms failsafe timers are explicit: arming one records it, and
 * `FailsafeFires` is the event of one going off.
 */
module UseTabs {
  import opened Wrappers
  import opened TabTypes
  import TabService

  /** The fields of the updated tab that `{ ...tab, ...updatedTab }` copies over; None = not present. */
  datatype TabPatch = TabPatch(
    title: Option<string>,
    url: Option<string>,
    favIconUrl: Option<string>,
    status: Option<string>,
    lastAccessed: Option<int>,
    groupId: Option<int>)

  /** The two `changeInfo` fields the update handler looks at. */
  datatype ChangeInfo = ChangeInfo(status: Option<string>, groupId: Option<int>)

  function Override<T>(old_: Option<T>, new_: Option<T>): Option<T>
  {
    if new_.Some? then new_ else old_
  }

  /** `{ ...tab, ...updatedTab }`. */
  function MergePatch(tab: Tab, patch: TabPatch): (r: Tab)
    ensures r.id == tab.id
  {
    Tab(tab.id, Override(tab.title, patch.title), Override(tab.url, patch.url),
        Override(tab.favIconUrl, patch.favIconUrl), Override(tab.status, patch.status),
        Override(tab.lastAccessed, patch.lastAccessed), Override(tab.groupId, patch.groupId))
  }

  /** Merging the same patch twice is merging it once. */
  lemma MergePatchIdempotent(tab: Tab, patch: TabPatch)
    ensures MergePatch(MergePatch(tab, patch), patch) == MergePatch(tab, patch)
  {
  }

  /** `tabs.filter(tab => tab.id !== tabId)`. */
  function RemoveTabsWithId(tabs: seq<Tab>, tabId: int): (r: seq<Tab>)
    ensures |r| <= |tabs|
    ensures forall t :: t in r <==> t in tabs && t.id != Some(tabId)
  {
    if |tabs| == 0 then []
    else if tabs[0].id == Some(tabId) then RemoveTabsWithId(tabs[1..], tabId)
    else [tabs[0]] + RemoveTabsWithId(tabs[1..], tabId)
  }

  /** Removal keeps the order of what remains: it works piecewise on any split of the list. */
  lemma {:induction false} RemoveKeepsOrder(a: seq<Tab>, b: seq<Tab>, tabId: int)
    ensures RemoveTabsWithId(a + b, tabId) == RemoveTabsWithId(a, tabId) + RemoveTabsWithId(b, tabId)
  {
    if |a| > 0 {
      var ab := a + b;
      assert ab[0] == a[0] && ab[1..] == a[1..] + b;
      RemoveKeepsOrder(a[1..], b, tabId);
      var tail := RemoveTabsWithId(a[1..], tabId) + RemoveTabsWithId(b, tabId);
      if a[0].id == Some(tabId) {
        assert RemoveTabsWithId(ab, tabId) == tail;
      } else {
        assert RemoveTabsWithId(ab, tabId) == [a[0]] + tail;
        assert RemoveTabsWithId(a, tabId) == [a[0]] + RemoveTabsWithId(a[1..], tabId);
      }
    } else {
      assert a + b == b;
    }
  }

  /** Removing an id that no tab has changes nothing. */
  lemma {:induction false} RemoveAbsentId(tabs: seq<Tab>, tabId: int)
    requires forall t :: t in tabs ==> t.id != Some(tabId)
    ensures RemoveTabsWithId(tabs, tabId) == tabs
  {
    if |tabs| > 0 {
      RemoveAbsentId(tabs[1..], tabId);
    }
  }

  /** `tabs.map(tab => tab.id === tabId ? { ...tab, ...updatedTab } : tab)`. */
  function MergeUpdate(tabs: seq<Tab>, tabId: int, patch: TabPatch): (r: seq<Tab>)
    ensures |r| == |tabs|
  {
    if |tabs| == 0 then []
    else [if tabs[0].id == Some(tabId) then MergePatch(tabs[0], patch) else tabs[0]]
         + MergeUpdate(tabs[1..], tabId, patch)
  }

  /**
   * An update touches only the tabs with the updated id, merging the patch
   * into them; every position keeps its tab's id.
   */
  lemma {:induction false} MergeUpdateAt(tabs: seq<Tab>, tabId: int, patch: TabPatch, i: nat)
    requires i < |tabs|
    ensures MergeUpdate(tabs, tabId, patch)[i] ==
      if tabs[i].id == Some(tabId) then MergePatch(tabs[i], patch) else tabs[i]
    ensures MergeUpdate(tabs, tabId, patch)[i].id == tabs[i].id
  {
    if i > 0 {
      MergeUpdateAt(tabs[1..], tabId, patch, i - 1);
    }
  }

  /** Applying the same update notification twice is applying it once. */
  lemma {:induction false} MergeUpdateIdempotent(tabs: seq<Tab>, tabId: int, patch: TabPatch)
    ensures MergeUpdate(MergeUpdate(tabs, tabId, patch), tabId, patch) == MergeUpdate(tabs, tabId, patch)
  {
    if |tabs| > 0 {
      MergeUpdateIdempotent(tabs[1..], tabId, patch);
      var once := MergeUpdate(tabs, tabId, patch);
      assert once[1..] == MergeUpdate(tabs[1..], tabId, patch);
    }
  }

  /** `tabs.findIndex(tab => tab.id === tabId)`: the first position with that id, or -1. */
  function FindIndex(tabs: seq<Tab>, tabId: int): (r: int)
    ensures -1 <= r < |tabs|
    ensures r >= 0 ==> tabs[r].id == Some(tabId) && forall j :: 0 <= j < r ==> tabs[j].id != Some(tabId)
    ensures r == -1 <==> forall j :: 0 <= j < |tabs| ==> tabs[j].id != Some(tabId)
  {
    if |tabs| == 0 then -1
    else if tabs[0].id == Some(tabId) then 0
    else
      var rest := FindIndex(tabs[1..], tabId);
      if rest == -1 then -1 else rest + 1
  }

  /** `tabs.find(tab => tab.id === tabId)`: the tab at `findIndex`, if any. */
  function FindTab(tabs: seq<Tab>, tabId: int): (r: Option<Tab>)
    ensures r.Some? <==> FindIndex(tabs, tabId) >= 0
    ensures r.Some? ==> r.value == tabs[FindIndex(tabs, tabId)] && r.value.id == Some(tabId)
  {
    var i := FindIndex(tabs, tabId);
    if i >= 0 then Some(tabs[i]) else None
  }

  /** `previewTabId || originalTab?.id`: the tab the panel treats as currently shown. */
  function EffectiveActiveTab(previewTabId: Option<int>, originalTab: Option<Tab>): Option<int>
  {
    if TruthyNumber(previewTabId) then previewTabId else OriginalId(originalTab)
  }

  /** The update handler acts only on a truthy `changeInfo.status` or `changeInfo.groupId`. */
  predicate UpdateApplies(changeInfo: ChangeInfo)
  {
    TruthyString(changeInfo.status) || TruthyNumber(changeInfo.groupId)
  }

  class TabsHook {
    var allTabs: seq<Tab>
    var tabGroups: seq<TabGroup>
    var originalTab: Option<Tab>
    var previewTabId: Option<int>
    var originalTabIndex: int
    /** `isSwitchingOnHoverRef.current`: an activation of the hook's own is under way. */
    var isSwitchingOnHover: bool
    /** `hoverSwitchTimeoutRef.current`: the last failsafe timer armed (never reset to null). */
    var hoverSwitchTimeout: Option<nat>
    /** The failsafe timers armed and neither fired nor cancelled. */
    var armedTimers: set<nat>
    /** The id the next timer gets. */
    var nextTimerId: nat

    /**
     * While the guard flag is raised, the timer its switch armed is still
     * pending: a lost activation notification cannot leave the flag up for good.
     */
    ghost predicate Valid()
      reads this
    {
      && (forall t :: t in armedTimers ==> t < nextTimerId)
      && (hoverSwitchTimeout.Some? ==> hoverSwitchTimeout.value < nextTimerId)
      && (isSwitchingOnHover ==> hoverSwitchTimeout.Some? && hoverSwitchTimeout.value in armedTimers)
      && originalTabIndex >= -1
    }

    /** The hook's initial state, before `initializeTabsInfo` has run. */
    constructor ()
      ensures Valid()
      ensures allTabs == [] && tabGroups == [] && originalTab == None && previewTabId == None
      ensures originalTabIndex == -1 && !isSwitchingOnHover && hoverSwitchTimeout == None && armedTimers == {}
    {
      allTabs := [];
      tabGroups := [];
      originalTab := None;
      previewTabId := None;
      originalTabIndex := -1;
      isSwitchingOnHover := false;
      hoverSwitchTimeout := None;
      armedTimers := {};
      nextTimerId := 0;
    }

    /** `clearHoverSwitchFlag`: lowers the flag and cancels the last armed timer. */
    method ClearHoverSwitchFlag()
      requires Valid()
      modifies this`isSwitchingOnHover, this`armedTimers
      ensures Valid() && !isSwitchingOnHover
      ensures armedTimers == if hoverSwitchTimeout.Some? then old(armedTimers) - {hoverSwitchTimeout.value} else old(armedTimers)
    {
      isSwitchingOnHover := false;
      if hoverSwitchTimeout.Some? {
        armedTimers := armedTimers - {hoverSwitchTimeout.value};
      }
    }

    /** The failsafe callback of an armed timer runs: the flag is lowered. */
    method FailsafeFires(timer: nat)
      requires Valid() && timer in armedTimers
      modifies this`isSwitchingOnHover, this`armedTimers
      ensures Valid() && !isSwitchingOnHover
      ensures armedTimers == old(armedTimers) - {timer}
    {
      armedTimers := armedTimers - {timer};
      isSwitchingOnHover := false;
    }

    /** Raises the guard flag and arms a fresh failsafe timer, remembered in the ref. */
    method RaiseGuard()
      requires Valid()
      modifies this`isSwitchingOnHover, this`hoverSwitchTimeout, this`armedTimers, this`nextTimerId
      ensures Valid() && isSwitchingOnHover
      ensures hoverSwitchTimeout == Some(old(nextTimerId)) && nextTimerId == old(nextTimerId) + 1
      ensures armedTimers == old(armedTimers) + {old(nextTimerId)} && old(nextTimerId) !in old(armedTimers)
    {
      isSwitchingOnHover := true;
      hoverSwitchTimeout := Some(nextTimerId);
      armedTimers := armedTimers + {nextTimerId};
      nextTimerId := nextTimerId + 1;
    }

    /**
     * `initializeTabsInfo`, given what getActiveTab, getAllTabs and
     * getTabGroups resolved to: an active tab with a truthy id becomes the
     * original tab, with its position in the window's tabs.
     */
    method InitializeTabsInfo(activeTab: Option<Tab>, windowTabs: seq<Tab>, groups: seq<TabGroup>)
      requires Valid()
      modifies this`allTabs, this`tabGroups, this`originalTab, this`originalTabIndex
      ensures Valid()
      ensures allTabs == windowTabs && tabGroups == groups
      ensures activeTab.Some? && TruthyNumber(activeTab.value.id) ==>
        originalTab == activeTab && originalTabIndex == FindIndex(windowTabs, activeTab.value.id.value)
      ensures !(activeTab.Some? && TruthyNumber(activeTab.value.id)) ==>
        originalTab == old(originalTab) && originalTabIndex == old(originalTabIndex)
    {
      if activeTab.Some? && TruthyNumber(activeTab.value.id) {
        originalTab := activeTab;
        originalTabIndex := FindIndex(windowTabs, activeTab.value.id.value);
      }
      allTabs := windowTabs;
      tabGroups := groups;
    }

    /** `handleTabRemoved`: drops the tab and any reference to it. */
    method TabRemoved(tabId: int)
      requires Valid()
      modifies this`allTabs, this`originalTab, this`previewTabId
      ensures Valid()
      ensures allTabs == RemoveTabsWithId(old(allTabs), tabId)
      ensures originalTab == if OriginalId(old(originalTab)) == Some(tabId) then None else old(originalTab)
      ensures previewTabId == if old(previewTabId) == Some(tabId) then None else old(previewTabId)
    {
      allTabs := RemoveTabsWithId(allTabs, tabId);
      if OriginalId(originalTab) == Some(tabId) {
        originalTab := None;
      }
      if previewTabId == Some(tabId) {
        previewTabId := None;
      }
    }

    /**
     * `handleTabUpdated`: merges the patch into the snapshot (and into the
     * original tab, refreshing its index) only for a status or group change;
     * `refreshGroups` says whether it started a groups refresh.
     */
    method TabUpdated(tabId: int, changeInfo: ChangeInfo, updatedTab: TabPatch) returns (refreshGroups: bool)
      requires Valid()
      modifies this`allTabs, this`originalTab, this`originalTabIndex
      ensures Valid()
      ensures refreshGroups <==> TruthyNumber(changeInfo.groupId)
      ensures allTabs == if UpdateApplies(changeInfo) then MergeUpdate(old(allTabs), tabId, updatedTab) else old(allTabs)
      ensures var touchesOriginal := UpdateApplies(changeInfo) && OriginalId(old(originalTab)) == Some(tabId);
        && originalTab == (if touchesOriginal then Some(MergePatch(old(originalTab).value, updatedTab)) else old(originalTab))
        && originalTabIndex ==
             (if touchesOriginal && FindIndex(old(allTabs), tabId) != -1 then FindIndex(old(allTabs), tabId)
              else old(originalTabIndex))
      ensures OriginalId(originalTab) == OriginalId(old(originalTab))
    {
      refreshGroups := false;
      if UpdateApplies(changeInfo) {
        var before := allTabs;
        allTabs := MergeUpdate(allTabs, tabId, updatedTab);
        if OriginalId(originalTab) == Some(tabId) {
          originalTab := Some(MergePatch(originalTab.value, updatedTab));
          var newIndex := FindIndex(before, tabId);
          if newIndex != -1 {
            originalTabIndex := newIndex;
          }
        }
        refreshGroups := TruthyNumber(changeInfo.groupId);
      }
    }

    /** `handleTabGroupCreated` / `Updated` / `Removed`: the groups getTabGroups resolved to replace the list. */
    method GroupsRefreshed(groups: seq<TabGroup>)
      requires Valid()
      modifies this`tabGroups
      ensures Valid() && tabGroups == groups
    {
      tabGroups := groups;
    }

    /** `handleTabMoved`: a full refresh of tabs and groups. */
    method TabMoved(windowTabs: seq<Tab>, groups: seq<TabGroup>)
      requires Valid()
      modifies this`allTabs, this`tabGroups
      ensures Valid() && allTabs == windowTabs && tabGroups == groups
    {
      allTabs := windowTabs;
      tabGroups := groups;
    }

    /** `handleTabCreated`: a full refresh, only for a tab created in the current window. */
    method TabCreated(tabWindowId: int, currentWindowId: Option<int>, windowTabs: seq<Tab>, groups: seq<TabGroup>)
      requires Valid()
      modifies this`allTabs, this`tabGroups
      ensures Valid()
      ensures currentWindowId == Some(tabWindowId) ==> allTabs == windowTabs && tabGroups == groups
      ensures currentWindowId != Some(tabWindowId) ==> allTabs == old(allTabs) && tabGroups == old(tabGroups)
    {
      if currentWindowId == Some(tabWindowId) {
        allTabs := windowTabs;
        tabGroups := groups;
      }
    }

    /** `handleWindowFocusChanged`: a full refresh when the focused window is the panel's own. */
    method WindowFocusChanged(windowId: int, currentWindowId: Option<int>, windowTabs: seq<Tab>, groups: seq<TabGroup>)
      requires Valid()
      modifies this`allTabs, this`tabGroups
      ensures Valid()
      ensures currentWindowId == Some(windowId) ==> allTabs == windowTabs && tabGroups == groups
      ensures currentWindowId != Some(windowId) ==> allTabs == old(allTabs) && tabGroups == old(tabGroups)
    {
      if currentWindowId == Some(windowId) {
        allTabs := windowTabs;
        tabGroups := groups;
      }
    }

    /**
     * `handleTabReplaced`, given the refreshed tab list: references to the
     * removed tab move to the added one (the original tab only when the
     * added tab is in the refreshed list).
     */
    method TabReplaced(addedTabId: int, removedTabId: int, windowTabs: seq<Tab>)
      requires Valid()
      modifies this`allTabs, this`originalTab, this`previewTabId
      ensures Valid()
      ensures allTabs == windowTabs
      ensures originalTab ==
        if OriginalId(old(originalTab)) == Some(removedTabId) && FindTab(windowTabs, addedTabId).Some?
        then FindTab(windowTabs, addedTabId) else old(originalTab)
      ensures previewTabId == if old(previewTabId) == Some(removedTabId) then Some(addedTabId) else old(previewTabId)
    {
      allTabs := windowTabs;
      if OriginalId(originalTab) == Some(removedTabId) {
        var newTab := FindTab(windowTabs, addedTabId);
        if newTab.Some? {
          originalTab := newTab;
        }
      }
      if previewTabId == Some(removedTabId) {
        previewTabId := Some(addedTabId);
      }
    }

    /**
     * `handleTabActivated`: with the guard flag raised the activation is the
     * hook's own, and only the flag is cleared; otherwise it is a manual
     * switch and the tab getTabById found becomes the original tab.
     * `lookup` is how `getTabById(activeInfo.tabId)` settled, so a tab it
     * returns carries the activated id.
     */
    method TabActivated(tabId: int, lookup: Outcome<Tab>)
      requires Valid()
      requires lookup.Returned? ==> lookup.value.id == Some(tabId)
      modifies this`isSwitchingOnHover, this`armedTimers, this`originalTab, this`previewTabId
      ensures Valid() && !isSwitchingOnHover
      ensures old(isSwitchingOnHover) ==>
        && originalTab == old(originalTab) && previewTabId == old(previewTabId)
        && armedTimers == if hoverSwitchTimeout.Some? then old(armedTimers) - {hoverSwitchTimeout.value} else old(armedTimers)
      ensures !old(isSwitchingOnHover) ==> armedTimers == old(armedTimers)
      ensures !old(isSwitchingOnHover) && TabService.GetTabById(lookup).Some? ==>
        originalTab == TabService.GetTabById(lookup) && previewTabId == None && OriginalId(originalTab) == Some(tabId)
      ensures !old(isSwitchingOnHover) && TabService.GetTabById(lookup).None? ==>
        originalTab == old(originalTab) && previewTabId == old(previewTabId)
    {
      if isSwitchingOnHover {
        ClearHoverSwitchFlag();
        return;
      }
      var activatedTab := TabService.GetTabById(lookup);
      if activatedTab.Some? {
        originalTab := activatedTab;
        previewTabId := None;
      }
    }

    /**
     * `handleTabHover`: hovering the tab already shown does nothing; any
     * other tab is activated once, under the guard flag, and becomes the
     * preview if the activation went through. `activation` is the
     * `activateTab` call made, `activateSucceeded` how it settled.
     */
    method TabHover(tabId: int, activateSucceeded: bool) returns (activation: Option<int>)
      requires Valid()
      modifies this`previewTabId, this`isSwitchingOnHover, this`hoverSwitchTimeout, this`armedTimers, this`nextTimerId
      ensures Valid()
      ensures EffectiveActiveTab(old(previewTabId), originalTab) == Some(tabId) ==>
        && activation == None && previewTabId == old(previewTabId)
        && isSwitchingOnHover == old(isSwitchingOnHover) && hoverSwitchTimeout == old(hoverSwitchTimeout)
        && armedTimers == old(armedTimers) && nextTimerId == old(nextTimerId)
      ensures EffectiveActiveTab(old(previewTabId), originalTab) != Some(tabId) ==>
        && activation == Some(tabId)
        && hoverSwitchTimeout == Some(old(nextTimerId)) && nextTimerId == old(nextTimerId) + 1
        && previewTabId == (if activateSucceeded then Some(tabId) else old(previewTabId))
        && isSwitchingOnHover == activateSucceeded
        && armedTimers == (if activateSucceeded then old(armedTimers) + {old(nextTimerId)} else old(armedTimers))
    {
      var currentActiveTab := EffectiveActiveTab(previewTabId, originalTab);
      if currentActiveTab == Some(tabId) {
        return None;
      }
      RaiseGuard();
      activation := Some(tabId);
      if activateSucceeded {
        previewTabId := Some(tabId);
      } else {
        ClearHoverSwitchFlag();
      }
    }

    /** `handleTabClick`: a tab of the snapshot becomes the original tab; no activation is made. */
    method TabClick(tabId: int)
      requires Valid()
      modifies this`originalTab, this`previewTabId
      ensures Valid()
      ensures FindTab(allTabs, tabId).Some? ==> originalTab == FindTab(allTabs, tabId) && previewTabId == None
      ensures FindTab(allTabs, tabId).None? ==> originalTab == old(originalTab) && previewTabId == old(previewTabId)
    {
      var clickedTab := FindTab(allTabs, tabId);
      if clickedTab.Some? {
        originalTab := clickedTab;
        previewTabId := None;
      }
    }

    /**
     * `handleSidePanelHoverEnd`: with a truthy original id and a truthy
     * preview id, activates the original tab under the guard flag and ends
     * the preview if that went through.
     */
    method SidePanelHoverEnd(activateSucceeded: bool) returns (activation: Option<int>)
      requires Valid()
      modifies this`previewTabId, this`isSwitchingOnHover, this`hoverSwitchTimeout, this`armedTimers, this`nextTimerId
      ensures Valid()
      ensures !(TruthyNumber(OriginalId(originalTab)) && TruthyNumber(old(previewTabId))) ==>
        && activation == None && previewTabId == old(previewTabId)
        && isSwitchingOnHover == old(isSwitchingOnHover) && armedTimers == old(armedTimers)
        && hoverSwitchTimeout == old(hoverSwitchTimeout) && nextTimerId == old(nextTimerId)
      ensures TruthyNumber(OriginalId(originalTab)) && TruthyNumber(old(previewTabId)) ==>
        && activation == OriginalId(originalTab)
        && hoverSwitchTimeout == Some(old(nextTimerId)) && nextTimerId == old(nextTimerId) + 1
        && previewTabId == (if activateSucceeded then None else old(previewTabId))
        && isSwitchingOnHover == activateSucceeded
        && armedTimers == (if activateSucceeded then old(armedTimers) + {old(nextTimerId)} else old(armedTimers))
    {
      var originalId := OriginalId(originalTab);
      if !(TruthyNumber(originalId) && TruthyNumber(previewTabId)) {
        return None;
      }
      RaiseGuard();
      activation := originalId;
      if activateSucceeded {
        previewTabId := None;
      } else {
        ClearHoverSwitchFlag();
      }
    }
  }

  /** A window whose active tab `a` sits before a second tab with id `b`. */
  function TwoTabs(a: Tab, b: int): seq<Tab>
  {
    [a, Tab(Some(b), None, None, None, None, None, None)]
  }

  /**
   * Hover-end restores: from original `a`, hovering `b` and leaving the panel
   * makes exactly two activations, `b` then `a`; the two notifications they
   * cause are taken as the hook's own, so `a` stays the original and no
   * preview is left.
   */
  method HoverThenLeaveRestoresOriginal(a: Tab, b: int)
    returns (activations: seq<int>, finalOriginal: Option<Tab>, finalPreview: Option<int>)
    requires TruthyNumber(a.id) && b != 0 && b != a.id.value
    ensures activations == [b, a.id.value]
    ensures finalOriginal == Some(a) && finalPreview == None
  {
    var hook := new TabsHook();
    hook.InitializeTabsInfo(Some(a), TwoTabs(a, b), []);
    var first := hook.TabHover(b, true);
    hook.TabActivated(b, Threw);
    var second := hook.SidePanelHoverEnd(true);
    hook.TabActivated(a.id.value, Returned(a));
    activations := [first.value, second.value];
    finalOriginal, finalPreview := hook.originalTab, hook.previewTabId;
  }

  /** Hovering the same tab twice activates it once: the second hover finds it already shown. */
  method HoverTwiceActivatesOnce(a: Tab, b: int)
    returns (first: Option<int>, second: Option<int>)
    requires TruthyNumber(a.id) && b != 0 && b != a.id.value
    ensures first == Some(b) && second == None
  {
    var hook := new TabsHook();
    hook.InitializeTabsInfo(Some(a), TwoTabs(a, b), []);
    first := hook.TabHover(b, true);
    hook.TabActivated(b, Threw);
    second := hook.TabHover(b, true);
  }

  /**
   * A manual switch is recognised: with no switch of the hook's own under
   * way, an activation makes the activated tab the original and ends the
   * preview, even mid-preview.
   */
  method ManualSwitchWinsOverPreview(a: Tab, b: int, c: Tab)
    returns (finalOriginal: Option<Tab>, finalPreview: Option<int>)
    requires TruthyNumber(a.id) && b != 0 && b != a.id.value && TruthyNumber(c.id)
    ensures finalOriginal == Some(c) && finalPreview == None
  {
    var hook := new TabsHook();
    hook.InitializeTabsInfo(Some(a), TwoTabs(a, b), []);
    var _ := hook.TabHover(b, true);
    hook.TabActivated(b, Threw);
    hook.TabActivated(c.id.value, Returned(c));
    finalOriginal, finalPreview := hook.originalTab, hook.previewTabId;
  }

  /** Closing the previewed tab clears the preview, and leaving the panel then activates nothing. */
  method RemovingPreviewEndsIt(a: Tab, b: int)
    returns (finalPreview: Option<int>, restore: Option<int>)
    requires TruthyNumber(a.id) && b != 0 && b != a.id.value
    ensures finalPreview == None && restore == None
  {
    var hook := new TabsHook();
    hook.InitializeTabsInfo(Some(a), TwoTabs(a, b), []);
    var _ := hook.TabHover(b, true);
    hook.TabRemoved(b);
    finalPreview := hook.previewTabId;
    restore := hook.SidePanelHoverEnd(true);
  }
}
