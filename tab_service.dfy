/**
 * The decision rules of src/services/TabService.ts. Every browser call the
 * service makes (tabs.query, tabs.get, tabs.remove, windows.getCurrent,
 * tabGroups.query, tabGroups.update) is a parameter: the Outcome it
 * produced, or whether it succeeded.
 */
module TabService {
  import opened Wrappers
  import opened TabTypes

  /** Seven days in milliseconds: 7 * 24 * 60 * 60 * 1000. */
  const SevenDaysInMs: int := 604800000

  /** The one service object behind the module-level `tabService` export. */
  class Service {
    constructor ()
    {
    }
  }

  /** The class's static `instance` slot, filled lazily by `getInstance`. */
  class ServiceRegistry {
    var instance: Service?

    constructor ()
      ensures instance == null
    {
      instance := null;
    }

    /** Creates the instance on the first call; every call returns the same object. */
    method GetInstance() returns (s: Service)
      modifies this
      ensures instance == s
      ensures old(instance) != null ==> s == old(instance)
      ensures old(instance) == null ==> fresh(s)
    {
      if instance == null {
        instance := new Service();
      }
      s := instance;
    }
  }

  /** Two calls to `getInstance`, whatever the slot held before, yield one object. */
  method GetInstanceTwice(registry: ServiceRegistry) returns (first: Service, second: Service)
    modifies registry
    ensures first == second && registry.instance == first
  {
    first := registry.GetInstance();
    second := registry.GetInstance();
  }

  /** `getAllTabs`: the queried tabs, or no tabs when the query rejected. */
  function GetAllTabs(query: Outcome<seq<Tab>>): (r: seq<Tab>)
    ensures query.Returned? ==> r == query.value
    ensures query.Threw? ==> r == []
  {
    match query
    case Returned(tabs) => tabs
    case Threw => []
  }

  /** `getActiveTab`: the first tab of the active-tab query, or null. */
  function GetActiveTab(query: Outcome<seq<Tab>>): (r: Option<Tab>)
    ensures r.Some? <==> query.Returned? && |query.value| > 0
    ensures r.Some? ==> r.value == query.value[0]
  {
    match query
    case Returned(tabs) => if |tabs| > 0 then Some(tabs[0]) else None
    case Threw => None
  }

  /** `getTabById`: the tab, or null when the lookup rejected. */
  function GetTabById(lookup: Outcome<Tab>): (r: Option<Tab>)
    ensures r.Some? <==> lookup.Returned?
    ensures r.Some? ==> r.value == lookup.value
  {
    match lookup
    case Returned(t) => Some(t)
    case Threw => None
  }

  /** `getCurrentWindowId`: `window.id || null`, so a missing id, id 0 or a rejection give null. */
  function GetCurrentWindowId(current: Outcome<Option<int>>): (r: Option<int>)
    ensures r.Some? <==> current.Returned? && TruthyNumber(current.value)
    ensures r.Some? ==> r == current.value
  {
    match current
    case Returned(id) => if TruthyNumber(id) then id else None
    case Threw => None
  }

  /**
   * `isTabStale`, with `Date.now()` passed in as `now`: a tab with no
   * (or a zero) last-access time is never stale; otherwise it is stale when
   * strictly more than seven days have passed.
   */
  predicate IsTabStale(tab: Tab, now: int)
  {
    if !TruthyNumber(tab.lastAccessed) then false
    else now - tab.lastAccessed.value > SevenDaysInMs
  }

  lemma NeverAccessedIsFresh(tab: Tab, now: int)
    requires tab.lastAccessed == None || tab.lastAccessed == Some(0)
    ensures !IsTabStale(tab, now)
  {
  }

  /** Staleness is exactly "more than seven days ago"; the seven-day mark itself is not stale. */
  lemma StaleIffOlderThanSevenDays(tab: Tab, now: int)
    requires TruthyNumber(tab.lastAccessed)
    ensures IsTabStale(tab, now) <==> now > tab.lastAccessed.value + 7 * 24 * 60 * 60 * 1000
    ensures now == tab.lastAccessed.value + SevenDaysInMs ==> !IsTabStale(tab, now)
  {
  }

  /** Once stale, a tab stays stale as time goes on. */
  lemma StaleIsMonotone(tab: Tab, now: int, later: int)
    requires now <= later && IsTabStale(tab, now)
    ensures IsTabStale(tab, later)
  {
  }

  /** `closeTab`: true exactly when `tabs.remove` resolved. */
  function CloseTab(removal: Outcome<()>): (closed: bool)
    ensures closed <==> removal.Returned?
  {
    removal.Returned?
  }

  /**
   * `getTabGroups`: the current window's groups, or none when there is no
   * current window, the tabGroups API is missing, or the query rejected.
   */
  function GetTabGroups(current: Outcome<Option<int>>, groupsApiAvailable: bool,
                        query: Outcome<seq<TabGroup>>): (r: seq<TabGroup>)
    ensures GetCurrentWindowId(current).None? ==> r == []
    ensures !groupsApiAvailable ==> r == []
    ensures query.Threw? ==> r == []
    ensures GetCurrentWindowId(current).Some? && groupsApiAvailable && query.Returned? ==> r == query.value
  {
    var windowId := GetCurrentWindowId(current);
    if windowId.None? then []
    else if !groupsApiAvailable then []
    else match query
      case Returned(groups) => groups
      case Threw => []
  }

  /** `groups.find(g => g.id === groupId)`: the first group with that id. */
  function FindGroup(groups: seq<TabGroup>, groupId: int): (r: Option<TabGroup>)
    ensures r.Some? ==> r.value in groups && r.value.id == groupId
    ensures r.None? <==> forall g :: g in groups ==> g.id != groupId
  {
    if |groups| == 0 then None
    else if groups[0].id == groupId then Some(groups[0])
    else FindGroup(groups[1..], groupId)
  }

  lemma {:induction false} FindGroupIsFirst(groups: seq<TabGroup>, groupId: int, i: nat)
    requires i < |groups| && groups[i].id == groupId
    requires forall j :: 0 <= j < i ==> groups[j].id != groupId
    ensures FindGroup(groups, groupId) == Some(groups[i])
  {
    if i > 0 {
      FindGroupIsFirst(groups[1..], groupId, i - 1);
    }
  }

  /** The `tabGroups.update(groupId, { collapsed })` call a toggle issues. */
  datatype GroupUpdate = GroupUpdate(groupId: int, collapsed: bool)

  /** What `toggleTabGroupCollapse` resolves to, and the update call it issued, if any. */
  datatype ToggleResult = ToggleResult(toggled: bool, update: Option<GroupUpdate>)

  /**
   * `toggleTabGroupCollapse`: with the API present and the group found, it
   * writes the negation of `group.collapsed` (an absent flag counts as
   * false) and resolves true unless the update call rejected.
   */
  function ToggleTabGroupCollapse(groupId: int, groupsApiAvailable: bool, current: Outcome<Option<int>>,
                                  query: Outcome<seq<TabGroup>>, update: Outcome<()>): (r: ToggleResult)
    ensures !groupsApiAvailable ==> r == ToggleResult(false, None)
    ensures FindGroup(GetTabGroups(current, groupsApiAvailable, query), groupId).None? ==> r == ToggleResult(false, None)
    ensures r.update.Some? ==>
      exists g :: g in GetTabGroups(current, groupsApiAvailable, query) && g.id == groupId &&
        r.update.value == GroupUpdate(groupId, g.collapsed != Some(true))
    ensures r.toggled <==> r.update.Some? && update.Returned?
  {
    if !groupsApiAvailable then ToggleResult(false, None)
    else
      var groups := GetTabGroups(current, groupsApiAvailable, query);
      match FindGroup(groups, groupId)
      case None => ToggleResult(false, None)
      case Some(group) =>
        var request := GroupUpdate(groupId, !(group.collapsed == Some(true)));
        ToggleResult(update.Returned?, Some(request))
  }

  /** A toggle on a found group flips its collapse flag and, when the update resolves, reports success. */
  lemma ToggleFlipsFoundGroup(groupId: int, current: Outcome<Option<int>>, query: Outcome<seq<TabGroup>>,
                              update: Outcome<()>, g: TabGroup)
    requires FindGroup(GetTabGroups(current, true, query), groupId) == Some(g)
    ensures ToggleTabGroupCollapse(groupId, true, current, query, update).update ==
            Some(GroupUpdate(groupId, !(g.collapsed == Some(true))))
    ensures ToggleTabGroupCollapse(groupId, true, current, query, update).toggled <==> update.Returned?
  {
  }
}
