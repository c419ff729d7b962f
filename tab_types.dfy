/**
 * The shapes of src/types/Tab.ts: a browser tab and a tab group as the
 * side panel sees them, plus the JavaScript truthiness tests the source
 * applies to their optional fields.
 */
module TabTypes {
  import opened Wrappers

  /** A browser tab. Every field may be `undefined`, the id included. */
  datatype Tab = Tab(
    id: Option<int>,
    title: Option<string>,
    url: Option<string>,
    favIconUrl: Option<string>,
    status: Option<string>,
    lastAccessed: Option<int>,   // epoch milliseconds
    groupId: Option<int>)

  /** A tab group of the current window. */
  datatype TabGroup = TabGroup(
    id: int,
    title: Option<string>,
    color: Option<string>,
    collapsed: Option<bool>,
    windowId: int)

  /** `if (n)` on an optional number: neither `undefined` nor `0`. */
  predicate TruthyNumber(n: Option<int>)
  {
    n.Some? && n.value != 0
  }

  /** `if (s)` on an optional string: neither `undefined` nor `""`. */
  predicate TruthyString(s: Option<string>)
  {
    s.Some? && s.value != ""
  }

  /** `originalTab?.id`: undefined both when there is no tab and when the tab has no id. */
  function OriginalId(originalTab: Option<Tab>): (r: Option<int>)
    ensures r.Some? <==> originalTab.Some? && originalTab.value.id.Some?
    ensures r.Some? ==> r == originalTab.value.id
  {
    match originalTab
    case None => None
    case Some(t) => t.id
  }
}
