# Tab.Show side panel — a verified model of its core

Tab.Show is a browser side panel that lists the current window's tabs.
Each row shows a tab in a look derived from its state: original, preview,
loading, error or stale. Hovering a row activates that tab as a preview.
Leaving the panel goes back to the tab the user started from, the
*original* tab. This project models the parts that decide this behaviour,
in Dafny, and proves properties of them:

- `UseTabs` (src/hooks/useTabs.ts): the hook's state and handlers, as the
  class `TabsHook`. Its fields are the hook's state cells (`allTabs`,
  `tabGroups`, `originalTab`, `previewTabId`, `originalTabIndex`) and refs
  (the "switching on hover" guard flag and the failsafe timer). Each
  handler is a method with a field-precise `modifies` frame, so what it
  does not touch is unchanged. The results of the provider calls a
  handler awaits are passed in as arguments. The activation a handler
  requests is returned. The list updates are pure functions with lemmas
  (removal keeps order, merging is idempotent, and so on). Four scenario
  methods run whole hover/leave sequences on a fresh hook and prove what
  comes of them.
- `TabVisualState` (src/utils/tabVisualState.ts): the six priority rules
  as one function per rule, composed in the source's order. Lemmas cover
  overlay order and presence, the error and stale colours and the
  combined state. The memo cache is a class: an insertion-ordered key list
  and a map, with a loop for the oldest-first eviction and a proof that
  the cache keeps at most 1000 entries.
- `TabService` (src/services/TabService.ts): the service's
  fallback-on-error rules, staleness, group lookup and collapse toggling.
  It also has the lazily created singleton.
- `TabItem` (src/components/TabItem.tsx): the memo comparator, the
  missing-id guard and the decisions of a rendered row. This covers the
  spinner, the avatar border, overlays, tooltip, caption and close-icon
  colour, plus the row's hover state.
- `ColorPairings` (src/constants/colorPairings.ts): the six pairings and
  lookup by id, with the default as fallback.
- `UserSettings` (src/services/UserSettingsService.ts): the colour
  pairing kept in localStorage, with the legacy-field fallback and the
  save/read round trip.
- `TabTypes` and `Wrappers`: tabs, groups, `Option`/`Outcome`, and the
  JavaScript truthiness the source applies to optional numbers and strings.
  `TruthyNumber` is false for `undefined` and for `0`, and `TruthyString`
  is false for `undefined` and `""`.

Browser APIs, `Date.now()`, `localStorage.setItem` failures and timers
are parameters or explicit events. `now` is passed to staleness and the
cache. `setItemSucceeded` says whether the storage write went through.
`activateSucceeded` says how `activateTab` settled. `FailsafeFires(t)` is
armed timer `t` going off.

Where the project's documentation and the code differ, the model follows
the code:

- The update handler reacts only to a truthy `changeInfo.status` or
  `changeInfo.groupId`, not to title, URL or favicon changes
  (src/hooks/useTabs.ts:97).
- Activation ignores the window id.
- Hovering works even when there is no original tab.
- A preview id of `0` is falsy, so leaving the panel then does nothing.
- The visual-state cache key has neither the clock nor the theme
  (`CachedStateIgnoresClock`).

## Model

| member | source | states |
|---|---|---|
| TabTypes.OriginalId | src/utils/tabVisualState.ts:37 | `originalTab?.id` is defined exactly when there is an original tab and it has an id, and is then that id |
| TabService.ServiceRegistry.GetInstance | src/services/TabService.ts:8-13 | the first call creates an instance; later calls return the stored one; the slot then holds the result |
| TabService.GetInstanceTwice | src/services/TabService.ts:8-13 | two `getInstance` calls, from any starting slot, return the same object |
| TabService.GetAllTabs | src/services/TabService.ts:18-25 | the query's tabs, or the empty list when the query rejected |
| TabService.GetActiveTab | src/services/TabService.ts:30-41 | a tab exactly when the query resolved with at least one tab, and then the first one |
| TabService.GetTabById | src/services/TabService.ts:46-54 | the looked-up tab exactly when the lookup resolved, none after a rejection |
| TabService.GetCurrentWindowId | src/services/TabService.ts:79-87 | an id exactly when the call resolved with a truthy id (`window.id \|\| null`), and then that id |
| TabService.NeverAccessedIsFresh | src/services/TabService.ts:70-71 | a tab with no last-access time, or one of 0, is never stale |
| TabService.StaleIffOlderThanSevenDays | src/services/TabService.ts:70-74 | a tab is stale exactly when `now` is strictly past last access plus 7·24·60·60·1000 ms; the boundary itself is not stale |
| TabService.StaleIsMonotone | src/services/TabService.ts:70-74 | a stale tab stays stale at every later time |
| TabService.CloseTab | src/services/TabService.ts:92-100 | true exactly when `tabs.remove` resolved |
| TabService.GetTabGroups | src/services/TabService.ts:105-125 | empty with no current window, no tabGroups API or a rejected query; otherwise the queried groups |
| TabService.FindGroup | src/services/TabService.ts:140 | a found group is in the list and has the id; none exactly when no group has the id |
| TabService.FindGroupIsFirst | src/services/TabService.ts:140 | the group found is the first one with the id |
| TabService.ToggleTabGroupCollapse | src/services/TabService.ts:130-160 | false and no update without the API or the group; an issued update writes the negation of the found group's `collapsed`; true exactly when an update was issued and resolved |
| TabService.ToggleFlipsFoundGroup | src/services/TabService.ts:139-155 | for a found group, the update sets `collapsed` to `!group.collapsed`; the result is true exactly when the update resolves |
| ColorPairings.PairingIdsDistinct | src/constants/colorPairings.ts:17-96 | no two listed pairings share an id |
| ColorPairings.GetDefaultColorPairing | src/constants/colorPairings.ts:98-102 | the default pairing is the first listed, and its id is the default id |
| ColorPairings.FindPairing | src/constants/colorPairings.ts:105 | a found pairing is in the list and has the id; none exactly when no pairing has it |
| ColorPairings.GetColorPairingById | src/constants/colorPairings.ts:104-106 | always a listed pairing; the one with the id when it exists, the default otherwise |
| ColorPairings.LookupListedId | src/constants/colorPairings.ts:104-106 | looking up a listed pairing's id returns that very pairing |
| ColorPairings.LookupDefaultId | src/constants/colorPairings.ts:98-106 | the default id looks up the default pairing |
| UserSettings.ReadSettings | src/services/UserSettingsService.ts:24-47 | nothing without storage or without the item; a result only from a parsed JSON item |
| UserSettings.ColorPairingIdFrom | src/services/UserSettingsService.ts:66-69 | the default id whenever no settings are read, in particular without storage |
| UserSettings.CurrentFieldWins | src/services/UserSettingsService.ts:36-38 | a stored string `colorPairingId` is returned as is, even empty, whatever the legacy field holds |
| UserSettings.LegacyFieldFallback | src/services/UserSettingsService.ts:39-41 | without a string `colorPairingId`, a non-empty `colorPairing.id` is returned |
| UserSettings.UnusableItemGivesDefault | src/services/UserSettingsService.ts:29-46 | no item, empty text, a parse failure, a non-object or no usable field all give the default id |
| UserSettings.WriteSettings | src/services/UserSettingsService.ts:49-59 | storage is unchanged without storage or when `setItem` threw; otherwise the key holds the serialized settings and every other key is kept |
| UserSettings.SaveThenGet | src/services/UserSettingsService.ts:49-73 | saving an id and reading back returns that id when the write goes through |
| UserSettings.FailedSaveKeepsId | src/services/UserSettingsService.ts:54-58 | a write that threw leaves the id read unchanged |
| UserSettings.UserSettingsService.constructor | src/services/UserSettingsService.ts:13-15 | availability is decided once, from the presence of window storage |
| UserSettings.UserSettingsService.GetColorPairingId | src/services/UserSettingsService.ts:66-69 | the default id when storage is not available |
| UserSettings.UserSettingsService.GetColorPairing | src/services/UserSettingsService.ts:61-64 | always a listed pairing, the one with the stored id when one is listed |
| UserSettings.UserSettingsService.SaveColorPairingId | src/services/UserSettingsService.ts:71-73 | storage becomes the write of the new settings; when it went through, the service then reads back the saved id |
| TabVisualState.RulesBuildExpectedOverlays | src/utils/tabVisualState.ts:51-119 | each rule only appends its own overlay when its condition holds, so the result's overlays are determined by the five conditions alone (the preview dot by preview and not original) |
| TabVisualState.PushStep | src/utils/tabVisualState.ts:57-61 | appending a kind's overlay after lower-ranked ones keeps the list ordered and well drawn and adds exactly that kind |
| TabVisualState.MarkedOverlaysOrdered | src/utils/tabVisualState.ts:53-84 | rules 1-3 give an ordered list carrying the checkmark exactly for the original, the preview dot exactly for a non-original preview, the loading dot exactly when loading |
| TabVisualState.ExpectedOverlaysOrdered | src/utils/tabVisualState.ts:51-113 | all five overlay rules together give an ordered, well-drawn list holding exactly the kinds whose conditions hold |
| TabVisualState.OverlaysAreOrdered | src/utils/tabVisualState.ts:51-113 | overlays strictly follow checkmark, preview, loading, error, stale, each at most once and in its own colour and corner, each present exactly when its condition holds |
| TabVisualState.ErrorStatusUsesErrorColour | src/utils/tabVisualState.ts:87-119 | an errored tab has the error border (unless a blank error colour is repainted by staleness) and error background and text unless it is original and preview at once |
| TabVisualState.NotBlankWithSuffix | src/utils/tabVisualState.ts:100-105 | a colour with an alpha suffix is never blank, so the stale rule keeps it |
| TabVisualState.StaleFillsBlanksAndDims | src/utils/tabVisualState.ts:98-113 | compared with the same tab not stale: only blank border and background are filled with the warning colour, opacity becomes 0.6, the filter greys, text is kept and the stale dot is appended |
| TabVisualState.OriginalAndPreviewCombine | src/utils/tabVisualState.ts:115-119 | a tab that is original and preview at once gets the secondary background and white text, whatever else holds |
| TabVisualState.PlainTabIsNeutral | src/utils/tabVisualState.ts:42-49 | a tab in no special state keeps the transparent, full-opacity default look |
| TabVisualState.EqualKeysEqualStates | src/utils/tabVisualState.ts:9-11 | inputs with equal cache keys compute equal states for one theme and clock: the key covers everything the rules read |
| TabVisualState.Evicted | src/utils/tabVisualState.ts:14-21 | at most 1000 keys are left as they are; past that the 200 oldest go; the rest is a suffix; 1001 keys come back to at most 1000 |
| TabVisualState.Without | src/utils/tabVisualState.ts:19 | deleting a key leaves exactly the other keys |
| TabVisualState.WithoutAbsent | src/utils/tabVisualState.ts:19 | deleting an absent key changes nothing |
| TabVisualState.VisualStateCache.constructor | src/utils/tabVisualState.ts:5 | the cache starts empty and consistent |
| TabVisualState.VisualStateCache.Clear | src/utils/tabVisualState.ts:129-131 | the cache becomes empty |
| TabVisualState.VisualStateCache.CleanCache | src/utils/tabVisualState.ts:14-21 | the key order becomes its eviction, keys and entries stay in step, and surviving entries keep their states |
| TabVisualState.VisualStateCache.GetTabVisualState | src/utils/tabVisualState.ts:23-126 | a hit returns the stored state and changes nothing; a miss returns the computed state, stores it as the newest entry and cleans, keeping other survivors; the cache never exceeds 1000 entries |
| TabVisualState.CachedStateIgnoresClock | src/utils/tabVisualState.ts:29-34 | a tab cached while fresh still gets the fresh, full-opacity state from the cache once it has become stale |
| TabItem.PropsEqualityIsEquivalence | src/components/TabItem.tsx:23-35 | the memo comparator is reflexive, symmetric and transitive |
| TabItem.UrlAndCallbacksIgnored | src/components/TabItem.tsx:23-35 | props differing only in url or callbacks compare equal |
| TabItem.RenderTabItem | src/components/TabItem.tsx:51-212 | a row exactly for a truthy tab id; overlays show exactly when the spinner does not; with the spinner there is no favicon |
| TabItem.SpinnerOnlyOnHoveredOtherRows | src/components/TabItem.tsx:54-57 | the spinner shows exactly on a hovered row that is neither the preview nor the original |
| TabItem.AvatarBorderPriority | src/components/TabItem.tsx:58-64 | the border is the original colour for the original tab, else none under the spinner, else the group colour when truthy, else none |
| TabItem.EqualPropsRenderAlike | src/components/TabItem.tsx:23-35 | props the comparator calls equal render the same row apart from the tooltip, and get the same visual state |
| TabItem.UrlChangeOnlyChangesTooltip | src/components/TabItem.tsx:134 | for any props and any new url, the comparator calls the props equal while the rendered row changes in its tooltip only, to the new url or the title fallback |
| TabItem.RenderWithStyles | src/components/TabItem.tsx:146-148 | with a truthy id, an undefined `pseudoElementStyles` slot makes rendering throw, and a set slot gives the intended row |
| TabItem.RenderTabItemAsWritten | src/components/TabItem.tsx:51-148 | the component as written renders nothing exactly for a falsy id, and otherwise reads the slot of the visual state `getTabVisualState` returns |
| TabItem.AsWrittenRowThrows | src/components/TabItem.tsx:146 | as written, every row with a truthy id throws while rendering, where the intended `RenderTabItem` draws a row |
| TabItem.TooltipIgnoredByComparator | src/components/TabItem.tsx:134 | a url change alone changes the tooltip although the comparator calls the props equal |
| TabItem.RowHoverState.constructor | src/components/TabItem.tsx:55 | a row starts not hovered |
| TabItem.RowHoverState.MouseEnter | src/components/TabItem.tsx:135-138 | the row becomes hovered and calls `onTabHover` with its id |
| TabItem.RowHoverState.MouseLeave | src/components/TabItem.tsx:139 | the row is no longer hovered |
| UseTabs.MergePatch | src/hooks/useTabs.ts:100 | merging an update keeps the tab's id |
| UseTabs.MergePatchIdempotent | src/hooks/useTabs.ts:100 | merging the same update twice equals merging it once |
| UseTabs.RemoveTabsWithId | src/hooks/useTabs.ts:89 | the result holds exactly the tabs without the removed id, and is no longer than the input |
| UseTabs.RemoveKeepsOrder | src/hooks/useTabs.ts:89 | removal distributes over concatenation, so the remaining tabs keep their order |
| UseTabs.RemoveAbsentId | src/hooks/useTabs.ts:89 | removing an id no tab has leaves the list unchanged |
| UseTabs.MergeUpdate | src/hooks/useTabs.ts:98-102 | the list keeps its length |
| UseTabs.MergeUpdateAt | src/hooks/useTabs.ts:98-102 | each position holds its old tab, merged exactly when it has the updated id, with its id kept |
| UseTabs.MergeUpdateIdempotent | src/hooks/useTabs.ts:98-102 | applying the same update notification twice equals applying it once |
| UseTabs.FindIndex | src/hooks/useTabs.ts:76 | the first position with the id, or -1 exactly when no tab has it |
| UseTabs.FindTab | src/hooks/useTabs.ts:157 | a tab exactly when `findIndex` finds one, and then the tab at that index |
| UseTabs.TabsHook.constructor | src/hooks/useTabs.ts:10-17 | empty lists, no original or preview, index -1, flag lowered, no timers |
| UseTabs.TabsHook.ClearHoverSwitchFlag | src/hooks/useTabs.ts:19-24 | the flag is lowered and the remembered timer cancelled |
| UseTabs.TabsHook.FailsafeFires | src/hooks/useTabs.ts:218-221 | an armed failsafe going off lowers the flag and is no longer armed |
| UseTabs.TabsHook.RaiseGuard | src/hooks/useTabs.ts:214-221 | the flag is raised and a new timer, pending and remembered in the ref, is armed |
| UseTabs.TabsHook.InitializeTabsInfo | src/hooks/useTabs.ts:58-85 | tabs and groups take the fetched values; original tab and index are set exactly when the active tab has a truthy id, the index being its position in the window |
| UseTabs.TabsHook.TabRemoved | src/hooks/useTabs.ts:88-94 | the tab leaves the list, and an original or preview pointing at it is cleared; all else is kept |
| UseTabs.TabsHook.TabUpdated | src/hooks/useTabs.ts:96-120 | only for a truthy status or group id: the update is merged into the list and into a matching original tab, whose index moves to its position in the pre-update list when found; groups refresh exactly for a truthy group id |
| UseTabs.TabsHook.GroupsRefreshed | src/hooks/useTabs.ts:27-55 | the group list becomes the fetched groups |
| UseTabs.TabsHook.TabMoved | src/hooks/useTabs.ts:138-149 | tabs and groups become the fetched values |
| UseTabs.TabsHook.TabCreated | src/hooks/useTabs.ts:122-136 | tabs and groups refresh exactly when the tab's window is the current one |
| UseTabs.TabsHook.WindowFocusChanged | src/hooks/useTabs.ts:189-203 | tabs and groups refresh exactly when the focused window is the current one |
| UseTabs.TabsHook.TabReplaced | src/hooks/useTabs.ts:151-168 | the list is refreshed; an original pointing at the removed tab becomes the added tab when it is listed; a preview pointing at it moves to the added id |
| UseTabs.TabsHook.TabActivated | src/hooks/useTabs.ts:170-187 | with the flag raised, only the flag is cleared (and its timer cancelled); otherwise the looked-up activated tab becomes the original (its id being the activated id) and the preview ends, and a failed lookup changes nothing |
| UseTabs.TabsHook.TabHover | src/hooks/useTabs.ts:206-232 | hovering the tab already shown changes nothing, timers and timer ref included; otherwise a new timer is armed into the ref and one activation is requested under the raised flag and the tab becomes the preview if it went through, the flag being cleared if it failed |
| UseTabs.TabsHook.TabClick | src/hooks/useTabs.ts:234-240 | a listed tab becomes the original and the preview ends; an unlisted one changes nothing |
| UseTabs.TabsHook.SidePanelHoverEnd | src/hooks/useTabs.ts:242-263 | with a truthy original id and preview id, a new timer is armed into the ref, the original is activated under the raised flag and the preview ends if that went through (the flag being cleared if not); otherwise nothing happens, neither to the preview, the flag, the timers, the timer ref nor the timer counter |
| UseTabs.HoverThenLeaveRestoresOriginal | src/hooks/useTabs.ts:206-263 | hovering another tab and leaving the panel makes exactly two activations, the hovered tab then the original; the original is kept and no preview is left |
| UseTabs.HoverTwiceActivatesOnce | src/hooks/useTabs.ts:206-210 | a second hover of the previewed tab activates nothing |
| UseTabs.ManualSwitchWinsOverPreview | src/hooks/useTabs.ts:170-187 | an activation with no own switch under way makes the activated tab the original and ends the preview |
| UseTabs.RemovingPreviewEndsIt | src/hooks/useTabs.ts:88-94 | closing the previewed tab clears the preview, so leaving the panel then activates nothing |

## Left out

- TabVisualState.ErrorStatusUsesErrorColour: it does not claim the error background and text for a tab that is both original and preview. Rule 6 of the source overrides them. It also does not claim the error border when the error colour is itself blank and the tab is stale, because rule 5 then repaints it.
- UserSettings.UserSettingsService.GetColorPairingId: its own contract states only the no-storage case. The stored cases are stated by `CurrentFieldWins`, `LegacyFieldFallback` and `UnusableItemGivesDefault` about `ColorPairingIdFrom`, which it returns.
- UseTabs.MergeUpdate: its own contract states only the length. The contents are stated by `MergeUpdateAt`.
- Listener wiring and the mount effect (src/hooks/useTabs.ts:265-310) are left out: each browser event is a call of the matching method.
- Interleaving at `await` points is left out: each handler runs as one step, with its provider results passed in. The onActivated notification may arrive before `activateTab` resolves. Either order gives the same state, because a guarded activation only lowers the flag.
- Stale closure values are left out: `originalTab` and `allTabs` read inside a handler are taken to be the current state.
- The 500 ms delay is left out: a failsafe timer is an event (`FailsafeFires`). The model does permit an older hover's failsafe to fire after a newer switch raised the flag.
- `PREVIEW_MODE_TIMEOUT` and `previewModeTimeout` are left out: they are declared but unused.
- `useRef` is used without being imported (src/hooks/useTabs.ts:1). The model gives the refs their React meaning.
- `activateTab` catches its own errors, so with the real service `activateSucceeded` is always true. The false case models the handlers' catch branches.
- `moveTab` is left out: it only forwards to `tabs.move` and rethrows.
- Console logging is left out.
- The UserSettingsService singleton is left out: it is the same pattern as `TabService.ServiceRegistry`.
- The cache key is a datatype, not a joined string. Collisions between values that print alike (an undefined status and the string "undefined") are not modelled.
- The cache is module-level in the source and an object here.
- Opacity is a real, not a floating-point number.
- The theme is reduced to the seven palette entries the rules read.
- A truthy non-string legacy `colorPairing.id` is not modelled. The source returns it as the id; here the legacy field is an optional string.
- TabItem.RenderTabItem: it draws the intended row for every truthy id. As written, the component throws at src/components/TabItem.tsx:146, because `getTabVisualState` never sets `pseudoElementStyles` (see Findings). Its row view also leaves out the other style objects it reads (`listItemStyles`, `hoverStyles`, `avatarStyles`, `textStyles`), which are likewise never set; spreading or passing them undefined does not throw.
- Timestamps (`lastAccessed`, and `now`) are taken as whole milliseconds, while the source's `number` may be fractional. The model thereby loses two things. The stale boundary is exact only for integer values. Two fractional timestamps with the same integer part give distinct cache keys in the source but one key here.
- TabItem's overlay JSX, sizes and offsets are left out, and so is the upper-cased initial shown without a favicon: both are presentational and need case mapping.
- The React rule that no hook may follow an early return (src/components/TabItem.tsx:51-55) is left out.
- Drag-and-drop reordering and the list projection live outside these files and are not part of this model.

## Findings

| source | as written | input that shows it | evidently intended | confidence | as-written member | corrected member |
|---|---|---|---|---|---|---|
| src/components/TabItem.tsx:146 | the row reads `visualState.pseudoElementStyles.before`, but `getTabVisualState` (src/utils/tabVisualState.ts:42-126) never sets `pseudoElementStyles`, so the read throws a TypeError | any tab with a truthy id, e.g. id 1 (`TabItem.AsWrittenRowThrows`) | the visual state supplies the pseudo-element styles and the row renders | high that the read throws for the code shown; not executed | TabItem.RenderTabItemAsWritten | TabItem.RenderTabItem |
