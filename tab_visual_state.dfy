/**
 * src/utils/tabVisualState.ts: how a tab row looks (border, background,
 * text colour, opacity, avatar filter and the ordered avatar overlays),
 * decided by a priority-ordered rule set, and the module-level memo cache
 * that keeps at most 1000 results and evicts the oldest 200 past that.
 *
 * Colours are opaque strings; `c + "40"` is the source's appending of an
 * alpha suffix to a colour string.
 */
module TabVisualState {
  import opened Wrappers
  import opened TabTypes
  import TabService

  const MaxCacheSize: nat := 1000
  /** `Math.floor(MAX_CACHE_SIZE * 0.2)`. */
  const EvictCount: nat := 200

  /** The palette entries the rules read from the theme. */
  datatype Theme = Theme(
    textPrimary: string,
    original: string,       // palette.custom.original
    preview: string,        // palette.custom.preview
    loading: string,        // palette.custom.loading
    errorMain: string,      // palette.error.main
    warningMain: string,    // palette.warning.main
    secondaryMain: string)  // palette.secondary.main

  datatype OverlayKind = Checkmark | PreviewDot | LoadingDot | ErrorDot | StaleDot
  datatype OverlayPosition = TopLeft | TopRight | BottomLeft | BottomRight
  datatype Overlay = Overlay(kind: OverlayKind, color: string, position: OverlayPosition)

  datatype VisualState = VisualState(
    borderColor: string,
    backgroundColor: string,
    avatarOverlays: seq<Overlay>,
    textColor: string,
    opacity: real,
    avatarFilter: string)

  const StaleFilter: string := "grayscale(0.3) saturate(0.7)"

  /** The fields `createCacheKey` joins into its key string. */
  datatype CacheKey = CacheKey(
    tabId: Option<int>,
    previewTabId: Option<int>,
    originalId: Option<int>,
    status: Option<string>,
    lastAccessed: Option<int>,
    groupId: Option<int>)

  function CreateCacheKey(tab: Tab, previewTabId: Option<int>, originalTab: Option<Tab>): CacheKey
  {
    CacheKey(tab.id, previewTabId, OriginalId(originalTab), tab.status, tab.lastAccessed, tab.groupId)
  }

  /** `previewTabId === tab.id`: null never equals a tab id, present or not. */
  predicate IsPreviewTab(tab: Tab, previewTabId: Option<int>)
  {
    previewTabId.Some? && tab.id == previewTabId
  }

  /** `originalTab?.id === tab.id`: also true when both ids are undefined. */
  predicate IsOriginalTab(tab: Tab, originalTab: Option<Tab>)
  {
    OriginalId(originalTab) == tab.id
  }

  predicate IsLoading(tab: Tab)
  {
    tab.status == Some("loading")
  }

  predicate HasErrors(tab: Tab)
  {
    tab.status == Some("unloaded") || tab.status == Some("error")
  }

  /** `!c || c === 'transparent'`: the stale rule only fills colours that are still blank. */
  predicate Blank(c: string)
  {
    c == "" || c == "transparent"
  }

  function AddOverlay(v: VisualState, o: Overlay): VisualState
  {
    v.(avatarOverlays := v.avatarOverlays + [o])
  }

  /** The colour and corner each overlay kind is drawn with. */
  function OverlayFor(kind: OverlayKind, theme: Theme): Overlay
  {
    match kind
    case Checkmark => Overlay(Checkmark, theme.original, BottomRight)
    case PreviewDot => Overlay(PreviewDot, theme.preview, TopRight)
    case LoadingDot => Overlay(LoadingDot, theme.loading, TopRight)
    case ErrorDot => Overlay(ErrorDot, theme.errorMain, TopLeft)
    case StaleDot => Overlay(StaleDot, theme.warningMain, BottomLeft)
  }

  /** The look a row starts from before any rule applies. */
  function Neutral(theme: Theme): VisualState
  {
    VisualState("transparent", "transparent", [], theme.textPrimary, 1.0, "none")
  }

  /** Rule 1: the original tab gets the original colour and the checkmark. */
  function OriginalRule(v: VisualState, theme: Theme, isOriginal: bool): VisualState
  {
    if isOriginal then
      AddOverlay(v.(borderColor := theme.original, backgroundColor := theme.original + "40"),
                 OverlayFor(Checkmark, theme))
    else v
  }

  /** Rule 2: the preview tab gets the preview colour, and the preview dot unless it is also the original. */
  function PreviewRule(v: VisualState, theme: Theme, isPreview: bool, isOriginal: bool): VisualState
  {
    if !isPreview then v
    else
      var recoloured := v.(borderColor := theme.preview, backgroundColor := theme.preview + "40");
      if isOriginal then recoloured else AddOverlay(recoloured, OverlayFor(PreviewDot, theme))
  }

  /** Rule 3: a loading tab gets the loading dot. */
  function LoadingRule(v: VisualState, theme: Theme, isLoading: bool): VisualState
  {
    if isLoading then AddOverlay(v, OverlayFor(LoadingDot, theme)) else v
  }

  /** Rule 4: an unloaded or failed tab is painted in the error colour and gets the error dot. */
  function ErrorRule(v: VisualState, theme: Theme, hasErrors: bool): VisualState
  {
    if hasErrors then
      AddOverlay(v.(borderColor := theme.errorMain, backgroundColor := theme.errorMain + "30",
                    textColor := theme.errorMain),
                 OverlayFor(ErrorDot, theme))
    else v
  }

  /** Rule 5: a stale tab fills blank colours with the warning colour, is dimmed and gets the stale dot. */
  function StaleRule(v: VisualState, theme: Theme, isStale: bool): VisualState
  {
    if isStale then
      AddOverlay(v.(borderColor := if Blank(v.borderColor) then theme.warningMain else v.borderColor,
                    backgroundColor := if Blank(v.backgroundColor) then theme.warningMain + "30" else v.backgroundColor,
                    opacity := 0.6, avatarFilter := StaleFilter),
                 OverlayFor(StaleDot, theme))
    else v
  }

  /** Rule 6: a tab that is original and preview at once gets the secondary background and white text. */
  function CombinedRule(v: VisualState, theme: Theme, both: bool): VisualState
  {
    if both then v.(backgroundColor := theme.secondaryMain + "90", textColor := "white") else v
  }

  /**
   * The rule set of `getTabVisualState`, applied in its priority order;
   * `isStale` is `tabService.isTabStale(tab)`.
   */
  function ComputeVisualState(tab: Tab, previewTabId: Option<int>, originalTab: Option<Tab>,
                              theme: Theme, isStale: bool): VisualState
  {
    var isOriginal := IsOriginalTab(tab, originalTab);
    var isPreview := IsPreviewTab(tab, previewTabId);
    var marked := OriginalRule(Neutral(theme), theme, isOriginal);
    var previewed := PreviewRule(marked, theme, isPreview, isOriginal);
    var loading := LoadingRule(previewed, theme, IsLoading(tab));
    var failed := ErrorRule(loading, theme, HasErrors(tab));
    CombinedRule(StaleRule(failed, theme, isStale), theme, isOriginal && isPreview)
  }

  function Rank(kind: OverlayKind): nat
  {
    match kind
    case Checkmark => 0
    case PreviewDot => 1
    case LoadingDot => 2
    case ErrorDot => 3
    case StaleDot => 4
  }

  /** The kinds of overlay a list carries. */
  function Kinds(overlays: seq<Overlay>): set<OverlayKind>
  {
    set o | o in overlays :: o.kind
  }

  /** Overlays strictly ascend in rank (so each kind appears at most once), all below `bound`. */
  predicate RankedBelow(overlays: seq<Overlay>, bound: nat)
  {
    && (forall i, j :: 0 <= i < j < |overlays| ==> Rank(overlays[i].kind) < Rank(overlays[j].kind))
    && (forall i :: 0 <= i < |overlays| ==> Rank(overlays[i].kind) < bound)
  }

  /** Every overlay is drawn in its kind's colour and corner. */
  predicate WellDrawn(overlays: seq<Overlay>, theme: Theme)
  {
    forall o :: o in overlays ==> o == OverlayFor(o.kind, theme)
  }

  /** One rule's effect on the overlay list: its kind's overlay appended when `added`. */
  function Push(overlays: seq<Overlay>, kind: OverlayKind, theme: Theme, added: bool): seq<Overlay>
  {
    if added then overlays + [OverlayFor(kind, theme)] else overlays
  }

  /** The overlay list the five overlay rules build, from their conditions alone. */
  function ExpectedOverlays(isOriginal: bool, isPreview: bool, isLoading: bool, hasErrors: bool,
                            isStale: bool, theme: Theme): seq<Overlay>
  {
    var marked := Push([], Checkmark, theme, isOriginal);
    var previewed := Push(marked, PreviewDot, theme, isPreview && !isOriginal);
    var loading := Push(previewed, LoadingDot, theme, isLoading);
    Push(Push(loading, ErrorDot, theme, hasErrors), StaleDot, theme, isStale)
  }

  /** Each rule only ever appends to the overlay list, exactly as `Push` does. */
  lemma RulesBuildExpectedOverlays(tab: Tab, previewTabId: Option<int>, originalTab: Option<Tab>,
                                   theme: Theme, isStale: bool)
    ensures ComputeVisualState(tab, previewTabId, originalTab, theme, isStale).avatarOverlays ==
      ExpectedOverlays(IsOriginalTab(tab, originalTab), IsPreviewTab(tab, previewTabId), IsLoading(tab),
                       HasErrors(tab), isStale, theme)
  {
    var isOriginal := IsOriginalTab(tab, originalTab);
    var isPreview := IsPreviewTab(tab, previewTabId);
    var marked := OriginalRule(Neutral(theme), theme, isOriginal);
    assert marked.avatarOverlays == Push([], Checkmark, theme, isOriginal);
    var previewed := PreviewRule(marked, theme, isPreview, isOriginal);
    assert previewed.avatarOverlays == Push(marked.avatarOverlays, PreviewDot, theme, isPreview && !isOriginal);
    var loading := LoadingRule(previewed, theme, IsLoading(tab));
    assert loading.avatarOverlays == Push(previewed.avatarOverlays, LoadingDot, theme, IsLoading(tab));
    var failed := ErrorRule(loading, theme, HasErrors(tab));
    assert failed.avatarOverlays == Push(loading.avatarOverlays, ErrorDot, theme, HasErrors(tab));
    var stale := StaleRule(failed, theme, isStale);
    assert stale.avatarOverlays == Push(failed.avatarOverlays, StaleDot, theme, isStale);
  }

  /** A rule of rank `Rank(kind)`, run after the lower-ranked ones, keeps the list ordered and adds only its kind. */
  lemma PushStep(overlays: seq<Overlay>, kind: OverlayKind, theme: Theme, added: bool)
    requires RankedBelow(overlays, Rank(kind)) && WellDrawn(overlays, theme)
    ensures var r := Push(overlays, kind, theme, added);
      && RankedBelow(r, Rank(kind) + 1) && WellDrawn(r, theme)
      && Kinds(r) == Kinds(overlays) + (if added then {kind} else {})
  {
    if added {
      var r := overlays + [OverlayFor(kind, theme)];
      assert OverlayFor(kind, theme) in r;
      assert forall o :: o in r ==> o in overlays || o == OverlayFor(kind, theme);
    }
  }

  /** The kinds `ExpectedOverlays` holds: each kind exactly when its condition holds. */
  function ExpectedKinds(isOriginal: bool, isPreview: bool, isLoading: bool, hasErrors: bool,
                         isStale: bool): set<OverlayKind>
  {
    (if isOriginal then {Checkmark} else {})
    + (if isPreview && !isOriginal then {PreviewDot} else {})
    + (if isLoading then {LoadingDot} else {})
    + (if hasErrors then {ErrorDot} else {})
    + (if isStale then {StaleDot} else {})
  }

  /** The first three pushes (checkmark, preview, loading). */
  function MarkedOverlays(isOriginal: bool, isPreview: bool, isLoading: bool, theme: Theme): seq<Overlay>
  {
    Push(Push(Push([], Checkmark, theme, isOriginal), PreviewDot, theme, isPreview && !isOriginal),
         LoadingDot, theme, isLoading)
  }

  lemma MarkedOverlaysOrdered(isOriginal: bool, isPreview: bool, isLoading: bool, theme: Theme)
    ensures var r := MarkedOverlays(isOriginal, isPreview, isLoading, theme);
      && RankedBelow(r, 3) && WellDrawn(r, theme)
      && Kinds(r) == (if isOriginal then {Checkmark} else {})
                   + (if isPreview && !isOriginal then {PreviewDot} else {})
                   + (if isLoading then {LoadingDot} else {})
  {
    var s0: seq<Overlay> := [];
    assert Kinds(s0) == {};
    PushStep(s0, Checkmark, theme, isOriginal);
    var s1 := Push(s0, Checkmark, theme, isOriginal);
    PushStep(s1, PreviewDot, theme, isPreview && !isOriginal);
    var s2 := Push(s1, PreviewDot, theme, isPreview && !isOriginal);
    PushStep(s2, LoadingDot, theme, isLoading);
  }

  /** The five pushes, in rank order, build an ordered, well-drawn list of exactly the expected kinds. */
  lemma ExpectedOverlaysOrdered(isOriginal: bool, isPreview: bool, isLoading: bool, hasErrors: bool,
                                isStale: bool, theme: Theme)
    ensures var r := ExpectedOverlays(isOriginal, isPreview, isLoading, hasErrors, isStale, theme);
      RankedBelow(r, 5) && WellDrawn(r, theme) && Kinds(r) == ExpectedKinds(isOriginal, isPreview, isLoading, hasErrors, isStale)
  {
    var s3 := MarkedOverlays(isOriginal, isPreview, isLoading, theme);
    MarkedOverlaysOrdered(isOriginal, isPreview, isLoading, theme);
    assert ExpectedOverlays(isOriginal, isPreview, isLoading, hasErrors, isStale, theme) ==
      Push(Push(s3, ErrorDot, theme, hasErrors), StaleDot, theme, isStale);
    PushStep(s3, ErrorDot, theme, hasErrors);
    var s4 := Push(s3, ErrorDot, theme, hasErrors);
    PushStep(s4, StaleDot, theme, isStale);
  }

  /**
   * The overlays come in the fixed order checkmark, preview, loading, error,
   * stale (strictly ascending rank, so each at most once), each drawn in its
   * own colour and corner; the checkmark is there exactly for the original
   * tab, the preview dot exactly for a preview tab that is not also the
   * original, and each of the other three exactly when its condition holds.
   */
  lemma OverlaysAreOrdered(tab: Tab, previewTabId: Option<int>, originalTab: Option<Tab>,
                           theme: Theme, isStale: bool)
    ensures var v := ComputeVisualState(tab, previewTabId, originalTab, theme, isStale);
      && RankedBelow(v.avatarOverlays, 5)
      && WellDrawn(v.avatarOverlays, theme)
      && Kinds(v.avatarOverlays) ==
           ExpectedKinds(IsOriginalTab(tab, originalTab), IsPreviewTab(tab, previewTabId), IsLoading(tab),
                         HasErrors(tab), isStale)
  {
    RulesBuildExpectedOverlays(tab, previewTabId, originalTab, theme, isStale);
    ExpectedOverlaysOrdered(IsOriginalTab(tab, originalTab), IsPreviewTab(tab, previewTabId), IsLoading(tab),
                            HasErrors(tab), isStale, theme);
  }

  /**
   * An `unloaded` or `error` status paints the border in the error colour
   * (unless that colour is itself blank, which would let the stale rule
   * repaint it); background and text take the error colour too, except
   * when the combined original-and-preview rule overrides them.
   */
  lemma ErrorStatusUsesErrorColour(tab: Tab, previewTabId: Option<int>, originalTab: Option<Tab>,
                                   theme: Theme, isStale: bool)
    requires HasErrors(tab)
    ensures var v := ComputeVisualState(tab, previewTabId, originalTab, theme, isStale);
      && (!Blank(theme.errorMain) || !isStale ==> v.borderColor == theme.errorMain)
      && (!(IsOriginalTab(tab, originalTab) && IsPreviewTab(tab, previewTabId)) ==>
            v.backgroundColor == theme.errorMain + "30" && v.textColor == theme.errorMain)
  {
    NotBlankWithSuffix(theme.errorMain, "30");
  }

  /** A colour with a two-character alpha suffix is never blank. */
  lemma NotBlankWithSuffix(c: string, suffix: string)
    requires |suffix| == 2 && suffix[1] == '0'
    ensures !Blank(c + suffix)
  {
    var s := c + suffix;
    assert s[|s| - 1] == '0';
    assert "transparent"[|"transparent"| - 1] == 't';
  }

  /**
   * Staleness only fills colours that are still blank, and always dims the
   * row: compared with the same tab not stale, border and background are
   * kept when set (or become the warning colour), opacity is 0.6 and the
   * avatar is greyed.
   */
  lemma StaleFillsBlanksAndDims(tab: Tab, previewTabId: Option<int>, originalTab: Option<Tab>, theme: Theme)
    ensures var plain := ComputeVisualState(tab, previewTabId, originalTab, theme, false);
      var stale := ComputeVisualState(tab, previewTabId, originalTab, theme, true);
      && plain.opacity == 1.0 && plain.avatarFilter == "none"
      && stale.opacity == 0.6 && stale.avatarFilter == StaleFilter
      && stale.borderColor == (if Blank(plain.borderColor) then theme.warningMain else plain.borderColor)
      && (!(IsOriginalTab(tab, originalTab) && IsPreviewTab(tab, previewTabId)) ==>
            stale.backgroundColor == (if Blank(plain.backgroundColor) then theme.warningMain + "30" else plain.backgroundColor))
      && stale.textColor == plain.textColor
      && stale.avatarOverlays == plain.avatarOverlays + [OverlayFor(StaleDot, theme)]
  {
  }

  /** A tab that is both original and preview gets the secondary background and white text, whatever else holds. */
  lemma OriginalAndPreviewCombine(tab: Tab, previewTabId: Option<int>, originalTab: Option<Tab>,
                                  theme: Theme, isStale: bool)
    requires IsOriginalTab(tab, originalTab) && IsPreviewTab(tab, previewTabId)
    ensures var v := ComputeVisualState(tab, previewTabId, originalTab, theme, isStale);
      v.backgroundColor == theme.secondaryMain + "90" && v.textColor == "white"
  {
  }

  /** A tab in no special state keeps the neutral look. */
  lemma PlainTabIsNeutral(tab: Tab, previewTabId: Option<int>, originalTab: Option<Tab>, theme: Theme)
    requires !IsOriginalTab(tab, originalTab) && !IsPreviewTab(tab, previewTabId)
    requires !IsLoading(tab) && !HasErrors(tab)
    ensures ComputeVisualState(tab, previewTabId, originalTab, theme, false) ==
      VisualState("transparent", "transparent", [], theme.textPrimary, 1.0, "none")
  {
  }

  /**
   * What the key leaves out cannot change the result: inputs with equal keys
   * get equal visual states for one theme and one clock, so title, url or
   * favicon changes keep hitting the cache.
   */
  lemma EqualKeysEqualStates(tab1: Tab, preview1: Option<int>, original1: Option<Tab>,
                             tab2: Tab, preview2: Option<int>, original2: Option<Tab>,
                             theme: Theme, now: int)
    requires CreateCacheKey(tab1, preview1, original1) == CreateCacheKey(tab2, preview2, original2)
    ensures ComputeVisualState(tab1, preview1, original1, theme, TabService.IsTabStale(tab1, now)) ==
            ComputeVisualState(tab2, preview2, original2, theme, TabService.IsTabStale(tab2, now))
  {
  }

  predicate Distinct<T(==)>(s: seq<T>)
  {
    forall i, j :: 0 <= i < j < |s| ==> s[i] != s[j]
  }

  /** The key order `cleanCache` leaves: past the limit, the oldest `EvictCount` keys are gone. */
  function Evicted(order: seq<CacheKey>): (r: seq<CacheKey>)
    ensures |order| <= MaxCacheSize ==> r == order
    ensures |order| > MaxCacheSize ==> |r| == |order| - EvictCount
    ensures r == order[|order| - |r|..]
    ensures |order| <= MaxCacheSize + 1 ==> |r| <= MaxCacheSize
  {
    if |order| > MaxCacheSize then order[EvictCount..] else order
  }

  /** `order` with every occurrence of `key` deleted. */
  function Without(order: seq<CacheKey>, key: CacheKey): (r: seq<CacheKey>)
    ensures forall k :: k in r <==> k in order && k != key
  {
    if |order| == 0 then []
    else if order[0] == key then Without(order[1..], key)
    else [order[0]] + Without(order[1..], key)
  }

  lemma {:induction false} WithoutAbsent(order: seq<CacheKey>, key: CacheKey)
    requires key !in order
    ensures Without(order, key) == order
  {
    if |order| > 0 {
      WithoutAbsent(order[1..], key);
    }
  }

  /** The memo cache: a Map whose keys remember their insertion order. */
  class VisualStateCache {
    /** The keys, oldest first. */
    var order: seq<CacheKey>
    var entries: map<CacheKey, VisualState>

    ghost predicate Consistent()
      reads this
    {
      Distinct(order) && forall k :: k in entries <==> k in order
    }

    ghost predicate Valid()
      reads this
    {
      Consistent() && |order| <= MaxCacheSize
    }

    constructor ()
      ensures Valid() && order == [] && entries == map[]
    {
      order := [];
      entries := map[];
    }

    /** `clearVisualStateCache`. */
    method Clear()
      modifies this
      ensures Valid() && order == [] && entries == map[]
    {
      order := [];
      entries := map[];
    }

    /** `cleanCache`: past the limit, deletes the oldest `EvictCount` keys one by one. */
    method CleanCache()
      requires Consistent()
      modifies this
      ensures Consistent()
      ensures order == Evicted(old(order))
      ensures forall k :: k in entries ==> k in old(entries) && entries[k] == old(entries)[k]
    {
      if |order| > MaxCacheSize {
        var keys := order;
        var keysToRemove := keys[..EvictCount];
        var i := 0;
        while i < |keysToRemove|
          invariant 0 <= i <= |keysToRemove|
          invariant order == keys[i..]
          invariant forall k :: k in entries <==> k in order
          invariant forall k :: k in entries ==> k in old(entries) && entries[k] == old(entries)[k]
        {
          var key := keysToRemove[i];
          assert keys[i..] == [key] + keys[i + 1..];
          assert key !in keys[i + 1..];
          WithoutAbsent(keys[i + 1..], key);
          entries := entries - {key};
          order := Without(order, key);
          i := i + 1;
        }
      }
    }

    /**
     * `getTabVisualState`: a cached key returns its stored state and leaves
     * the cache alone; otherwise the state is computed, appended as the
     * newest entry and the cache is cleaned.
     */
    method GetTabVisualState(tab: Tab, previewTabId: Option<int>, originalTab: Option<Tab>,
                             theme: Theme, now: int) returns (v: VisualState)
      requires Valid()
      modifies this
      ensures Valid()
      ensures var key := CreateCacheKey(tab, previewTabId, originalTab);
        if key in old(entries) then
          v == old(entries)[key] && order == old(order) && entries == old(entries)
        else
          && v == ComputeVisualState(tab, previewTabId, originalTab, theme, TabService.IsTabStale(tab, now))
          && order == Evicted(old(order) + [key])
          && key in entries && entries[key] == v
          && forall k :: k in entries && k != key ==> k in old(entries) && entries[k] == old(entries)[k]
    {
      var key := CreateCacheKey(tab, previewTabId, originalTab);
      if key in entries {
        v := entries[key];
        return;
      }
      v := ComputeVisualState(tab, previewTabId, originalTab, theme, TabService.IsTabStale(tab, now));
      var grown := order + [key];
      assert Distinct(grown) by { assert key !in order; }
      entries := entries[key := v];
      order := grown;
      CleanCache();
      assert order == grown[|grown| - |order|..] && |order| > 0;
      assert order[|order| - 1] == key;
    }
  }

  /**
   * The key holds neither the clock nor the theme: a tab looked up before it
   * turned stale keeps getting its fresh look from the cache afterwards,
   * until the key changes or the cache is cleared.
   */
  method CachedStateIgnoresClock(tab: Tab, theme: Theme)
    returns (before: VisualState, after: VisualState, later: int)
    requires tab.lastAccessed == Some(1)
    ensures TabService.IsTabStale(tab, later)
    ensures after == before && after.opacity == 1.0
  {
    var key := CreateCacheKey(tab, None, None);
    var cache := new VisualStateCache();
    before := cache.GetTabVisualState(tab, None, None, theme, 1);
    assert !TabService.IsTabStale(tab, 1);
    assert before == ComputeVisualState(tab, None, None, theme, false);
    StaleFillsBlanksAndDims(tab, None, None, theme);
    assert key in cache.entries && cache.entries[key] == before;
    later := 691200001;  // eight days after the last access
    after := cache.GetTabVisualState(tab, None, None, theme, later);
  }
}
