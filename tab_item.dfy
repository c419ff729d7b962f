/**
 * src/components/TabItem.tsx: the props comparison that lets React skip
 * re-rendering a row, the missing-id guard, and the decisions the row
 * makes from its props and hover state (spinner, avatar border, overlays,
 * tooltip, label, close-icon colour).
 */
module TabItem {
  import opened Wrappers
  import opened TabTypes
  import opened TabVisualState
  import TabService

  /** The three callbacks, by identity only: the model never calls them. */
  datatype Callbacks = Callbacks(onTabHover: int, onTabClick: int, onCloseTab: int)

  datatype TabItemProps = TabItemProps(
    tab: Tab,
    previewTabId: Option<int>,
    originalTab: Option<Tab>,
    callbacks: Callbacks,
    groupColor: Option<string>)

  /** `arePropsEqual`: field-wise `===` on the nine values a row displays from. */
  predicate ArePropsEqual(prev: TabItemProps, next: TabItemProps)
  {
    && prev.tab.id == next.tab.id
    && prev.tab.title == next.tab.title
    && prev.tab.status == next.tab.status
    && prev.tab.favIconUrl == next.tab.favIconUrl
    && prev.tab.groupId == next.tab.groupId
    && prev.tab.lastAccessed == next.tab.lastAccessed
    && prev.previewTabId == next.previewTabId
    && OriginalId(prev.originalTab) == OriginalId(next.originalTab)
    && prev.groupColor == next.groupColor
  }

  /** `arePropsEqual` is an equivalence, so React's memo can rely on it. */
  lemma PropsEqualityIsEquivalence(a: TabItemProps, b: TabItemProps, c: TabItemProps)
    ensures ArePropsEqual(a, a)
    ensures ArePropsEqual(a, b) ==> ArePropsEqual(b, a)
    ensures ArePropsEqual(a, b) && ArePropsEqual(b, c) ==> ArePropsEqual(a, c)
  {
  }

  /** Props that differ only in the url or the callbacks compare equal, so they do not re-render. */
  lemma UrlAndCallbacksIgnored(p: TabItemProps, url: Option<string>, callbacks: Callbacks)
    ensures ArePropsEqual(p, p.(tab := p.tab.(url := url), callbacks := callbacks))
  {
  }

  /** `if (!tab.id) return null`: a row renders only for a truthy id (so not for id 0 either). */
  predicate RendersRow(tab: Tab)
  {
    TruthyNumber(tab.id)
  }

  predicate ShowHoverSpinner(props: TabItemProps, isHovered: bool)
  {
    isHovered && !IsPreviewTab(props.tab, props.previewTabId) && !IsOriginalTab(props.tab, props.originalTab)
  }

  /** The avatar's CSS border: the original colour, else none while the spinner shows, else the group colour if any. */
  function AvatarBorder(props: TabItemProps, isHovered: bool, theme: Theme): string
  {
    if IsOriginalTab(props.tab, props.originalTab) then "3px solid " + theme.original
    else if ShowHoverSpinner(props, isHovered) then "none"
    else if TruthyString(props.groupColor) then "3px solid " + props.groupColor.value
    else "none"
  }

  /** What a rendered row shows, apart from the styles read from the visual state. */
  datatype RowView = RowView(
    tooltip: string,
    caption: string,
    showSpinner: bool,
    avatarBorder: string,
    avatarSource: Option<string>,
    showOverlays: bool,
    whiteCloseIcon: bool)

  /** `a || b`, for optional strings. */
  function OrElse(a: Option<string>, b: string): string
  {
    if TruthyString(a) then a.value else b
  }

  /** The row for a tab with a truthy id, nothing otherwise. */
  function RenderTabItem(props: TabItemProps, isHovered: bool, theme: Theme): (r: Option<RowView>)
    ensures r.Some? <==> RendersRow(props.tab)
    ensures r.Some? ==> r.value.showOverlays == !r.value.showSpinner
    ensures r.Some? && r.value.showSpinner ==> r.value.avatarSource == None
  {
    if !RendersRow(props.tab) then None
    else
      var spinner := ShowHoverSpinner(props, isHovered);
      Some(RowView(
        OrElse(props.tab.url, OrElse(props.tab.title, "Untitled Tab")),
        OrElse(props.tab.title, "Untitled Tab"),
        spinner,
        AvatarBorder(props, isHovered, theme),
        if !spinner && TruthyString(props.tab.favIconUrl) then props.tab.favIconUrl else None,
        !spinner,
        IsOriginalTab(props.tab, props.originalTab)))
  }

  /** The spinner shows exactly on a hovered row that is neither the preview nor the original. */
  lemma SpinnerOnlyOnHoveredOtherRows(props: TabItemProps, isHovered: bool, theme: Theme)
    requires RendersRow(props.tab)
    ensures RenderTabItem(props, isHovered, theme).value.showSpinner <==>
      isHovered && props.previewTabId != props.tab.id && OriginalId(props.originalTab) != props.tab.id
  {
  }

  /** The avatar border follows its priority order: original, spinner, group colour, none. */
  lemma AvatarBorderPriority(props: TabItemProps, isHovered: bool, theme: Theme)
    ensures var b := AvatarBorder(props, isHovered, theme);
      && (IsOriginalTab(props.tab, props.originalTab) ==> b == "3px solid " + theme.original)
      && (!IsOriginalTab(props.tab, props.originalTab) && isHovered && !IsPreviewTab(props.tab, props.previewTabId) ==> b == "none")
      && (!IsOriginalTab(props.tab, props.originalTab) && !ShowHoverSpinner(props, isHovered) ==>
            b == if props.groupColor.Some? && props.groupColor.value != "" then "3px solid " + props.groupColor.value else "none")
  {
  }

  /**
   * The memo is sound for everything but the tooltip: props the comparator
   * calls equal render the same row except possibly its `title` attribute,
   * which reads the url the comparator ignores; and they get the same
   * visual state.
   */
  lemma EqualPropsRenderAlike(a: TabItemProps, b: TabItemProps, isHovered: bool, theme: Theme, now: int)
    requires ArePropsEqual(a, b)
    ensures RenderTabItem(a, isHovered, theme).Some? == RenderTabItem(b, isHovered, theme).Some?
    ensures RenderTabItem(a, isHovered, theme).Some? ==>
      RenderTabItem(a, isHovered, theme).value.(tooltip := "") == RenderTabItem(b, isHovered, theme).value.(tooltip := "")
    ensures ComputeVisualState(a.tab, a.previewTabId, a.originalTab, theme, TabService.IsTabStale(a.tab, now)) ==
            ComputeVisualState(b.tab, b.previewTabId, b.originalTab, theme, TabService.IsTabStale(b.tab, now))
  {
    EqualKeysEqualStates(a.tab, a.previewTabId, a.originalTab, b.tab, b.previewTabId, b.originalTab, theme, now);
  }

  /** The tooltip can go stale: a new url alone changes it, yet the comparator skips the re-render. */
  lemma TooltipIgnoredByComparator(p: TabItemProps, theme: Theme)
    requires RendersRow(p.tab) && p.tab.url == Some("a")
    ensures var q := p.(tab := p.tab.(url := Some("b")));
      ArePropsEqual(p, q) && RenderTabItem(p, false, theme).value.tooltip != RenderTabItem(q, false, theme).value.tooltip
  {
  }

  /**
   * Any url change alone, with everything else kept, changes the rendered
   * row in its tooltip only, while the comparator still calls the props equal.
   */
  lemma UrlChangeOnlyChangesTooltip(p: TabItemProps, url: Option<string>, isHovered: bool, theme: Theme)
    requires RendersRow(p.tab)
    ensures var q := p.(tab := p.tab.(url := url));
      && ArePropsEqual(p, q)
      && RenderTabItem(q, isHovered, theme).value ==
           RenderTabItem(p, isHovered, theme).value.(tooltip := OrElse(url, OrElse(p.tab.title, "Untitled Tab")))
  {
  }

  /** The slot `pseudoElementStyles` of the visual state the row reads its `::before` style from. */
  datatype PseudoElementStyles = PseudoElementStyles(before: string, after: Option<string>)

  /**
   * What `getTabVisualState` puts in `pseudoElementStyles`: nothing, since
   * no rule and not the initial object assign it.
   */
  function PseudoElementStylesOf(v: VisualState): Option<PseudoElementStyles>
  {
    None
  }

  /**
   * The row given the `pseudoElementStyles` slot of its visual state: past
   * the missing-id guard it reads `visualState.pseudoElementStyles.before`,
   * which throws a TypeError when the slot is undefined.
   */
  function RenderWithStyles(props: TabItemProps, isHovered: bool, theme: Theme,
                            styles: Option<PseudoElementStyles>): (r: Option<Outcome<RowView>>)
    ensures r.None? <==> !RendersRow(props.tab)
    ensures RendersRow(props.tab) && styles.None? ==> r == Some(Threw)
    ensures RendersRow(props.tab) && styles.Some? ==> r == Some(Returned(RenderTabItem(props, isHovered, theme).value))
  {
    if !RendersRow(props.tab) then None
    else if styles.None? then Some(Threw)
    else Some(Returned(RenderTabItem(props, isHovered, theme).value))
  }

  /** The row as the component is written, fed the visual state `getTabVisualState` computes. */
  function RenderTabItemAsWritten(props: TabItemProps, isHovered: bool, theme: Theme, now: int): (r: Option<Outcome<RowView>>)
    ensures r.None? <==> !RendersRow(props.tab)
  {
    var visual := ComputeVisualState(props.tab, props.previewTabId, props.originalTab, theme,
                                     TabService.IsTabStale(props.tab, now));
    RenderWithStyles(props, isHovered, theme, PseudoElementStylesOf(visual))
  }

  /**
   * As written, every row with a truthy id throws while rendering, where the
   * intended `RenderTabItem` draws it.
   */
  lemma AsWrittenRowThrows(props: TabItemProps, isHovered: bool, theme: Theme, now: int)
    requires RendersRow(props.tab)
    ensures RenderTabItemAsWritten(props, isHovered, theme, now) == Some(Threw)
    ensures RenderTabItem(props, isHovered, theme).Some?
  {
  }

  /** The row's `isHovered` state cell, set on mouse enter and cleared on mouse leave. */
  class RowHoverState {
    var isHovered: bool

    constructor ()
      ensures !isHovered
    {
      isHovered := false;
    }

    /** `onMouseEnter`: marks the row hovered and calls `onTabHover(tab.id!)`; the call made is returned. */
    method MouseEnter(tab: Tab) returns (hoverCall: int)
      requires RendersRow(tab)
      modifies this
      ensures isHovered && hoverCall == tab.id.value
    {
      isHovered := true;
      hoverCall := tab.id.value;
    }

    method MouseLeave()
      modifies this
      ensures !isHovered
    {
      isHovered := false;
    }
  }
}
