/**
 * The tab router `on_tabs_tab_selecion`: the value of the selected tab
 * picks the static layout placed in the page's content area.
 */
module Tabs {
  import opened Wrappers
  import opened Frames

  datatype Tab = Home | Boards | Jobs | Companies

  /** The `value` each tab carries in the tab strip. */
  function TabValue(t: Tab): string {
    match t
    case Home => "hometab"
    case Boards => "boardtab"
    case Jobs => "jobtab"
    case Companies => "companiestab"
  }

  /** The tab selected when the page loads. */
  const InitialTab := "hometab"

  /**
   * A tab's layout, reduced to three kinds of component id: its filter
   * controls, the button that triggers its search, and its empty
   * placeholder Divs (the regions results can be written into). The ids
   * of the `dcc.Loading` wrappers and of the `companies-filter` Div are
   * not kept.
   */
  datatype Layout = Layout(inputs: seq<string>, trigger: Option<string>, regions: seq<string>)

  /** The prefix every control, button and placeholder id of a tab's layout starts with. */
  function IdPrefix(t: Tab): string {
    match t
    case Home => "home-"
    case Boards => "boards-"
    case Jobs => "jobs-"
    case Companies => "companies-"
  }

  /** The ids the layout keeps: its controls, its button and its placeholder regions. */
  function Ids(l: Layout): seq<string> {
    l.inputs + (if l.trigger.Some? then [l.trigger.value] else []) + l.regions
  }

  /**
   * Each tab's layout as `make_*_tab` builds it. The home tab holds no
   * component the callbacks use; every other tab has one control, one
   * button, and ids that all carry the tab's own prefix. The companies
   * layout declares its output region twice.
   */
  function LayoutOf(t: Tab): (l: Layout)
    ensures t == Home <==> l.trigger.None?
    ensures t == Home <==> l.inputs == []
  {
    match t
    case Home => Layout([], None, [])
    case Boards => Layout(["boards-selection-dropdown"], Some("boards-selection-btn"),
                          ["boards-query-output", "boards-info-container", "boards-query-table"])
    case Jobs => Layout(["jobs-tsv-query"], Some("jobs-tsv-btn"), ["jobs-info-container", "jobs-query-table"])
    case Companies => Layout(["companies-tsv-query"], Some("companies-tsv-btn"),
                             ["companies-query-output", "companies-query-output"])
  }

  /** The layouts as evidently intended: the companies output region declared once. */
  function CorrectedLayoutOf(t: Tab): (l: Layout)
    ensures l.inputs == LayoutOf(t).inputs && l.trigger == LayoutOf(t).trigger
    ensures forall id :: id in l.regions <==> id in LayoutOf(t).regions
  {
    match t
    case Companies => Layout(["companies-tsv-query"], Some("companies-tsv-btn"), ["companies-query-output"])
    case _ => LayoutOf(t)
  }

  /**
   * The router: a tab value picks its layout as built, any other value
   * none. It holds exactly when the value is one of the four tab values,
   * and then names the layout of that tab.
   */
  function OnTabsTabSelection(tab: string): (r: Option<Layout>)
    ensures r.Some? <==> exists t :: TabValue(t) == tab
    ensures forall t :: TabValue(t) == tab ==> r == Some(LayoutOf(t))
  {
    if tab == "hometab" then (assert TabValue(Home) == tab; Some(LayoutOf(Home)))
    else if tab == "boardtab" then (assert TabValue(Boards) == tab; Some(LayoutOf(Boards)))
    else if tab == "jobtab" then (assert TabValue(Jobs) == tab; Some(LayoutOf(Jobs)))
    else if tab == "companiestab" then (assert TabValue(Companies) == tab; Some(LayoutOf(Companies)))
    else (assert forall t :: TabValue(t) != tab; None)
  }

  /** Selecting a tab shows that tab's layout, and the page opens on the home layout. */
  lemma SelectingATabShowsItsLayout(t: Tab)
    ensures OnTabsTabSelection(TabValue(t)) == Some(LayoutOf(t))
    ensures OnTabsTabSelection(InitialTab) == Some(LayoutOf(Home))
  {
  }

  /** The four layouts are pairwise different, so the router can be read backwards. */
  lemma LayoutsDistinct(t1: Tab, t2: Tab)
    requires LayoutOf(t1) == LayoutOf(t2)
    ensures t1 == t2
  {
  }

  /** Every control, button and placeholder-region id of a tab's layout starts with that tab's prefix. */
  lemma LayoutIdsCarryPrefix(t: Tab)
    ensures forall id :: id in Ids(LayoutOf(t)) ==> IdPrefix(t) <= id
  {
    match t
    case Home =>
    case Boards =>
      assert Ids(LayoutOf(t)) == ["boards-selection-dropdown", "boards-selection-btn",
        "boards-query-output", "boards-info-container", "boards-query-table"];
    case Jobs =>
      assert Ids(LayoutOf(t)) == ["jobs-tsv-query", "jobs-tsv-btn", "jobs-info-container", "jobs-query-table"];
    case Companies =>
      assert Ids(LayoutOf(t)) == ["companies-tsv-query", "companies-tsv-btn",
        "companies-query-output", "companies-query-output"];
  }

  /** No component id is shared between the layouts of two tabs. */
  lemma LayoutIdsDisjoint(t1: Tab, t2: Tab, id: string)
    requires id in Ids(LayoutOf(t1)) && id in Ids(LayoutOf(t2))
    ensures t1 == t2
  {
    LayoutIdsCarryPrefix(t1);
    LayoutIdsCarryPrefix(t2);
    assert IdPrefix(t1)[0] == id[0] == IdPrefix(t2)[0];
  }

  /** The companies tab the router shows repeats an id within one page. */
  lemma CompaniesLayoutRepeatsRegion()
    ensures OnTabsTabSelection(TabValue(Companies)).Some?
    ensures !Distinct(OnTabsTabSelection(TabValue(Companies)).value.regions)
  {
    var regions := OnTabsTabSelection(TabValue(Companies)).value.regions;
    assert regions[0] == regions[1];
  }

  /** In the corrected layouts no region id is declared twice. */
  lemma LayoutRegionsDistinct(t: Tab)
    ensures Distinct(CorrectedLayoutOf(t).regions)
  {
  }
}
