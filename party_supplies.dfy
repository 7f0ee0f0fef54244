/**
 * The party-supplies page: its filter state (one type, sets of colours and
 * themes), the handlers that change it, and the query it sends for the
 * current page. The page keeps two page numbers: `page`, which nothing
 * reads, and `currentPage`, which the query and the pager use.
 */
module PartySupplies {
  import opened Wrappers
  import opened Text
  import opened Seqs
  import JsSets
  import CatalogRequests

  const PageSize: nat := 12

  datatype Filters = Filters(supplyType: Option<string>, colors: seq<nat>, themes: seq<string>)

  const NoFilters: Filters := Filters(None, [], [])

  datatype FilterChange = TypeChange(slug: string) | ColorChange(id: nat) | ThemeChange(theme: string)

  datatype PageState = PageState(filters: Filters, page: nat, currentPage: nat)

  /** The updater handleFilterChange hands to setActiveFilters. */
  function ChangedFilters(prev: Filters, change: FilterChange): (r: Filters)
    ensures change.TypeChange? ==>
      r == prev.(supplyType := if prev.supplyType == Some(change.slug) then None else Some(change.slug))
    ensures change.ColorChange? ==>
      && r.supplyType == prev.supplyType && r.themes == prev.themes && Distinct(r.colors)
      && (change.id in r.colors <==> change.id !in prev.colors)
      && forall c :: c != change.id ==> (c in r.colors <==> c in prev.colors)
    ensures change.ThemeChange? ==>
      && r.supplyType == prev.supplyType && r.colors == prev.colors && Distinct(r.themes)
      && (change.theme in r.themes <==> change.theme !in prev.themes)
      && forall t :: t != change.theme ==> (t in r.themes <==> t in prev.themes)
  {
    match change
    case TypeChange(slug) => prev.(supplyType := if prev.supplyType == Some(slug) then None else Some(slug))
    case ColorChange(id) => prev.(colors := JsSets.Toggle(prev.colors, id))
    case ThemeChange(theme) => prev.(themes := JsSets.Toggle(prev.themes, theme))
  }

  /** handleFilterChange as written: the filters change and `page` is set to 1, which leaves `currentPage` alone. */
  function HandleFilterChangeAsWritten(s: PageState, change: FilterChange): (r: PageState)
    ensures r.filters == ChangedFilters(s.filters, change)
    ensures r.currentPage == s.currentPage && r.page == 1
  {
    PageState(ChangedFilters(s.filters, change), 1, s.currentPage)
  }

  /** handleFilterChange as evidently intended: the query goes back to its first page. */
  function HandleFilterChange(s: PageState, change: FilterChange): (r: PageState)
    ensures r.filters == ChangedFilters(s.filters, change)
    ensures r.currentPage == 1 && r.page == 1
  {
    PageState(ChangedFilters(s.filters, change), 1, 1)
  }

  /** handleClearFilters: every filter goes; neither page number is touched. */
  function HandleClearFilters(s: PageState): (r: PageState)
    ensures r.filters == NoFilters && r.page == s.page && r.currentPage == s.currentPage
  {
    s.(filters := NoFilters)
  }

  /**
   * As written, narrowing the filters on page 3 keeps asking for page 3: when
   * the narrowed list has five supplies, that page lies past the last one.
   */
  lemma FilterChangeKeepsStalePage()
    ensures var after := HandleFilterChangeAsWritten(PageState(NoFilters, 3, 3), TypeChange("balloon"));
      after.currentPage == 3 && after.currentPage > CeilDiv(5, PageSize)
  {
  }

  /** With the reset on `currentPage`, the page asked for after a filter change exists for any result count. */
  lemma FilterChangeAsksForFirstPage(s: PageState, change: FilterChange, count: nat)
    ensures var after := HandleFilterChange(s, change);
      after.currentPage == 1 && (count > 0 ==> after.currentPage <= CeilDiv(count, PageSize))
  {
  }

  /**
   * The query of loadData, built by successive assignments: the page and page
   * size always, then each filter only when it is set, lists comma-joined.
   */
  method QueryParams(currentPage: nat, filters: Filters) returns (params: map<string, string>)
    ensures params.Keys == {"page", "page_size"}
      + (if filters.supplyType.Some? && filters.supplyType.value != "" then {"type__slug"} else {})
      + (if filters.colors != [] then {"colors__id__in"} else {})
      + (if filters.themes != [] then {"themes__slug__in"} else {})
    ensures params["page"] == NatToString(currentPage) && params["page_size"] == NatToString(PageSize)
    ensures "type__slug" in params ==> params["type__slug"] == filters.supplyType.value
    ensures "colors__id__in" in params ==> params["colors__id__in"] == CatalogRequests.CommaList(filters.colors)
    ensures "themes__slug__in" in params ==> params["themes__slug__in"] == JoinAll(filters.themes, ',')
  {
    params := map["page" := NatToString(currentPage), "page_size" := NatToString(PageSize)];
    if filters.supplyType.Some? && filters.supplyType.value != "" {
      params := params["type__slug" := filters.supplyType.value];
    }
    if filters.colors != [] {
      params := params["colors__id__in" := CatalogRequests.CommaList(filters.colors)];
    }
    if filters.themes != [] {
      params := params["themes__slug__in" := JoinAll(filters.themes, ',')];
    }
  }

  /**
   * The list parameters lose nothing: splitting the colour parameter at its
   * commas gives the decimal ids, and splitting the theme parameter gives
   * the theme slugs, as long as no slug contains a comma (no slug of the
   * slug pattern does).
   */
  lemma ListParamsSplitBack(colors: seq<nat>, themes: seq<string>)
    requires forall k :: 0 <= k < |themes| ==> ',' !in themes[k]
    ensures colors != [] ==> Split(CatalogRequests.CommaList(colors), ',') == CatalogRequests.Decimals(colors)
    ensures themes != [] ==> Split(JoinAll(themes, ','), ',') == themes
  {
    if colors != [] {
      CatalogRequests.SplitDecimals(colors);
    }
    if themes != [] {
      SplitJoin(themes, ',');
    }
  }
}
