/**
 * The cake catalogue page: its filters (sets of categories and flavours,
 * price bounds as typed), the sort order, the page number, the handlers that
 * change them and the query sent for the current page.
 */
module ProductsPage {
  import opened Text
  import opened Seqs
  import JsSets
  import CatalogRequests

  const PageSize: nat := 8
  const DefaultOrdering: string := "-created_at"

  datatype Filters = Filters(categories: seq<nat>, flavors: seq<nat>, minPrice: string, maxPrice: string)

  const NoFilters: Filters := Filters([], [], "", "")

  datatype PageState = PageState(filters: Filters, sortOrder: string, currentPage: nat)

  const InitialState: PageState := PageState(NoFilters, DefaultOrdering, 1)

  datatype SetFilter = Category | Flavor

  /** The price inputs, by their `name` attribute. */
  datatype PriceBound = MinPrice | MaxPrice

  /** handleFilterChange: the id is toggled in the named set and the page goes back to 1. */
  function HandleFilterChange(s: PageState, which: SetFilter, id: nat): (r: PageState)
    ensures r.currentPage == 1 && r.sortOrder == s.sortOrder
    ensures r.filters.minPrice == s.filters.minPrice && r.filters.maxPrice == s.filters.maxPrice
    ensures which == Category ==>
      && r.filters.flavors == s.filters.flavors && Distinct(r.filters.categories)
      && (id in r.filters.categories <==> id !in s.filters.categories)
      && forall c :: c != id ==> (c in r.filters.categories <==> c in s.filters.categories)
    ensures which == Flavor ==>
      && r.filters.categories == s.filters.categories && Distinct(r.filters.flavors)
      && (id in r.filters.flavors <==> id !in s.filters.flavors)
      && forall c :: c != id ==> (c in r.filters.flavors <==> c in s.filters.flavors)
  {
    var f := s.filters;
    var f' := if which == Category then f.(categories := JsSets.Toggle(f.categories, id))
              else f.(flavors := JsSets.Toggle(f.flavors, id));
    PageState(f', s.sortOrder, 1)
  }

  /** handlePriceChange: the typed text becomes the bound; the page stays where it is. */
  function HandlePriceChange(s: PageState, bound: PriceBound, value: string): (r: PageState)
    ensures r.currentPage == s.currentPage && r.sortOrder == s.sortOrder
    ensures r.filters.categories == s.filters.categories && r.filters.flavors == s.filters.flavors
    ensures bound == MinPrice ==> r.filters.minPrice == value && r.filters.maxPrice == s.filters.maxPrice
    ensures bound == MaxPrice ==> r.filters.maxPrice == value && r.filters.minPrice == s.filters.minPrice
  {
    var f := s.filters;
    s.(filters := if bound == MinPrice then f.(minPrice := value) else f.(maxPrice := value))
  }

  /** handleSortChange: the new ordering, from page 1. */
  function HandleSortChange(s: PageState, ordering: string): (r: PageState)
    ensures r == PageState(s.filters, ordering, 1)
  {
    s.(sortOrder := ordering, currentPage := 1)
  }

  /** handleClearFilters: no filters, page 1; the ordering is kept. */
  function HandleClearFilters(s: PageState): (r: PageState)
    ensures r.filters == NoFilters && r.currentPage == 1 && r.sortOrder == s.sortOrder
  {
    s.(filters := NoFilters, currentPage := 1)
  }

  /**
   * fetchData's query: page, page size and ordering always; each set when
   * non-empty, comma-joined; each price bound when its text is non-empty.
   */
  method QueryParams(s: PageState) returns (params: map<string, string>)
    ensures params.Keys == {"page", "page_size", "ordering"}
      + (if s.filters.categories != [] then {"category__id__in"} else {})
      + (if s.filters.flavors != [] then {"available_flavors__id__in"} else {})
      + (if s.filters.minPrice != "" then {"base_price__gte"} else {})
      + (if s.filters.maxPrice != "" then {"base_price__lte"} else {})
    ensures params["page"] == NatToString(s.currentPage) && params["ordering"] == s.sortOrder
    ensures "category__id__in" in params ==> params["category__id__in"] == CatalogRequests.CommaList(s.filters.categories)
    ensures "available_flavors__id__in" in params ==> params["available_flavors__id__in"] == CatalogRequests.CommaList(s.filters.flavors)
    ensures "base_price__gte" in params ==> params["base_price__gte"] == s.filters.minPrice
    ensures "base_price__lte" in params ==> params["base_price__lte"] == s.filters.maxPrice
  {
    params := map["page" := NatToString(s.currentPage), "page_size" := NatToString(PageSize), "ordering" := s.sortOrder];
    if s.filters.categories != [] {
      params := params["category__id__in" := CatalogRequests.CommaList(s.filters.categories)];
    }
    if s.filters.flavors != [] {
      params := params["available_flavors__id__in" := CatalogRequests.CommaList(s.filters.flavors)];
    }
    if s.filters.minPrice != "" {
      params := params["base_price__gte" := s.filters.minPrice];
    }
    if s.filters.maxPrice != "" {
      params := params["base_price__lte" := s.filters.maxPrice];
    }
  }

  /** Ticking an unticked category or flavour twice restores the page's filters, with the page reset to 1. */
  lemma FilterToggleTwice(s: PageState, which: SetFilter, id: nat)
    requires Distinct(s.filters.categories) && Distinct(s.filters.flavors)
    requires id !in (if which == Category then s.filters.categories else s.filters.flavors)
    ensures HandleFilterChange(HandleFilterChange(s, which, id), which, id) == s.(currentPage := 1)
  {
    if which == Category {
      JsSets.ToggleTwice(s.filters.categories, id);
    } else {
      JsSets.ToggleTwice(s.filters.flavors, id);
    }
  }

  /** Clearing brings the page back to its first load, apart from the chosen ordering. */
  lemma ClearIsFreshStart(s: PageState)
    ensures HandleClearFilters(s) == InitialState.(sortOrder := s.sortOrder)
  {
  }
}
