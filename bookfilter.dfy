/** The book filter panel: five controls, and the filter object handed to the list when applied. */
module BookFilter {
  import opened Wrappers
  import opened BookService

  datatype FilterData = FilterData(
    searchTitle: string,
    filterAuthorId: string,
    filterGenreId: string,
    sortBy: string,
    sortOrder: SortOrder)

  /** Empty search, author and genre; sorted by title, ascending. */
  const InitialFilter := FilterData("", "", "", "title", Asc)

  /** A change event from one named control with its new value. */
  datatype FilterEdit =
    | SearchTitle(text: string)
    | FilterAuthorId(text: string)
    | FilterGenreId(text: string)
    | SortBy(text: string)
    | Order(order: SortOrder)

  /** `handleChange`: the named control takes the new value and every other control keeps its own. */
  function Edited(d: FilterData, e: FilterEdit): (r: FilterData)
    ensures r.searchTitle == if e.SearchTitle? then e.text else d.searchTitle
    ensures r.filterAuthorId == if e.FilterAuthorId? then e.text else d.filterAuthorId
    ensures r.filterGenreId == if e.FilterGenreId? then e.text else d.filterGenreId
    ensures r.sortBy == if e.SortBy? then e.text else d.sortBy
    ensures r.sortOrder == if e.Order? then e.order else d.sortOrder
  {
    match e
    case SearchTitle(s) => d.(searchTitle := s)
    case FilterAuthorId(s) => d.(filterAuthorId := s)
    case FilterGenreId(s) => d.(filterGenreId := s)
    case SortBy(s) => d.(sortBy := s)
    case Order(o) => d.(sortOrder := o)
  }

  /** A field of the emitted filter object is present exactly when the control is non-empty. */
  function Copied(s: string): (r: Option<string>)
    ensures r.Some? <==> s != ""
    ensures r.Some? ==> r.value == s
  {
    if s != "" then Some(s) else None
  }

  /** The filter object `handleApplyFilters` emits for the current controls. */
  function Applied(d: FilterData): (f: BookFilterParams)
    ensures f.searchTitle.Some? <==> d.searchTitle != ""
    ensures f.filterAuthorId.Some? <==> d.filterAuthorId != ""
    ensures f.filterGenreId.Some? <==> d.filterGenreId != ""
    ensures f.sortBy.Some? <==> d.sortBy != ""
    ensures f.sortOrder == Some(d.sortOrder)
    ensures f.searchTitle.Some? ==> f.searchTitle.value == d.searchTitle
    ensures f.filterAuthorId.Some? ==> f.filterAuthorId.value == d.filterAuthorId
    ensures f.filterGenreId.Some? ==> f.filterGenreId.value == GenreText(d.filterGenreId)
    ensures f.sortBy.Some? ==> f.sortBy.value == d.sortBy
  {
    BookFilterParams(
      Copied(d.searchTitle),
      Copied(d.filterAuthorId),
      if d.filterGenreId != "" then Some(GenreText(d.filterGenreId)) else None,
      Copied(d.sortBy),
      Some(d.sortOrder))
  }

  /** Every control passed on as it is, empty or not. */
  function Unpruned(d: FilterData): BookFilterParams {
    BookFilterParams(Some(d.searchTitle), Some(d.filterAuthorId), Some(GenreText(d.filterGenreId)),
                     Some(d.sortBy), Some(d.sortOrder))
  }

  /** Dropping empty controls before building the query changes nothing: the query drops them anyway. */
  lemma AppliedQueryUnpruned(d: FilterData)
    ensures QueryFor(Applied(d)) == QueryFor(Unpruned(d))
  {
  }

  /** Applying the initial controls filters by nothing and sorts by title, ascending. */
  lemma InitialApplied()
    ensures Applied(InitialFilter) == NoFilter.(sortBy := Some("title"), sortOrder := Some(Asc))
    ensures QueryFor(Applied(InitialFilter)) == [("sortBy", "title"), ("sortOrder", "asc")]
  {
  }

  class FilterPanel {
    var filterData: FilterData

    constructor ()
      ensures filterData == InitialFilter
    {
      filterData := InitialFilter;
    }

    method HandleChange(e: FilterEdit)
      modifies this
      ensures filterData == Edited(old(filterData), e)
    {
      match e {
        case SearchTitle(s) => filterData := filterData.(searchTitle := s);
        case FilterAuthorId(s) => filterData := filterData.(filterAuthorId := s);
        case FilterGenreId(s) => filterData := filterData.(filterGenreId := s);
        case SortBy(s) => filterData := filterData.(sortBy := s);
        case Order(o) => filterData := filterData.(sortOrder := o);
      }
    }

    /** `handleApplyFilters`: the filter object is filled by one conditional copy per control. */
    method HandleApplyFilters() returns (filters: BookFilterParams)
      ensures filters == Applied(filterData)
    {
      filters := NoFilter;
      if filterData.searchTitle != "" { filters := filters.(searchTitle := Some(filterData.searchTitle)); }
      if filterData.filterAuthorId != "" { filters := filters.(filterAuthorId := Some(filterData.filterAuthorId)); }
      if filterData.filterGenreId != "" { filters := filters.(filterGenreId := Some(GenreText(filterData.filterGenreId))); }
      if filterData.sortBy != "" { filters := filters.(sortBy := Some(filterData.sortBy)); }
      filters := filters.(sortOrder := Some(filterData.sortOrder));
    }

    /** `handleReset`: the controls go back to their initial values and the empty filter is emitted. */
    method HandleReset() returns (filters: BookFilterParams)
      modifies this
      ensures filterData == InitialFilter
      ensures filters == NoFilter && QueryFor(filters) == []
    {
      filterData := InitialFilter;
      filters := NoFilter;
    }
  }
}
