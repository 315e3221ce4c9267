/**
 * The state transitions of the feed page (src/app/page.tsx): the filter
 * reducer, marking an article as read, and merging a refresh into the list
 * of shown posts.
 */
module FeedFilters {
  import opened Posts
  import Store

  datatype SortMode = ByDate | ByEventCount

  datatype FilterState = FilterState(
    selectedCategory: Option<string>,
    selectedEvent: Option<string>,
    searchTerm: string,
    categorySearchTerm: string,
    sortBy: SortMode)

  datatype FilterAction =
    | SetCategory(category: Option<string>)
    | SetEvent(event: Option<string>)
    | SetSearchTerm(term: string)
    | SetCategorySearchTerm(categoryTerm: string)
    | SetSortBy(mode: SortMode)
    | ResetFilters

  const InitialFilterState := FilterState(None, None, "", "", ByDate)

  /** How many of the three mutually exclusive filters are set. */
  function ActiveFilters(s: FilterState): nat {
    (if s.selectedCategory.Some? then 1 else 0) +
    (if s.selectedEvent.Some? then 1 else 0) +
    (if s.searchTerm != "" then 1 else 0)
  }

  /** At most one of category, event and search term is in force. */
  predicate Exclusive(s: FilterState) {
    ActiveFilters(s) <= 1
  }

  /** `filterReducer`. */
  function FilterReducer(state: FilterState, action: FilterAction): (r: FilterState)
    ensures Exclusive(state) ==> Exclusive(r)
    ensures !action.SetCategorySearchTerm? && !action.SetSortBy? ==> Exclusive(r)
    ensures action.SetCategory? ==>
      r.selectedCategory == action.category && r.selectedEvent == None && r.searchTerm == "" &&
      r.categorySearchTerm == state.categorySearchTerm && r.sortBy == state.sortBy
    ensures action.SetEvent? ==>
      r.selectedEvent == action.event && r.selectedCategory == None && r.searchTerm == "" &&
      r.categorySearchTerm == state.categorySearchTerm && r.sortBy == state.sortBy
    ensures action.SetSearchTerm? ==>
      r.searchTerm == action.term && r.selectedCategory == None && r.selectedEvent == None &&
      r.categorySearchTerm == state.categorySearchTerm && r.sortBy == state.sortBy
    ensures action.SetCategorySearchTerm? || action.SetSortBy? ==>
      r.selectedCategory == state.selectedCategory && r.selectedEvent == state.selectedEvent &&
      r.searchTerm == state.searchTerm
    ensures action.ResetFilters? ==> r == InitialFilterState
  {
    match action
    case SetCategory(c) => state.(selectedCategory := c, selectedEvent := None, searchTerm := "")
    case SetEvent(e) => state.(selectedEvent := e, selectedCategory := None, searchTerm := "")
    case SetSearchTerm(t) => state.(searchTerm := t, selectedCategory := None, selectedEvent := None)
    case SetCategorySearchTerm(t) => state.(categorySearchTerm := t)
    case SetSortBy(m) => state.(sortBy := m)
    case ResetFilters => InitialFilterState
  }

  /**
   * `isFilterActive`: the "reset" button is offered exactly when the state
   * differs from the initial one in something other than the sort mode.
   */
  predicate IsFilterActive(s: FilterState): (r: bool)
    ensures r <==> s.(sortBy := InitialFilterState.sortBy) != InitialFilterState
  {
    s.selectedCategory.Some? || s.selectedEvent.Some? || s.searchTerm != "" || s.categorySearchTerm != ""
  }

  /** Resetting always clears every filter, whatever was set before. */
  lemma ResetClearsFilters(state: FilterState)
    ensures !IsFilterActive(FilterReducer(state, ResetFilters))
    ensures FilterReducer(state, ResetFilters).sortBy == ByDate
  {
  }

  /** The state after dispatching `actions` in order, starting from the initial one. */
  function Run(actions: seq<FilterAction>): FilterState
    decreases |actions|
  {
    if actions == [] then InitialFilterState
    else FilterReducer(Run(actions[..|actions| - 1]), actions[|actions| - 1])
  }

  /** Every reachable filter state has at most one of the three filters set. */
  lemma {:induction false} ReachableStatesExclusive(actions: seq<FilterAction>)
    ensures Exclusive(Run(actions))
    decreases |actions|
  {
    if actions != [] {
      ReachableStatesExclusive(actions[..|actions| - 1]);
    }
  }

  /** `markPostAsRead`: the link is afterwards read, and nothing else changes. */
  function MarkPostAsRead(prev: set<string>, link: string): (r: set<string>)
    ensures link in r && prev <= r && r - prev <= {link}
    ensures link in prev ==> r == prev
  {
    if link in prev then prev else prev + {link}
  }

  /** Marking the same link twice is the same as marking it once. */
  lemma MarkPostAsReadIdempotent(prev: set<string>, link: string)
    ensures MarkPostAsRead(MarkPostAsRead(prev, link), link) == MarkPostAsRead(prev, link)
  {
  }

  /**
   * The refresh merge in `fetchPosts`: the fetched posts whose link is not yet
   * shown, in fetched order, then the previous list unchanged.
   */
  function MergeFetched(prev: seq<Post>, fetched: seq<Post>): (r: seq<Post>)
    ensures |prev| <= |r| <= |prev| + |fetched|
    ensures r[|r| - |prev|..] == prev
    ensures forall p :: p in r[..|r| - |prev|] <==> p in fetched && !Store.Stored(p.linkHtml, prev)
    ensures r[..|r| - |prev|] == Store.SelectOnlyNewPosts(fetched, prev)
  {
    var added := Store.SelectOnlyNewPosts(fetched, prev);
    assert (added + prev)[..|added|] == added;
    added + prev
  }

  /** Merging the same server answer again adds nothing. */
  lemma MergeFetchedTwice(prev: seq<Post>, fetched: seq<Post>)
    ensures MergeFetched(MergeFetched(prev, fetched), fetched) == MergeFetched(prev, fetched)
  {
    var once := MergeFetched(prev, fetched);
    var added := once[..|once| - |prev|];
    assert once == added + prev;
    forall p | p in fetched ensures Store.Stored(p.linkHtml, once) {
      if Store.Stored(p.linkHtml, prev) {
        var d :| d in prev && d.linkHtml == p.linkHtml;
        assert d in once;
      } else {
        assert p in added;
        assert p in once;
      }
    }
    Store.SelectAllStored(fetched, once);
  }
}
