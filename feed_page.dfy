/**
 * The feed page's state (`Home` in src/app/page.tsx). React's state hooks
 * become the fields of `FeedView`: the shown posts, the read links, the
 * filters, the error flag and how many items are visible. Its methods are the
 * updates the page makes and the list it renders.
 *
 * The `displayedItems` memo (line 215) is recomputed when the posts or the
 * filters change, but its dependency list leaves out `readPosts`: marking a
 * post as read keeps the list, its order and its items' `isRead` as they were.
 * `shownRead` is the read set the memo saw when it was last computed.
 */
module FeedPage {
  import opened Posts
  import opened Seqs
  import opened FeedFilters
  import opened FeedViews
  import opened FeedDisplay

  /** `POSTS_PER_PAGE`: items shown at first and added by each "show more". */
  const PostsPerPage: nat := 50

  class FeedView {
    var posts: seq<Post>
    var readPosts: set<string>
    var filters: FilterState
    var failed: bool
    var visibleCount: nat
    var shownRead: set<string>

    /** At most one filter is set, and whole pages are visible. */
    predicate Valid()
      reads this
    {
      Exclusive(filters) && visibleCount >= PostsPerPage && visibleCount % PostsPerPage == 0
    }

    constructor ()
      ensures Valid()
      ensures posts == [] && readPosts == {} && filters == InitialFilterState && !failed
      ensures visibleCount == PostsPerPage && shownRead == {}
    {
      posts := [];
      readPosts := {};
      filters := InitialFilterState;
      failed := false;
      visibleCount := PostsPerPage;
      shownRead := {};
    }

    /** `handleFilterChange`: dispatches to `filterReducer` and goes back to the first page. */
    method HandleFilterChange(action: FilterAction)
      requires Valid()
      modifies this
      ensures Valid()
      ensures filters == FilterReducer(old(filters), action) && visibleCount == PostsPerPage
      ensures posts == old(posts) && readPosts == old(readPosts) && failed == old(failed)
      ensures shownRead == readPosts
    {
      filters := FilterReducer(filters, action);
      visibleCount := PostsPerPage;
      shownRead := readPosts;
    }

    /** The "show more" button: one more page becomes visible. */
    method ShowMore()
      requires Valid()
      modifies this
      ensures Valid()
      ensures visibleCount == old(visibleCount) + PostsPerPage
      ensures posts == old(posts) && readPosts == old(readPosts) && filters == old(filters) && failed == old(failed)
      ensures shownRead == old(shownRead)
    {
      visibleCount := visibleCount + PostsPerPage;
    }

    /** `markPostAsRead(link)`. */
    method MarkAsRead(link: string)
      requires Valid()
      modifies this
      ensures Valid()
      ensures readPosts == MarkPostAsRead(old(readPosts), link)
      ensures posts == old(posts) && filters == old(filters) && failed == old(failed) && visibleCount == old(visibleCount)
      ensures shownRead == old(shownRead)
    {
      readPosts := MarkPostAsRead(readPosts, link);
    }

    /**
     * `fetchPosts`: `fetched` is what `get_all_posts` returned, or `None`
     * when it threw, in which case the list is kept and the error shown. A
     * successful fetch always sets a new posts array, so the memo recomputes.
     */
    method FetchPosts(fetched: Option<seq<Post>>)
      requires Valid()
      modifies this
      ensures Valid()
      ensures fetched.None? ==> failed && posts == old(posts)
      ensures fetched.Some? ==> !failed && posts == MergeFetched(old(posts), fetched.value)
      ensures readPosts == old(readPosts) && filters == old(filters) && visibleCount == old(visibleCount)
      ensures shownRead == if fetched.Some? then readPosts else old(shownRead)
    {
      failed := false;
      match fetched
      case None =>
        failed := true;
      case Some(newPosts) =>
        posts := MergeFetched(posts, newPosts);
        shownRead := readPosts;
    }

    /**
     * `displayedItems` over `sortedAndFilteredPosts`: every post that passes
     * the filters is shown exactly once, in the comparator's order, with the
     * read flags of `shownRead`.
     */
    method Displayed(lower: string -> string) returns (items: seq<DisplayItem>)
      ensures forall p :: multiset(FlatMap(items, ItemPosts))[p] ==
                          (if MatchesFilters(p, filters, lower) then multiset(posts)[p] else 0)
      ensures forall it, q :: it in items && q in ItemPosts(it) ==> q.pubdate <= ItemDate(it)
      ensures forall i, j :: 0 <= i < j < |items| ==> ShownBefore(items[i], items[j], filters.sortBy)
      ensures forall it :: it in items ==> ItemFaithful(it, SortedAndFilteredPosts(posts, filters, lower), shownRead)
    {
      var shown := SortedAndFilteredPosts(posts, filters, lower);
      items := DisplayedItems(shown, shownRead, filters.sortBy);
    }

    /**
     * The items shown for the rendered `items`: none while the error box is
     * up, otherwise `displayedItems.slice(0, visiblePostsCount)`; and whether
     * the "show more" button is offered, which depends on the length alone.
     */
    method Visible(items: seq<DisplayItem>) returns (page: seq<DisplayItem>, hasMore: bool)
      ensures failed ==> page == []
      ensures !failed ==> page <= items && |page| == Min(visibleCount, |items|)
      ensures hasMore <==> |items| > visibleCount
      ensures !failed ==> (hasMore <==> |page| < |items|)
    {
      if failed {
        page := [];
      } else {
        page := items[..Min(visibleCount, |items|)];
      }
      hasMore := |items| > visibleCount;
    }
  }
}
