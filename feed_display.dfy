/**
 * The list the feed page shows (`displayedItems` in src/app/page.tsx): posts
 * that share a real event are gathered into one group item, every other post
 * is an item of its own, and unread items come before read ones.
 */
module FeedDisplay {
  import opened Posts
  import opened Seqs
  import opened FeedFilters
  import opened FeedViews

  /** A group of posts about one event, or a single post; `isRead` is computed from the read set. */
  datatype DisplayItem =
    | EventGroup(event: string, posts: seq<Post>, latestDate: int, count: nat, isRead: bool)
    | Single(post: Post, isRead: bool)

  /** The posts an item shows. */
  function ItemPosts(it: DisplayItem): seq<Post> {
    match it
    case EventGroup(_, ps, _, _, _) => ps
    case Single(p, _) => [p]
  }

  /** The date an item is ordered by: a group's `latestDate`, a post's publication date. */
  function ItemDate(it: DisplayItem): int {
    if it.EventGroup? then it.latestDate else it.post.pubdate
  }

  /** The count an item is ordered by in event-count mode: a group's size, one for a post. */
  function ItemCount(it: DisplayItem): int {
    if it.EventGroup? then it.count else 1
  }

  /**
   * The comparator of `combined.sort` as a key: unread first; in event-count
   * mode larger counts first; then newer first.
   */
  function ItemKey(mode: SortMode): DisplayItem -> seq<int> {
    (it: DisplayItem) =>
      [if it.isRead then 1 else 0, if mode == ByEventCount then -ItemCount(it) else 0, -ItemDate(it)]
  }

  /** `a` may be shown before `b`: the comparator's three rules, stated directly. */
  predicate ShownBefore(a: DisplayItem, b: DisplayItem, mode: SortMode) {
    (a.isRead ==> b.isRead) &&
    (a.isRead == b.isRead && mode == ByEventCount ==> ItemCount(a) >= ItemCount(b)) &&
    (a.isRead == b.isRead && (mode == ByDate || ItemCount(a) == ItemCount(b)) ==> ItemDate(a) >= ItemDate(b))
  }

  /** The key order and the comparator's rules agree. */
  lemma KeyOrder(a: DisplayItem, b: DisplayItem, mode: SortMode)
    ensures LexLe(ItemKey(mode)(a), ItemKey(mode)(b)) <==> ShownBefore(a, b, mode)
  {
    var ka, kb := ItemKey(mode)(a), ItemKey(mode)(b);
    assert ka[1..][1..] == [ka[2]] && kb[1..][1..] == [kb[2]];
    LexLeSingle(ka[2], kb[2]);
  }

  predicate AllRead(ps: seq<Post>, read: set<string>) {
    forall q :: q in ps ==> q.linkHtml in read
  }

  /**
   * `keys`, `groups` and the posts `seen` so far agree as in the grouping
   * loop: one key per real event, in first-occurrence order, each mapped to
   * the posts with that event, in order.
   */
  ghost predicate Grouped(keys: seq<string>, groups: map<string, seq<Post>>, seen: seq<Post>) {
    keys == TallyKeys(seen, EventKey) &&
    (forall k :: k in groups <==> k in keys) &&
    (forall k :: k in groups ==> groups[k] == Filter(seen, HasKey(EventKey, k)))
  }

  /** The state of the grouping loop after `seen`: the groups, and the posts without a real event in order. */
  ghost predicate GroupState(keys: seq<string>, groups: map<string, seq<Post>>, others: seq<Post>, seen: seq<Post>) {
    Grouped(keys, groups, seen) && others == Filter(seen, NoKey(EventKey))
  }

  /** One step of the grouping loop, for a post without a real event: it goes to `others`. */
  lemma GroupSkip(keys: seq<string>, groups: map<string, seq<Post>>, others: seq<Post>, seen: seq<Post>, p: Post)
    requires GroupState(keys, groups, others, seen) && EventKey(p).None?
    ensures GroupState(keys, groups, others + [p], seen + [p])
  {
    assert keys == TallyKeys(seen + [p], EventKey) by {
      TallyKeysSnoc(seen, EventKey, p);
    }
    assert others + [p] == Filter(seen + [p], NoKey(EventKey)) by {
      FilterSnoc(seen, p, NoKey(EventKey));
    }
    forall k' | k' in groups ensures groups[k'] == Filter(seen + [p], HasKey(EventKey, k')) {
      FilterSnoc(seen, p, HasKey(EventKey, k'));
    }
  }

  /** Appending `p` to the group of its event keeps every group equal to the filter of the posts seen. */
  lemma GroupsAppend(groups: map<string, seq<Post>>, seen: seq<Post>, p: Post, k: string)
    requires forall k' :: k' in groups ==> groups[k'] == Filter(seen, HasKey(EventKey, k'))
    requires EventKey(p) == Some(k) && k in groups
    ensures forall k' :: k' in groups[k := groups[k] + [p]] ==>
      groups[k := groups[k] + [p]][k'] == Filter(seen + [p], HasKey(EventKey, k'))
  {
    forall k' | k' in groups[k := groups[k] + [p]]
      ensures groups[k := groups[k] + [p]][k'] == Filter(seen + [p], HasKey(EventKey, k'))
    {
      FilterSnoc(seen, p, HasKey(EventKey, k'));
    }
  }

  /** Opening the group `[p]` for a new event `k` keeps every group equal to the filter of the posts seen. */
  lemma GroupsNew(groups: map<string, seq<Post>>, seen: seq<Post>, p: Post, k: string)
    requires forall k' :: k' in groups ==> groups[k'] == Filter(seen, HasKey(EventKey, k'))
    requires EventKey(p) == Some(k) && Filter(seen, HasKey(EventKey, k)) == []
    ensures forall k' :: k' in groups[k := [p]] ==> groups[k := [p]][k'] == Filter(seen + [p], HasKey(EventKey, k'))
  {
    forall k' | k' in groups[k := [p]]
      ensures groups[k := [p]][k'] == Filter(seen + [p], HasKey(EventKey, k'))
    {
      FilterSnoc(seen, p, HasKey(EventKey, k'));
    }
  }

  /** One step of the grouping loop, for a post whose event `k` already has a group. */
  lemma GroupAgain(keys: seq<string>, groups: map<string, seq<Post>>, others: seq<Post>, seen: seq<Post>, p: Post, k: string)
    requires GroupState(keys, groups, others, seen) && EventKey(p) == Some(k) && k in groups
    ensures GroupState(keys, groups[k := groups[k] + [p]], others, seen + [p])
  {
    assert keys == TallyKeys(seen + [p], EventKey) by {
      TallyKeysSnoc(seen, EventKey, p);
    }
    assert others == Filter(seen + [p], NoKey(EventKey)) by {
      FilterSnoc(seen, p, NoKey(EventKey));
    }
    GroupsAppend(groups, seen, p, k);
  }

  /** One step of the grouping loop, for a post whose event `k` is new: an empty group is made and extended. */
  lemma GroupFirst(keys: seq<string>, groups: map<string, seq<Post>>, others: seq<Post>, seen: seq<Post>, p: Post, k: string)
    requires GroupState(keys, groups, others, seen) && EventKey(p) == Some(k) && k !in groups
    ensures GroupState(keys + [k], groups[k := [p]], others, seen + [p])
  {
    assert keys + [k] == TallyKeys(seen + [p], EventKey) by {
      TallyKeysSnoc(seen, EventKey, p);
    }
    assert others == Filter(seen + [p], NoKey(EventKey)) by {
      FilterSnoc(seen, p, NoKey(EventKey));
    }
    assert Filter(seen, HasKey(EventKey, k)) == [] by {
      OccurrencesUntallied(seen, EventKey, k);
    }
    GroupsNew(groups, seen, p, k);
  }

  /** `GroupSkip` at the `i`-th post of `posts`. */
  lemma GroupSkipAt(keys: seq<string>, groups: map<string, seq<Post>>, others: seq<Post>, posts: seq<Post>, i: nat)
    requires i < |posts| && GroupState(keys, groups, others, posts[..i]) && EventKey(posts[i]).None?
    ensures GroupState(keys, groups, others + [posts[i]], posts[..i + 1])
  {
    assert posts[..i + 1] == posts[..i] + [posts[i]];
    GroupSkip(keys, groups, others, posts[..i], posts[i]);
  }

  /** `GroupAgain` at the `i`-th post of `posts`. */
  lemma GroupAgainAt(keys: seq<string>, groups: map<string, seq<Post>>, others: seq<Post>, posts: seq<Post>, i: nat, k: string)
    requires i < |posts| && GroupState(keys, groups, others, posts[..i]) && EventKey(posts[i]) == Some(k) && k in groups
    ensures GroupState(keys, groups[k := groups[k] + [posts[i]]], others, posts[..i + 1])
  {
    assert posts[..i + 1] == posts[..i] + [posts[i]];
    GroupAgain(keys, groups, others, posts[..i], posts[i], k);
  }

  /** `GroupFirst` at the `i`-th post of `posts`. */
  lemma GroupFirstAt(keys: seq<string>, groups: map<string, seq<Post>>, others: seq<Post>, posts: seq<Post>, i: nat, k: string)
    requires i < |posts| && GroupState(keys, groups, others, posts[..i]) && EventKey(posts[i]) == Some(k) && k !in groups
    ensures GroupState(keys + [k], groups[k := [posts[i]]], others, posts[..i + 1])
  {
    assert posts[..i + 1] == posts[..i] + [posts[i]];
    GroupFirst(keys, groups, others, posts[..i], posts[i], k);
  }

  /**
   * The `forEach` of `displayedItems`: posts with a real event are appended
   * to their event's group, the rest to `others`.
   */
  method GroupByEvent(posts: seq<Post>) returns (keys: seq<string>, groups: map<string, seq<Post>>, others: seq<Post>)
    ensures GroupState(keys, groups, others, posts)
  {
    keys, groups, others := [], map[], [];
    for i := 0 to |posts|
      invariant GroupState(keys, groups, others, posts[..i])
    {
      var p := posts[i];
      match EventKey(p)
      case Some(k) =>
        if k in groups {
          GroupAgainAt(keys, groups, others, posts, i, k);
          groups := groups[k := groups[k] + [p]];
        } else {
          GroupFirstAt(keys, groups, others, posts, i, k);
          groups := groups[k := [p]];
          keys := keys + [k];
        }
      case None =>
        GroupSkipAt(keys, groups, others, posts, i);
        others := others + [p];
    }
    assert posts[..|posts|] == posts;
  }

  /** Every key has a non-empty group whose posts all have that event. */
  ghost predicate WellGrouped(keys: seq<string>, groups: map<string, seq<Post>>) {
    forall k :: k in keys ==> k in groups && groups[k] != [] && forall q :: q in groups[k] ==> EventKey(q) == Some(k)
  }

  /** The groups the loop builds are well formed. */
  lemma GroupByEventWellGrouped(posts: seq<Post>, keys: seq<string>, groups: map<string, seq<Post>>)
    requires keys == TallyKeys(posts, EventKey)
    requires forall k :: k in groups <==> k in keys
    requires forall k :: k in groups ==> groups[k] == Filter(posts, HasKey(EventKey, k))
    ensures WellGrouped(keys, groups) && NoDuplicates(keys)
  {
    forall k | k in keys ensures groups[k] != [] {
      InTallyKeys(posts, EventKey, k);
      var p :| p in posts && EventKey(p) == Some(k);
      assert p in groups[k];
    }
  }

  /** A group item built from its posts (`event` and `latestDate` come from the first post). */
  function MakeGroup(ps: seq<Post>, read: set<string>): DisplayItem
    requires ps != [] && ps[0].event.Some?
  {
    EventGroup(ps[0].event.value, ps, ps[0].pubdate, |ps|, AllRead(ps, read))
  }

  /** `groups.filter(g => g.posts.length > 1)`, in key order. */
  function BigGroups(keys: seq<string>, groups: map<string, seq<Post>>, read: set<string>): (r: seq<DisplayItem>)
    requires WellGrouped(keys, groups)
    ensures forall it :: it in r ==>
      it.EventGroup? && it.event in keys && it.posts == groups[it.event] && |it.posts| > 1 &&
      it.count == |it.posts| && it.latestDate == it.posts[0].pubdate && (it.isRead <==> AllRead(it.posts, read))
    decreases |keys|
  {
    if keys == [] then []
    else
      var init, k := keys[..|keys| - 1], keys[|keys| - 1];
      assert forall k' :: k' in init ==> k' in keys;
      var g := groups[k];
      assert g[0] in g;
      if |g| > 1 then BigGroups(init, groups, read) + [MakeGroup(g, read)] else BigGroups(init, groups, read)
  }

  /** `groups.filter(g => g.posts.length <= 1).flatMap(g => g.posts)`: the posts alone in their event. */
  function LonePosts(keys: seq<string>, groups: map<string, seq<Post>>): (r: seq<Post>)
    requires WellGrouped(keys, groups)
    ensures forall q :: q in r ==>
      EventKey(q).Some? && EventKey(q).value in keys && groups[EventKey(q).value] == [q]
    decreases |keys|
  {
    if keys == [] then []
    else
      var init, k := keys[..|keys| - 1], keys[|keys| - 1];
      assert forall k' :: k' in init ==> k' in keys;
      var g := groups[k];
      assert |g| <= 1 ==> g == [g[0]] && g[0] in g;
      if |g| > 1 then LonePosts(init, groups) else LonePosts(init, groups) + g
  }

  /** `map(post => ({...post, isRead}))`. */
  function Singles(ps: seq<Post>, read: set<string>): (r: seq<DisplayItem>)
    ensures forall it :: it in r ==> it.Single? && it.post in ps && (it.isRead <==> it.post.linkHtml in read)
    decreases |ps|
  {
    if ps == [] then []
    else
      var last := ps[|ps| - 1];
      assert forall q :: q in ps[..|ps| - 1] ==> q in ps;
      Singles(ps[..|ps| - 1], read) + [Single(last, last.linkHtml in read)]
  }

  /** The single items show exactly the posts they were made from. */
  lemma {:induction false} SinglesPosts(ps: seq<Post>, read: set<string>)
    ensures FlatMap(Singles(ps, read), ItemPosts) == ps
    decreases |ps|
  {
    if ps != [] {
      var init, last := ps[..|ps| - 1], ps[|ps| - 1];
      SinglesPosts(init, read);
      FlatMapSnoc(Singles(init, read), Single(last, last.linkHtml in read), ItemPosts);
      assert ps == init + [last];
    }
  }

  /** The last key's group adds its posts either to the big groups or to the lone posts. */
  lemma GroupedPostsSnoc(keys: seq<string>, groups: map<string, seq<Post>>, read: set<string>, p: Post)
    requires WellGrouped(keys, groups) && keys != []
    ensures WellGrouped(keys[..|keys| - 1], groups)
    ensures multiset(FlatMap(BigGroups(keys, groups, read), ItemPosts))[p] + multiset(LonePosts(keys, groups))[p]
         == multiset(FlatMap(BigGroups(keys[..|keys| - 1], groups, read), ItemPosts))[p]
          + multiset(LonePosts(keys[..|keys| - 1], groups))[p] + multiset(groups[keys[|keys| - 1]])[p]
  {
    var init, k := keys[..|keys| - 1], keys[|keys| - 1];
    assert forall k' :: k' in init ==> k' in keys;
    var g := groups[k];
    if |g| > 1 {
      assert g[0] in g;
      FlatMapSnoc(BigGroups(init, groups, read), MakeGroup(g, read), ItemPosts);
    }
  }

  /**
   * Each post with a grouped event is shown once, either inside its big group
   * or as a lone post.
   */
  lemma {:induction false} GroupedPostsMultiset(keys: seq<string>, groups: map<string, seq<Post>>, read: set<string>, posts: seq<Post>, p: Post)
    requires WellGrouped(keys, groups) && NoDuplicates(keys)
    requires forall k :: k in keys ==> groups[k] == Filter(posts, HasKey(EventKey, k))
    ensures multiset(FlatMap(BigGroups(keys, groups, read), ItemPosts))[p] + multiset(LonePosts(keys, groups))[p]
         == if EventKey(p).Some? && EventKey(p).value in keys then multiset(posts)[p] else 0
    decreases |keys|
  {
    if keys != [] {
      var init, k := keys[..|keys| - 1], keys[|keys| - 1];
      assert keys == init + [k];
      assert NoDuplicates(init) && k !in init;
      GroupedPostsSnoc(keys, groups, read, p);
      GroupedPostsMultiset(init, groups, read, posts, p);
      FilterMultiset(posts, HasKey(EventKey, k));
      assert multiset(groups[k])[p] == if EventKey(p) == Some(k) then multiset(posts)[p] else 0;
    }
  }

  /** What `displayedItems` concatenates before sorting. */
  function Combined(keys: seq<string>, groups: map<string, seq<Post>>, others: seq<Post>, read: set<string>): seq<DisplayItem>
    requires WellGrouped(keys, groups)
  {
    BigGroups(keys, groups, read) + Singles(others, read) + Singles(LonePosts(keys, groups), read)
  }

  /** Flattening the concatenated items gives the big groups' posts, then `others`, then the lone posts. */
  lemma CombinedPosts(keys: seq<string>, groups: map<string, seq<Post>>, others: seq<Post>, read: set<string>)
    requires WellGrouped(keys, groups)
    ensures FlatMap(Combined(keys, groups, others, read), ItemPosts)
         == FlatMap(BigGroups(keys, groups, read), ItemPosts) + others + LonePosts(keys, groups)
  {
    var big := BigGroups(keys, groups, read);
    var lone := LonePosts(keys, groups);
    FlatMapAppend(big + Singles(others, read), Singles(lone, read), ItemPosts);
    FlatMapAppend(big, Singles(others, read), ItemPosts);
    SinglesPosts(others, read);
    SinglesPosts(lone, read);
  }

  /** A post with no real event is counted once among `others`; one with a real event is never untallied. */
  lemma OthersComplement(posts: seq<Post>, keys: seq<string>, p: Post)
    requires keys == TallyKeys(posts, EventKey)
    ensures multiset(Filter(posts, NoKey(EventKey)))[p]
          + (if EventKey(p).Some? && EventKey(p).value in keys then multiset(posts)[p] else 0)
         == multiset(posts)[p]
  {
    FilterMultiset(posts, NoKey(EventKey));
    if EventKey(p).Some? {
      InTallyKeys(posts, EventKey, EventKey(p).value);
    }
  }

  /** The concatenated items show every post exactly as often as it occurs. */
  lemma CombinedShowsEveryPost(posts: seq<Post>, keys: seq<string>, groups: map<string, seq<Post>>, others: seq<Post>, read: set<string>)
    requires keys == TallyKeys(posts, EventKey)
    requires forall k :: k in groups ==> groups[k] == Filter(posts, HasKey(EventKey, k))
    requires others == Filter(posts, NoKey(EventKey))
    requires WellGrouped(keys, groups) && NoDuplicates(keys)
    ensures multiset(FlatMap(Combined(keys, groups, others, read), ItemPosts)) == multiset(posts)
  {
    CombinedPosts(keys, groups, others, read);
    forall p ensures multiset(FlatMap(Combined(keys, groups, others, read), ItemPosts))[p] == multiset(posts)[p] {
      GroupedPostsMultiset(keys, groups, read, posts, p);
      OthersComplement(posts, keys, p);
    }
  }

  /** The group posts of a newest-first list are newest-first, so a group's first post is its latest. */
  lemma GroupLatest(posts: seq<Post>, k: string, q: Post)
    requires SortedBy(posts, DateKey)
    requires Filter(posts, HasKey(EventKey, k)) != [] && q in Filter(posts, HasKey(EventKey, k))
    ensures q.pubdate <= Filter(posts, HasKey(EventKey, k))[0].pubdate
  {
    var g := Filter(posts, HasKey(EventKey, k));
    FilterSorted(posts, HasKey(EventKey, k), DateKey);
    var i :| 0 <= i < |g| && g[i] == q;
    if i > 0 {
      LexLeSingle(-g[0].pubdate, -g[i].pubdate);
    }
  }

  /** A group item holds every post of its event, and a single post with a real event is alone in it. */
  ghost predicate ItemFaithful(it: DisplayItem, posts: seq<Post>, read: set<string>) {
    (it.EventGroup? ==>
      |it.posts| >= 2 && it.count == |it.posts| &&
      it.posts == Filter(posts, HasKey(EventKey, it.event)) &&
      it.latestDate == it.posts[0].pubdate &&
      (it.isRead <==> AllRead(it.posts, read))) &&
    (it.Single? ==>
      (it.isRead <==> it.post.linkHtml in read) &&
      (EventKey(it.post).Some? ==> Filter(posts, HasKey(EventKey, EventKey(it.post).value)) == [it.post]))
  }

  /** Every concatenated item is faithful to the posts it was built from. */
  lemma CombinedItemsFaithful(posts: seq<Post>, keys: seq<string>, groups: map<string, seq<Post>>, others: seq<Post>, read: set<string>)
    requires forall k :: k in groups <==> k in keys
    requires forall k :: k in groups ==> groups[k] == Filter(posts, HasKey(EventKey, k))
    requires others == Filter(posts, NoKey(EventKey))
    requires WellGrouped(keys, groups)
    ensures forall it :: it in Combined(keys, groups, others, read) ==> ItemFaithful(it, posts, read)
  {
  }

  /** In a newest-first list, no post is newer than the date its item is ordered by. */
  lemma ItemDatesAreLatest(posts: seq<Post>, items: seq<DisplayItem>, read: set<string>)
    requires SortedBy(posts, DateKey)
    requires forall it :: it in items ==> ItemFaithful(it, posts, read)
    ensures forall it, q :: it in items && q in ItemPosts(it) ==> q.pubdate <= ItemDate(it)
  {
    forall it, q | it in items && q in ItemPosts(it) ensures q.pubdate <= ItemDate(it) {
      if it.EventGroup? {
        GroupLatest(posts, it.event, q);
      }
    }
  }

  /** A list sorted by the item key satisfies the comparator's rules pairwise. */
  lemma SortedItemsShownInOrder(items: seq<DisplayItem>, mode: SortMode)
    requires SortedBy(items, ItemKey(mode))
    ensures forall i, j :: 0 <= i < j < |items| ==> ShownBefore(items[i], items[j], mode)
  {
    forall i, j | 0 <= i < j < |items| ensures ShownBefore(items[i], items[j], mode) {
      KeyOrder(items[i], items[j], mode);
    }
  }

  /**
   * `displayedItems` for the already filtered and sorted `posts`, the read
   * links `read` and the sort mode `mode`.
   */
  method DisplayedItems(posts: seq<Post>, read: set<string>, mode: SortMode) returns (items: seq<DisplayItem>)
    ensures multiset(FlatMap(items, ItemPosts)) == multiset(posts)
    ensures forall it :: it in items ==> ItemFaithful(it, posts, read)
    ensures SortedBy(posts, DateKey) ==>
      forall it, q :: it in items && q in ItemPosts(it) ==> q.pubdate <= ItemDate(it)
    ensures forall i, j :: 0 <= i < j < |items| ==> ShownBefore(items[i], items[j], mode)
  {
    var keys, groups, others := GroupByEvent(posts);
    GroupByEventWellGrouped(posts, keys, groups);
    var combined := BigGroups(keys, groups, read) + Singles(others, read) + Singles(LonePosts(keys, groups), read);
    assert combined == Combined(keys, groups, others, read);
    items := SortBy(combined, ItemKey(mode));
    CombinedShowsEveryPost(posts, keys, groups, others, read);
    FlatMapSortBy(combined, ItemKey(mode), ItemPosts);
    CombinedItemsFaithful(posts, keys, groups, others, read);
    SortByMembers(combined, ItemKey(mode));
    if SortedBy(posts, DateKey) {
      ItemDatesAreLatest(posts, items, read);
    }
    SortedItemsShownInOrder(items, mode);
  }
}
