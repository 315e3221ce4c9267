/**
 * The values the feed page derives from its list of posts (src/app/page.tsx):
 * the sorted category list and its search, the per-category post counts, the
 * most frequent events and sources, and the filtered, newest-first post list.
 *
 * JavaScript objects used as counters are modelled as a map together with the
 * sequence of its keys in insertion order, which is the order
 * `Object.entries` and `Object.values` enumerate them in.
 */
module FeedViews {
  import opened Posts
  import opened Seqs
  import opened FeedFilters

  /** The placeholder event the classifier uses for posts that belong to no event. */
  const NoEvent: string := "Без события"
  const TopEvents: nat := 3
  const TopSources: nat := 5

  /** A string as the sequence of its character codes, compared lexicographically by the default sort. */
  function StringKey(s: string): seq<int> {
    seq(|s|, i requires 0 <= i < |s| => s[i] as int)
  }

  /** `allCategories`: every category of every post, once, in ascending string order. */
  function AllCategories(posts: seq<Post>): (r: seq<string>)
    ensures SortedBy(r, StringKey)
    ensures NoDuplicates(r)
    ensures forall c :: c in r <==> exists p :: p in posts && c in p.category
  {
    var d := Distinct(FlatMap(posts, Categories));
    SortByMembers(d, StringKey);
    NoDuplicatesMultiset(d);
    NoDuplicatesMultiset(SortBy(d, StringKey));
    assert forall c :: c in d <==> exists p :: p in posts && c in p.category by {
      forall c ensures c in d <==> exists p :: p in posts && c in p.category {
        InFlatMap(posts, Categories, c);
      }
    }
    SortBy(d, StringKey)
  }

  function ContainsTerm(term: string, lower: string -> string): string -> bool {
    (c: string) => Includes(lower(c), lower(term))
  }

  /**
   * `filteredCategories`: with an empty search term every category, otherwise
   * those whose lower-cased form contains the lower-cased term, in order.
   * `lower` stands for `toLowerCase`.
   */
  function FilteredCategories(all: seq<string>, term: string, lower: string -> string): (r: seq<string>)
    ensures IsSubsequence(r, all)
    ensures forall c :: c in r <==> c in all && (term == "" || Includes(lower(c), lower(term)))
    ensures SortedBy(all, StringKey) ==> SortedBy(r, StringKey)
    ensures NoDuplicates(all) ==> NoDuplicates(r)
  {
    if term == "" then
      assert IsSubsequence(all, all) by { FilterAll(all, (c: string) => true); FilterIsSubsequence(all, (c: string) => true); }
      all
    else
      var r := Filter(all, ContainsTerm(term, lower));
      FilterIsSubsequence(all, ContainsTerm(term, lower));
      FilterMultiset(all, ContainsTerm(term, lower));
      NoDuplicatesMultiset(all);
      NoDuplicatesMultiset(r);
      assert SortedBy(all, StringKey) ==> SortedBy(r, StringKey) by {
        if SortedBy(all, StringKey) { FilterSorted(all, ContainsTerm(term, lower), StringKey); }
      }
      r
  }

  /** The categories of all posts, filtered by the category search, stay sorted and distinct. */
  lemma CategoryListSortedAndDistinct(posts: seq<Post>, term: string, lower: string -> string)
    ensures SortedBy(FilteredCategories(AllCategories(posts), term, lower), StringKey)
    ensures NoDuplicates(FilteredCategories(AllCategories(posts), term, lower))
  {
  }

  /**
   * `counts` maps every non-empty string of `seen`, and nothing else, to the
   * number of times it occurs there.
   */
  ghost predicate CountsOf(counts: map<string, nat>, seen: seq<string>) {
    (forall c :: c in counts <==> c != "" && c in seen) &&
    (forall c :: c in counts ==> counts[c] == multiset(seen)[c])
  }

  /** One step of the counting loop: `if (cat) counts[cat] = (counts[cat] || 0) + 1`. */
  lemma CountStep(counts: map<string, nat>, seen: seq<string>, cat: string)
    requires CountsOf(counts, seen)
    ensures CountsOf(if cat != "" then counts[cat := (if cat in counts then counts[cat] else 0) + 1] else counts, seen + [cat])
  {
    assert forall c :: multiset(seen + [cat])[c] == multiset(seen)[c] + (if c == cat then 1 else 0);
  }

  /**
   * `postCountsByCategory`: every non-empty category that occurs, mapped to
   * the number of times it occurs over all posts.
   */
  method PostCountsByCategory(posts: seq<Post>) returns (counts: map<string, nat>)
    ensures CountsOf(counts, FlatMap(posts, Categories))
  {
    counts := map[];
    ghost var seen: seq<string> := [];
    for i := 0 to |posts|
      invariant seen == FlatMap(posts[..i], Categories)
      invariant CountsOf(counts, seen)
    {
      var cats := posts[i].category;
      for j := 0 to |cats|
        invariant seen == FlatMap(posts[..i], Categories) + cats[..j]
        invariant CountsOf(counts, seen)
      {
        var cat := cats[j];
        CountStep(counts, seen, cat);
        if cat != "" {
          counts := counts[cat := (if cat in counts then counts[cat] else 0) + 1];
        }
        assert cats[..j + 1] == cats[..j] + [cat];
        seen := seen + [cat];
      }
      assert cats[..|cats|] == cats;
      assert posts[..i + 1] == posts[..i] + [posts[i]];
      FlatMapSnoc(posts[..i], posts[i], Categories);
    }
    assert posts[..|posts|] == posts;
  }

  /** One row of a frequency list: `{event, count}` or `{from, count}`. */
  datatype CountEntry = CountEntry(key: string, count: nat)

  function KeyList(keyOf: Post -> Option<string>): Post -> seq<string> {
    (p: Post) => if keyOf(p).Some? then [keyOf(p).value] else []
  }

  function HasKey(keyOf: Post -> Option<string>, k: string): Post -> bool {
    (p: Post) => keyOf(p) == Some(k)
  }

  function NoKey(keyOf: Post -> Option<string>): Post -> bool {
    (p: Post) => keyOf(p).None?
  }

  /** The keys of the posts that have one, each once, in order of first occurrence. */
  function TallyKeys(posts: seq<Post>, keyOf: Post -> Option<string>): seq<string> {
    Distinct(FlatMap(posts, KeyList(keyOf)))
  }

  /** How many posts have key `k`. */
  function Occurrences(posts: seq<Post>, keyOf: Post -> Option<string>, k: string): nat {
    |Filter(posts, HasKey(keyOf, k))|
  }

  /** A key is tallied exactly when some post has it. */
  lemma InTallyKeys(posts: seq<Post>, keyOf: Post -> Option<string>, k: string)
    ensures k in TallyKeys(posts, keyOf) <==> exists p :: p in posts && keyOf(p) == Some(k)
  {
    InFlatMap(posts, KeyList(keyOf), k);
    if k in TallyKeys(posts, keyOf) {
      var p :| p in posts && k in KeyList(keyOf)(p);
      assert keyOf(p) == Some(k);
    }
  }

  /** `keys` and `counts` are the counting object after `seen`. */
  ghost predicate Tallied(keys: seq<string>, counts: map<string, nat>, seen: seq<Post>, keyOf: Post -> Option<string>) {
    keys == TallyKeys(seen, keyOf) &&
    (forall k :: k in counts <==> k in keys) &&
    (forall k :: k in counts ==> counts[k] == Occurrences(seen, keyOf, k))
  }

  lemma OccurrencesSnoc(seen: seq<Post>, keyOf: Post -> Option<string>, p: Post, k: string)
    ensures Occurrences(seen + [p], keyOf, k) == Occurrences(seen, keyOf, k) + (if keyOf(p) == Some(k) then 1 else 0)
  {
    FilterSnoc(seen, p, HasKey(keyOf, k));
  }

  lemma TallyKeysSnoc(seen: seq<Post>, keyOf: Post -> Option<string>, p: Post)
    ensures TallyKeys(seen + [p], keyOf) ==
      if keyOf(p).None? || keyOf(p).value in TallyKeys(seen, keyOf) then TallyKeys(seen, keyOf)
      else TallyKeys(seen, keyOf) + [keyOf(p).value]
  {
    FlatMapSnoc(seen, p, KeyList(keyOf));
    if keyOf(p).Some? {
      DistinctSnoc(FlatMap(seen, KeyList(keyOf)), keyOf(p).value);
    } else {
      assert KeyList(keyOf)(p) == [];
      assert FlatMap(seen, KeyList(keyOf)) + [] == FlatMap(seen, KeyList(keyOf));
    }
  }

  /** One step of the counting loop, for a post without a key: nothing changes. */
  lemma TallySkip(keys: seq<string>, counts: map<string, nat>, seen: seq<Post>, keyOf: Post -> Option<string>, p: Post)
    requires Tallied(keys, counts, seen, keyOf) && keyOf(p).None?
    ensures Tallied(keys, counts, seen + [p], keyOf)
  {
    TallyKeysSnoc(seen, keyOf, p);
    forall k | k in counts ensures counts[k] == Occurrences(seen + [p], keyOf, k) {
      OccurrencesSnoc(seen, keyOf, p, k);
    }
  }

  /** No post has a key that was never tallied. */
  lemma OccurrencesUntallied(seen: seq<Post>, keyOf: Post -> Option<string>, k: string)
    requires k !in TallyKeys(seen, keyOf)
    ensures Occurrences(seen, keyOf, k) == 0
  {
    InTallyKeys(seen, keyOf, k);
    if Occurrences(seen, keyOf, k) != 0 {
      assert Filter(seen, HasKey(keyOf, k))[0] in Filter(seen, HasKey(keyOf, k));
    }
  }

  /** Counting `p` under its key `k` keeps every count equal to the occurrences in the posts seen. */
  lemma CountsAppend(counts: map<string, nat>, seen: seq<Post>, keyOf: Post -> Option<string>, p: Post, k: string, n: nat)
    requires forall k' :: k' in counts ==> counts[k'] == Occurrences(seen, keyOf, k')
    requires keyOf(p) == Some(k) && n == Occurrences(seen, keyOf, k) + 1
    ensures forall k' :: k' in counts[k := n] ==> counts[k := n][k'] == Occurrences(seen + [p], keyOf, k')
  {
    forall k' | k' in counts[k := n] ensures counts[k := n][k'] == Occurrences(seen + [p], keyOf, k') {
      OccurrencesSnoc(seen, keyOf, p, k');
    }
  }

  /** One step of the counting loop, for a post whose key `k` was counted before. */
  lemma TallyAgain(keys: seq<string>, counts: map<string, nat>, seen: seq<Post>, keyOf: Post -> Option<string>, p: Post, k: string)
    requires Tallied(keys, counts, seen, keyOf) && keyOf(p) == Some(k) && k in counts
    ensures Tallied(keys, counts[k := counts[k] + 1], seen + [p], keyOf)
  {
    assert keys == TallyKeys(seen + [p], keyOf) by {
      TallyKeysSnoc(seen, keyOf, p);
    }
    assert forall k' :: k' in counts[k := counts[k] + 1] ==>
        counts[k := counts[k] + 1][k'] == Occurrences(seen + [p], keyOf, k') by {
      CountsAppend(counts, seen, keyOf, p, k, counts[k] + 1);
    }
  }

  /** One step of the counting loop, for a post whose key `k` is new. */
  lemma TallyFirst(keys: seq<string>, counts: map<string, nat>, seen: seq<Post>, keyOf: Post -> Option<string>, p: Post, k: string)
    requires Tallied(keys, counts, seen, keyOf) && keyOf(p) == Some(k) && k !in counts
    ensures Tallied(keys + [k], counts[k := 1], seen + [p], keyOf)
  {
    assert keys + [k] == TallyKeys(seen + [p], keyOf) by {
      TallyKeysSnoc(seen, keyOf, p);
    }
    assert forall k' :: k' in counts[k := 1] ==> counts[k := 1][k'] == Occurrences(seen + [p], keyOf, k') by {
      OccurrencesUntallied(seen, keyOf, k);
      CountsAppend(counts, seen, keyOf, p, k, 1);
    }
  }

  /**
   * The counting loop of `popularEvents` and `popularSources` followed by
   * `Object.entries`: one entry per key, in first-occurrence order, with the
   * number of posts that have it.
   */
  method Tally(posts: seq<Post>, keyOf: Post -> Option<string>) returns (entries: seq<CountEntry>)
    ensures |entries| == |TallyKeys(posts, keyOf)|
    ensures forall i :: 0 <= i < |entries| ==>
      entries[i].key == TallyKeys(posts, keyOf)[i] && entries[i].count == Occurrences(posts, keyOf, entries[i].key)
  {
    var keys: seq<string> := [];
    var counts: map<string, nat> := map[];
    for i := 0 to |posts|
      invariant Tallied(keys, counts, posts[..i], keyOf)
    {
      var p := posts[i];
      assert posts[..i + 1] == posts[..i] + [p];
      match keyOf(p)
      case Some(k) =>
        if k in counts {
          TallyAgain(keys, counts, posts[..i], keyOf, p, k);
          counts := counts[k := counts[k] + 1];
        } else {
          TallyFirst(keys, counts, posts[..i], keyOf, p, k);
          counts := counts[k := 1];
          keys := keys + [k];
        }
      case None =>
        TallySkip(keys, counts, posts[..i], keyOf, p);
    }
    assert posts[..|posts|] == posts;
    entries := seq(|keys|, i requires 0 <= i < |keys| => CountEntry(keys[i], counts[keys[i]]));
  }

  /** The sort key of `sort((a, b) => b.count - a.count)`: larger counts first. */
  function CountKey(e: CountEntry): seq<int> {
    [-(e.count as int)]
  }

  /** `.sort((a, b) => b.count - a.count).slice(0, n)`. */
  function TopN(entries: seq<CountEntry>, n: nat): (r: seq<CountEntry>)
    ensures |r| == Min(|entries|, n)
    ensures forall i, j :: 0 <= i < j < |r| ==> r[i].count >= r[j].count
    ensures forall e :: e in r ==> e in entries
    ensures forall e :: e in entries && e !in r ==> |r| == n && forall x :: x in r ==> x.count >= e.count
    ensures NoDuplicates(entries) ==> NoDuplicates(r)
  {
    var s := SortBy(entries, CountKey);
    SortByLength(entries, CountKey);
    SortByMembers(entries, CountKey);
    CountsDescending(s);
    PrefixIsTop(s, Min(|s|, n));
    NoDuplicatesMultiset(entries);
    NoDuplicatesMultiset(s);
    s[..Min(|s|, n)]
  }

  lemma CountsDescending(s: seq<CountEntry>)
    requires SortedBy(s, CountKey)
    ensures forall i, j :: 0 <= i < j < |s| ==> s[i].count >= s[j].count
  {
    forall i, j | 0 <= i < j < |s| ensures s[i].count >= s[j].count {
      LexLeSingle(-(s[i].count as int), -(s[j].count as int));
    }
  }

  /** In a list sorted by descending count, an entry left out of a prefix counts no more than any entry in it. */
  lemma PrefixIsTop(s: seq<CountEntry>, m: nat)
    requires m <= |s|
    requires forall i, j :: 0 <= i < j < |s| ==> s[i].count >= s[j].count
    ensures forall e :: e in s && e !in s[..m] ==> forall x :: x in s[..m] ==> x.count >= e.count
  {
    forall e, x | e in s && e !in s[..m] && x in s[..m] ensures x.count >= e.count {
      var k :| 0 <= k < |s| && s[k] == e;
      var i :| 0 <= i < m && s[..m][i] == x;
    }
  }

  /**
   * A frequency list: the `n` most frequent keys with their counts, most
   * frequent first.
   */
  method Popular(posts: seq<Post>, keyOf: Post -> Option<string>, n: nat) returns (top: seq<CountEntry>)
    ensures |top| == Min(|TallyKeys(posts, keyOf)|, n)
    ensures forall e :: e in top ==> e.key in TallyKeys(posts, keyOf) && e.count == Occurrences(posts, keyOf, e.key)
    ensures forall i, j :: 0 <= i < j < |top| ==> top[i].count >= top[j].count && top[i].key != top[j].key
    ensures forall k :: k in TallyKeys(posts, keyOf) ==>
      (exists e :: e in top && e.key == k) ||
      (|top| == n && forall e :: e in top ==> e.count >= Occurrences(posts, keyOf, k))
  {
    var entries := Tally(posts, keyOf);
    var keys := TallyKeys(posts, keyOf);
    assert NoDuplicates(entries) by {
      forall i, j | 0 <= i < j < |entries| ensures entries[i] != entries[j] {
        assert entries[i].key == keys[i] && entries[j].key == keys[j];
      }
    }
    top := TopN(entries, n);
    forall i, j | 0 <= i < j < |top| ensures top[i].key != top[j].key {
      assert top[i] in entries && top[j] in entries;
      var a :| 0 <= a < |entries| && entries[a] == top[i];
      var b :| 0 <= b < |entries| && entries[b] == top[j];
      assert keys[a] == top[i].key && keys[b] == top[j].key;
    }
    forall k | k in keys
      ensures (exists e :: e in top && e.key == k) ||
              (|top| == n && forall e :: e in top ==> e.count >= Occurrences(posts, keyOf, k))
    {
      var a :| 0 <= a < |keys| && keys[a] == k;
      assert entries[a] in entries && entries[a].key == k;
    }
  }

  /** The event a post is counted and grouped under: a non-empty event other than the placeholder. */
  function EventKey(p: Post): Option<string> {
    if p.event.Some? && p.event.value != "" && p.event.value != NoEvent then p.event else None
  }

  /** The source a post is counted under: its feed title, when non-empty. */
  function SourceKey(p: Post): Option<string> {
    if p.from != "" then Some(p.from) else None
  }

  /** `popularEvents`: the three most frequent real events. */
  method PopularEvents(posts: seq<Post>) returns (top: seq<CountEntry>)
    ensures |top| <= TopEvents
    ensures forall e :: e in top ==> e.key != "" && e.key != NoEvent && exists p :: p in posts && p.event == Some(e.key)
    ensures forall e :: e in top ==> e.count == Occurrences(posts, EventKey, e.key)
    ensures forall i, j :: 0 <= i < j < |top| ==> top[i].count >= top[j].count && top[i].key != top[j].key
    ensures forall p :: p in posts && EventKey(p).Some? ==>
      (exists e :: e in top && e.key == p.event.value) ||
      (|top| == TopEvents && forall e :: e in top ==> e.count >= Occurrences(posts, EventKey, p.event.value))
  {
    top := Popular(posts, EventKey, TopEvents);
    forall e | e in top ensures e.key != "" && e.key != NoEvent && exists p :: p in posts && p.event == Some(e.key) {
      InTallyKeys(posts, EventKey, e.key);
    }
    forall p | p in posts && EventKey(p).Some? ensures p.event.value in TallyKeys(posts, EventKey) {
      InTallyKeys(posts, EventKey, p.event.value);
    }
  }

  /** `popularSources`: the five most frequent non-empty sources. */
  method PopularSources(posts: seq<Post>) returns (top: seq<CountEntry>)
    ensures |top| <= TopSources
    ensures forall e :: e in top ==> e.key != "" && exists p :: p in posts && p.from == e.key
    ensures forall e :: e in top ==> e.count == Occurrences(posts, SourceKey, e.key)
    ensures forall i, j :: 0 <= i < j < |top| ==> top[i].count >= top[j].count && top[i].key != top[j].key
    ensures forall p :: p in posts && p.from != "" ==>
      (exists e :: e in top && e.key == p.from) ||
      (|top| == TopSources && forall e :: e in top ==> e.count >= Occurrences(posts, SourceKey, p.from))
  {
    top := Popular(posts, SourceKey, TopSources);
    forall e | e in top ensures e.key != "" && exists p :: p in posts && p.from == e.key {
      InTallyKeys(posts, SourceKey, e.key);
    }
    forall p | p in posts && p.from != "" ensures p.from in TallyKeys(posts, SourceKey) {
      InTallyKeys(posts, SourceKey, p.from);
    }
  }

  /** A selection that JavaScript treats as set: present and non-empty. */
  predicate Truthy(o: Option<string>) {
    o.Some? && o.value != ""
  }

  /** The test of `sortedAndFilteredPosts`; `lower` stands for `toLowerCase`. */
  predicate MatchesFilters(p: Post, f: FilterState, lower: string -> string) {
    (Truthy(f.selectedCategory) ==> f.selectedCategory.value in p.category) &&
    (Truthy(f.selectedEvent) ==> p.event == f.selectedEvent) &&
    (f.searchTerm != "" ==>
      Includes(lower(p.title), lower(f.searchTerm)) || Includes(lower(p.from), lower(f.searchTerm)))
  }

  function Matches(f: FilterState, lower: string -> string): Post -> bool {
    (p: Post) => MatchesFilters(p, f, lower)
  }

  /** The sort key of `sort((a, b) => b.pubdate - a.pubdate)`: newest first. */
  function DateKey(p: Post): seq<int> {
    [-p.pubdate]
  }

  /**
   * `sortedAndFilteredPosts`: the posts that pass the filters, each as often
   * as in the input, newest first.
   */
  function SortedAndFilteredPosts(posts: seq<Post>, f: FilterState, lower: string -> string): (r: seq<Post>)
    ensures forall p :: multiset(r)[p] == if MatchesFilters(p, f, lower) then multiset(posts)[p] else 0
    ensures forall p :: p in r <==> p in posts && MatchesFilters(p, f, lower)
    ensures SortedBy(r, DateKey)
    ensures forall i, j :: 0 <= i < j < |r| ==> r[i].pubdate >= r[j].pubdate
  {
    var r := SortBy(Filter(posts, Matches(f, lower)), DateKey);
    SortByMembers(Filter(posts, Matches(f, lower)), DateKey);
    FilterMultiset(posts, Matches(f, lower));
    assert forall i, j :: 0 <= i < j < |r| ==> r[i].pubdate >= r[j].pubdate by {
      forall i, j | 0 <= i < j < |r| ensures r[i].pubdate >= r[j].pubdate {
        LexLeSingle(-r[i].pubdate, -r[j].pubdate);
      }
    }
    r
  }

  /** With no category, event or search selected, every post is listed. */
  lemma UnfilteredListsEveryPost(posts: seq<Post>, f: FilterState, lower: string -> string)
    requires !Truthy(f.selectedCategory) && !Truthy(f.selectedEvent) && f.searchTerm == ""
    ensures multiset(SortedAndFilteredPosts(posts, f, lower)) == multiset(posts)
  {
    var r := SortedAndFilteredPosts(posts, f, lower);
    assert forall p :: multiset(r)[p] == multiset(posts)[p];
  }

  /** Selecting a category lists exactly the posts that carry it. */
  lemma CategoryFilterSelects(posts: seq<Post>, f: FilterState, c: string, lower: string -> string)
    requires c != ""
    ensures forall p :: p in SortedAndFilteredPosts(posts, FilterReducer(f, SetCategory(Some(c))), lower)
                    <==> p in posts && c in p.category
  {
  }
}
