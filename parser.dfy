/**
 * Subscription list and feed ingestion (src/server-side/parser.ts).
 *
 * The XML parser's output is given as a value: the body of an OPML document is
 * absent, a list of groups, or a single group (the XML parser yields a bare
 * object for an element that occurs once); a group's child outlines are
 * likewise a list, a single outline or absent. The network is the function
 * `fetch`, which maps a feed URL to the parsed RSS document or to `None` when
 * fetching or parsing that feed fails.
 */
module Parser {
  import opened Posts
  import opened Seqs
  import Store

  /** The attributes of one `<outline>` element; a missing attribute is `None`. */
  datatype Outline = Outline(kind: Option<string>, text: string, xmlUrl: Option<string>)

  datatype Children = Many(outlines: seq<Outline>) | One(outline: Outline) | Absent

  datatype Group = Group(children: Children)

  datatype Body = NoOutlines | GroupList(groups: seq<Group>) | OneGroup(group: Group)

  datatype RssItem = RssItem(title: string, pubDate: int, link: string, summary: Option<string>)

  datatype RssDocument = RssDocument(title: string, description: string, link: string, items: seq<RssItem>)

  /** What `fetch_rss` returns for a feed that was fetched. */
  datatype Feed = Feed(from: string, title: string, description: string, url: string, items: seq<RssItem>)

  /** A JavaScript `TypeError` that aborts the whole run. */
  datatype RunError = TypeError

  type Fetcher = string -> Option<RssDocument>

  /** `!rss['@_xmlUrl']` is false: the URL attribute is present and non-empty. */
  predicate HasUrl(o: Outline) {
    o.xmlUrl.Some? && o.xmlUrl.value != ""
  }

  /** The test applied to each child outline of a group. */
  predicate IsRssEntry(o: Outline) {
    o.kind == Some("rss") && HasUrl(o)
  }

  /**
   * `fetch_rss`: `None` when the outline has no URL or when fetching throws;
   * otherwise the feed labelled with the outline's text. It never fails outward.
   */
  function FetchRss(rss: Outline, fetch: Fetcher): (r: Option<Feed>)
    ensures !HasUrl(rss) ==> r == None
    ensures HasUrl(rss) ==> (r.Some? <==> fetch(rss.xmlUrl.value).Some?)
    ensures r.Some? ==>
      var doc := fetch(rss.xmlUrl.value).value;
      r.value.from == rss.text && r.value.url == doc.link && r.value.items == doc.items
  {
    if !HasUrl(rss) then None
    else
      match fetch(rss.xmlUrl.value)
      case None => None
      case Some(doc) => Some(Feed(rss.text, doc.title, doc.description, doc.link, doc.items))
  }

  /** A group's children as a list: a bare outline becomes a one-element list (line 68). */
  function ChildList(c: Children): Result<seq<Outline>, RunError> {
    match c
    case Many(os) => Ok(os)
    case One(o) => Ok([o])
    case Absent => Err(TypeError)
  }

  /**
   * The feed descriptors of one group: the RSS outlines that carry a URL, in
   * document order. An absent child list makes the filter read a property of
   * `undefined` and throw.
   */
  function GroupDescriptors(g: Group): (r: Result<seq<Outline>, RunError>)
    ensures r.Ok? <==> !g.children.Absent?
    ensures r.Ok? ==> forall o :: o in r.value <==> o in ChildList(g.children).value && IsRssEntry(o)
    ensures r.Ok? ==> IsSubsequence(r.value, ChildList(g.children).value)
    ensures r.Ok? ==> forall o :: multiset(r.value)[o] == if IsRssEntry(o) then multiset(ChildList(g.children).value)[o] else 0
    ensures g.children.One? && IsRssEntry(g.children.outline) ==> r == Ok([g.children.outline])
  {
    match ChildList(g.children)
    case Err(e) => Err(e)
    case Ok(os) =>
      FilterIsSubsequence(os, IsRssEntry);
      FilterMultiset(os, IsRssEntry);
      if g.children.One? && IsRssEntry(g.children.outline) then
        FilterAll(os, IsRssEntry);
        Ok(Filter(os, IsRssEntry))
      else
        Ok(Filter(os, IsRssEntry))
  }

  /** `outlines.map(...)` over the groups; the first group that throws aborts it. */
  function MapGroups(gs: seq<Group>): (r: Result<seq<seq<Outline>>, RunError>)
    ensures r.Ok? <==> forall g :: g in gs ==> !g.children.Absent?
    ensures r.Ok? ==> |r.value| == |gs| && forall i :: 0 <= i < |gs| ==> GroupDescriptors(gs[i]) == Ok(r.value[i])
    decreases |gs|
  {
    if gs == [] then Ok([])
    else
      var init := gs[..|gs| - 1];
      assert gs == init + [gs[|gs| - 1]];
      match MapGroups(init)
      case Err(e) => Err(e)
      case Ok(ds) =>
        match GroupDescriptors(gs[|gs| - 1])
        case Err(e) => Err(e)
        case Ok(d) => Ok(ds + [d])
  }

  /** The groups of a body, a single group being taken as a list of one. */
  function BodyGroups(b: Body): seq<Group> {
    match b
    case NoOutlines => []
    case GroupList(gs) => gs
    case OneGroup(g) => [g]
  }

  /**
   * Lines 64-71 as written: a body that holds a single group is a bare object,
   * and calling `.map` on it throws.
   */
  function UnfetchedRssAsWritten(b: Body): (r: Result<seq<seq<Outline>>, RunError>)
    ensures b.OneGroup? ==> r.Err?
    ensures b.NoOutlines? ==> r == Ok([])
  {
    if b.OneGroup? then Err(TypeError) else MapGroups(BodyGroups(b))
  }

  /** Lines 64-71 with the body normalised like the groups' children are. */
  function UnfetchedRss(b: Body): (r: Result<seq<seq<Outline>>, RunError>)
    ensures b.NoOutlines? ==> r == Ok([])
    ensures r.Ok? <==> forall g :: g in BodyGroups(b) ==> !g.children.Absent?
  {
    MapGroups(BodyGroups(b))
  }

  /** The normalised version keeps the one feed of a single-group list. */
  lemma SingleGroupBodyKept(o: Outline)
    requires IsRssEntry(o)
    ensures UnfetchedRss(OneGroup(Group(One(o)))) == Ok([[o]])
  {
    var g := Group(One(o));
    assert BodyGroups(OneGroup(g)) == [g];
    var r := MapGroups([g]);
    assert r.Ok? && |r.value| == 1;
    assert r.value[0] == [o] by {
      assert GroupDescriptors([g][0]) == Ok([o]);
    }
    assert r.value == [[o]];
  }

  /**
   * A subscription list with exactly one group, holding one RSS outline, makes
   * the code as written throw, while the normalised version keeps that feed.
   */
  lemma SingleGroupBodyThrows(o: Outline)
    requires IsRssEntry(o)
    ensures UnfetchedRssAsWritten(OneGroup(Group(One(o)))) == Err(TypeError)
    ensures UnfetchedRss(OneGroup(Group(One(o)))) == Ok([[o]])
  {
    SingleGroupBodyKept(o);
  }

  /** The test that a descriptor's fetch succeeded. */
  function FetchSucceeds(fetch: Fetcher): Outline -> bool {
    o => FetchRss(o, fetch).Some?
  }

  /**
   * One group's fetched feeds, failed fetches (`null`) removed (lines 73-76,
   * run in order instead of concurrently).
   */
  function FetchGroup(descs: seq<Outline>, fetch: Fetcher): (r: seq<Feed>)
    ensures |r| <= |descs|
    ensures |r| == |Filter(descs, FetchSucceeds(fetch))|
    ensures forall f :: f in r ==> exists o :: o in descs && FetchRss(o, fetch) == Some(f)
    ensures forall o :: o in descs && FetchRss(o, fetch).Some? ==> FetchRss(o, fetch).value in r
    decreases |descs|
  {
    if descs == [] then []
    else
      var init := descs[..|descs| - 1];
      var last := descs[|descs| - 1];
      assert descs == init + [last];
      FilterSnoc(init, last, FetchSucceeds(fetch));
      var r := FetchGroup(init, fetch);
      match FetchRss(last, fetch)
      case None => r
      case Some(f) => r + [f]
  }

  function GroupFeeds(fetch: Fetcher): seq<Outline> -> seq<Feed> {
    descs => FetchGroup(descs, fetch)
  }

  /** `fetched_groups.flat()`: every fetched feed, group by group. */
  function FetchAll(groups: seq<seq<Outline>>, fetch: Fetcher): seq<Feed> {
    FlatMap(groups, GroupFeeds(fetch))
  }

  /** The post built from one item of a feed (lines 86-94). */
  function PostOf(feed: Feed, item: RssItem): Post {
    Post(feed.from, item.title, item.pubDate, item.link, feed.url, item.summary, [], None)
  }

  function FeedPosts(feed: Feed): (r: seq<Post>)
    ensures |r| == |feed.items|
    ensures forall j :: 0 <= j < |r| ==> r[j] == PostOf(feed, feed.items[j])
  {
    seq(|feed.items|, j requires 0 <= j < |feed.items| => PostOf(feed, feed.items[j]))
  }

  /** `ready_rss`: feed after feed, item after item. */
  function ReadyPosts(feeds: seq<Feed>): seq<Post> {
    FlatMap(feeds, FeedPosts)
  }

  function TotalItems(feeds: seq<Feed>): nat
    decreases |feeds|
  {
    if feeds == [] then 0 else TotalItems(feeds[..|feeds| - 1]) + |feeds[|feeds| - 1].items|
  }

  /** There is one post per item of every fetched feed. */
  lemma {:induction false} ReadyPostsLength(feeds: seq<Feed>)
    ensures |ReadyPosts(feeds)| == TotalItems(feeds)
    decreases |feeds|
  {
    if feeds != [] {
      ReadyPostsLength(feeds[..|feeds| - 1]);
    }
  }

  /** Item `j` of feed `i` sits after all items of the feeds before it. */
  lemma ReadyPostsAt(feeds: seq<Feed>, i: nat, j: nat)
    requires i < |feeds| && j < |feeds[i].items|
    ensures TotalItems(feeds[..i]) + j < |ReadyPosts(feeds)|
    ensures ReadyPosts(feeds)[TotalItems(feeds[..i]) + j] == PostOf(feeds[i], feeds[i].items[j])
  {
    var before, after := feeds[..i], feeds[i + 1..];
    assert feeds == before + [feeds[i]] + after;
    FlatMapAppend(before + [feeds[i]], after, FeedPosts);
    FlatMapSnoc(before, feeds[i], FeedPosts);
    ReadyPostsLength(before);
  }

  /**
   * Every post starts unclassified (`category: []`, no event) and carries the
   * label and address of the feed it came from.
   */
  lemma ReadyPostsShape(feeds: seq<Feed>)
    ensures forall p :: p in ReadyPosts(feeds) ==>
      p.category == [] && p.event == None && exists f :: f in feeds && p.from == f.from && p.linkXml == f.url
  {
    forall p | p in ReadyPosts(feeds)
      ensures p.category == [] && p.event == None && exists f :: f in feeds && p.from == f.from && p.linkXml == f.url
    {
      InFlatMap(feeds, FeedPosts, p);
      var f :| f in feeds && p in FeedPosts(f);
    }
  }

  /** Lines 80-96: pushes one post per item inside two nested loops. */
  method BuildReadyRss(feeds: seq<Feed>) returns (ready: seq<Post>)
    ensures ready == ReadyPosts(feeds)
    ensures |ready| == TotalItems(feeds)
  {
    ready := [];
    for i := 0 to |feeds|
      invariant ready == ReadyPosts(feeds[..i])
    {
      var feed := feeds[i];
      for j := 0 to |feed.items|
        invariant ready == ReadyPosts(feeds[..i]) + FeedPosts(feed)[..j]
      {
        assert FeedPosts(feed)[..j + 1] == FeedPosts(feed)[..j] + [PostOf(feed, feed.items[j])];
        ready := ready + [PostOf(feed, feed.items[j])];
      }
      assert FeedPosts(feed)[..|feed.items|] == FeedPosts(feed);
      assert feeds[..i + 1] == feeds[..i] + [feed];
      FlatMapSnoc(feeds[..i], feed, FeedPosts);
    }
    assert feeds[..|feeds|] == feeds;
    ReadyPostsLength(feeds);
  }

  /** The posts of the fetched feeds of `groups` that are new to `store`: what `insert_new_posts` receives. */
  function NewPosts(groups: seq<seq<Outline>>, fetch: Fetcher, store: seq<Post>): seq<Post> {
    Store.SelectOnlyNewPosts(ReadyPosts(FetchAll(groups, fetch)), store)
  }

  /**
   * The whole run up to the store write, as written: the posts handed to
   * `insert_new_posts`, or the error that aborted the run.
   */
  function Ingest(body: Body, fetch: Fetcher, store: seq<Post>): (r: Result<seq<Post>, RunError>)
    ensures r.Err? <==> body.OneGroup? || exists g :: g in BodyGroups(body) && g.children.Absent?
    ensures r.Ok? ==> forall p :: p in r.value <==>
      p in ReadyPosts(FetchAll(UnfetchedRssAsWritten(body).value, fetch)) && !Store.Stored(p.linkHtml, store)
  {
    match UnfetchedRssAsWritten(body)
    case Err(e) => Err(e)
    case Ok(groups) => Ok(NewPosts(groups, fetch, store))
  }

  /** The run with the subscription body normalised (see `UnfetchedRss`). */
  function IngestCorrected(body: Body, fetch: Fetcher, store: seq<Post>): (r: Result<seq<Post>, RunError>)
    ensures r.Err? <==> exists g :: g in BodyGroups(body) && g.children.Absent?
  {
    match UnfetchedRss(body)
    case Err(e) => Err(e)
    case Ok(groups) => Ok(NewPosts(groups, fetch, store))
  }

  /**
   * The corrected run agrees with the code as written wherever the latter
   * succeeds, and differs from it only on a body holding a single group.
   */
  lemma IngestCorrectedAgrees(body: Body, fetch: Fetcher, store: seq<Post>)
    ensures !body.OneGroup? ==> IngestCorrected(body, fetch, store) == Ingest(body, fetch, store)
    ensures Ingest(body, fetch, store).Ok? ==> IngestCorrected(body, fetch, store) == Ingest(body, fetch, store)
  {
  }

  /** `get_actutal_rss` up to the insert: what is inserted is the deduplicated `ready_rss`. */
  method GetActualRss(body: Body, fetch: Fetcher, store: seq<Post>) returns (r: Result<seq<Post>, RunError>)
    ensures r == Ingest(body, fetch, store)
    ensures r.Err? <==> body.OneGroup? || exists g :: g in BodyGroups(body) && g.children.Absent?
  {
    var unfetched := UnfetchedRssAsWritten(body);
    if unfetched.Err? {
      return Err(unfetched.error);
    }
    var fetched := FetchAll(unfetched.value, fetch);
    var ready := BuildReadyRss(fetched);
    var onlyNew := Store.SelectOnlyNewPosts(ready, store);
    r := Ok(onlyNew);
  }

  /** Without `opml.body.outline` nothing is fetched and nothing inserted. */
  lemma IngestNoOutlines(fetch: Fetcher, store: seq<Post>)
    ensures Ingest(NoOutlines, fetch, store) == Ok([])
  {
    assert FetchAll([], fetch) == [];
    assert ReadyPosts([]) == [];
  }

  /** Everything inserted is new to the store and unclassified. */
  lemma IngestInsertsNewUnclassified(body: Body, fetch: Fetcher, store: seq<Post>)
    requires Ingest(body, fetch, store).Ok?
    ensures forall p :: p in Ingest(body, fetch, store).value ==>
      !Store.Stored(p.linkHtml, store) && p.category == [] && p.event == None
  {
    ReadyPostsShape(FetchAll(UnfetchedRssAsWritten(body).value, fetch));
  }

  /** Running again over the same feeds after the insert adds nothing. */
  lemma IngestTwiceInsertsNothing(body: Body, fetch: Fetcher, store: seq<Post>)
    requires Ingest(body, fetch, store).Ok?
    ensures Ingest(body, fetch, store + Ingest(body, fetch, store).value) == Ok([])
  {
    Store.SelectAfterInsertIsEmpty(ReadyPosts(FetchAll(UnfetchedRssAsWritten(body).value, fetch)), store);
  }

  /**
   * A feed whose fetch succeeds contributes every one of its items, whatever
   * happens to the other feeds.
   */
  lemma FetchedFeedItemsAreReady(groups: seq<seq<Outline>>, fetch: Fetcher, g: nat, o: Outline, item: RssItem)
    requires g < |groups| && o in groups[g]
    requires FetchRss(o, fetch).Some? && item in FetchRss(o, fetch).value.items
    ensures PostOf(FetchRss(o, fetch).value, item) in ReadyPosts(FetchAll(groups, fetch))
  {
    var feed := FetchRss(o, fetch).value;
    assert feed in GroupFeeds(fetch)(groups[g]);
    InFlatMap(groups, GroupFeeds(fetch), feed);
    var j :| 0 <= j < |feed.items| && feed.items[j] == item;
    assert PostOf(feed, item) == FeedPosts(feed)[j];
    InFlatMap(FetchAll(groups, fetch), FeedPosts, PostOf(feed, item));
  }
}
