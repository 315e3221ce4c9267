/**
 * The persisted "news" collection and the three reads the pipeline makes of it
 * (src/server-side/database-handler.ts): link-based deduplication of incoming
 * posts, and the distinct categories and events already in use. The store is
 * the sequence of its documents as one `find()` returns them.
 */
module Store {
  import opened Posts
  import opened Seqs

  /** Some stored document has this article link. */
  predicate Stored(link: string, store: seq<Post>) {
    exists d :: d in store && d.linkHtml == link
  }

  /** The test `select_only_new_posts` applies to each incoming post. */
  function IsNew(store: seq<Post>): Post -> bool {
    (p: Post) => !Stored(p.linkHtml, store)
  }

  /** The posts whose `link_html` matches no stored document, in input order (`select_only_new_posts`). */
  function SelectOnlyNewPosts(posts: seq<Post>, store: seq<Post>): (r: seq<Post>)
    ensures |r| <= |posts|
    ensures forall p :: p in r <==> p in posts && !Stored(p.linkHtml, store)
    ensures forall p :: multiset(r)[p] == if Stored(p.linkHtml, store) then 0 else multiset(posts)[p]
  {
    FilterMultiset(posts, IsNew(store));
    Filter(posts, IsNew(store))
  }

  /** The result keeps the input order: it is a subsequence of the input. */
  lemma SelectOnlyNewPostsIsSubsequence(posts: seq<Post>, store: seq<Post>)
    ensures IsSubsequence(SelectOnlyNewPosts(posts, store), posts)
  {
    FilterIsSubsequence(posts, IsNew(store));
  }

  /** Against an empty store every post is new. */
  lemma SelectFromEmptyStore(posts: seq<Post>)
    ensures SelectOnlyNewPosts(posts, []) == posts
  {
    FilterAll(posts, IsNew([]));
  }

  /** When every incoming link is already stored nothing is new. */
  lemma SelectAllStored(posts: seq<Post>, store: seq<Post>)
    requires forall p :: p in posts ==> Stored(p.linkHtml, store)
    ensures SelectOnlyNewPosts(posts, store) == []
  {
  }

  /** Deduplicating the output again against the same store changes nothing. */
  lemma SelectIdempotent(posts: seq<Post>, store: seq<Post>)
    ensures SelectOnlyNewPosts(SelectOnlyNewPosts(posts, store), store) == SelectOnlyNewPosts(posts, store)
  {
    FilterIdempotent(posts, IsNew(store));
  }

  /** Two new posts with the same link in one batch both pass: the batch is not deduplicated against itself. */
  lemma SelectKeepsBatchDuplicates(p: Post, q: Post, store: seq<Post>)
    requires p.linkHtml == q.linkHtml && !Stored(p.linkHtml, store)
    ensures SelectOnlyNewPosts([p, q], store) == [p, q]
  {
    FilterAll([p, q], IsNew(store));
  }

  /**
   * Once the new posts are written, a second run over the same batch finds
   * nothing new: the pipeline does not insert an article twice.
   */
  lemma SelectAfterInsertIsEmpty(posts: seq<Post>, store: seq<Post>)
    ensures SelectOnlyNewPosts(posts, store + SelectOnlyNewPosts(posts, store)) == []
  {
    var newPosts := SelectOnlyNewPosts(posts, store);
    forall p | p in posts
      ensures Stored(p.linkHtml, store + newPosts)
    {
      if Stored(p.linkHtml, store) {
        var d :| d in store && d.linkHtml == p.linkHtml;
        assert d in store + newPosts;
      } else {
        assert p in newPosts;
        assert p in store + newPosts;
      }
    }
    SelectAllStored(posts, store + newPosts);
  }

  /** Every stored document's link differs from every other's. */
  predicate UniqueLinks(docs: seq<Post>) {
    forall i, j :: 0 <= i < j < |docs| ==> docs[i].linkHtml != docs[j].linkHtml
  }

  /**
   * Writing the new posts keeps the store's links unique only when the batch
   * itself has no repeated link (see SelectKeepsBatchDuplicates).
   */
  lemma {:induction false} InsertKeepsLinksUnique(posts: seq<Post>, store: seq<Post>)
    requires UniqueLinks(store) && UniqueLinks(posts)
    ensures UniqueLinks(store + SelectOnlyNewPosts(posts, store))
  {
    var newPosts := SelectOnlyNewPosts(posts, store);
    var all := store + newPosts;
    SelectOnlyNewPostsIsSubsequence(posts, store);
    SubsequenceUniqueLinks(newPosts, posts);
    forall i, j | 0 <= i < j < |all| ensures all[i].linkHtml != all[j].linkHtml {
      if j >= |store| && i < |store| {
        assert all[j] in newPosts;
        assert all[i] in store;
      }
    }
  }

  lemma {:induction false} SubsequenceUniqueLinks(a: seq<Post>, b: seq<Post>)
    requires IsSubsequence(a, b) && UniqueLinks(b)
    ensures UniqueLinks(a)
    decreases |b|
  {
    if a != [] {
      var b' := b[..|b| - 1];
      assert UniqueLinks(b');
      if a[|a| - 1] == b[|b| - 1] {
        var a' := a[..|a| - 1];
        SubsequenceUniqueLinks(a', b');
        SubsequenceMembers(a', b');
        forall i | 0 <= i < |a'| ensures a'[i].linkHtml != a[|a| - 1].linkHtml {
          assert a'[i] in a';
          var k :| 0 <= k < |b'| && b'[k] == a'[i];
          assert b[k] == b'[k];
        }
      } else {
        SubsequenceUniqueLinks(a, b');
      }
    }
  }

  lemma {:induction false} SubsequenceMembers(a: seq<Post>, b: seq<Post>)
    requires IsSubsequence(a, b)
    ensures forall x :: x in a ==> x in b
    decreases |b|
  {
    if a != [] {
      if a[|a| - 1] == b[|b| - 1] {
        SubsequenceMembers(a[..|a| - 1], b[..|b| - 1]);
        assert a == a[..|a| - 1] + [a[|a| - 1]];
      } else {
        SubsequenceMembers(a, b[..|b| - 1]);
      }
    }
  }

  /**
   * `get_avalible_categories`: concatenates the category lists of all stored
   * documents, then keeps each category once, at its first occurrence.
   */
  method GetAvailableCategories(docs: seq<Post>) returns (categories: seq<string>)
    ensures NoDuplicates(categories)
    ensures forall c :: c in categories <==> exists d :: d in docs && c in d.category
    ensures categories == Distinct(FlatMap(docs, Categories))
  {
    var all: seq<string> := [];
    for i := 0 to |docs|
      invariant all == FlatMap(docs[..i], Categories)
    {
      FlatMapSnoc(docs[..i], docs[i], Categories);
      assert docs[..i + 1] == docs[..i] + [docs[i]];
      all := all + docs[i].category;
    }
    assert docs[..|docs|] == docs;
    categories := Distinct(all);
    forall c ensures c in categories <==> exists d :: d in docs && c in d.category {
      InFlatMap(docs, Categories, c);
    }
  }

  /** The event of a document when it is truthy (present and non-empty). */
  function TruthyEvent(d: Post): seq<string> {
    if d.event.Some? && d.event.value != "" then [d.event.value] else []
  }

  /** `get_avalible_events`: every truthy event of a stored document, once each. */
  method GetAvailableEvents(docs: seq<Post>) returns (events: seq<string>)
    ensures NoDuplicates(events)
    ensures forall e :: e in events <==> e != "" && exists d :: d in docs && d.event == Some(e)
    ensures events == Distinct(FlatMap(docs, TruthyEvent))
  {
    var pushed: seq<string> := [];
    for i := 0 to |docs|
      invariant pushed == FlatMap(docs[..i], TruthyEvent)
    {
      FlatMapSnoc(docs[..i], docs[i], TruthyEvent);
      assert docs[..i + 1] == docs[..i] + [docs[i]];
      if docs[i].event.Some? && docs[i].event.value != "" {
        pushed := pushed + [docs[i].event.value];
      }
    }
    assert docs[..|docs|] == docs;
    events := Distinct(pushed);
    forall e ensures e in events <==> e != "" && exists d :: d in docs && d.event == Some(e) {
      InFlatMap(docs, TruthyEvent, e);
    }
  }
}
