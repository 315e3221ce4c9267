/**
 * The category-only classification adapter (src/server-side/gemini-handler.ts):
 * sends the titles of at most the first 500 posts, merges the categories of
 * the reply back onto EVERY input post by exact title, and falls back to empty
 * categories whenever the call or its reply is unusable.
 */
module Classifier {
  import opened Posts

  const Ceiling: nat := 500

  /**
   * The titles put in the request, or `None` when the service is not called
   * (an empty input returns at once).
   */
  function Payload(posts: seq<Post>): (r: Option<seq<string>>)
    ensures r.None? <==> posts == []
    ensures r.Some? ==> |r.value| == Min(|posts|, Ceiling)
    ensures r.Some? ==> forall i :: 0 <= i < |r.value| ==> r.value[i] == posts[i].title
  {
    if |posts| < 1 then None
    else
      var n := Min(|posts|, Ceiling);
      Some(seq(n, i requires 0 <= i < n => posts[i].title))
  }

  /** `get_category_for_posts`, with the service's answer given as `reply`. */
  function GetCategoryForPosts(posts: seq<Post>, reply: Reply<Entry>): (r: seq<Post>)
    ensures |r| == |posts|
    ensures forall i :: 0 <= i < |r| ==> r[i] == posts[i].(category := r[i].category)
    ensures reply.Parsed? ==> forall i :: 0 <= i < |r| ==> r[i].category == MatchedCategory(reply.entries, posts[i].title)
    ensures !reply.Parsed? ==> forall i :: 0 <= i < |r| ==> r[i].category == []
  {
    if |posts| < 1 then []
    else
      match reply
      case Parsed(entries) =>
        seq(|posts|, i requires 0 <= i < |posts| => posts[i].(category := MatchedCategory(entries, posts[i].title)))
      case _ =>
        seq(|posts|, i requires 0 <= i < |posts| => posts[i].(category := []))
  }

  /** A post takes the categories of the FIRST reply entry with its exact title. */
  lemma MergeTakesFirstMatch(posts: seq<Post>, entries: seq<Entry>, i: nat, j: nat)
    requires i < |posts| && j < |entries| && entries[j].title == posts[i].title
    requires forall k :: 0 <= k < j ==> entries[k].title != posts[i].title
    ensures GetCategoryForPosts(posts, Parsed(entries))[i].category == entries[j].category.GetOr([])
  {
  }

  /** A post whose title no entry carries is left with no categories. */
  lemma UnmatchedPostGetsNoCategory(posts: seq<Post>, entries: seq<Entry>, i: nat)
    requires i < |posts| && forall e :: e in entries ==> e.title != posts[i].title
    ensures GetCategoryForPosts(posts, Parsed(entries))[i].category == []
  {
  }

  /** Posts with the same title end up with the same categories. */
  lemma SameTitleSameCategory(posts: seq<Post>, reply: Reply<Entry>, i: nat, k: nat)
    requires i < |posts| && k < |posts| && posts[i].title == posts[k].title
    ensures GetCategoryForPosts(posts, reply)[i].category == GetCategoryForPosts(posts, reply)[k].category
  {
  }

  /**
   * The worked example: posts titled "A" and "B", and a reply that classifies
   * only "B" as "tech".
   */
  lemma MergeExample(a: Post, b: Post)
    requires a.title == "A" && b.title == "B"
    ensures GetCategoryForPosts([a, b], Parsed([Entry("B", Some(["tech"]), None)]))
         == [a.(category := []), b.(category := ["tech"])]
  {
    var entries := [Entry("B", Some(["tech"]), None)];
    UnmatchedPostGetsNoCategory([a, b], entries, 0);
    MergeTakesFirstMatch([a, b], entries, 1, 0);
  }

  /** Past the ceiling posts are not sent, yet they are still returned (and still matched by title). */
  lemma TailPassesThrough(posts: seq<Post>, reply: Reply<Entry>)
    requires |posts| > Ceiling
    ensures |Payload(posts).value| == Ceiling
    ensures |GetCategoryForPosts(posts, reply)| == |posts|
  {
  }
}
