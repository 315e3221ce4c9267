/**
 * The category-and-event classification adapter
 * (next_app/src/server-side/gemini-handler.ts): only the first 100 posts are
 * sent AND returned; on a parsed reply each returned post takes the category
 * and the event of the first entry with its exact title, and every failure
 * keeps the post's event and resets its categories.
 */
module EventClassifier {
  import opened Posts

  const Ceiling: nat := 100

  /** `posts.slice(0, 100)`. */
  function Slice(posts: seq<Post>): (r: seq<Post>)
    ensures |r| == Min(|posts|, Ceiling) && r <= posts
  {
    posts[..Min(|posts|, Ceiling)]
  }

  /**
   * The `{title, pubdate}` pairs put in the request, in order, or `None` when
   * the service is not called (an empty input returns at once).
   */
  function Payload(posts: seq<Post>): (r: Option<seq<(string, int)>>)
    ensures r.None? <==> posts == []
    ensures r.Some? ==> |r.value| == Min(|posts|, Ceiling)
    ensures r.Some? ==> forall i :: 0 <= i < |r.value| ==> r.value[i] == (posts[i].title, posts[i].pubdate)
  {
    if |posts| < 1 then None
    else
      var slice := Slice(posts);
      Some(seq(|slice|, i requires 0 <= i < |slice| => (slice[i].title, slice[i].pubdate)))
  }

  /** `options?.event`: the first matching entry's event, or none. */
  function MatchedEvent(entries: seq<Entry>, title: string): Option<string> {
    match FirstMatch(entries, title)
    case Some(k) => entries[k].event
    case None => None
  }

  /** `get_category_for_posts`, with the service's answer given as `reply`. */
  function GetCategoryForPosts(posts: seq<Post>, reply: Reply<Entry>): (r: seq<Post>)
    ensures |r| == Min(|posts|, Ceiling) && |r| <= Ceiling
    ensures forall i :: 0 <= i < |r| ==> r[i] == posts[i].(category := r[i].category, event := r[i].event)
    ensures reply.Parsed? ==> forall i :: 0 <= i < |r| ==>
      r[i].category == MatchedCategory(reply.entries, posts[i].title) &&
      r[i].event == MatchedEvent(reply.entries, posts[i].title)
    ensures !reply.Parsed? ==> forall i :: 0 <= i < |r| ==> r[i].category == [] && r[i].event == posts[i].event
  {
    if |posts| < 1 then []
    else
      var slice := Slice(posts);
      match reply
      case Parsed(entries) =>
        seq(|slice|, i requires 0 <= i < |slice| =>
          slice[i].(category := MatchedCategory(entries, slice[i].title),
                    event := MatchedEvent(entries, slice[i].title)))
      case _ =>
        seq(|slice|, i requires 0 <= i < |slice| => slice[i].(category := []))
  }

  /** On a parsed reply a post takes category AND event from the FIRST entry with its exact title. */
  lemma MergeTakesFirstMatch(posts: seq<Post>, entries: seq<Entry>, i: nat, j: nat)
    requires i < |posts| && i < Ceiling && j < |entries| && entries[j].title == posts[i].title
    requires forall k :: 0 <= k < j ==> entries[k].title != posts[i].title
    ensures GetCategoryForPosts(posts, Parsed(entries))[i].category == entries[j].category.GetOr([])
    ensures GetCategoryForPosts(posts, Parsed(entries))[i].event == entries[j].event
  {
  }

  /**
   * On a parsed reply with no entry for a post's title, the post's incoming
   * event is overwritten with none and its categories emptied.
   */
  lemma UnmatchedPostLosesEvent(posts: seq<Post>, entries: seq<Entry>, i: nat)
    requires i < |posts| && i < Ceiling && forall e :: e in entries ==> e.title != posts[i].title
    ensures GetCategoryForPosts(posts, Parsed(entries))[i].category == []
    ensures GetCategoryForPosts(posts, Parsed(entries))[i].event == None
  {
  }

  /** Past the ceiling posts are dropped in every branch, failures included. */
  lemma TailIsDropped(posts: seq<Post>, reply: Reply<Entry>)
    requires |posts| > Ceiling
    ensures |GetCategoryForPosts(posts, reply)| == Ceiling < |posts|
  {
  }
}
