/**
 * The values shared by the whole news pipeline: a post as the parser builds it,
 * the store keeps it and the feed page shows it, and the reply of the external
 * classification service, which the model receives as an input.
 */
module Posts {

  datatype Option<+T> = None | Some(value: T) {
    function GetOr(default: T): T {
      match this
      case Some(v) => v
      case None => default
    }
  }

  datatype Result<+T, +E> = Ok(value: T) | Err(error: E)

  /**
   * A news item (`ParsedPost`). `pubdate` is the publication time as a
   * timestamp; `category` is always present (possibly empty); `event` is the
   * optional grouping key assigned by the classifier.
   */
  datatype Post = Post(
    from: string,
    title: string,
    pubdate: int,
    linkHtml: string,
    linkXml: string,
    description: Option<string>,
    category: seq<string>,
    event: Option<string>)

  /** The categories of a post, as a named function so that it can be passed around. */
  function Categories(p: Post): seq<string> {
    p.category
  }

  /**
   * What a call to the classification service comes back with: the call threw,
   * the response had no candidate content, the content was not a JSON array of
   * entries, or it parsed into a list of entries.
   */
  datatype Reply<+E> = ApiError | NoCandidates | Unparseable | Parsed(entries: seq<E>)

  /**
   * One element of a parsed reply: `{title, category, event?}`. A field the
   * JSON lacked is `None`; the category-only classifier never reads `event`.
   */
  datatype Entry = Entry(title: string, category: Option<seq<string>>, event: Option<string>)

  /** `entries.find(obj => obj.title === title)`, as the index of the first match. */
  function FirstMatch(entries: seq<Entry>, title: string): (r: Option<nat>)
    ensures r.Some? ==> r.value < |entries| && entries[r.value].title == title
    ensures r.Some? ==> forall k :: 0 <= k < r.value ==> entries[k].title != title
    ensures r.None? ==> forall k :: 0 <= k < |entries| ==> entries[k].title != title
    decreases |entries|
  {
    if entries == [] then None
    else if entries[0].title == title then Some(0)
    else
      match FirstMatch(entries[1..], title)
      case None => None
      case Some(k) => Some(k + 1)
  }

  /** `find(...)?.category || []`: the first matching entry's categories, else none. */
  function MatchedCategory(entries: seq<Entry>, title: string): seq<string> {
    match FirstMatch(entries, title)
    case Some(k) => entries[k].category.GetOr([])
    case None => []
  }

  function Min(a: int, b: int): int {
    if a <= b then a else b
  }
}
