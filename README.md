# palm_aggregator news pipeline — a Dafny model

palm_aggregator is a news aggregator. A subscription list (OPML) names RSS feeds.
The ingestion run fetches every feed and turns each item into a post. It then
drops the posts whose article link is already stored and hands the rest to the
store. An external AI service assigns categories (and, in the newer variant, one
event) to posts by title. The feed page shows the stored posts:
- it filters them by one category, one event or a search term;
- it sorts them newest first;
- it gathers the posts that share an event into one group item;
- it lists unread items before read ones.

This project models that core in Dafny and proves its contracts:

| file | module | models |
|---|---|---|
| `posts.dfy` | `Posts` | the post record, the AI service's reply, first-match lookup by title |
| `seqs.dfy` | `Seqs` | sequence helpers: filter, flat-map, first-occurrence dedup, a stable sort by integer keys |
| `parser.dfy` | `Parser` | `src/server-side/parser.ts`: `fetch_rss` and `get_actutal_rss` up to the store write |
| `store.dfy` | `Store` | `src/server-side/database-handler.ts`: link deduplication, the distinct categories and events |
| `classifier.dfy` | `Classifier` | `src/server-side/gemini-handler.ts`: 500-post ceiling, categories only |
| `event_classifier.dfy` | `EventClassifier` | `next_app/src/server-side/gemini-handler.ts`: 100-post ceiling, categories and event |
| `feed_filters.dfy` | `FeedFilters` | `src/app/page.tsx`: `filterReducer`, `markPostAsRead`, the refresh merge |
| `feed_views.dfy` | `FeedViews` | `src/app/page.tsx`: category list and search, counts, popular events and sources, the filtered list |
| `feed_display.dfy` | `FeedDisplay` | `src/app/page.tsx`: `displayedItems`, event grouping and the item order |
| `feed_page.dfy` | `FeedPage` | `src/app/page.tsx`: the page's state as a class with its update methods |

Every foreign call becomes an input value:
- The XML parser's output is a `Body` value.
- `parseURL` is a function `fetch` from a URL to `Option<RssDocument>`.
- The store is the sequence of its documents.
- The AI service's answer is a `Reply`: the call threw, no candidates, unparseable JSON, or the parsed entries.
- `toLowerCase` is a function parameter `lower`.
- Publication dates are integer timestamps.

JavaScript objects used as counters and groups are a map plus the sequence of
their keys in insertion order. That is the order `Object.entries` and
`Object.values` return. `Array.prototype.sort` is stable, so it is modelled by a
stable insertion sort on an integer-sequence key compared lexicographically.
The key is derived from the comparator (`KeyOrder` proves the derivation right
for the item comparator).

The two classifier files disagree, and the model follows each as written:
- the 500-post variant classifies the first 500 posts and returns every post;
- the 100-post variant returns ONLY the first 100 posts, in every branch.

So the two variants differ on posts past the ceiling: the 500-post variant
keeps them with no categories, the 100-post variant loses them.
`EventClassifier.TailIsDropped` states what the 100-post code does.

The ingestion run follows the code as written, including its failure on a
subscription list with a single top-level group (see "## Findings");
`Parser.IngestCorrected` is the run with that case handled.

## Model

| member | source | states |
|---|---|---|
| Posts.FirstMatch | src/server-side/gemini-handler.ts:51 | `find` by exact title: the index found carries the title and no earlier entry does; none found means no entry carries it |
| Parser.FetchRss | src/server-side/parser.ts:32-51 | no URL gives `None`; a failed fetch gives `None`; otherwise the feed carries the outline's text as `from`, the document's link as `url` and its items; never an error |
| Parser.GroupDescriptors | src/server-side/parser.ts:66-71 | a group's descriptors are exactly its RSS outlines with a URL, as an order-preserving subsequence, each as many times as it occurs among the children; a single bare outline is kept; an absent child list throws |
| Parser.MapGroups | src/server-side/parser.ts:66-71 | mapping the groups fails exactly when some group has no children, else yields one descriptor list per group in order |
| Parser.UnfetchedRssAsWritten | src/server-side/parser.ts:64-71 | as written: a body holding a single group throws, an absent body yields no groups |
| Parser.UnfetchedRss | src/server-side/parser.ts:64-71 | corrected: an absent body yields no groups, and it fails only when some group has no children |
| Parser.SingleGroupBodyThrows | src/server-side/parser.ts:64-71 | a subscription list of one group with one RSS outline throws as written, and the corrected version keeps that feed |
| Parser.FetchGroup | src/server-side/parser.ts:73-76 | failed fetches are removed: there are at most as many feeds as descriptors, one per successful fetch, and each feed comes from a descriptor of the group |
| Parser.FeedPosts | src/server-side/parser.ts:85-95 | one post per item of the feed, in item order, built from the item and its feed |
| Parser.ReadyPostsLength | src/server-side/parser.ts:78-96 | `ready_rss` has as many posts as all fetched feeds have items |
| Parser.ReadyPostsAt | src/server-side/parser.ts:78-96 | item `j` of feed `i` is the post at the position after every item of the earlier feeds: feed order, then item order |
| Parser.ReadyPostsShape | src/server-side/parser.ts:86-94 | every post starts with no categories and no event, and carries the `from` and `url` of a fetched feed |
| Parser.BuildReadyRss | src/server-side/parser.ts:80-96 | the nested push loops build exactly the flattened posts of all feeds, one per item |
| Parser.Ingest | src/server-side/parser.ts:53-99 | the run fails exactly when the subscription list is a single group or some group has no children; otherwise the posts handed to the insert are exactly the fetched feeds' posts whose link is not stored |
| Parser.IngestCorrected | src/server-side/parser.ts:64-99 | with a single group normalised to a list, the run fails exactly when some group has no children |
| Parser.IngestCorrectedAgrees | src/server-side/parser.ts:64-99 | the corrected run differs from the run as written only on a single-group list |
| Parser.GetActualRss | src/server-side/parser.ts:53-103 | what goes to the insert is the deduplicated `ready_rss` of the fetched feeds; the run fails exactly when the list is a single group or a group has no children |
| Parser.FetchedFeedItemsAreReady | src/server-side/parser.ts:73-96 | every item of every successfully fetched feed becomes a post, whatever happens to other feeds |
| Parser.IngestNoOutlines | src/server-side/parser.ts:64 | without `opml.body.outline` nothing is fetched and nothing is inserted |
| Parser.IngestInsertsNewUnclassified | src/server-side/parser.ts:84-99 | every inserted post has a link that is not yet stored, no categories and no event |
| Parser.IngestTwiceInsertsNothing | src/server-side/parser.ts:98-99 | a second run over the same feeds after the insert inserts nothing |
| Store.SelectOnlyNewPosts | src/server-side/database-handler.ts:34 | exactly the posts whose link matches no stored document are kept, each as often as in the input; never longer than the input |
| Store.SelectOnlyNewPostsIsSubsequence | src/server-side/database-handler.ts:34 | the result keeps the input order |
| Store.SelectFromEmptyStore | src/server-side/database-handler.ts:34 | against an empty store the input is returned unchanged |
| Store.SelectAllStored | src/server-side/database-handler.ts:34 | when every incoming link is stored the result is empty |
| Store.SelectIdempotent | src/server-side/database-handler.ts:34 | filtering the result again against the same store changes nothing |
| Store.SelectKeepsBatchDuplicates | src/server-side/database-handler.ts:34 | two new posts with the same link in one batch both pass |
| Store.SelectAfterInsertIsEmpty | src/server-side/database-handler.ts:27-37 | once the new posts are stored, the same batch has nothing new |
| Store.InsertKeepsLinksUnique | src/server-side/database-handler.ts:34 | the store's links stay unique after the insert when the batch has no repeated link |
| Store.GetAvailableCategories | src/server-side/database-handler.ts:54-67 | the accumulate-then-`Set` loop yields every category of every document exactly once, and nothing else |
| Store.GetAvailableEvents | src/server-side/database-handler.ts:69-82 | every truthy event of a document exactly once; absent and empty events are excluded |
| Classifier.Payload | src/server-side/gemini-handler.ts:10-14 | an empty input calls nothing; otherwise the request holds the titles of the first min(n, 500) posts, in order |
| Classifier.GetCategoryForPosts | src/server-side/gemini-handler.ts:9-71 | every post is returned, unchanged except `category`; on a parsed reply its categories are those of the first entry with its title; on each of the three failures they are empty |
| Classifier.MergeTakesFirstMatch | src/server-side/gemini-handler.ts:50-56 | a post takes the categories of the first entry with its exact title |
| Classifier.UnmatchedPostGetsNoCategory | src/server-side/gemini-handler.ts:51-54 | a post whose title no entry carries gets `[]` |
| Classifier.SameTitleSameCategory | src/server-side/gemini-handler.ts:50-56 | posts with identical titles get identical categories, in every branch |
| Classifier.MergeExample | src/server-side/gemini-handler.ts:50-56 | posts "A" and "B" with a reply classifying only "B" as "tech" give `[]` and `["tech"]` |
| Classifier.TailPassesThrough | src/server-side/gemini-handler.ts:14 | past 500 posts only 500 titles are sent, yet every post is returned |
| EventClassifier.Slice | next_app/src/server-side/gemini-handler.ts:17 | the slice is the prefix of length min(n, 100) |
| EventClassifier.Payload | next_app/src/server-side/gemini-handler.ts:12-25 | an empty input calls nothing; otherwise the request holds the `(title, pubdate)` pairs of the slice, in order |
| EventClassifier.GetCategoryForPosts | next_app/src/server-side/gemini-handler.ts:9-99 | the output is the slice, at most 100 posts, each unchanged except `category` and `event`; a parsed reply sets both from the first entry with the title (overwriting the event); a failure keeps the event and empties the categories |
| EventClassifier.MergeTakesFirstMatch | next_app/src/server-side/gemini-handler.ts:76-83 | category and event both come from the first entry with the post's exact title |
| EventClassifier.UnmatchedPostLosesEvent | next_app/src/server-side/gemini-handler.ts:76-83 | with no entry for the title the post gets `[]` and its incoming event is erased |
| EventClassifier.TailIsDropped | next_app/src/server-side/gemini-handler.ts:17-97 | past 100 posts the output has exactly 100 posts in every branch, failures included |
| FeedFilters.FilterReducer | src/app/page.tsx:36-53 | setting a category, event or search term sets that field and clears the other two, leaving the category search and sort mode; reset restores the initial state; at most one of the three is ever set afterwards |
| FeedFilters.ResetClearsFilters | src/app/page.tsx:48-49 | after a reset no filter is active and the sort mode is by date |
| FeedFilters.ReachableStatesExclusive | src/app/page.tsx:28-53 | every state reachable from the initial one by any actions has at most one of category, event and search term set |
| FeedFilters.MarkPostAsRead | src/app/page.tsx:76-83 | afterwards the link is read, nothing else is added, and an already read link returns the same set |
| FeedFilters.MarkPostAsReadIdempotent | src/app/page.tsx:76-83 | marking twice is the same as marking once |
| FeedFilters.MergeFetched | src/app/page.tsx:90-94 | the previous list is kept unchanged as a suffix, preceded by the fetched posts whose link is not among the previous posts, in the server's order and with their multiplicity |
| FeedFilters.IsFilterActive | src/app/page.tsx:217 | a filter is active exactly when the state differs from the initial one other than in the sort order |
| FeedFilters.MergeFetchedTwice | src/app/page.tsx:90-94 | merging the same server answer again adds nothing |
| FeedViews.AllCategories | src/app/page.tsx:124 | every category of every post, each once, in ascending string order, and nothing else |
| FeedViews.FilteredCategories | src/app/page.tsx:161-164 | an order-preserving subsequence holding the categories that contain the search term (all of them for an empty term); stays sorted and duplicate-free |
| FeedViews.CategoryListSortedAndDistinct | src/app/page.tsx:161-164 | the category list shown in the sidebar is sorted and duplicate-free for every search term |
| FeedViews.CountStep | src/app/page.tsx:129 | one increment keeps the counts equal to the occurrences of each non-empty category seen |
| FeedViews.PostCountsByCategory | src/app/page.tsx:126-133 | every non-empty category that occurs is mapped to the number of times it occurs, and nothing else is mapped |
| FeedViews.InTallyKeys | src/app/page.tsx:136-141 | a key is counted exactly when some post has it |
| FeedViews.Tally | src/app/page.tsx:136-143 | the counting loop and `Object.entries` give one entry per key in first-occurrence order, with the number of posts that have it |
| FeedViews.TopN | src/app/page.tsx:144-145 | min(n, length) entries, non-increasing counts, all from the input, and every left-out entry counts no more than any kept one |
| FeedViews.Popular | src/app/page.tsx:135-146 | at most n distinct keys with their true counts, most frequent first; a key left out has a count no larger than every kept one |
| FeedViews.PopularEvents | src/app/page.tsx:135-146 | at most 3 entries, none empty or "Без события", each a real event of a post with its true count, counts non-increasing |
| FeedViews.PopularSources | src/app/page.tsx:148-159 | at most 5 entries, each a non-empty source of a post with its true count, counts non-increasing |
| FeedViews.SortedAndFilteredPosts | src/app/page.tsx:166-175 | exactly the posts passing the category, event and search filters, each as often as in the input, newest first |
| FeedViews.UnfilteredListsEveryPost | src/app/page.tsx:167-172 | with no filter set every post is listed |
| FeedViews.CategoryFilterSelects | src/app/page.tsx:168 | selecting a category lists exactly the posts that carry it |
| FeedDisplay.KeyOrder | src/app/page.tsx:202-212 | the sort key orders two items exactly when the comparator does: unread first, then larger count in event-count mode, then newer |
| FeedDisplay.GroupByEvent | src/app/page.tsx:178-187 | one group per real event in first-occurrence order holding the posts with that event in order; the other posts in order |
| FeedDisplay.GroupByEventWellGrouped | src/app/page.tsx:178-187 | each group is non-empty, all its posts have its event, and no event has two groups |
| FeedDisplay.BigGroups | src/app/page.tsx:189-200 | the group items are the groups of more than one post, with count, first-post date and all-read flag |
| FeedDisplay.LonePosts | src/app/page.tsx:200 | a post of a one-post group is the only post with its event |
| FeedDisplay.Singles | src/app/page.tsx:198 | each single item is one of the posts, read exactly when its link is in the read set |
| FeedDisplay.SinglesPosts | src/app/page.tsx:198 | the single items show exactly their posts, in order |
| FeedDisplay.GroupedPostsMultiset | src/app/page.tsx:189-200 | a post with a grouped event appears once, either in its big group or as a lone post |
| FeedDisplay.CombinedPosts | src/app/page.tsx:200 | the concatenation shows the big groups' posts, then the other posts, then the lone posts |
| FeedDisplay.CombinedShowsEveryPost | src/app/page.tsx:177-200 | before sorting, every post is shown exactly as often as it occurs |
| FeedDisplay.GroupLatest | src/app/page.tsx:193 | in a newest-first list a group's first post is its latest |
| FeedDisplay.CombinedItemsFaithful | src/app/page.tsx:189-200 | each group item holds every post of its event, and a single post with a real event is alone in it |
| FeedDisplay.ItemDatesAreLatest | src/app/page.tsx:193 | no post is newer than the date its item is ordered by |
| FeedDisplay.SortedItemsShownInOrder | src/app/page.tsx:202-212 | a list sorted by the item key satisfies the comparator pairwise |
| FeedDisplay.DisplayedItems | src/app/page.tsx:177-215 | every post is shown exactly once; items are faithful groups or singles; unread items come before read ones, then by count in event-count mode, then newest first |
| FeedPage.FeedView.constructor | src/app/page.tsx:56-63 | no posts, nothing read, the initial filters, no error, one page visible, an empty read set seen by the item list |
| FeedPage.FeedView.HandleFilterChange | src/app/page.tsx:219-222 | the reducer's new filters and back to the first page; the filters stay exclusive; the item list is recomputed with the current read set |
| FeedPage.FeedView.ShowMore | src/app/page.tsx:371 | one more page becomes visible; nothing else changes |
| FeedPage.FeedView.MarkAsRead | src/app/page.tsx:76-83 | the read set becomes `MarkPostAsRead` of the old one; nothing else changes, in particular not the read set the item list was computed with, since `readPosts` is not a dependency of the memo |
| FeedPage.FeedView.FetchPosts | src/app/page.tsx:85-102 | a successful fetch merges the answer ahead of the list, clears the error and recomputes the item list with the current read set; a failed one keeps the list and sets the error |
| FeedPage.FeedView.Displayed | src/app/page.tsx:166-215 | the rendered items show exactly the posts passing the filters, each once, in the comparator's order, with read flags from the read set the memo last saw |
| FeedPage.FeedView.Visible | src/app/page.tsx:334-371 | nothing is listed while the error box is up; otherwise the first `visiblePostsCount` rendered items; "show more" is offered exactly when there are more items than that, error or not |

## Left out

- The file read and XML parse of the subscription list, `rss-parser`'s network fetch, the MongoDB connection and queries, and the call to the AI service are inputs, not modelled: they are I/O into foreign code.
- `insert_new_posts` is not part of this model. The run is modelled up to the posts handed to it (`Parser.Ingest`).
- `get_all_posts` is not modelled. It only reads the store, and the page receives its result as `FetchPosts`' argument.
- Parser.FetchGroup: the concurrent `Promise.all` fan-out is modelled as a sequential map that keeps order. Concurrency adds no observable difference here.
- Parser.GetActualRss: the in-place rewrite `o.outline = [o.outline]` of the parsed object is modelled as a value normalisation (`ChildList`). Nothing reads the object afterwards.
- Parser.GetActualRss: `fetch_rss` items with missing fields (an undefined `title` or `link`) are not modelled. Item fields are always present strings.
- Dates are integer timestamps. Date parsing, `new Date(...).getTime()` of malformed dates (`NaN`) and `toLocaleString` formatting are not modelled.
- `toLowerCase` is the parameter `lower`. Unicode case mapping is outside the model.
- Strings compare by code point, whereas JavaScript compares UTF-16 code units. The two differ only above U+FFFF.
- JavaScript objects enumerate integer-like keys ("1", "42") before other keys. The model assumes insertion order for every key, for the counters and for `eventGroups`.
- The `localStorage` persistence of the read set, the two-minute polling interval, the loading and refreshing flags, `lastRefreshTime` and the rendering components are not modelled: they are browser side effects and presentation.
- FeedViews.PostCountsByCategory: a document whose `category` is a single string instead of an array is not modelled. Stored documents always carry an array here.
- FeedViews.SortedAndFilteredPosts: the order of posts with equal dates is not stated. The model's sort is stable like `Array.prototype.sort`, but no contract fixes ties.
- FeedViews.TopN: the order of entries with equal counts is not stated. The model's sort is stable, as the source's is.
- FeedDisplay.DisplayedItems: the order of items equal under the comparator is not stated. The model's sort is stable, as the source's is.
- FeedPage.FeedView.Displayed: the order of items equal under the comparator is not stated, for the same reason.
- FeedPage.FeedView.Displayed: the rendered post and group components read the current `readPosts` for their own read styling (page.tsx:342, 353); only the memo's order and `isRead` use the stale set, which is what `shownRead` captures.
- FeedPage.FeedView.HandleFilterChange: a reducer action that returns the very same state object (a RESET while the filters are already the initial object) causes no re-render in React, so the memo keeps its old read set; the model refreshes `shownRead` on every dispatch.
- Keys inherited from `Object.prototype` ("constructor", "toString", "__proto__") are not modelled. As a category or event they make the counters at page.tsx:129, 139 and 152 start from a function instead of 0, and make `eventGroups[key].push` at page.tsx:182-183 throw; the model treats every string as a fresh key.
- Parser.FetchRss: an outline without a `text` attribute gives posts with `from: undefined` (parser.ts:41), on which the search filter at page.tsx:170 would throw; the model's `from` is always a string.
- The dead values `expiresAt`, `CATEGORIES` and `posts_left_count`, and all logging, have no behavioural effect and are left out.
- `next_app/cron-worker.ts` only triggers the run on a schedule. It is not part of this model.

## Findings

| source | as written | input that shows it | evidently intended | confidence | as-written member | corrected member |
|---|---|---|---|---|---|---|
| src/server-side/parser.ts:64-71 | `outlines.map` is called on `opml.body.outline`, which the XML parser yields as a bare object when the list has exactly one top-level group | a subscription list with one group holding one RSS outline: `.map` is not a function, a TypeError, and nothing is ingested | normalise a single group to a one-element list, as line 68 already does for a group's children | not executed | Parser.UnfetchedRssAsWritten | Parser.UnfetchedRss |
