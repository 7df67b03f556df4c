# Instagram insights dashboard: data core, cart and table logic

A Dafny model of the three stateful cores of the dashboard, with proofs of
what each one promises.

- **Data provider** (`src/contexts/DataContext.tsx`). `loadPosts` parses an
  uploaded export, stores the posts and recomputes five analyses.
  - Timing: hour and weekday histograms over posts *and* their comments,
    and the best hours and days, sorted by count.
  - Content: caption keywords overall and per month, keyword percentages,
    and posts per account.
  - Engagement: one record per (post, comment) pair, newest first.
  - Hashtags: counts overall and per month, and percentages.
  - Network: influencer, post and commenter nodes, with links.

  The provider also has `clearData`, `hasData` and the report that
  `exportReport` builds.
- **Cart** (`src/contexts/CartContext.tsx`). An ordered list of items keyed
  by `(id, type)`. It supports add-if-absent, remove-by-key, clear and a
  membership test.
- **Table view** (`src/components/DataTable.tsx`):
  - the case-insensitive search over string and string-array fields;
  - the column comparator and the sort toggle;
  - pagination, and the Previous and Next clamps.

## How the model is laid out

| file | module | models |
|---|---|---|
| `types.dfy` | `Types` | the records of `src/types/index.ts`; a timestamp is an abstract `Stamp` |
| `counting.dfy` | `Counting` | the `(m[k] \|\| 0) + 1` histograms, two-level histograms, `Object.keys` insertion order, value sums, percentages |
| `js_records.dfy` | `JsRecords` | the same counters on a plain `{}`, with the properties every object inherits (see "Findings") |
| `stable_sort.dfy` | `StableSort` | `Array.prototype.sort` (stable) as insertion sort, with permutation and order lemmas |
| `timing.dfy` | `Timing` | `processTimingAnalysis` |
| `content.dfy` | `Content` | the caption tokenizer and `processContentAnalysis` |
| `engagement.dfy` | `Engagement` | `processEngagementData` |
| `hashtags.dfy` | `Hashtags` | `processHashtagAnalysis` |
| `network.dfy` | `Network` | `processNetworkData` |
| `session.dfy` | `DataSession` | the provider's state: `loadPosts`, `clearData`, `hasData`, `exportReport` |
| `cart.dfy` | `Cart` | the cart provider |
| `data_table.dfy` | `DataTable` | the table's filter, sort, pagination and view state |

The five `process*` functions are loops, so each one is a `method`. Each is
proved equal to a reference function: `TimingOf`, `ContentOf`,
`EngagementOf`, `HashtagsOf` and `NetworkOf`. Lemmas then state the
promised properties about those functions.

The provider, the cart and the table's view state change state in place,
so each is a class:

- `DataSession.Session` keeps the invariant that every stored analysis is
  the one derived from the stored posts, or that nothing is loaded.
- `Cart.CartProvider` keeps the invariant that no two items share a key.
- `DataTable.TableView` keeps the current page at or above 1. A new search
  term and the Next button put it on a page that exists. A new `data` prop
  keeps the page, so it can be left past the last page.

Three details of the code shape the model:

- `loadPosts` computes five analyses: timing, content, engagement, hashtags
  and network.
- A caption word is kept when it is longer than three characters, so a
  four-letter word such as "such" counts as a keyword.
- `Array.prototype.sort` is stable, so ties in the best hours and days keep
  `Object.entries` order.

## Model

| member | source | states |
|---|---|---|
| `Counting.Increment` | src/contexts/DataContext.tsx:75 | one more `k`: the keys gain `k`, the count of `k` goes up by one from its old value (0 when absent), and no other count changes |
| `Counting.Tally` | src/contexts/DataContext.tsx:68-91 | the histogram of a key stream has exactly the stream's keys, each mapped to its number of occurrences |
| `Counting.FirstOccurrences` | src/contexts/DataContext.tsx:94 | the insertion-order key list holds exactly the keys of the stream |
| `Counting.FirstOccurrencesDistinct` | src/contexts/DataContext.tsx:94 | the insertion-order key list has no repeats |
| `Counting.TallySum` | src/contexts/DataContext.tsx:75-89 | the counts of a histogram, summed over its keys, equal the length of the stream |
| `Counting.NestedTally` | src/contexts/DataContext.tsx:139-143 | the per-month histogram's months are those that occur, a word is under a month exactly when the pair occurred, and each count is the number of occurrences of the pair |
| `Counting.NestedTallyColumnSum` | src/contexts/DataContext.tsx:135-143 | a word's per-month counts sum to its overall count |
| `Counting.CountsAreTallies` | src/contexts/DataContext.tsx:135-144 | the overall histogram, the per-month histogram and the key order built together over a pair stream are the tallies of that stream |
| `Counting.CountKeys` | src/contexts/DataContext.tsx:135-144 | the inner word loop adds the counts of its pairs to the running counts |
| `Counting.SumValues` | src/contexts/DataContext.tsx:148 | the `reduce` over the values computes their sum |
| `Counting.PercentagesOf` | src/contexts/DataContext.tsx:149-153 | the percentage loop gives every key `count / total * 100`, and no other key |
| `Counting.PercentagesSumTo100` | src/contexts/DataContext.tsx:147-153 | percentages of a total that is the sum of the counts add up to exactly 100 |
| `Counting.SharesSumTo100` | src/contexts/DataContext.tsx:147-153 | over a non-empty stream each key's share is its count over the stream length times 100, and the shares add up to 100 |
| `StableSort.SortPermutes` | src/contexts/DataContext.tsx:94-101 | sorting only reorders: the result is a permutation of the input |
| `StableSort.SortSorted` | src/contexts/DataContext.tsx:94-101 | a comparator that is a difference of integer keys sorts by ascending key |
| `StableSort.SortUnchanged` | src/components/DataTable.tsx:84 | a comparator that never returns a negative number leaves the order unchanged |
| `StableSort.SumByPermutation` | src/contexts/DataContext.tsx:94-96 | a sum over a list does not depend on its order |
| `Timing.HourKey` | src/contexts/DataContext.tsx:74 | the decimal key of an hour has one or two digits |
| `Timing.HourKeyInjective` | src/contexts/DataContext.tsx:74 | different hours get different keys |
| `Timing.ActivityStampsLength` | src/contexts/DataContext.tsx:68-91 | one timestamp is counted per post and per comment |
| `Timing.HoursPresentSpec` | src/contexts/DataContext.tsx:99 | the hours listed from `h` on are exactly those with an entry, in strictly ascending order |
| `Timing.HourOrder` | src/contexts/DataContext.tsx:99 | `Object.entries` of the hour histogram lists only keys of the histogram |
| `Timing.HourOrderListsHours` | src/contexts/DataContext.tsx:99 | every hour with an entry is listed |
| `Timing.HourOrderDistinct` | src/contexts/DataContext.tsx:99 | no hour is listed twice |
| `Timing.HourOrderComplete` | src/contexts/DataContext.tsx:99 | the listed keys are exactly the keys of the hour histogram |
| `Timing.HistogramsAreTallies` | src/contexts/DataContext.tsx:64-91 | the hour histogram, weekday histogram and weekday order built over a list of timestamps are their tallies |
| `Timing.CountCommentActivity` | src/contexts/DataContext.tsx:81-90 | the comment loop records each comment's hour and weekday in turn |
| `Timing.CountActivity` | src/contexts/DataContext.tsx:68-91 | the post loop records each post's timestamp, then its comments' timestamps |
| `Timing.ProcessTimingAnalysis` | src/contexts/DataContext.tsx:62-108 | the result is `TimingOf(posts)`; best hours and best days run by non-increasing count; the day counts sum to posts plus comments |
| `Timing.HourlyActivitySum` | src/contexts/DataContext.tsx:68-91 | the hourly counts sum to the number of posts plus the number of comments |
| `Timing.BestDaysSum` | src/contexts/DataContext.tsx:94-96 | the best-day counts sum to the number of posts plus the number of comments |
| `Timing.BestHours` | src/contexts/DataContext.tsx:99-101 | best hours run by non-increasing count, each entry is an hour with its own count, and each hour appears exactly once |
| `Timing.BestDays` | src/contexts/DataContext.tsx:94-96 | best days run by non-increasing count, each entry is a weekday with its own count, and each weekday appears exactly once |
| `Content.LowerCase` | src/contexts/DataContext.tsx:130 | lower-casing keeps the length and maps every character through the ASCII lower-case map |
| `Content.StripNonWordMembers` | src/contexts/DataContext.tsx:131 | stripping keeps exactly the word and white-space characters |
| `Content.StripNonWordAppend` | src/contexts/DataContext.tsx:131 | stripping a concatenation strips each part, so order and repeats are kept |
| `Content.StripNonWordChar` | src/contexts/DataContext.tsx:131 | a single character stays exactly when it is a word character or white space |
| `Content.SplitPieces` | src/contexts/DataContext.tsx:132 | splitting on white-space runs loses exactly the white space: the pieces joined are the non-space characters in order, and no piece holds white space |
| `Content.SplitChar` | src/contexts/DataContext.tsx:132 | a white-space character splits into two empty pieces, any other character into itself |
| `Content.SplitAppend` | src/contexts/DataContext.tsx:132 | the pieces of a concatenation are those of its parts, with the last piece of the first run on into the first piece of the second, or the two empty pieces at a merged white-space run collapsed into one; with `SplitChar` this fixes every split |
| `Content.SplitFirst` | src/contexts/DataContext.tsx:132 | the first piece is empty exactly when the string is empty or starts with white space, and a leading run gives at least two pieces |
| `Content.SplitLast` | src/contexts/DataContext.tsx:132 | the last piece is empty exactly when the string is empty or ends with white space, and a trailing run gives at least two pieces |
| `Content.LongWordsMembers` | src/contexts/DataContext.tsx:133 | exactly the words longer than three characters are kept |
| `Content.LongWordsAppend` | src/contexts/DataContext.tsx:133 | filtering a concatenation filters each part, so the kept words keep their order |
| `Content.LongWordsCount` | src/contexts/DataContext.tsx:133 | a word longer than three characters is kept as often as it occurs, any other word never |
| `Content.WordsAreKeywords` | src/contexts/DataContext.tsx:129-133 | every word a caption yields is longer than three characters and is made of lower-case letters, digits and underscores |
| `Content.ProcessContentAnalysis` | src/contexts/DataContext.tsx:111-162 | the result is `ContentOf(posts)` |
| `Content.PostingFrequencySum` | src/contexts/DataContext.tsx:117-160 | the posts per account sum to the number of posts, which is `totalPosts` |
| `Content.ContentAppend` | src/contexts/DataContext.tsx:117-119 | one more post adds one to its owner's post count and to `totalPosts` |
| `Content.CaptionlessAppend` | src/contexts/DataContext.tsx:121-122 | a post without a caption changes no keyword figure |
| `Content.KeywordsAreWords` | src/contexts/DataContext.tsx:129-143 | every counted keyword, overall or per month, is a keyword as above |
| `Content.KeywordMonthSum` | src/contexts/DataContext.tsx:135-143 | a keyword's per-month counts sum to its overall count |
| `Content.KeywordPercentages` | src/contexts/DataContext.tsx:147-153 | every keyword has a percentage, equal to its count over the keyword total times 100, and the percentages sum to 100 |
| `Engagement.PushComments` | src/contexts/DataContext.tsx:169-180 | the comment loop appends one record per comment, in order |
| `Engagement.ProcessEngagementData` | src/contexts/DataContext.tsx:165-189 | the result is `EngagementOf(posts)`: one record per comment, a permutation of the push order, newest first |
| `Engagement.EngagementLength` | src/contexts/DataContext.tsx:168-181 | the list has as many records as there are comments |
| `Engagement.EngagementSorted` | src/contexts/DataContext.tsx:184-186 | the list runs from the newest comment to the oldest |
| `Engagement.FlattenAt` | src/contexts/DataContext.tsx:168-181 | in push order, comment `j` of post `i` gives the record at offset `i`'s comment count plus `j` |
| `Engagement.EngagementOrigin` | src/contexts/DataContext.tsx:170-179 | every record comes from one comment of one post, with the comment's id, author, text, time and likes (0 when absent), the post's owner and caption, and not in the cart |
| `Hashtags.ProcessHashtagAnalysis` | src/contexts/DataContext.tsx:192-230 | the result is `HashtagsOf(posts)` |
| `Hashtags.TagEventsLength` | src/contexts/DataContext.tsx:196-215 | one (month, tag) pair is counted per hashtag entry of every post |
| `Hashtags.HashtagSum` | src/contexts/DataContext.tsx:205-207 | the hashtag counts sum to the total number of hashtag entries |
| `Hashtags.UntaggedAppend` | src/contexts/DataContext.tsx:198 | a post with missing or empty hashtags changes nothing |
| `Hashtags.HashtagMonthSum` | src/contexts/DataContext.tsx:205-214 | a tag's per-month counts sum to its overall count |
| `Hashtags.HashtagPercentages` | src/contexts/DataContext.tsx:217-223 | every tag has a percentage, equal to its count over the hashtag total times 100, and the percentages sum to 100 |
| `Network.IdsDistinguish` | src/contexts/DataContext.tsx:242-270 | node ids determine the user name, and influencer ids never clash with commenter ids |
| `Network.AddCommentNodes` | src/contexts/DataContext.tsx:268-286 | the comment loop adds each commenter once and one link per comment |
| `Network.ProcessNetworkData` | src/contexts/DataContext.tsx:233-290 | the result is `NetworkOf(posts)`, with one link per post and per comment, and every link joins two existing nodes |
| `Network.AddOnceTracked` | src/contexts/DataContext.tsx:243-250 | adding a user node only when its id is new keeps the node map equal to the user-node ids, and no label twice |
| `Network.GraphTracked` | src/contexts/DataContext.tsx:240-287 | after all posts: the post nodes are one per post, the influencers are exactly the owners, the commenters exactly the comment authors, and the links are posts plus comments |
| `Network.LinkCount` | src/contexts/DataContext.tsx:260-285 | there is one link per post and one per comment |
| `Network.InfluencerNodes` | src/contexts/DataContext.tsx:241-250 | one influencer node per distinct owner, with id `influencer-<name>` |
| `Network.CommenterNodes` | src/contexts/DataContext.tsx:269-278 | one commenter node per distinct comment author, with id `commenter-<name>` |
| `Network.PostNodesOnePerPost` | src/contexts/DataContext.tsx:252-258 | exactly one post node per post, in order, with id `post-<id>` and the short code as label |
| `Network.LinksJoinNodes` | src/contexts/DataContext.tsx:260-285 | every link's source and target are nodes of the graph |
| `DataSession.ExportedEngagement` | src/contexts/DataContext.tsx:296 | a supplied engagement list is exported even when empty; otherwise the stored list is |
| `DataSession.Analyse` | src/contexts/DataContext.tsx:46-50 | the five `process*` calls compute `AnalysesOf(posts)` |
| `DataSession.Session.constructor` | src/contexts/DataContext.tsx:23-29 | the initial state is empty: no posts, every analysis null, no data, not loading |
| `DataSession.Session.LoadPosts` | src/contexts/DataContext.tsx:32-59 | a parse error or a non-array changes nothing; a parsed array becomes the posts and every analysis is recomputed from it; the state stays consistent and not loading |
| `DataSession.Session.Store` | src/contexts/DataContext.tsx:43-50 | the successful branch stores the posts and the five analyses |
| `DataSession.Session.ClearData` | src/contexts/DataContext.tsx:316-324 | after clearing there are no posts, every analysis is null, the engagement list is empty and `hasData` is false |
| `DataSession.Session.ExportReport` | src/contexts/DataContext.tsx:292-300 | the report holds the current analyses, the chosen engagement list and the export time |
| `DataSession.LoadedExport` | src/contexts/DataContext.tsx:32-59 | loading posts into a session and exporting without a supplied list gives a report with every analysis of those posts and an engagement list of one record per comment |
| `Cart.InCart` | src/contexts/CartContext.tsx:40-42 | true exactly when some item has the given id and type |
| `Cart.Removed` | src/contexts/CartContext.tsx:31 | removing never lengthens the list |
| `Cart.AddPresent` | src/contexts/CartContext.tsx:21-24 | adding a key already in the cart changes nothing |
| `Cart.AddAbsent` | src/contexts/CartContext.tsx:26 | adding a new key appends the item and keeps every earlier item where it was |
| `Cart.AddedMembership` | src/contexts/CartContext.tsx:19-28 | after an add the key is in the cart, and the keys in the cart are the old ones plus the added one |
| `Cart.AddedUnique` | src/contexts/CartContext.tsx:19-28 | adding keeps keys unique |
| `Cart.RemovedAppend` | src/contexts/CartContext.tsx:31 | removal distributes over concatenation, so the kept items keep their order |
| `Cart.RemovedCounts` | src/contexts/CartContext.tsx:31 | removal drops every item with the key and keeps every other item as often as it occurred |
| `Cart.RemovedAbsent` | src/contexts/CartContext.tsx:31 | removing an absent key changes nothing |
| `Cart.RemovedMembership` | src/contexts/CartContext.tsx:30-33 | after a remove the key is absent, and every other key is present exactly when it was before |
| `Cart.RemovedUnique` | src/contexts/CartContext.tsx:30-33 | removing keeps keys unique |
| `Cart.RunUnique` | src/contexts/CartContext.tsx:17-42 | no sequence of adds, removes and clears from an empty cart ever produces two items with the same key |
| `Cart.CartProvider.constructor` | src/contexts/CartContext.tsx:17 | the cart starts empty |
| `Cart.CartProvider.IsInCart` | src/contexts/CartContext.tsx:40-42 | true exactly when some item in the cart has the given id and type |
| `Cart.CartProvider.AddToCart` | src/contexts/CartContext.tsx:19-28 | the cart becomes the old cart with the item appended unless its key was present; keys stay unique and the key is in the cart afterwards |
| `Cart.CartProvider.RemoveFromCart` | src/contexts/CartContext.tsx:30-33 | the cart becomes the old cart without the items of that key; keys stay unique and the key is absent afterwards |
| `Cart.CartProvider.ClearCart` | src/contexts/CartContext.tsx:35-38 | the cart becomes empty |
| `DataTable.IncludesIff` | src/components/DataTable.tsx:71 | `includes` holds exactly when the needle occurs at some position |
| `DataTable.FilterData` | src/components/DataTable.tsx:123-124 | filtering never lengthens the list |
| `DataTable.KeptIndices` | src/components/DataTable.tsx:64-80 | each kept row is a matching row of the data, taken at strictly increasing positions |
| `DataTable.FilterIsSubsequence` | src/components/DataTable.tsx:123-124 | the filtered list is a subsequence of the data |
| `DataTable.FilterMembership` | src/components/DataTable.tsx:64-80 | a row is kept exactly when it is in the data and matches: an empty term, or some string field, or some string element of an array field, that contains the lower-cased term after lower-casing |
| `DataTable.FilterEmptyTerm` | src/components/DataTable.tsx:65 | with an empty term every row passes, in order |
| `DataTable.FilterAppend` | src/components/DataTable.tsx:123-124 | filtering distributes over concatenation |
| `DataTable.FilterCaseInsensitive` | src/components/DataTable.tsx:67-77 | two terms that lower-case alike keep the same rows, and so do a term and its lower-cased form |
| `DataTable.ProcessedData` | src/components/DataTable.tsx:123-125 | sorting keeps the number of filtered rows |
| `DataTable.ProcessedPermutes` | src/components/DataTable.tsx:123-125 | the processed rows are a permutation of the filtered rows |
| `DataTable.UnsortedKeepsOrder` | src/components/DataTable.tsx:84 | with no sort field the filtered rows keep their original order |
| `DataTable.NumericKeyed` | src/components/DataTable.tsx:96-98 | on a numeric column the comparator is the difference of the numbers, negated for `desc` |
| `DataTable.NumericSorted` | src/components/DataTable.tsx:96-98 | sorting on a numeric column orders rows non-decreasing for `asc` and non-increasing for `desc` |
| `DataTable.ToggleLaws` | src/components/DataTable.tsx:135-142 | a click makes its column the sort column; clicking it again flips the direction; three clicks equal one; another column always starts `asc` |
| `DataTable.TotalPages` | src/components/DataTable.tsx:128 | the page count is the least number of 10-row pages that holds all rows |
| `DataTable.SliceIndex` | src/components/DataTable.tsx:129-132 | `slice` resolves its bounds into the range of the list |
| `DataTable.PageRows` | src/components/DataTable.tsx:129-132 | a page has at most 10 rows; page `p` holds the rows from `(p - 1) * 10` on, as many as remain up to 10 |
| `DataTable.PageOfRow` | src/components/DataTable.tsx:128-132 | row `i` is entry `i % 10` of page `i / 10 + 1`, and that page is within the page count |
| `DataTable.PageClamps` | src/components/DataTable.tsx:281-291 | with at least one page, Previous and Next keep the page in range and move by one unless already at that end |
| `DataTable.PastLastPage` | src/components/DataTable.tsx:129-132 | a page past the last one shows no rows, and Next from there would go to the last page |
| `DataTable.TableView.constructor` | src/components/DataTable.tsx:55-59 | the initial state has no search and no sort field, `desc` and page 1, so all data shows in input order |
| `DataTable.TableView.SetData` | src/components/DataTable.tsx:42-59 | a new `data` prop replaces the rows and leaves the search, the sort and the page as they were |
| `DataTable.TableView.HandleSort` | src/components/DataTable.tsx:135-142 | the sort state becomes the toggle of the old one; the page and the number of pages stay as they were |
| `DataTable.TableView.SetSearchTerm` | src/components/DataTable.tsx:175-178 | a new search term resets the page to 1 |
| `DataTable.TableView.Previous` | src/components/DataTable.tsx:281 | the page becomes `max(1, p - 1)`: still at least 1, and still on a page if it was |
| `DataTable.TableView.Next` | src/components/DataTable.tsx:290 | the page becomes `min(totalPages, p + 1)`, a page that exists, from any page |
| `JsRecords.CountAgrees` | src/contexts/DataContext.tsx:137 | on a key that `Object.prototype` does not define, one `(m[k] \|\| 0) + 1` on a `{}` of numbers is the histogram's increment |
| `JsRecords.TallyAgrees` | src/contexts/DataContext.tsx:135-138 | while no key is a name `Object.prototype` defines, the `{}` counter equals the histogram `Counting.Tally` |
| `JsRecords.ConstructorKey` | src/contexts/DataContext.tsx:137-152 | the word "constructor" leaves a string under its key and makes the value sum a string |
| `JsRecords.ProtoKey` | src/contexts/DataContext.tsx:137 | the increment under "__proto__" computes the string "[object Object]1", which is not stored, so the word is never counted |
| `JsRecords.InheritedTag` | src/contexts/DataContext.tsx:207 | the hashtag "toString" twice leaves a string under its key where the histogram has 2 |

## Left out

- JSON parsing is left out: `JSON.parse` is a foreign call. `loadPosts` takes its outcome as input: a syntax error, a non-array value, or a list of posts.
- Dates and locale are left out: `new Date`, `getHours`, `toLocaleDateString` and `toLocaleString` depend on time zone and locale. Each post and comment carries an abstract `Stamp` (hour, weekday name, year-month, instant) instead.
- Engagement.ProcessEngagementData: sorts on the comment's instant. The source sorts on `Date` re-parsed from the `toLocaleString` text, which can lose precision or fail. The record's `datetime` is that instant, not the locale string.
- Partial failure inside a load is left out: a post without `latestComments` makes an aggregator throw after `setPosts`. The model assumes well-formed posts, as the declared types require.
- Floating point is left out: percentages are exact `real`s, so "sums to 100" holds exactly rather than within rounding.
- Content.LowerCase: lower-cases ASCII letters only; the other `toLowerCase` mappings (accented and non-Latin capitals) are not modelled. `\w` without the `u` flag is ASCII only, and `IsSpace` is the full ECMAScript `\s` set, so the stripping and the split need nothing more.
- Content.KeywordPercentages: the keys of `keywordsPercentage` come in `Object.entries` order of `keywords`. The sum is stated over any duplicate-free listing of the keys, so it holds whatever the order.
- Content.ProcessContentAnalysis: `ContentOf` counts keywords and owner names in maps without inherited keys, which is what the counters are meant to be. The source counts them in `{}` objects. There a keyword "constructor" is stored as a string, which makes the keyword total a string and every keyword percentage `NaN`. An owner "constructor" is likewise stored as a string in `postingFrequency`, which has no total. A keyword or owner "__proto__" is never counted. `JsRecords` models that behaviour (see "Findings"), and `JsRecords.TallyAgrees` shows the two agree when no such name occurs.
- Hashtags.ProcessHashtagAnalysis: `HashtagsOf` counts in maps without inherited keys, as above. Hashtags are stored as written, so every name `Object.prototype` defines ("constructor", "toString", "valueOf", "hasOwnProperty", "__proto__" and the rest) behaves differently in the source. `JsRecords.InheritedTag` shows one.
- Network.ProcessNetworkData: the `nodeMap` of the source is a set of ids; the stored `true` values are never read.
- DataSession.Session.LoadPosts: the intermediate `isLoading = true` state is not visible after the call, and with React batching it is not visible between renders either. A failed load writes no field besides the loading flag, which ends as it started.
- DataSession.Session.Valid: the derivation of the analyses is stated over every list equal to the posts. This only controls when the verifier unfolds it and says nothing less.
- The render-time closure of `isInCart` is left out: two adds in one tick could both pass the duplicate check. That is a scheduling artefact, and the model runs the calls one after another.
- DataTable.ProcessedData: `localeCompare` is locale-dependent, so it is a parameter of the table.
- DataTable.NumericSorted: numbers are integers. NaN, infinities and fractional values are left out.
- DataTable.ProcessedData: on columns that mix kinds, the comparator is not a consistent order, and the engine's result is implementation-defined. The model fixes it to that of a stable insertion sort.
- The date-string branch of `sortData` is left out: it is unreachable, because two strings already return from the `localeCompare` branch.
- DataTable.TableView.Next: requires at least one page, because the Next button is only rendered when there are more pages than one.
- DataTable.TableView.SetData: a new `data` prop does not reset the page (there is no `key` on the table in `ChartWithTable`), so the page can be past the last page. `OnAPage` is therefore not an invariant of the view. `SetSearchTerm` and `Next` are the operations proved to re-establish it; `Previous` and `HandleSort` are only proved to preserve it, and a later `SetData` with more rows is not proved to restore it. In the source, Next is disabled on such a page, and Previous, enabled whenever there is more than one page, steps back one page per click towards the last page.
- UI handlers of the table are left out: `selectedItem`, `handleAddToCart` and `handleViewDetails` only open dialogs or forward to the cart.
- The "Showing a–b of n" caption is left out: it is rendering text.
- I/O and notifications are left out: toasts, logging, and the Blob and download steps of `exportReport`. The `exportedAt` clock reading is a parameter.
- Rendering, authentication and meme generation are left out: charts, graph layout, pages, `AuthContext` and `MemeContext` are outside this model.

## Findings

| source | as written | input that shows it | evidently intended | confidence | as-written member | corrected member |
|---|---|---|---|---|---|---|
| src/contexts/DataContext.tsx:137-152 | `keywords[word] = (keywords[word] \|\| 0) + 1` on a `{}` reads the `constructor` every object inherits | a caption "constructor": the count becomes the string "function Object() { [native code] }1", the total "0function Object() { [native code] }1", and every percentage `NaN` | a count of 1, and percentages that sum to 100 | high, not executed | `JsRecords.ConstructorKey` | `Counting.Tally` |
| src/contexts/DataContext.tsx:137 | the assignment under `__proto__` goes to the prototype setter, which ignores the string "[object Object]1" that `Object.prototype + 1` gives, as it ignores every non-object | a caption "__proto__": the word is not counted at all | a count of 1 | high, not executed | `JsRecords.ProtoKey` | `Counting.Tally` |
| src/contexts/DataContext.tsx:207 | `hashtags[tag] = (hashtags[tag] \|\| 0) + 1` on a `{}`, with tags stored as written | two posts tagged "toString": the count becomes the string "function toString() { [native code] }11" | a count of 2 | high, not executed | `JsRecords.InheritedTag` | `Counting.Tally` |
