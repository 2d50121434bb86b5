# News aggregator: content assembly

A Dafny model of the content-assembly policy behind the news aggregator's
`GET /api/news` endpoint (`server.js`). The endpoint asks a third-party
top-headlines service for a category, normalises what comes back into the
canonical article shape, and reconciles that live list with a fixed fallback
corpus:

- a live list of at least 8 articles is sent as it is;
- a shorter live list is followed by the fallback, de-duplicated by exact
  title (first occurrence wins);
- when the upstream call threw or returned no articles, the fallback alone
  is sent;
- every response is cut to 20 articles.

The fallback for `All` is the whole 26-article corpus in random order, cut
to 20. A known category gets its own list, and any other key gets the
Technology list.

Modules:

- `Articles`: the canonical `Article`, JavaScript `slice(0, n)` (`Take`),
  title sets, subsequences.
- `Categories`: the `category` query default and the category table.
- `Normalisation`: the upstream entry shape, the title filter and the
  placeholder defaults.
- `TitleDedup`: the `filter`/`findIndex` de-duplication as written, proved
  equal to a one-pass "skip titles already seen" walk.
- `Shuffling`: the random order of the `All` fallback. The random outcome
  is a sequence of draws. Every draw sequence gives a permutation, and
  every permutation is given by some draw sequence.
- `FallbackCorpus`: the 26 fallback articles and `getEnhancedFallbackArticles`.
- `NewsHandler`: the handler as a method over the same locals as the
  source (`articles`, `usedNewsAPI`). It is proved equal to the function
  `NewsResponse`, and the reconciliation properties are proved about that
  function.

The things the handler cannot compute become inputs:

- the upstream call's outcome (`Upstream`: it threw, or it responded with
  an `articles` field that may be missing);
- the clock (`now`);
- the shuffle's randomness (`draws`).

Where the documented behaviour and the code differ, the model follows the
code:

- A live list of 8 or more articles is sent without de-duplication. A
  response can therefore repeat a title when the upstream list does.
  `NewsHandler.SufficientLiveKeepsDuplicates` exhibits such a request.
  `NewsHandler.ResponseUniqueTitles` proves distinct titles in every other
  case.
- A live article's `category` (and the prefix of its id) is the requested
  string verbatim. That string may be `All`, or a key the category table
  does not know. It is not the upstream category.

## Model

| member | source | states |
|---|---|---|
| Articles.Take | server.js:88 | `slice(0, n)`: at most `n` elements, the whole list when it is short enough, otherwise exactly the first `n` |
| Articles.TakeUnique | server.js:79 | cutting a list keeps its titles distinct |
| Categories.RequestedCategory | server.js:26 | a missing `category` parameter means `All`; a present one is used as given |
| Categories.UpstreamCategory | server.js:27 | the upstream category is always in the upstream vocabulary; an unknown key maps to `general` |
| Categories.UpstreamCategoryTable | server.js:14-21 | the six table entries, and the result is `general` exactly for `All` and for keys outside the table |
| Normalisation.Eligible | server.js:48 | the filter predicate `article.title && article.title !== '[Removed]'`; it has no contract of its own, and `Eligibles` and `EligiblesCounts` state what filtering by it keeps |
| Normalisation.Eligibles | server.js:48 | the kept entries all have a usable title, every upstream entry with a usable title is kept, and they keep their upstream order (a subsequence) |
| Normalisation.EligiblesCounts | server.js:48 | the filter keeps each usable entry exactly as many times as the payload holds it, and drops every other entry |
| Normalisation.ToArticle | server.js:49-58 | the `map` callback that builds one canonical article; it has no contract of its own, and `NormalisedFields` states every field it produces |
| Normalisation.Normalise | server.js:47-58 | at most as many articles as entries; each has a non-empty title other than `[Removed]` and the requested category |
| Normalisation.NormalisedFields | server.js:49-58 | article `i` comes from surviving entry `i`: its title, and its description, source name, url, image and publication time when present; otherwise the placeholders `No description available`, `Unknown source`, `#`, no image and the clock time; id ordinal `i + 1` |
| Normalisation.NormalisedTitles | server.js:48-51 | the live titles are exactly the titles of the usable upstream entries |
| Normalisation.LiveIdsDistinct | server.js:50 | live ids are pairwise distinct within a response |
| Normalisation.EligiblesOfEligible | server.js:48 | a payload whose entries all have usable titles is kept whole, in order |
| Normalisation.NoneEligible | server.js:48 | a payload with no usable title normalises to the empty list |
| TitleDedup.FindIndex | server.js:77 | `findIndex`: the first position with the title, or -1 when there is none |
| TitleDedup.FirstOccurrences | server.js:76-78 | the `filter` with its `findIndex` test, as written, over the first `n` positions; it has no contract of its own, and `FirstOccurrencesStep`, `FirstOccurrencesIsDistinct` and `FirstOccurrencesKeepFirst` state what it keeps |
| TitleDedup.DedupByTitle | server.js:76-78 | the de-duplication as written; it has no contract of its own, and `DedupIsDistinct`, `DedupProperties`, `DedupKeepsFirst` and `DedupIdempotent` state what it keeps |
| TitleDedup.FirstOccurrencesStep | server.js:76-78 | the filter keeps the article at a position exactly when no earlier article carries its title |
| TitleDedup.FirstOccurrencesIsDistinct | server.js:76-78 | the filter over any prefix equals the "skip titles already seen" walk over that prefix |
| TitleDedup.DedupIsDistinct | server.js:76-78 | the de-duplication equals the "skip titles already seen" walk |
| TitleDedup.DistinctAppend | server.js:74-78 | walking a concatenation walks the second part with the first part's titles already seen |
| TitleDedup.DistinctTitles | server.js:76-78 | the walk keeps exactly the titles not seen before |
| TitleDedup.DistinctUnique | server.js:76-78 | the walk never keeps two articles with one title, nor a title already seen |
| TitleDedup.DistinctSubsequence | server.js:76-78 | the walk only deletes: a subsequence, never longer |
| TitleDedup.DistinctOfUnique | server.js:76-78 | a list with distinct, unseen titles passes unchanged |
| TitleDedup.DedupProperties | server.js:76-78 | the de-duplicated list has distinct titles, loses no title, and is a subsequence of the input |
| TitleDedup.FirstOccurrencesKeepFirst | server.js:76-78 | every article the filter keeps from a prefix is the first article with its title |
| TitleDedup.DedupKeepsFirst | server.js:76-78 | every kept article is the first input article with its title |
| TitleDedup.DedupIdempotent | server.js:76-78 | de-duplicating twice equals de-duplicating once |
| TitleDedup.DedupAppend | server.js:74-78 | de-duplicating `live ++ fallback` gives the de-duplicated live list first, then the fallback articles with new titles |
| Shuffling.Shuffle | server.js:322 | the random reordering keeps the length |
| Shuffling.ShufflePermutes | server.js:322 | the reordering is a permutation (same multiset) |
| Shuffling.ShuffleReachesEveryOrder | server.js:322 | every permutation is produced by some draws |
| Shuffling.ShuffleMembers | server.js:322 | the shuffled list has the same members |
| Shuffling.ShuffleKeepsKeysDistinct | server.js:322 | distinct keys stay distinct after shuffling |
| FallbackCorpus.TechnologyList | server.js:99-148 | six articles, each with category `Technology` and a non-empty title |
| FallbackCorpus.BusinessList | server.js:149-190 | five articles, each with category `Business` and a non-empty title |
| FallbackCorpus.ScienceList | server.js:191-232 | five articles, each with category `Science` and a non-empty title |
| FallbackCorpus.SportsList | server.js:233-274 | five articles, each with category `Sports` and a non-empty title |
| FallbackCorpus.EntertainmentList | server.js:275-316 | five articles, each with category `Entertainment` and a non-empty title |
| FallbackCorpus.TechnologyListStamps | server.js:99-148 | article `i` (from 0) has id `tech-now-(i+1)`, is stamped `i` hours before `now`, and has no url or image |
| FallbackCorpus.TechnologyListTitles | server.js:99-148 | the Technology titles, in order |
| FallbackCorpus.BusinessListStamps | server.js:149-190 | article `i` (from 0) has id `biz-now-(i+1)`, is stamped `i` hours before `now`, and has no url or image |
| FallbackCorpus.BusinessListTitles | server.js:149-190 | the Business titles, in order |
| FallbackCorpus.ScienceListStamps | server.js:191-232 | article `i` (from 0) has id `sci-now-(i+1)`, is stamped `i` hours before `now`, and has no url or image |
| FallbackCorpus.ScienceListTitles | server.js:191-232 | the Science titles, in order |
| FallbackCorpus.SportsListStamps | server.js:233-274 | article `i` (from 0) has id `sports-now-(i+1)`, is stamped `i` hours before `now`, and has no url or image |
| FallbackCorpus.SportsListTitles | server.js:233-274 | the Sports titles, in order |
| FallbackCorpus.EntertainmentListStamps | server.js:275-316 | article `i` (from 0) has id `ent-now-(i+1)`, is stamped `i` hours before `now`, and has no url or image |
| FallbackCorpus.EntertainmentListTitles | server.js:275-316 | the Entertainment titles, in order |
| FallbackCorpus.CorpusList | server.js:325 | a key has a list exactly when it is one of the five corpus keys; that list holds 5 or 6 articles, all of that category |
| FallbackCorpus.Flattened | server.js:321 | the flattened corpus holds 26 articles, all with non-empty titles |
| FallbackCorpus.FallbackArticles | server.js:319-325 | the fallback is never empty and never longer than 20; for `All` it is exactly 20 long |
| FallbackCorpus.TitlesWithinLists | server.js:98-317 | no list of the corpus repeats a title |
| FallbackCorpus.TitlesAcrossLists1 | server.js:98-232 | the Technology, Business and Science lists share no title |
| FallbackCorpus.TitlesAcrossLists2 | server.js:98-274 | the Sports list shares no title with the lists before it |
| FallbackCorpus.TitlesAcrossLists3 | server.js:98-316 | the Entertainment list shares no title with the lists before it |
| FallbackCorpus.CorpusTitlesDistinct | server.js:98-317 | the 26 corpus titles are pairwise distinct |
| FallbackCorpus.CorpusUniqueTitles | server.js:321 | no two articles of the flattened corpus share a title |
| FallbackCorpus.ListsUniqueTitles | server.js:98-317 | no category list repeats a title |
| FallbackCorpus.FallbackForKnownKey | server.js:325 | a corpus key selects its own list, all of whose articles carry that key |
| FallbackCorpus.FallbackForUnknownKey | server.js:325 | any other key except `All` selects the Technology list |
| FallbackCorpus.FallbackForAll | server.js:319-322 | for `All`: the first 20 of a shuffle of the corpus, a sub-multiset of the corpus, with no repeated title |
| FallbackCorpus.ShuffledCut | server.js:322 | cutting a shuffle to 20 gives a sub-multiset and keeps titles distinct |
| FallbackCorpus.FallbackAllReachesEveryOrder | server.js:322 | every ordering of the corpus, cut to 20, is a possible `All` fallback |
| FallbackCorpus.FallbackTitlesNonEmpty | server.js:319-325 | every fallback article has a non-empty title |
| FallbackCorpus.FallbackUniqueTitles | server.js:319-325 | the fallback never repeats a title, whatever the key |
| NewsHandler.UpstreamQuery | server.js:36-44 | the upstream is asked for the mapped category (`general` for an unknown key), 15 articles, English, with a 5000 ms timeout |
| NewsHandler.Fetch | server.js:46-60 | the live list is used exactly when the upstream responded with a non-empty `articles` array, and is then the normalisation of that array; its articles are no more than the entries, have usable titles and the requested category, and have live ids |
| NewsHandler.Assembled | server.js:69-86 | the reconciliation if-cascade, giving the list before the final cut; it has no contract of its own, and `SufficientLiveVerbatim`, `NotUsedIsFallback`, `MixedLiveFirst` and `AssembledUniqueTitles` state what each branch gives |
| NewsHandler.NewsResponse | server.js:24-88 | a response never has more than 20 articles |
| NewsHandler.ServeNews | server.js:24-88 | the handler makes the upstream request for the mapped category, and its body is `NewsResponse` (at most 20 articles) |
| NewsHandler.SufficientLiveVerbatim | server.js:69-88 | a live list of 8 or more is sent cut to 20, with nothing from the fallback |
| NewsHandler.NotUsedIsFallback | server.js:81-88 | without live results the fallback is sent cut to 20, not de-duplicated |
| NewsHandler.MixedLiveFirst | server.js:72-79 | a live list under 8: the de-duplicated live list comes first, then the fallback articles with new titles; every live title survives, no title repeats, and every article comes from the live list or the fallback |
| NewsHandler.MixedNoOverlap | server.js:72-79 | distinct live titles that the fallback does not repeat: the response is live followed by fallback, cut to 20 |
| NewsHandler.AssembledUniqueTitles | server.js:69-88 | the response repeats no title, unless a live list of 8 or more repeats one |
| NewsHandler.SufficientLiveKeepsDuplicates | server.js:69-88 | eight upstream entries with one title give a response of eight articles that repeats that title |
| NewsHandler.ResponseNonEmpty | server.js:24-88 | every response holds at least one article, and every article has a non-empty title |
| NewsHandler.FailedFetchServesFallback | server.js:64-88 | a thrown call, a missing `articles` field or an empty one gives exactly the category's fallback |
| NewsHandler.AllWithoutUpstream | server.js:319-322 | `All`, requested explicitly or by default, without live results: 20 corpus articles with distinct titles |
| NewsHandler.AllRemovedServesFallback | server.js:46-79 | a payload whose every title is missing or `[Removed]` still counts as used, and the response is exactly the fallback |
| NewsHandler.EmptyLiveKeepsFallback | server.js:72-79 | an empty used live list leaves a fallback that has distinct titles unchanged |
| NewsHandler.ShortLiveMixes | server.js:69-79 | a live list under 8 gives its de-duplication followed by the fallback articles with new titles, cut to 20; every live title is in the response and none repeats |
| NewsHandler.SufficientLiveServed | server.js:69-88 | a live list of 8 or more is the response, cut to 20; every article has a live id and the requested category |
| NewsHandler.ResponseUniqueTitles | server.js:69-88 | the response repeats no title, unless the upstream sent 8 or more usable entries that repeat one |

## Left out

- Express plumbing is not modelled: routing, CORS, JSON parsing, the port and `listen`.
- The upstream HTTP call is not modelled: its URL, the API key and the timeout's effect are not represented. Its outcome is the input `Upstream`; `UpstreamQuery` records what is asked.
- Upstream payload entries that are `null`, and fields with non-string values, are not modelled. A `null` entry makes the filter throw inside the inner `try`, which the source treats like a failed call; such a payload is represented as `Threw`.
- `Date.now()` and `new Date()` are not read per article. One clock reading `now` serves a whole request, so the ids and timestamps of one response share it. ISO date formatting is represented by the `ClockIso` value rather than text.
- `Math.random()` inside the sort comparator is not modelled. The outcome of the random order is the input `draws`; the model admits every permutation (`ShuffleReachesEveryOrder`) and nothing else (`ShufflePermutes`). It does not model the bias of a random comparator.
- Keys inherited from `Object.prototype` (such as `constructor`, `toString` or `__proto__`) are not modelled. In JavaScript they make `categoryMap[category]` and `enhancedMockArticles[category]` non-undefined, so the fallback for such a key is a function or `Object.prototype` rather than an article list. Unless the live list has 8 or more articles, spreading it (server.js:74) or calling `slice` on it (server.js:88) then throws, and the source answers through the outer `catch` (server.js:90-92) with that same non-list value. It does not send the Technology list. The model treats these keys like any other unknown key and sends the Technology list.
- A `category` query value that is not a string is not modelled: a repeated parameter (an array) or a bracketed one such as `?category[toString]=x` (an object, under the extended query parser). The query is a single optional string. Converting an object value to a property key at server.js:27 throws, so the outer `catch` is reached, and it throws again at server.js:325, so no response is sent.
- The outer `catch` of the handler (server.js:90-92) is not modelled. With the upstream outcome as an input, it is reachable, among string queries, only through the `Object.prototype` keys above; it is left out with them and with the non-string values above.
- `/api/summarize` and `/api/health` are not modelled; they are outside the content-assembly policy.
- Logging is not modelled.
- The JSON difference between `imageUrl: null` (live articles) and an absent field (corpus articles) is not modelled: both are `None`.
