# 301tube crawler and ranking, modelled in Dafny

301tube looks for YouTube videos whose view count has stalled at exactly
301. That is the count at which YouTube used to freeze public views while it
audited a video. The crawler collects candidate video ids in three ways:

- a YouTube search over a recent time window, followed page by page;
- the YouTube links posted to a set of subreddits;
- the YouTube embed frames of Digg's video stories.

Each candidate goes through the same gates:

- It is skipped if it is already in the Redis blacklist set `filteredVideoIds`.
- It is skipped if a Video record already holds it.
- Otherwise its statistics and its channel's statistics are fetched.
- It is blacklisted when either reply is empty or its view count is
  numerically above 301.
- It is saved when the API's view-count string is exactly `"301"`.
- Anything else is ignored.

Periodic jobs then work on the stored records:

- `updateAll301` refreshes every active record stored at 301, in batches of
  50 ids. It pushes a history sample when a count changed. At the end it
  deactivates every record whose stored count is above 301.
- `archiveOldVideos` marks inactive, old records as archived.
- `updateTopPredictedViews` picks the records that get a view prediction.

The web side ranks active records with enough history and likes. The score
combines the vote balance, a factor that shrinks with channel size, a bonus
for sources other than YouTube search, and a reward for exponential growth.
The ranking is cached in memory until it is regenerated.

The model has six modules:

- `JsSemantics`: the JavaScript and library behaviour the code depends on.
  - Comparing a string with a number (`ToNumber`), and `parseInt`.
  - Comparing two strings, which is lexicographic (`StringLess`).
  - Case-insensitive regular-expression literals, `[\w-]` runs and `.`.
  - lodash `_.unique`, `_.difference` and `_.filter`/`_.map`.
  - The batches that `async.cargo` forms.
- `VideoModel`: the stored record and the ranking map function as real
  arithmetic. It includes the `RankingCache` class, whose field is the
  module-level `_rankedModel`.
- `CrawlerRules`: the pure decisions of the crawler, as functions with their
  lemmas:
  - the classification;
  - the record `Video.create` stores;
  - one step of the search loop, and the loop over a reply sequence;
  - the update objects of the two maintenance jobs, and how Mongo applies
    them;
  - the fold over cargo batches;
  - the final sweep;
  - the three selection queries.
- `Crawler`: the `Crawler` class. Its state is the blacklist (a `set`) and
  the Video collection (a `map` from video id to record). Each pipeline step
  is a method that changes them, with loops where the source iterates.
- `Reddit` and `Digg`: the two link patterns, matched with the backtracking
  order of section 22.2 of ECMA-262, and the two scrapers.

External services are parameters:

- The YouTube API is a `YouTubeApi` value. It maps an id or a batch to a
  reply, or to a failure.
- Search pages are a finite sequence of replies.
- The order in which Mongo returns records is a sequence of ids.
- The pages and frames the scrapers fetched are sequences of optional link
  lists.
- The clock is an integer number of milliseconds.
- The regressions and `Math.log` of the ranking are function parameters.

## Model

| member | source | states |
|---|---|---|
| JsSemantics.ToNumber | 301tube/Crawler.js:88 | a view-count string converts to its decimal value exactly when it is a digit string; "" converts to 0; anything else is NaN |
| JsSemantics.StringGreaterThanNumber | 301tube/Crawler.js:88 | definition of `s > n` for a string and a number: ToNumber of the string compared with n, false on NaN; `CrawlerRules.Classify` states its consequences |
| JsSemantics.ParseInt | 301tube/Crawler.js:254 | in the model, NaN exactly when the string does not begin with a digit, and otherwise the value of its leading digits (see Left out for the prefixes `parseInt` also reads) |
| JsSemantics.ParseIntOfDigits | 301tube/Crawler.js:254 | `parseInt` of a digit string is its decimal value |
| JsSemantics.ParseIntOfNumber | 301tube/Crawler.js:254 | `parseInt(String(n)) === n` for every stored count n, so an unchanged count never looks changed |
| JsSemantics.NatToString | 301tube/Crawler.js:254 | `String(n)` of a count is a digit string without a leading zero whose value is n |
| JsSemantics.StringLessSameLengthDigits | 301tube/Crawler.js:270 | for digit strings of the same length, string order is numeric order |
| JsSemantics.StringLessIrreflexive | 301tube/Crawler.js:270 | no string is less than itself |
| JsSemantics.StringLessCommonPrefix | 301tube/Crawler.js:270 | a common prefix does not change the string order |
| JsSemantics.StringLessExtend | 301tube/Crawler.js:270 | strings of the same length that differ keep their order when a character is appended to each |
| JsSemantics.StringLessTotal | 301tube/Crawler.js:270 | of two different strings of the same length, one is less than the other |
| JsSemantics.StringLess | 301tube/Crawler.js:270 | definition of `a < b` on two strings: first differing character decides, a proper prefix is smaller; the StringLess lemmas above state its properties |
| JsSemantics.StringOrderIsNotNumericOrder | 301tube/Crawler.js:270 | "1000" < "999" as strings although 1000 > 999 as numbers |
| JsSemantics.LeadingDigits | 301tube/Crawler.js:254 | the digit prefix `parseInt` reads is maximal |
| JsSemantics.RunEnd | 301tube/Reddit.js:23 | the end of the maximal `[\w-]` run from a position |
| JsSemantics.IndexOfIgnoringCase | 301tube/models/Video.js:135 | the first position where a literal occurs ignoring case, or none if it occurs nowhere |
| JsSemantics.Unique | 301tube/Reddit.js:31 | `_.unique` keeps exactly the same elements, without duplicates |
| JsSemantics.Difference | 301tube/Crawler.js:191 | `_.difference(a, b)` is empty exactly when every element of a is in b, and holds only elements of a that are not in b |
| JsSemantics.FilterMap | 301tube/Reddit.js:22-25 | the filtered-and-mapped list holds exactly the captures of the elements that have one, and is no longer than its input |
| JsSemantics.Batches | 301tube/Crawler.js:348-403 | `async.cargo` splits the ids into non-empty batches of at most 50 whose concatenation is the input |
| JsSemantics.FlattenAppend | 301tube/Crawler.js:348-403 | appending a batch appends its ids to the flattened list |
| VideoModel.SourceName | 301tube/models/Video.js:65 | the stored source string is "youTube" exactly for YouTube search |
| VideoModel.BaseScalingFactor | 301tube/models/Video.js:59-63 | the base factor lies in [0.6, 1], and is 0.6 above 300000 subscribers |
| VideoModel.BaseScalingFactorContinuousAndDecreasing | 301tube/models/Video.js:59-63 | the base factor never grows with more subscribers, and both branches agree at 300000 |
| VideoModel.SourceBonus | 301tube/models/Video.js:65-67 | the bonus is 0.05 exactly for sources other than "youTube" |
| VideoModel.Sign | 301tube/models/Video.js:69-74 | y is -1, 0 or 1, is 0 exactly for a zero vote score, and y times the score is its absolute value |
| VideoModel.RDiff | 301tube/models/Video.js:92 | rDiff is never negative; it is positive exactly when rExp > rLin and rExp >= 0.8, and is then rExp - rLin |
| VideoModel.ScalingFactorParts | 301tube/models/Video.js:58-94 | the factor is at least 0.6, exceeds the no-fit factor by 5 * rDiff, and carries the 0.05 source bonus |
| VideoModel.ScalingFactor | 301tube/models/Video.js:58-94 | definition: base factor plus source bonus plus 5 * rDiff; ScalingFactorParts and ExponentialFitIsRewarded state its properties |
| VideoModel.ExponentialFitIsRewarded | 301tube/models/Video.js:92-94 | a record whose exponential fit qualifies scores a higher factor than it does with a linear fit |
| VideoModel.MaxOne | 301tube/models/Video.js:96 | the argument of the logarithm is at least 1 |
| VideoModel.TimeDiffSecs | 301tube/models/Video.js:55 | definition: publication time in seconds minus the epoch 1427851426 |
| VideoModel.Score | 301tube/models/Video.js:96 | definition: factor times log10 of max(abs(votes), 1), plus sign times the time term over 45000; ScoreOfFewVotes states its small-vote case |
| VideoModel.ScoreOfFewVotes | 301tube/models/Video.js:96 | with a vote score of -1, 0 or 1 the logarithm term vanishes and the score is the signed time term |
| VideoModel.HistoricalScoreData | 301tube/models/Video.js:81-82 | one point per history sample; the first is at time 0; each point's votes are likes minus dislikes |
| VideoModel.Rank | 301tube/models/Video.js:99-113 | the emitted document copies the id, statistics and source, with rDiff >= 0, a factor >= 0.6, and rDiff > 0 exactly when the exponential fit qualifies |
| VideoModel.EligibleForRanking | 301tube/models/Video.js:126-137 | definition of the ranking query: a fifth sample, at least 25 likes, active, no keyword in the title; Rankings and RankingsAreFiltered state its consequences |
| VideoModel.Rankings | 301tube/models/Video.js:126-137 | the ranked ids are exactly the eligible stored ids, each ranked by the map function |
| VideoModel.RankingsAreFiltered | 301tube/models/Video.js:126-137 | a ranked record is active, has at least 5 samples and at least 25 likes; a title containing "movie" in any case is never ranked |
| VideoModel.RankingCache.constructor | 301tube/models/Video.js:8 | the cache starts empty |
| VideoModel.RankingCache.RegenerateRankings | 301tube/models/Video.js:118-146 | on success the cache and the result are the rankings; on failure the cache is cleared |
| VideoModel.RankingCache.GetRankedModel | 301tube/models/Video.js:46-52 | a cached ranking is returned unchanged; otherwise the rankings are regenerated |
| CrawlerRules.Classify | 301tube/Crawler.js:86-95 | blacklist exactly when a reply is empty or the view count is numerically above 301; save exactly when both replies are non-empty and the count string is "301" |
| CrawlerRules.TargetSpelling | 301tube/Crawler.js:90 | "301" is the digit string whose number is 301 |
| CrawlerRules.ClassifyByViewCount | 301tube/Crawler.js:86-95 | for digit counts: above 301 is blacklisted, below 301 is ignored, a saved video has exactly 301 views, and 301 spelt otherwise is ignored |
| CrawlerRules.LeadingZeroIsIgnored | 301tube/Crawler.js:88-90 | a view count of "0301" is neither saved nor blacklisted |
| CrawlerRules.CastCount | 301tube/models/Video.js:10-44 | in the model, a count string casts to a number exactly when it is a digit string, and then to its decimal value (Mongoose accepts more; see Left out) |
| CrawlerRules.CastStatistics | 301tube/models/Video.js:10-44 | the statistics cast succeeds exactly when all five counts are digit strings |
| CrawlerRules.NewRecord | 301tube/Crawler.js:27-59 | the created record has the video's id, the source, the cast statistics as its only history sample, the channel's subscriber count, and is active (the schema default); it is neither archived nor removed, values the model supplies (see Left out); creation fails exactly when a cast fails |
| CrawlerRules.SavedRecordIsExactly301 | 301tube/Crawler.js:90-91 | a saved video's stored view count is 301, with one history sample |
| CrawlerRules.TokenOf | 301tube/Crawler.js:182-185 | a next-page token that keeps the loop going is never empty |
| CrawlerRules.Continues | 301tube/Crawler.js:183-185 | definition of the `whilst` test: fewer than maxPages pages and a token or no page yet |
| CrawlerRules.PageIds | 301tube/Crawler.js:191 | the ids of a page, one per item, in order |
| CrawlerRules.NextSearchState | 301tube/Crawler.js:191-202 | definition of one iteration's bookkeeping: a repeated page only counts a repeat and takes the token; any other page counts a page, takes the token and becomes the previous page; RepeatMeansSuperset, SearchRunBounded and RepeatedPageNeverAdvances state its properties |
| CrawlerRules.SearchRun | 301tube/Crawler.js:182-206 | definition of the loop's bookkeeping over a reply sequence, stopping at the first failed call; SearchRunBounded and RepeatedPageNeverAdvances state its properties |
| CrawlerRules.KeptPages | 301tube/Crawler.js:200-206 | definition of the pages the loop hands to `_processYouTubeSearchResultsPage`: each reply the loop reaches that is not a repeat |
| CrawlerRules.KeptPagesCounted | 301tube/Crawler.js:200-206 | every page counted as loaded is exactly one kept page, and every kept page is one of the replies |
| CrawlerRules.RepeatMeansSuperset | 301tube/Crawler.js:191 | a page counts as repeated exactly when it contains every id of the previous page, not when it equals it |
| CrawlerRules.EmptyPageMakesEveryPageRepeat | 301tube/Crawler.js:191 | after a page with no items every later page counts as a repeat and none is counted as loaded |
| CrawlerRules.SearchRunBounded | 301tube/Crawler.js:182-206 | the loop never counts more than maxPages pages, never loses pages, and counts at most one page or repeat per reply |
| CrawlerRules.Repeat | 301tube/Crawler.js:191-198 | n copies of the same reply |
| CrawlerRules.RepeatedPageNeverAdvances | 301tube/Crawler.js:182-198 | a page that keeps coming back counts only repeats, and the loop's condition still holds after any number of them |
| CrawlerRules.FindItem | 301tube/Crawler.js:234 | `_.find` returns the first item with the id, or none when no item has it |
| CrawlerRules.CountDiffersMeaning | 301tube/Crawler.js:253-255 | a count differs exactly when `parseInt` of the new string is not the stored count |
| CrawlerRules.StatsChanged | 301tube/Crawler.js:253-255 | definition of the `_.reduce` test: some count differs under `parseInt`; StatsChangedMeaning states what it means |
| CrawlerRules.StatsChangedMeaning | 301tube/Crawler.js:253-256 | for castable statistics, a history sample is due exactly when the cast statistics differ from the stored ones |
| CrawlerRules.RefreshObj | 301tube/Crawler.js:355-396 | definition of the refresh update object: a vanished video is deactivated and flagged removed; a found one gets its new statistics, with a history sample when they changed; RefreshEffect states its effect on the stored record |
| CrawlerRules.ArchiveObj | 301tube/Crawler.js:233-278 | the update archives a record exactly when it vanished, is past the maximum age, or has views above likes compared as strings; it never deactivates and never pushes history |
| CrawlerRules.PastMaxAge | 301tube/Crawler.js:270 | definition of the age test of the archive rule |
| CrawlerRules.ApplyUpdate | 301tube/Crawler.js:281-283 | definition of how Mongo applies an update object: a failed cast changes nothing, otherwise the flags, statistics and at most one history sample; ApplyUpdateEvolves states its invariant |
| CrawlerRules.ApplyUpdateEvolves | 301tube/Crawler.js:281-283 | applying an update never reactivates, never unarchives, keeps the record's identity, and appends at most one sample |
| CrawlerRules.CollectionEvolvesTransitive | 301tube/Crawler.js:281-283 | that evolution composes |
| CrawlerRules.RefreshEffect | 301tube/Crawler.js:355-396 | the stored record after a refresh: removed and inactive, or updated with a sample exactly when changed, or unchanged when the cast fails |
| CrawlerRules.ArchiveEffect | 301tube/Crawler.js:233-283 | archiving never changes active or the history; a vanished video is archived and flagged removed; otherwise the record is archived exactly by the rule at lines 269-272 |
| CrawlerRules.ArchiveComparesAsStrings | 301tube/Crawler.js:270 | 1000 views over 999 likes does not archive, yet 999 views over 1000 likes does |
| CrawlerRules.UpdateRecordsPointwise | 301tube/Crawler.js:281-283 | after one batch every listed record carries its own update and every other record is untouched |
| CrawlerRules.UpdateBatches | 301tube/Crawler.js:226-285 | definition of the cargo fold: each batch with a reply updates its records, a failed batch changes nothing; UpdateBatchesPointwise states its effect per record |
| CrawlerRules.UpdateBatchesPointwise | 301tube/Crawler.js:226-285 | after all batches each record carries the update for the reply to its own batch, and records in no batch are untouched |
| CrawlerRules.ReplyForOutside | 301tube/Crawler.js:226-285 | an id in no batch gets no reply |
| CrawlerRules.NoDuplicatesSplit | 301tube/Crawler.js:226-285 | distinct ids split into distinct, disjoint batches |
| CrawlerRules.UpdateBatchesWellFormed | 301tube/Crawler.js:226-285 | the batch updates keep every record under its own id and only evolve records |
| CrawlerRules.UpdateRecordsEvolves | 301tube/Crawler.js:281-283 | one batch keeps the collection well formed and only evolves records |
| CrawlerRules.UpdateOneEvolves | 301tube/Crawler.js:399-400 | one record update keeps the collection well formed and only evolves it |
| CrawlerRules.Sweep | 301tube/Crawler.js:409-414 | every record above 301 ends inactive and nothing else changes |
| CrawlerRules.SweepEvolves | 301tube/Crawler.js:413 | the sweep only evolves records |
| CrawlerRules.RefreshSelection | 301tube/Crawler.js:338 | definition of the `updateAll301` query: stored count 301 and active |
| CrawlerRules.ArchiveSelection | 301tube/Crawler.js:217-221 | definition of the `archiveOldVideos` query: inactive, not archived, at least minArchiveAgeSecs old |
| CrawlerRules.PredictionTargets | 301tube/Crawler.js:303-326 | definition of the records `updateTopPredictedViews` sends: a third sample, at least 25 likes, active, no keyword in the title, no prediction yet |
| CrawlerRules.PredictionTargetsSkip | 301tube/Crawler.js:303-326 | a record with a prediction is never sent again, and every title the ranking refuses is refused here too |
| Crawler.DiscoveredTransitive | 301tube/Crawler.js:27-59 | records added by successive discoveries are still discoveries |
| Crawler.FetchVideoId | 301tube/Crawler.js:82-85 | definition of the waterfall: the channel is fetched only when the video came back; none when a call failed |
| Crawler.FetchSearchItem | 301tube/Crawler.js:127-134 | definition of the parallel fetch of the video and the search item's channel |
| Crawler.ClassifyVideoId | 301tube/Crawler.js:82-95 | definition: the classification of the waterfall's replies, none when a call failed |
| Crawler.ClassifySearchItem | 301tube/Crawler.js:127-145 | definition: the classification of the parallel fetch's replies, none when a call failed |
| Crawler.Concluded | 301tube/Crawler.js:86-95 | definition of the state after a fetched candidate: blacklisted, created (unless stored or the cast fails), or left |
| Crawler.ConcludedChanges | 301tube/Crawler.js:86-95 | the blacklist gains the id exactly on a Blacklist verdict; any new record is a fresh 301 record saved from this fetch; a creatable record not yet stored is stored |
| Crawler.AfterVideoIdChanges | 301tube/Crawler.js:62-98 | one task blacklists only its own id, only when neither blacklisted nor stored and classified Blacklist; a creatable candidate not blacklisted is stored afterwards |
| Crawler.AfterVideoIdsChanges | 301tube/Crawler.js:61-102 | the blacklist grows by exactly the unstored inputs classified Blacklist; new records are fresh 301 records saved from some input's fetch; every creatable input not blacklisted before is stored afterwards |
| Crawler.AfterSearchItemChanges | 301tube/Crawler.js:105-148 | a live broadcast is blacklisted before the find; otherwise as for a video id, with the parallel fetch; a creatable, not live, not blacklisted item is stored afterwards |
| Crawler.AfterPageChanges | 301tube/Crawler.js:104-152 | only the page's ids join the blacklist, each live or classified Blacklist; new records come from the page's fetches; a creatable, not live, not blacklisted item listed once is stored afterwards |
| Crawler.AfterPagesChanges | 301tube/Crawler.js:200-206 | over successive pages only their ids join the blacklist and new records come from their items |
| Crawler.SearchChanges | 301tube/Crawler.js:172-211 | processing the kept pages blacklists only ids listed on some reply and adds only fresh 301 records saved from some reply's items |
| Crawler.Crawler.constructor | 301tube/Crawler.js:15-21 | the crawler starts from the given blacklist and collection |
| Crawler.Crawler.AddToBlacklist | 301tube/Crawler.js:23-25 | the id joins the blacklist and the collection is untouched |
| Crawler.Crawler.SaveVideo | 301tube/Crawler.js:27-59 | a record is created exactly when the id is not yet stored (unique index) and the statistics cast succeeds, and it is the new record |
| Crawler.Crawler.Conclude | 301tube/Crawler.js:86-95 | the new state is `Concluded` of the old; blacklisted candidates join the blacklist, others are ignored, with the calls each makes; a 301 candidate is Saved exactly when its id is new and the cast succeeds, and the collection then gains exactly its record |
| Crawler.Crawler.ProcessVideoId | 301tube/Crawler.js:61-98 | gates in order: a blacklisted id stops at the set, a stored id at the find; only a new id is fetched; the new state is `AfterVideoId` of the old; Saved exactly when the waterfall classifies Save, the id is new and the cast succeeds, and the collection then gains exactly that record |
| Crawler.Crawler.ProcessVideoIds | 301tube/Crawler.js:61-102 | the new state is `AfterVideoIds` of the old; the blacklist grows by exactly the unstored inputs classified Blacklist; every creatable input not blacklisted before is stored; every new record is a fresh 301 record saved from some input |
| Crawler.Crawler.ProcessSearchItem | 301tube/Crawler.js:104-148 | blacklisted ids stop at the set; a live broadcast is blacklisted before the find; otherwise only a new id is fetched; the new state is `AfterSearchItem` of the old; Saved exactly when the parallel fetch classifies Save, the id is new and the cast succeeds, and the collection then gains exactly that record |
| Crawler.Crawler.ProcessSearchResultsPage | 301tube/Crawler.js:104-152 | the new state is `AfterPage` of the old; only ids on the page join the blacklist; a creatable, not live, not blacklisted item listed once is stored; every new record is a fresh 301 record saved from the page |
| Crawler.Crawler.SearchYouTube | 301tube/Crawler.js:172-211 | the loop's bookkeeping is the search run over the replies and loads at most maxPages pages; the crawler's new state is the old one after exactly the kept pages; only ids listed on a reply join the blacklist |
| Crawler.Crawler.RunBatch | 301tube/Crawler.js:233-285 | one cargo batch leaves the collection as the batch update function says |
| Crawler.Crawler.RunBatches | 301tube/Crawler.js:226-285 | the collection after all cargo batches of 50 is the batch fold over the database order |
| Crawler.Crawler.UpdateAll301 | 301tube/Crawler.js:335-418 | each record is its own refresh followed by the sweep; unselected records are only swept; no active record is left above 301; nothing changes when no record is selected |
| Crawler.Crawler.ArchiveOldVideos | 301tube/Crawler.js:214-298 | each selected record is archived by its own rule, unselected records and active and history are unchanged, and records only evolve |
| Reddit.Capture | 301tube/Reddit.js:24 | the captured id consists of `[\w-]` characters |
| Reddit.LineEnd | 301tube/Reddit.js:23 | how far `.*` can reach: the next line terminator |
| Reddit.LastParam | 301tube/Reddit.js:23 | the rightmost "v=" in a range, which is where the greedy `.*` lands |
| Reddit.MatchFrom | 301tube/Reddit.js:23-24 | from a start position: the leftmost matching start and the rightmost "v=" reachable from it, or none when no later position matches |
| Reddit.Search | 301tube/Reddit.js:23 | `search` returns -1 exactly when no position matches; otherwise the start of the match the engine chooses |
| Reddit.Match | 301tube/Reddit.js:24 | a captured id consists of `[\w-]` characters |
| Reddit.SearchAgreesWithMatch | 301tube/Reddit.js:22-25 | the filter's `search !== -1` holds exactly when `match` captures, so the map never reads `[1]` of null |
| Reddit.MatchIsChosen | 301tube/Reddit.js:23-24 | the capture is the id after the rightmost "v=" reachable from the leftmost matching "youtube.com" |
| Reddit.ScrapedMembership | 301tube/Reddit.js:22-25 | an id is pushed exactly when some fetched link yields it |
| Reddit.ScrapeSubreddits | 301tube/Reddit.js:7-33 | the result is `_.unique` of the pushed ids: no duplicates, and an id appears exactly when some fetched link yields it |
| Reddit.WatchLinkRoundTrip | 301tube/Reddit.js:23-24 | a watch link yields back its id |
| Reddit.RightmostParamWins | 301tube/Reddit.js:23-24 | with two "v=" parameters, the last one supplies the id |
| Digg.Capture | 301tube/Digg.js:33 | the captured id consists of `[\w-]` characters |
| Digg.MatchFrom | 301tube/Digg.js:32-33 | from a start position: the leftmost validly terminated embed link, or none when no later position matches |
| Digg.Search | 301tube/Digg.js:32 | `search` returns -1 exactly when no position matches, else the leftmost match |
| Digg.Match | 301tube/Digg.js:33 | a captured id consists of `[\w-]` characters |
| Digg.SearchAgreesWithMatch | 301tube/Digg.js:32-33 | the test `search !== -1` holds exactly when `match` captures, so `[1]` is never read from null |
| Digg.MatchIsLeftmost | 301tube/Digg.js:32-33 | the capture is the run after the leftmost validly terminated "youtube.com/embed/" |
| Digg.Present | 301tube/Digg.js:28-30 | the frame sources kept are exactly those found |
| Digg.PresentMembership | 301tube/Digg.js:28-33 | an id is pushed exactly when some found frame yields it |
| Digg.ScrapeDigg | 301tube/Digg.js:7-43 | the result is `_.unique` of the pushed ids: no duplicates, and an id appears exactly when some found frame yields it |
| Digg.EmbedLinkRoundTrip | 301tube/Digg.js:32-33 | an embed link, bare or with a query, yields back its id |
| Digg.LaterOccurrenceSuppliesId | 301tube/Digg.js:32-33 | an occurrence whose id is not followed by '?' or the end is passed over for a later one |

## Left out

- Concurrency: `async.queue`, `async.parallel`, `async.cargo` and `eachLimit` interleavings are sequential in the model. The order is a parameter: the order of the ids, of the pages and of the records the database returns.
- Error callbacks of Redis and Mongo are not modelled. A failed `sismember`, `findOne` or `update` is assumed not to happen. YouTube failures are modelled, as an absent reply.
- `eachLimit` stops at the first failed update of a batch. The model applies every update of a batch whose API reply arrived.
- Console logging and the `setInterval` progress timer are left out: they change no state.
- The scheduling timers and configuration of the entry point, and the web server, `lib/`, `bin/` and the cookbooks, are not part of this model.
- The `googleapis` wrapper in `YouTube.js` is a parameter. The model passes a batch where the crawler passes a one-element array holding it: `join(",")` gives the same id list for both.
- The prediction service (`Prediction.js`) and the `predictedViewCount` write of `updateTopPredictedViews` are not modelled; only its selection (`PredictionTargets`) is.
- The linear and exponential regressions, the Pearson correlation and `Math.log` are function parameters of the ranking, not computed. Real numbers replace IEEE doubles.
- x-ray scraping and pagination are left out: the scrapers take the fetched link lists as input.
- Digg.ScrapeDigg: the error and empty-list branches of `scrapeDigg` (lines 13-18 of Digg.js) call a `callback` that is not in scope and would throw. The model starts from the list of frame sources.
- JsSemantics.ToNumber: only the empty string and digit strings are converted; every other string, including ones with white space, a sign, a fraction or an exponent, is NaN. YouTube reports its counts as digit strings.
- JsSemantics.ParseInt: leading white space and a sign are not skipped, and a `0x`/`0X` prefix is not read as hexadecimal. Without a radix `parseInt("0x1A")` is 26 and `parseInt("0x")` is NaN, while the model gives 0 for both. The counts compared at line 254 of Crawler.js are YouTube's decimal digit strings and `String` of stored numbers, which carry no such prefix.
- CrawlerRules.CastCount: the model accepts only digit strings. Mongoose also takes "" (as null) and anything `Number()` converts, such as " 12", "-3" or "1.5". CastStatistics, NewRecord and the refresh update inherit this: for such strings the model reports a failed cast where Mongoose stores a value.
- `String(n)` for counts of 10^21 or more (exponent form) is not modelled.
- Strings are sequences of code points, not UTF-16 code units. Case folding is ASCII only.
- The schema in `models/Video.js` is strict and does not declare `archived`, `wasRemoved`, `createdAt` or `predictedViewCount`. The crawler writes `archived` and `wasRemoved` (lines 242, 271 and 365 of Crawler.js) and only reads `createdAt` and `predictedViewCount`. The model treats these fields as stored, as the crawler expects. Mongoose would drop them on write.
- CrawlerRules.NewRecord: `_saveVideo` (lines 28-58 of Crawler.js) sets none of `archived`, `wasRemoved` or `createdAt`, and the schema has no defaults or `timestamps` for them. The model gives a new record `archived = false`, `wasRemoved = false` and `createdAt = now`, the values the archive query at lines 217-221 presupposes. The archive job is therefore modelled as intended, not as written: as written, `{"archived": false}` never matches a crawler-created document (the field is missing), and `this.createdAt` in the `$where` is undefined, so `archiveOldVideos` would select none of them. FreshDiscovery, ArchiveSelection and ArchiveOldVideos inherit this.
- `updatedAt`, set by the update objects, is not modelled. No other code reads it.
- `_rankedModel` holds a handle to the `scored_videos` collection; the model caches the ranked map itself.
- Crawler.Crawler.SearchYouTube: the loop can spin forever on a repeated page. The model runs it over a finite sequence of replies, and `RepeatedPageNeverAdvances` shows the unbounded case.
- The sweep at line 413 of Crawler.js deactivates only counts above 301. Records below 301 stay active.
- The sweep is skipped when no record was selected (line 344 of Crawler.js).
- The ranking query does not test `archived`.
- The ranking requires a fifth history sample (`historicalStatistics.4`), so at least 5 samples.
