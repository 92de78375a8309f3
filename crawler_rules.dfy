/** The decisions inside Crawler.js, as functions: what the YouTube API
    replies look like, the exactly-301 classification, the record a discovery
    creates, one step of the search loop, and the update objects that
    `updateAll301` and `archiveOldVideos` build for each stored record,
    together with their effect on the collection. */
module CrawlerRules {
  import opened JsSemantics
  import opened VideoModel

  // ---------------------------------------------------------------------------
  // The YouTube API as the crawler sees it
  // ---------------------------------------------------------------------------

  /** A reply of the API: an error, or the decoded value. */
  datatype ApiResult<T> = ApiError | Reply(value: T)

  /** The counts of a `videos.list` item, as the API sends them: strings. */
  datatype ApiStatistics = ApiStatistics(
    viewCount: string, likeCount: string, dislikeCount: string, favoriteCount: string, commentCount: string)

  datatype Snippet = Snippet(
    channelId: string, categoryId: string, channelTitle: string, publishedAt: int,
    title: string, description: string, thumbnails: Thumbnails)

  datatype VideoItem = VideoItem(id: string, snippet: Snippet, statistics: ApiStatistics)

  /** A `channels.list` item: only its subscriber count is used. */
  datatype ChannelItem = ChannelItem(subscriberCount: string)

  /** A `search.list` item. */
  datatype SearchItem = SearchItem(videoId: string, channelId: string, liveBroadcastContent: string)

  datatype Page = Page(items: seq<SearchItem>, nextPageToken: Option<string>)

  /** The two statistics endpoints, each a function of the ids requested. */
  datatype YouTubeApi = YouTubeApi(
    videoStatistics: seq<string> -> ApiResult<seq<VideoItem>>,
    channelStatistics: seq<string> -> ApiResult<seq<ChannelItem>>)

  /** The target view count. */
  const Target: nat := 301
  /** The most ids one `videos.list` call accepts. */
  const MaxApiBatch: nat := 50

  // ---------------------------------------------------------------------------
  // Classification of a fetched candidate
  // ---------------------------------------------------------------------------

  datatype Verdict = Blacklist | Save | Ignore

  /** The exactly-301 rule over the two replies' items: blacklist when either
      list is empty or the view count exceeds 301 as a number; save when the
      view count is the string "301"; otherwise leave the candidate alone. */
  function Classify(videos: seq<VideoItem>, channels: seq<ChannelItem>): (v: Verdict)
    ensures v == Blacklist <==>
      |videos| == 0 || |channels| == 0 || StringGreaterThanNumber(videos[0].statistics.viewCount, Target)
    ensures v == Save <==>
      |videos| > 0 && |channels| > 0 && videos[0].statistics.viewCount == "301"
  {
    TargetSpelling();
    if |videos| == 0 || |channels| == 0 || StringGreaterThanNumber(videos[0].statistics.viewCount, Target) then
      Blacklist
    else if videos[0].statistics.viewCount == "301" then Save
    else Ignore
  }

  /** The string "301" is the number 301. */
  lemma TargetSpelling()
    ensures DigitString("301") && ToNumber("301") == Some(Target)
  {
    assert "301"[..2] == "30" && "30"[..1] == "3" && "3"[..0] == "";
    assert DecimalValue("3") == 3 && DecimalValue("30") == 30;
  }

  /** In numeric terms, for a view count the API spells as digits: above 301
      is blacklisted, the exact spelling "301" is saved, below 301 is left
      alone, and so is a 301 spelled with leading zeros. */
  lemma ClassifyByViewCount(videos: seq<VideoItem>, channels: seq<ChannelItem>)
    requires |videos| > 0 && |channels| > 0
    requires DigitString(videos[0].statistics.viewCount)
    ensures DecimalValue(videos[0].statistics.viewCount) > Target ==> Classify(videos, channels) == Blacklist
    ensures DecimalValue(videos[0].statistics.viewCount) < Target ==> Classify(videos, channels) == Ignore
    ensures Classify(videos, channels) == Save ==> DecimalValue(videos[0].statistics.viewCount) == Target
    ensures DecimalValue(videos[0].statistics.viewCount) == Target && videos[0].statistics.viewCount != "301" ==>
      Classify(videos, channels) == Ignore
  {
    TargetSpelling();
  }

  /** "0301" is the number 301 but not the string "301": it is neither
      saved nor blacklisted. */
  lemma LeadingZeroIsIgnored(item: VideoItem, channel: ChannelItem)
    requires item.statistics.viewCount == "0301"
    ensures Classify([item], [channel]) == Ignore
  {
    var s := "0301";
    assert s[..3] == "030" && "030"[..2] == "03" && "03"[..1] == "0" && "0"[..0] == "";
    assert DecimalValue("0") == 0 && DecimalValue("03") == 3 && DecimalValue("030") == 30;
    assert DecimalValue(s) == 301;
  }

  // ---------------------------------------------------------------------------
  // The record a discovery creates
  // ---------------------------------------------------------------------------

  /** The schema's cast of an API count to a stored number; only digit
      strings are modelled as castable. */
  function CastCount(s: string): (r: Option<nat>)
    ensures r.Some? <==> DigitString(s)
    ensures r.Some? ==> r == ToNumber(s)
  {
    if DigitString(s) then Some(DecimalValue(s)) else None
  }

  function CastStatistics(a: ApiStatistics): (r: Option<Statistics>)
    ensures r.Some? <==> DigitString(a.viewCount) && DigitString(a.likeCount) && DigitString(a.dislikeCount)
                         && DigitString(a.favoriteCount) && DigitString(a.commentCount)
  {
    match (CastCount(a.viewCount), CastCount(a.likeCount), CastCount(a.dislikeCount),
           CastCount(a.favoriteCount), CastCount(a.commentCount))
    case (Some(v), Some(l), Some(d), Some(f), Some(c)) => Some(Statistics(v, l, d, f, c))
    case _ => None
  }

  /** `_saveVideo`'s document: None when the schema would refuse to cast it.
      `_saveVideo` sets no `archived`, `wasRemoved` or `createdAt`; the record
      carries the values the archive job's query presupposes (false, false
      and the creation time). */
  function NewRecord(source: Source, item: VideoItem, channel: ChannelItem, now: int): (r: Option<VideoRecord>)
    ensures r.Some? <==> CastStatistics(item.statistics).Some? && CastCount(channel.subscriberCount).Some?
    ensures r.Some? ==>
      && r.value.videoId == item.id
      && r.value.source == source
      && r.value.statistics == CastStatistics(item.statistics).value
      && r.value.history == [Sample(now, r.value.statistics)]
      && r.value.channelSubscriberCount == CastCount(channel.subscriberCount).value
      && r.value.active && !r.value.archived && !r.value.wasRemoved
      && r.value.predictedViewCount.None?
  {
    match (CastStatistics(item.statistics), CastCount(channel.subscriberCount))
    case (Some(stats), Some(subs)) =>
      var sn := item.snippet;
      Some(VideoRecord(
        item.id, sn.channelId, sn.categoryId, subs, sn.channelTitle, sn.publishedAt,
        sn.title, sn.description, source, sn.thumbnails, stats,
        [Sample(now, stats)], true, false, false, now, None))
    case _ => None
  }

  /** A record created from a candidate the classifier saves has 301 views,
      and its one history entry repeats its statistics. */
  lemma SavedRecordIsExactly301(source: Source, item: VideoItem, channel: ChannelItem, now: int)
    requires Classify([item], [channel]) == Save
    requires NewRecord(source, item, channel, now).Some?
    ensures NewRecord(source, item, channel, now).value.statistics.viewCount == Target
    ensures |NewRecord(source, item, channel, now).value.history| == 1
  {
    ClassifyByViewCount([item], [channel]);
  }

  /** The state of a fresh discovery, as `NewRecord` builds it: 301 views,
      one history entry, active, and the initial flags the model supplies. */
  predicate FreshDiscovery(rec: VideoRecord, source: Source, now: int)
  {
    rec.statistics.viewCount == Target && rec.history == [Sample(now, rec.statistics)]
    && rec.source == source && rec.active && !rec.archived && !rec.wasRemoved
  }

  // ---------------------------------------------------------------------------
  // One step of the search loop
  // ---------------------------------------------------------------------------

  /** The variables of `searchYouTube`'s loop; `prevIds` is None until a
      page has been kept (`prevResults.items` undefined). */
  datatype SearchState = SearchState(
    pagesLoaded: nat, repeatedPages: nat, nextPageToken: Option<string>, prevIds: Option<seq<string>>)

  const InitialSearch: SearchState := SearchState(0, 0, None, None)

  /** The loop test: another page while under the page limit and either a
      token is held or nothing was loaded yet. */
  predicate Continues(st: SearchState, maxPages: nat)
  {
    st.pagesLoaded < maxPages && (st.nextPageToken.Some? || st.pagesLoaded == 0)
  }

  /** `results.nextPageToken || null`: a missing or empty token is no token. */
  function TokenOf(page: Page): (t: Option<string>)
    ensures t.Some? ==> t.value != ""
  {
    if page.nextPageToken == Some("") then None else page.nextPageToken
  }

  function PageIds(page: Page): (ids: seq<string>)
    ensures |ids| == |page.items|
    ensures forall i :: 0 <= i < |ids| ==> ids[i] == page.items[i].videoId
  {
    seq(|page.items|, i requires 0 <= i < |page.items| => page.items[i].videoId)
  }

  /** The page counts as repeated when every id of the previous kept page is
      among its ids (`_.difference` empty), whatever else it holds. */
  predicate IsRepeat(st: SearchState, page: Page)
  {
    st.prevIds.Some? && Difference(st.prevIds.value, PageIds(page)) == []
  }

  /** One iteration's bookkeeping on a page the API returned. */
  function NextSearchState(st: SearchState, page: Page): (next: SearchState)
    ensures IsRepeat(st, page) ==>
      next == st.(repeatedPages := st.repeatedPages + 1, nextPageToken := TokenOf(page))
    ensures !IsRepeat(st, page) ==>
      next == SearchState(st.pagesLoaded + 1, st.repeatedPages, TokenOf(page), Some(PageIds(page)))
  {
    if IsRepeat(st, page) then st.(repeatedPages := st.repeatedPages + 1, nextPageToken := TokenOf(page))
    else SearchState(st.pagesLoaded + 1, st.repeatedPages, TokenOf(page), Some(PageIds(page)))
  }

  /** A page is repeated exactly when it holds every id of the last kept page. */
  lemma RepeatMeansSuperset(st: SearchState, page: Page)
    requires st.prevIds.Some?
    ensures IsRepeat(st, page) <==> forall id :: id in st.prevIds.value ==> id in PageIds(page)
  {
  }

  /** After an empty page was kept, every later page counts as repeated. */
  lemma EmptyPageMakesEveryPageRepeat(st: SearchState, page: Page)
    requires st.prevIds == Some([])
    ensures IsRepeat(st, page)
    ensures NextSearchState(st, page).pagesLoaded == st.pagesLoaded
  {
  }

  datatype SearchOutcome = SearchOutcome(state: SearchState, failed: bool)

  /** The loop run against the API's successive replies: it stops when the
      test fails, on the first error, or when the replies run out. */
  function SearchRun(maxPages: nat, st: SearchState, replies: seq<ApiResult<Page>>): SearchOutcome
    decreases |replies|
  {
    if replies == [] || !Continues(st, maxPages) then SearchOutcome(st, false)
    else match replies[0]
      case ApiError => SearchOutcome(st, true)
      case Reply(page) => SearchRun(maxPages, NextSearchState(st, page), replies[1..])
  }

  /** `pagesLoaded` never passes the page limit, and each reply adds one to
      `pagesLoaded` or to `repeatedPages`, never both. */
  lemma {:induction false} SearchRunBounded(maxPages: nat, st: SearchState, replies: seq<ApiResult<Page>>)
    requires st.pagesLoaded <= maxPages
    ensures SearchRun(maxPages, st, replies).state.pagesLoaded <= maxPages
    ensures SearchRun(maxPages, st, replies).state.pagesLoaded + SearchRun(maxPages, st, replies).state.repeatedPages
            <= st.pagesLoaded + st.repeatedPages + |replies|
    ensures st.pagesLoaded <= SearchRun(maxPages, st, replies).state.pagesLoaded
    decreases |replies|
  {
    if replies != [] && Continues(st, maxPages) && replies[0].Reply? {
      SearchRunBounded(maxPages, NextSearchState(st, replies[0].value), replies[1..]);
    }
  }

  /** The pages the loop keeps and hands to `_processYouTubeSearchResultsPage`:
      every reply it reads that is not a repeat, up to the first error. */
  function KeptPages(maxPages: nat, st: SearchState, replies: seq<ApiResult<Page>>): seq<Page>
    decreases |replies|
  {
    if replies == [] || !Continues(st, maxPages) then []
    else match replies[0]
      case ApiError => []
      case Reply(page) =>
        (if IsRepeat(st, page) then [] else [page]) + KeptPages(maxPages, NextSearchState(st, page), replies[1..])
  }

  /** One page is kept per page counted in `pagesLoaded`, and every kept
      page is one of the replies. */
  lemma {:induction false} KeptPagesCounted(maxPages: nat, st: SearchState, replies: seq<ApiResult<Page>>)
    ensures st.pagesLoaded + |KeptPages(maxPages, st, replies)| == SearchRun(maxPages, st, replies).state.pagesLoaded
    ensures forall p :: p in KeptPages(maxPages, st, replies) ==> Reply(p) in replies
    decreases |replies|
  {
    if replies != [] && Continues(st, maxPages) && replies[0].Reply? {
      var page := replies[0].value;
      var rest := replies[1..];
      KeptPagesCounted(maxPages, NextSearchState(st, page), rest);
      forall p | p in KeptPages(maxPages, NextSearchState(st, page), rest) ensures Reply(p) in replies {
        var k :| 0 <= k < |rest| && rest[k] == Reply(p);
        assert replies[k + 1] == Reply(p);
      }
    }
  }

  function Repeat(page: Page, n: nat): (rs: seq<ApiResult<Page>>)
    ensures |rs| == n && forall i :: 0 <= i < n ==> rs[i] == Reply(page)
  {
    seq(n, i => Reply(page))
  }

  /** The loop need not end: a page that keeps coming back with a token
      leaves `pagesLoaded` where it is, whatever the number of replies, and
      the loop test still holds afterwards. */
  lemma {:induction false} RepeatedPageNeverAdvances(maxPages: nat, st: SearchState, page: Page, n: nat)
    requires Continues(st, maxPages) && st.prevIds == Some(PageIds(page))
    requires TokenOf(page).Some?
    ensures SearchRun(maxPages, st, Repeat(page, n)).state.pagesLoaded == st.pagesLoaded
    ensures SearchRun(maxPages, st, Repeat(page, n)).state.repeatedPages == st.repeatedPages + n
    ensures Continues(SearchRun(maxPages, st, Repeat(page, n)).state, maxPages)
    ensures KeptPages(maxPages, st, Repeat(page, n)) == []
    decreases n
  {
    if n > 0 {
      var next := NextSearchState(st, page);
      assert IsRepeat(st, page);
      assert Repeat(page, n)[1..] == Repeat(page, n - 1);
      RepeatedPageNeverAdvances(maxPages, next, page, n - 1);
    }
  }

  // ---------------------------------------------------------------------------
  // Per-record updates of the lifecycle jobs
  // ---------------------------------------------------------------------------

  /** `_.find(items, "id", videoId)`: the first item with that id. */
  function FindItem(items: seq<VideoItem>, id: string): (r: Option<VideoItem>)
    ensures r.Some? ==> r.value in items && r.value.id == id
    ensures r.Some? ==>
      exists k :: 0 <= k < |items| && items[k] == r.value && forall j :: 0 <= j < k ==> items[j].id != id
    ensures r.None? ==> forall i :: 0 <= i < |items| ==> items[i].id != id
  {
    if items == [] then None
    else if items[0].id == id then Some(items[0])
    else FindItem(items[1..], id)
  }

  /** `parseInt(latest) !== parseInt(stored)` for one count. */
  predicate CountDiffers(stored: nat, latest: string)
  {
    NumbersDiffer(ParseInt(latest), ParseInt(NatToString(stored)))
  }

  /** A count differs exactly when the latest string does not read back as
      the stored number. */
  lemma CountDiffersMeaning(stored: nat, latest: string)
    ensures CountDiffers(stored, latest) <==> ParseInt(latest) != Some(stored)
  {
    ParseIntOfNumber(stored);
  }

  /** The `_.reduce` over the stored statistics: true when some stored count
      differs from its latest one. Statistics that were not loaded (None)
      leave the reduction at its initial `false`. */
  predicate StatsChanged(stored: Option<Statistics>, latest: ApiStatistics)
  {
    match stored
    case None => false
    case Some(s) =>
      CountDiffers(s.viewCount, latest.viewCount) || CountDiffers(s.likeCount, latest.likeCount)
      || CountDiffers(s.dislikeCount, latest.dislikeCount) || CountDiffers(s.favoriteCount, latest.favoriteCount)
      || CountDiffers(s.commentCount, latest.commentCount)
  }

  /** On counts the schema can store, a change is detected exactly when the
      new statistics differ from the stored ones. */
  lemma {:induction false} StatsChangedMeaning(stored: Statistics, latest: ApiStatistics)
    requires CastStatistics(latest).Some?
    ensures StatsChanged(Some(stored), latest) <==> CastStatistics(latest).value != stored
  {
    var f := CastStatistics(latest).value;
    CountDiffersMeaning(stored.viewCount, latest.viewCount);
    CountDiffersMeaning(stored.likeCount, latest.likeCount);
    CountDiffersMeaning(stored.dislikeCount, latest.dislikeCount);
    CountDiffersMeaning(stored.favoriteCount, latest.favoriteCount);
    CountDiffersMeaning(stored.commentCount, latest.commentCount);
    ParseIntOfDigits(latest.viewCount);
    ParseIntOfDigits(latest.likeCount);
    ParseIntOfDigits(latest.dislikeCount);
    ParseIntOfDigits(latest.favoriteCount);
    ParseIntOfDigits(latest.commentCount);
  }

  /** `updateObj`: the fields one `Video.update` sets. */
  datatype UpdateObj = UpdateObj(
    deactivate: bool, wasRemoved: bool, statistics: Option<ApiStatistics>, pushHistory: bool, archive: bool)

  /** `updateAll301`'s update for one record: a vanished video is marked
      removed and inactive; otherwise its statistics are replaced and a
      history entry is pushed when some count changed. */
  function RefreshObj(stored: Statistics, item: Option<VideoItem>): (u: UpdateObj)
    ensures item.None? ==> u == UpdateObj(true, true, None, false, false)
    ensures item.Some? ==>
      u == UpdateObj(false, false, Some(item.value.statistics), StatsChanged(Some(stored), item.value.statistics), false)
  {
    match item
    case None => UpdateObj(true, true, None, false, false)
    case Some(it) => UpdateObj(false, false, Some(it.statistics), StatsChanged(Some(stored), it.statistics), false)
  }

  /** `moment(createdAt).add(maxArchiveAgeSecs).isBefore(now)`: the amount is
      added as milliseconds. */
  predicate PastMaxAge(createdAt: int, maxArchiveAgeSecs: int, now: int)
  {
    createdAt + maxArchiveAgeSecs < now
  }

  /** `archiveOldVideos`'s update for one record. The job loads no
      statistics, so no history entry is ever pushed; the record is archived
      when it vanished, when it is past the age limit, or when its view count
      string sorts after its like count string. */
  function ArchiveObj(createdAt: int, item: Option<VideoItem>, maxArchiveAgeSecs: int, now: int): (u: UpdateObj)
    ensures !u.deactivate && !u.pushHistory
    ensures u.wasRemoved <==> item.None?
    ensures u.statistics == (if item.None? then None else Some(item.value.statistics))
    ensures u.archive <==>
      item.None? || PastMaxAge(createdAt, maxArchiveAgeSecs, now)
      || StringLess(item.value.statistics.likeCount, item.value.statistics.viewCount)
  {
    match item
    case None => UpdateObj(false, true, None, false, true)
    case Some(it) =>
      UpdateObj(false, false, Some(it.statistics), StatsChanged(None, it.statistics),
                PastMaxAge(createdAt, maxArchiveAgeSecs, now) || StringLess(it.statistics.likeCount, it.statistics.viewCount))
  }

  /** `Video.update(_id, updateObj)`: statistics the schema cannot cast make
      the whole update fail, leaving the record as it was. */
  function ApplyUpdate(rec: VideoRecord, u: UpdateObj, now: int): VideoRecord
  {
    var cast := if u.statistics.Some? then CastStatistics(u.statistics.value) else None;
    if u.statistics.Some? && cast.None? then rec
    else
      var stats := if cast.Some? then cast.value else rec.statistics;
      rec.(
        active := rec.active && !u.deactivate,
        wasRemoved := rec.wasRemoved || u.wasRemoved,
        statistics := stats,
        history := rec.history + (if u.pushHistory then [Sample(now, stats)] else []),
        archived := rec.archived || u.archive)
  }

  /** The lifecycle invariant between two versions of a record: same
      identity, `active` only turns false, `archived` and `wasRemoved` only
      turn true, and history only grows at its end. */
  predicate Evolves(before: VideoRecord, after: VideoRecord)
  {
    && after.videoId == before.videoId
    && (after.active ==> before.active)
    && (before.archived ==> after.archived)
    && (before.wasRemoved ==> after.wasRemoved)
    && |before.history| <= |after.history|
    && after.history[..|before.history|] == before.history
  }

  predicate CollectionEvolves(before: map<string, VideoRecord>, after: map<string, VideoRecord>)
  {
    after.Keys == before.Keys && forall k :: k in before ==> Evolves(before[k], after[k])
  }

  lemma CollectionEvolvesTransitive(a: map<string, VideoRecord>, b: map<string, VideoRecord>, c: map<string, VideoRecord>)
    requires CollectionEvolves(a, b) && CollectionEvolves(b, c)
    ensures CollectionEvolves(a, c)
  {
    forall k | k in a ensures Evolves(a[k], c[k]) {
      assert c[k].history[..|b[k].history|] == b[k].history;
      assert c[k].history[..|a[k].history|] == c[k].history[..|b[k].history|][..|a[k].history|];
    }
  }

  /** Every update keeps the lifecycle invariant and adds at most one history entry. */
  lemma ApplyUpdateEvolves(rec: VideoRecord, u: UpdateObj, now: int)
    ensures Evolves(rec, ApplyUpdate(rec, u, now))
    ensures |ApplyUpdate(rec, u, now).history| <= |rec.history| + 1
  {
    var r := ApplyUpdate(rec, u, now);
    assert r.history[..|rec.history|] == rec.history;
  }

  /** `updateAll301` on one record. Vanished: inactive and removed, counts
      and history untouched. Present with storable counts: the counts are
      replaced and exactly one entry holding them is appended iff they
      changed; `active` and `archived` are untouched. */
  lemma {:induction false} RefreshEffect(rec: VideoRecord, item: Option<VideoItem>, now: int)
    ensures item.None? ==>
      var r := ApplyUpdate(rec, RefreshObj(rec.statistics, item), now);
      !r.active && r.wasRemoved && r.statistics == rec.statistics && r.history == rec.history
      && r.archived == rec.archived
    ensures item.Some? && CastStatistics(item.value.statistics).Some? ==>
      var r := ApplyUpdate(rec, RefreshObj(rec.statistics, item), now);
      var latest := CastStatistics(item.value.statistics).value;
      r.statistics == latest && r.active == rec.active && r.archived == rec.archived
      && r.history == rec.history + (if latest != rec.statistics then [Sample(now, latest)] else [])
    ensures item.Some? && CastStatistics(item.value.statistics).None? ==>
      ApplyUpdate(rec, RefreshObj(rec.statistics, item), now) == rec
  {
    if item.Some? && CastStatistics(item.value.statistics).Some? {
      StatsChangedMeaning(rec.statistics, item.value.statistics);
    }
  }

  /** `archiveOldVideos` on one record: `active` and the history are never
      touched, and `archived` becomes true exactly on the three conditions
      (for a present video, when the update is accepted). */
  lemma ArchiveEffect(rec: VideoRecord, item: Option<VideoItem>, maxArchiveAgeSecs: int, now: int)
    ensures var r := ApplyUpdate(rec, ArchiveObj(rec.createdAt, item, maxArchiveAgeSecs, now), now);
      r.active == rec.active && r.history == rec.history
    ensures item.None? ==>
      var r := ApplyUpdate(rec, ArchiveObj(rec.createdAt, item, maxArchiveAgeSecs, now), now);
      r.archived && r.wasRemoved && r.statistics == rec.statistics
    ensures item.Some? && CastStatistics(item.value.statistics).Some? ==>
      var r := ApplyUpdate(rec, ArchiveObj(rec.createdAt, item, maxArchiveAgeSecs, now), now);
      r.statistics == CastStatistics(item.value.statistics).value
      && (r.archived <==> rec.archived || PastMaxAge(rec.createdAt, maxArchiveAgeSecs, now)
                          || StringLess(item.value.statistics.likeCount, item.value.statistics.viewCount))
  {
  }

  /** The like/view test compares strings: 1000 views against 999 likes does
      not archive a young record, while 999 views against 1000 likes does. */
  lemma ArchiveComparesAsStrings(rec: VideoRecord, item: VideoItem, maxArchiveAgeSecs: int, now: int)
    requires !PastMaxAge(rec.createdAt, maxArchiveAgeSecs, now)
    requires item.statistics.viewCount == "1000" && item.statistics.likeCount == "999"
    ensures !ArchiveObj(rec.createdAt, Some(item), maxArchiveAgeSecs, now).archive
    ensures ArchiveObj(rec.createdAt, Some(item.(statistics := item.statistics.(viewCount := "999", likeCount := "1000"))),
                       maxArchiveAgeSecs, now).archive
  {
    StringOrderIsNotNumericOrder();
    assert !StringLess("999", "1000") by {
      assert "999"[0] > "1000"[0];
    }
  }

  // ---------------------------------------------------------------------------
  // A whole lifecycle job over the collection
  // ---------------------------------------------------------------------------

  /** Which job builds the update objects. */
  datatype Job = Refresh | Archive(maxArchiveAgeSecs: int)

  function UpdateFor(job: Job, rec: VideoRecord, item: Option<VideoItem>, now: int): UpdateObj
  {
    match job
    case Refresh => RefreshObj(rec.statistics, item)
    case Archive(maxAge) => ArchiveObj(rec.createdAt, item, maxAge, now)
  }

  /** One record of a batch whose reply held `items`. */
  function UpdateOne(videos: map<string, VideoRecord>, id: string, items: seq<VideoItem>, job: Job, now: int)
    : map<string, VideoRecord>
  {
    if id in videos then videos[id := ApplyUpdate(videos[id], UpdateFor(job, videos[id], FindItem(items, id), now), now)]
    else videos
  }

  /** The updates of one batch, record after record. */
  function UpdateRecords(videos: map<string, VideoRecord>, ids: seq<string>, items: seq<VideoItem>, job: Job, now: int)
    : map<string, VideoRecord>
  {
    if ids == [] then videos
    else UpdateOne(UpdateRecords(videos, ids[..|ids| - 1], items, job, now), ids[|ids| - 1], items, job, now)
  }

  /** The cargo's batches one after the other; a batch whose API call failed changes nothing. */
  function UpdateBatches(videos: map<string, VideoRecord>, batches: seq<seq<string>>, api: YouTubeApi, job: Job, now: int)
    : map<string, VideoRecord>
  {
    if batches == [] then videos
    else
      var before := UpdateBatches(videos, batches[..|batches| - 1], api, job, now);
      var last := batches[|batches| - 1];
      match api.videoStatistics(last)
      case ApiError => before
      case Reply(items) => UpdateRecords(before, last, items, job, now)
  }

  /** The reply the record `id` is updated with: that of the batch holding
      it, when its call succeeded. */
  function ReplyFor(batches: seq<seq<string>>, api: YouTubeApi, id: string): Option<seq<VideoItem>>
  {
    if batches == [] then None
    else if id in batches[|batches| - 1] then
      match api.videoStatistics(batches[|batches| - 1])
      case ApiError => None
      case Reply(items) => Some(items)
    else ReplyFor(batches[..|batches| - 1], api, id)
  }

  /** The record updated once with its own reply, as one job iteration sees it. */
  function Updated(rec: VideoRecord, reply: Option<seq<VideoItem>>, job: Job, now: int): VideoRecord
  {
    match reply
    case None => rec
    case Some(items) => ApplyUpdate(rec, UpdateFor(job, rec, FindItem(items, rec.videoId), now), now)
  }

  lemma {:induction false} UpdateRecordsPointwise(videos: map<string, VideoRecord>, ids: seq<string>, items: seq<VideoItem>, job: Job, now: int)
    requires WellFormed(videos) && NoDuplicates(ids)
    ensures var r := UpdateRecords(videos, ids, items, job, now);
      && r.Keys == videos.Keys
      && forall k :: k in videos ==> r[k] == (if k in ids then Updated(videos[k], Some(items), job, now) else videos[k])
    decreases |ids|
  {
    if ids != [] {
      var init := ids[..|ids| - 1];
      UpdateRecordsPointwise(videos, init, items, job, now);
      assert forall k :: k in ids <==> k in init || k == ids[|ids| - 1] by {
        assert ids == init + [ids[|ids| - 1]];
      }
    }
  }

  /** Each record is updated exactly once, with the reply of the one batch
      that holds it, and records in no batch are left alone. */
  lemma {:induction false} UpdateBatchesPointwise(videos: map<string, VideoRecord>, batches: seq<seq<string>>, api: YouTubeApi, job: Job, now: int)
    requires WellFormed(videos) && NoDuplicates(Flatten(batches))
    ensures var r := UpdateBatches(videos, batches, api, job, now);
      && r.Keys == videos.Keys
      && forall k :: k in videos ==> r[k] == Updated(videos[k], ReplyFor(batches, api, k), job, now)
    decreases |batches|
  {
    if batches != [] {
      var init := batches[..|batches| - 1];
      var last := batches[|batches| - 1];
      FlattenAppend(init, last);
      assert batches == init + [last];
      NoDuplicatesSplit(Flatten(init), last);
      UpdateBatchesPointwise(videos, init, api, job, now);
      var before := UpdateBatches(videos, init, api, job, now);
      forall k | k in last
        ensures ReplyFor(init, api, k) == None
      {
        ReplyForOutside(init, api, k);
      }
      match api.videoStatistics(last)
      case ApiError =>
      case Reply(items) =>
        UpdateBatchesWellFormed(videos, init, api, job, now);
        UpdateRecordsPointwise(before, last, items, job, now);
    }
  }

  lemma {:induction false} ReplyForOutside(batches: seq<seq<string>>, api: YouTubeApi, id: string)
    requires id !in Flatten(batches)
    ensures ReplyFor(batches, api, id) == None
    decreases |batches|
  {
    if batches != [] {
      FlattenAppend(batches[..|batches| - 1], batches[|batches| - 1]);
      assert batches == batches[..|batches| - 1] + [batches[|batches| - 1]];
      ReplyForOutside(batches[..|batches| - 1], api, id);
    }
  }

  lemma NoDuplicatesSplit(a: seq<string>, b: seq<string>)
    requires NoDuplicates(a + b)
    ensures NoDuplicates(a) && NoDuplicates(b)
    ensures forall x :: x in b ==> x !in a
  {
    forall i, j | 0 <= i < j < |b| ensures b[i] != b[j] {
      assert b[i] == (a + b)[|a| + i] && b[j] == (a + b)[|a| + j];
    }
    forall i, j | 0 <= i < |a| && 0 <= j < |b| ensures a[i] != b[j] {
      assert a[i] == (a + b)[i] && b[j] == (a + b)[|a| + j];
    }
    forall i, j | 0 <= i < j < |a| ensures a[i] != a[j] {
      assert a[i] == (a + b)[i] && a[j] == (a + b)[j];
    }
  }

  /** Every job keeps the collection well formed and evolving. */
  lemma {:induction false} UpdateBatchesWellFormed(videos: map<string, VideoRecord>, batches: seq<seq<string>>, api: YouTubeApi, job: Job, now: int)
    requires WellFormed(videos)
    ensures WellFormed(UpdateBatches(videos, batches, api, job, now))
    ensures CollectionEvolves(videos, UpdateBatches(videos, batches, api, job, now))
    decreases |batches|
  {
    if batches != [] {
      var init := batches[..|batches| - 1];
      UpdateBatchesWellFormed(videos, init, api, job, now);
      var before := UpdateBatches(videos, init, api, job, now);
      match api.videoStatistics(batches[|batches| - 1])
      case ApiError =>
      case Reply(items) =>
        UpdateRecordsEvolves(before, batches[|batches| - 1], items, job, now);
        CollectionEvolvesTransitive(videos, before, UpdateBatches(videos, batches, api, job, now));
    }
  }

  lemma {:induction false} UpdateRecordsEvolves(videos: map<string, VideoRecord>, ids: seq<string>, items: seq<VideoItem>, job: Job, now: int)
    requires WellFormed(videos)
    ensures WellFormed(UpdateRecords(videos, ids, items, job, now))
    ensures CollectionEvolves(videos, UpdateRecords(videos, ids, items, job, now))
    decreases |ids|
  {
    if ids == [] {
      assert CollectionEvolves(videos, videos) by {
        forall k | k in videos ensures Evolves(videos[k], videos[k]) {
          assert videos[k].history[..|videos[k].history|] == videos[k].history;
        }
      }
    } else {
      var before := UpdateRecords(videos, ids[..|ids| - 1], items, job, now);
      UpdateRecordsEvolves(videos, ids[..|ids| - 1], items, job, now);
      UpdateOneEvolves(before, ids[|ids| - 1], items, job, now);
      CollectionEvolvesTransitive(videos, before, UpdateRecords(videos, ids, items, job, now));
    }
  }

  lemma UpdateOneEvolves(videos: map<string, VideoRecord>, id: string, items: seq<VideoItem>, job: Job, now: int)
    requires WellFormed(videos)
    ensures WellFormed(UpdateOne(videos, id, items, job, now))
    ensures CollectionEvolves(videos, UpdateOne(videos, id, items, job, now))
  {
    var r := UpdateOne(videos, id, items, job, now);
    forall k | k in videos ensures Evolves(videos[k], r[k]) {
      if k == id {
        ApplyUpdateEvolves(videos[k], UpdateFor(job, videos[k], FindItem(items, k), now), now);
      } else {
        assert videos[k].history[..|videos[k].history|] == videos[k].history;
      }
    }
  }

  /** The final `Video.update({"statistics.viewCount": {$gt: 301}}, {active: false}, {multi: true})`. */
  function Sweep(videos: map<string, VideoRecord>): (r: map<string, VideoRecord>)
    ensures r.Keys == videos.Keys
    ensures forall k :: k in r ==> (r[k].statistics.viewCount > Target ==> !r[k].active)
    ensures forall k :: k in r && videos[k].statistics.viewCount <= Target ==> r[k] == videos[k]
    ensures forall k :: k in r ==> r[k] == videos[k].(active := videos[k].active && videos[k].statistics.viewCount <= Target)
  {
    map k | k in videos :: if videos[k].statistics.viewCount > Target then videos[k].(active := false) else videos[k]
  }

  lemma SweepEvolves(videos: map<string, VideoRecord>)
    requires WellFormed(videos)
    ensures WellFormed(Sweep(videos)) && CollectionEvolves(videos, Sweep(videos))
  {
    forall k | k in videos ensures Evolves(videos[k], Sweep(videos)[k]) {
      assert videos[k].history[..|videos[k].history|] == videos[k].history;
    }
  }

  /** The records `updateAll301` loads: stored view count 301 and active. */
  function RefreshSelection(videos: map<string, VideoRecord>): set<string>
  {
    set k | k in videos && videos[k].statistics.viewCount == Target && videos[k].active
  }

  /** The records `archiveOldVideos` loads: inactive, not archived, and at
      least `minArchiveAgeSecs` seconds old. */
  function ArchiveSelection(videos: map<string, VideoRecord>, minArchiveAgeSecs: int, now: int): set<string>
  {
    set k | k in videos && !videos[k].active && !videos[k].archived
            && now >= videos[k].createdAt + minArchiveAgeSecs * 1000
  }

  /** The titles `updateTopPredictedViews` leaves out. */
  const PredictionKeywords: seq<string> := [
    "movie", "minecraft", "hardline", "hearthstone", "cs:go", "dota", "league of legends", "gta",
    "my little pony", "download", "m.o.v.i.e", "episode", "keygen", "cheat", "wwe", "game of thrones"]

  /** The records `updateTopPredictedViews` sends to the prediction service:
      a third history entry, at least 25 likes, active, no keyword in the
      title, and no prediction yet. */
  function PredictionTargets(videos: map<string, VideoRecord>): set<string>
  {
    set k | k in videos && |videos[k].history| >= 3 && videos[k].statistics.likeCount >= 25
            && videos[k].active && !MentionsAny(videos[k].title, PredictionKeywords)
            && videos[k].predictedViewCount.None?
  }

  /** A record with a prediction is never predicted again, and every title
      the ranking query refuses is refused here too. */
  lemma PredictionTargetsSkip(videos: map<string, VideoRecord>, k: string)
    ensures k in PredictionTargets(videos) ==> videos[k].predictedViewCount.None?
    ensures k in videos && MentionsAny(videos[k].title, RankingKeywords) ==> k !in PredictionTargets(videos)
  {
    if k in videos && MentionsAny(videos[k].title, RankingKeywords) {
      var i :| 0 <= i < |RankingKeywords| && IndexOfIgnoringCase(videos[k].title, RankingKeywords[i], 0).Some?;
      var j := if i < 4 then i else if i < 5 then 7 else i + 3;
      assert PredictionKeywords[j] == RankingKeywords[i];
    }
  }
}
