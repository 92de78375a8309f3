/** The Crawler class of Crawler.js: the Redis set `filteredVideoIds` and the
    Video collection are its state, and each pipeline step is a method that
    changes them. The YouTube API, the search pages and the order in which
    the database returns records are parameters. */
module Crawler {
  import opened JsSemantics
  import opened VideoModel
  import opened CrawlerRules

  /** The external calls one candidate makes, in the order made. */
  datatype Call =
    | IsMember(id: string)
    | FindRecord(id: string)
    | FetchVideo(id: string)
    | FetchChannel(channelId: string)
    | AddMember(id: string)
    | CreateRecord(id: string)

  /** How one candidate ended. */
  datatype Outcome =
    | AlreadyBlacklisted
    | LiveBlacklisted
    | AlreadyStored
    | FetchFailed
    | Blacklisted
    | Saved
    | SaveRejected
    | Ignored

  /** What the two statistics calls of one candidate returned. */
  datatype Fetched = Fetched(items: seq<VideoItem>, channels: seq<ChannelItem>)

  /** The waterfall of `_processVideoIds`: the video first, then (only when
      the video came back) its channel; None when a call failed. */
  function FetchVideoId(api: YouTubeApi, videoId: string): Option<Fetched>
  {
    match api.videoStatistics([videoId])
    case ApiError => None
    case Reply(items) =>
      if |items| == 0 then Some(Fetched(items, []))
      else match api.channelStatistics([items[0].snippet.channelId])
        case ApiError => None
        case Reply(channels) => Some(Fetched(items, channels))
  }

  /** The parallel fetch of `_processYouTubeSearchResultsPage`: the video and
      the channel named by the search item; None when either call failed. */
  function FetchSearchItem(api: YouTubeApi, item: SearchItem): Option<Fetched>
  {
    match (api.videoStatistics([item.videoId]), api.channelStatistics([item.channelId]))
    case (Reply(items), Reply(channels)) => Some(Fetched(items, channels))
    case _ => None
  }

  function ClassifyVideoId(api: YouTubeApi, videoId: string): Option<Verdict>
  {
    match FetchVideoId(api, videoId)
    case None => None
    case Some(f) => Some(Classify(f.items, f.channels))
  }

  function ClassifySearchItem(api: YouTubeApi, item: SearchItem): Option<Verdict>
  {
    match FetchSearchItem(api, item)
    case None => None
    case Some(f) => Some(Classify(f.items, f.channels))
  }

  /** The fetch ends in a save of the video item whose id is `k`. */
  predicate SavesUnder(f: Option<Fetched>, k: string)
  {
    f.Some? && Classify(f.value.items, f.value.channels) == Save && f.value.items[0].id == k
  }

  /** ... and the schema accepts the document `_saveVideo` builds. */
  predicate Creatable(source: Source, f: Option<Fetched>, k: string, now: int)
  {
    SavesUnder(f, k) && NewRecord(source, f.value.items[0], f.value.channels[0], now).Some?
  }

  /** Discovery only adds records, and every record it adds is a fresh one
      from `source` with exactly 301 views. */
  ghost predicate Discovered(before: map<string, VideoRecord>, after: map<string, VideoRecord>, source: Source, now: int)
  {
    && before.Keys <= after.Keys
    && (forall k :: k in before ==> after[k] == before[k])
    && (forall k :: k in after && k !in before ==> FreshDiscovery(after[k], source, now))
  }

  lemma DiscoveredTransitive(a: map<string, VideoRecord>, b: map<string, VideoRecord>, c: map<string, VideoRecord>,
                             source: Source, now: int)
    requires Discovered(a, b, source, now) && Discovered(b, c, source, now)
    ensures Discovered(a, c, source, now)
  {
  }

  // ---------------------------------------------------------------------------
  // The discovery pipelines as functions of the crawler's state
  // ---------------------------------------------------------------------------

  /** The Redis set and the Video collection. */
  datatype CrawlState = CrawlState(blacklist: set<string>, videos: map<string, VideoRecord>)

  /** The end of both pipelines on a fetched candidate `id`: blacklist it,
      create the record of the first video item, or leave it. `Video.create`
      fails on a duplicate `videoId` (unique index) or a failed cast. */
  function Concluded(s: CrawlState, source: Source, id: string, f: Fetched, now: int): CrawlState
  {
    match Classify(f.items, f.channels)
    case Blacklist => s.(blacklist := s.blacklist + {id})
    case Save =>
      var rec := NewRecord(source, f.items[0], f.channels[0], now);
      if f.items[0].id in s.videos || rec.None? then s
      else s.(videos := s.videos[f.items[0].id := rec.value])
    case Ignore => s
  }

  /** One task of `_processVideoIds`. */
  function AfterVideoId(s: CrawlState, source: Source, api: YouTubeApi, videoId: string, now: int): CrawlState
  {
    if videoId in s.blacklist || videoId in s.videos then s
    else match FetchVideoId(api, videoId)
      case None => s
      case Some(f) => Concluded(s, source, videoId, f, now)
  }

  /** `_processVideoIds`: the tasks in queue order. */
  function AfterVideoIds(s: CrawlState, source: Source, api: YouTubeApi, ids: seq<string>, now: int): CrawlState
    decreases |ids|
  {
    if ids == [] then s
    else AfterVideoId(AfterVideoIds(s, source, api, ids[..|ids| - 1], now), source, api, ids[|ids| - 1], now)
  }

  /** One task of `_processYouTubeSearchResultsPage`. */
  function AfterSearchItem(s: CrawlState, api: YouTubeApi, item: SearchItem, now: int): CrawlState
  {
    var id := item.videoId;
    if id in s.blacklist then s
    else if item.liveBroadcastContent != "none" then s.(blacklist := s.blacklist + {id})
    else if id in s.videos then s
    else match FetchSearchItem(api, item)
      case None => s
      case Some(f) => Concluded(s, YouTube, id, f, now)
  }

  /** `_processYouTubeSearchResultsPage`: the page's items in queue order. */
  function AfterPage(s: CrawlState, api: YouTubeApi, items: seq<SearchItem>, now: int): CrawlState
    decreases |items|
  {
    if items == [] then s
    else AfterSearchItem(AfterPage(s, api, items[..|items| - 1], now), api, items[|items| - 1], now)
  }

  /** Successive pages, each processed in full before the next. */
  function AfterPages(s: CrawlState, api: YouTubeApi, pages: seq<Page>, now: int): CrawlState
    decreases |pages|
  {
    if pages == [] then s
    else AfterPages(AfterPage(s, api, pages[0].items, now), api, pages[1..], now)
  }

  /** A saved candidate's record is the new one, with 301 views. */
  lemma ConcludedChanges(s: CrawlState, source: Source, id: string, f: Fetched, now: int)
    ensures var r := Concluded(s, source, id, f, now);
      && r.blacklist == (if Classify(f.items, f.channels) == Blacklist then s.blacklist + {id} else s.blacklist)
      && Discovered(s.videos, r.videos, source, now)
      && (forall k :: k in r.videos && k !in s.videos ==> SavesUnder(Some(f), k))
      && (forall k :: Creatable(source, Some(f), k, now) && k !in s.videos ==> k in r.videos)
      && (WellFormed(s.videos) ==> WellFormed(r.videos))
  {
    if Classify(f.items, f.channels) == Save {
      var rec := NewRecord(source, f.items[0], f.channels[0], now);
      if rec.Some? {
        assert Classify([f.items[0]], [f.channels[0]]) == Save;
        SavedRecordIsExactly301(source, f.items[0], f.channels[0], now);
      }
    }
  }

  /** One `_processVideoIds` task: it blacklists only its own id, and only
      on a Blacklist verdict for an id neither blacklisted nor stored; it
      adds at most the record its fetch saves; a creatable candidate that
      is not blacklisted is stored afterwards. */
  lemma AfterVideoIdChanges(s: CrawlState, source: Source, api: YouTubeApi, x: string, now: int)
    ensures var r := AfterVideoId(s, source, api, x, now);
      && r.blacklist == (if x !in s.blacklist && x !in s.videos && ClassifyVideoId(api, x) == Some(Blacklist)
                         then s.blacklist + {x} else s.blacklist)
      && Discovered(s.videos, r.videos, source, now)
      && (forall k :: k in r.videos && k !in s.videos ==> SavesUnder(FetchVideoId(api, x), k))
      && (x !in s.blacklist && Creatable(source, FetchVideoId(api, x), x, now) ==> x in r.videos)
      && (WellFormed(s.videos) ==> WellFormed(r.videos))
  {
    if x !in s.blacklist && x !in s.videos && FetchVideoId(api, x).Some? {
      ConcludedChanges(s, source, x, FetchVideoId(api, x).value, now);
    }
  }

  /** `_processVideoIds` as a whole. The blacklist grows by exactly the
      inputs classified Blacklist that are not stored; the collection grows
      by fresh 301 records, each saved from the fetch of some input; and
      every input classified Save whose record the schema accepts, and that
      was not blacklisted before, is stored afterwards. */
  lemma {:induction false} AfterVideoIdsChanges(s: CrawlState, source: Source, api: YouTubeApi, ids: seq<string>, now: int)
    ensures var r := AfterVideoIds(s, source, api, ids, now);
      && s.blacklist <= r.blacklist
      && (forall x :: x in r.blacklist && x !in s.blacklist ==> x in ids && ClassifyVideoId(api, x) == Some(Blacklist))
      && (forall x :: x in ids && x !in r.videos && ClassifyVideoId(api, x) == Some(Blacklist) ==> x in r.blacklist)
      && Discovered(s.videos, r.videos, source, now)
      && (forall k :: k in r.videos && k !in s.videos ==> exists x :: x in ids && SavesUnder(FetchVideoId(api, x), k))
      && (forall x :: x in ids && x !in s.blacklist && Creatable(source, FetchVideoId(api, x), x, now) ==> x in r.videos)
      && (WellFormed(s.videos) ==> WellFormed(r.videos))
    decreases |ids|
  {
    if ids != [] {
      var init, last := ids[..|ids| - 1], ids[|ids| - 1];
      assert ids == init + [last];
      var m := AfterVideoIds(s, source, api, init, now);
      var r := AfterVideoId(m, source, api, last, now);
      AfterVideoIdsChanges(s, source, api, init, now);
      AfterVideoIdChanges(m, source, api, last, now);
      DiscoveredTransitive(s.videos, m.videos, r.videos, source, now);
      forall x | x in ids && x !in s.blacklist && Creatable(source, FetchVideoId(api, x), x, now)
        ensures x in r.videos
      {
        if x !in init {
          assert x == last && x !in m.blacklist;
        }
      }
      forall k | k in r.videos && k !in s.videos ensures exists x :: x in ids && SavesUnder(FetchVideoId(api, x), k) {
        if k !in m.videos {
          assert SavesUnder(FetchVideoId(api, last), k);
        } else {
          var x :| x in init && SavesUnder(FetchVideoId(api, x), k);
          assert x in ids;
        }
      }
    }
  }

  /** One `_processYouTubeSearchResultsPage` task: a live broadcast is
      blacklisted before the collection is consulted; otherwise as for
      `_processVideoIds`, with the parallel fetch. */
  lemma AfterSearchItemChanges(s: CrawlState, api: YouTubeApi, it: SearchItem, now: int)
    ensures var r := AfterSearchItem(s, api, it, now);
      && r.blacklist == (if it.videoId !in s.blacklist
                            && (it.liveBroadcastContent != "none"
                                || (it.videoId !in s.videos && ClassifySearchItem(api, it) == Some(Blacklist)))
                         then s.blacklist + {it.videoId} else s.blacklist)
      && Discovered(s.videos, r.videos, YouTube, now)
      && (forall k :: k in r.videos && k !in s.videos ==> SavesUnder(FetchSearchItem(api, it), k))
      && ((it.videoId !in s.blacklist && it.liveBroadcastContent == "none"
           && Creatable(YouTube, FetchSearchItem(api, it), it.videoId, now)) ==> it.videoId in r.videos)
      && (WellFormed(s.videos) ==> WellFormed(r.videos))
  {
    var id := it.videoId;
    if id !in s.blacklist && it.liveBroadcastContent == "none" && id !in s.videos && FetchSearchItem(api, it).Some? {
      ConcludedChanges(s, YouTube, id, FetchSearchItem(api, it).value, now);
    }
  }

  /** `_processYouTubeSearchResultsPage` as a whole: only the page's ids
      join the blacklist, each for a live broadcast or a Blacklist verdict;
      the collection grows by fresh 301 records saved from the page's
      fetches; and a creatable, not live, not yet blacklisted item (listed
      once on the page) is stored afterwards. */
  lemma {:induction false} AfterPageChanges(s: CrawlState, api: YouTubeApi, items: seq<SearchItem>, now: int)
    ensures var r := AfterPage(s, api, items, now);
      && s.blacklist <= r.blacklist
      && (forall x :: x in r.blacklist && x !in s.blacklist ==>
            exists it :: it in items && it.videoId == x
                         && (it.liveBroadcastContent != "none" || ClassifySearchItem(api, it) == Some(Blacklist)))
      && Discovered(s.videos, r.videos, YouTube, now)
      && (forall k :: k in r.videos && k !in s.videos ==> exists it :: it in items && SavesUnder(FetchSearchItem(api, it), k))
      && (forall it :: it in items && it.videoId !in s.blacklist && it.liveBroadcastContent == "none"
            && Creatable(YouTube, FetchSearchItem(api, it), it.videoId, now)
            && (forall o :: o in items && o.videoId == it.videoId ==> o == it)
            ==> it.videoId in r.videos)
      && (WellFormed(s.videos) ==> WellFormed(r.videos))
    decreases |items|
  {
    if items != [] {
      var init, last := items[..|items| - 1], items[|items| - 1];
      assert items == init + [last];
      var m := AfterPage(s, api, init, now);
      var r := AfterSearchItem(m, api, last, now);
      AfterPageChanges(s, api, init, now);
      AfterSearchItemChanges(m, api, last, now);
      DiscoveredTransitive(s.videos, m.videos, r.videos, YouTube, now);
      forall x | x in r.blacklist && x !in s.blacklist
        ensures exists it :: it in items && it.videoId == x
                             && (it.liveBroadcastContent != "none" || ClassifySearchItem(api, it) == Some(Blacklist))
      {
        if x in m.blacklist {
          var it :| it in init && it.videoId == x
                    && (it.liveBroadcastContent != "none" || ClassifySearchItem(api, it) == Some(Blacklist));
          assert it in items;
        } else {
          assert last in items && last.videoId == x;
        }
      }
      forall it | it in items && it.videoId !in s.blacklist && it.liveBroadcastContent == "none"
            && Creatable(YouTube, FetchSearchItem(api, it), it.videoId, now)
            && (forall o :: o in items && o.videoId == it.videoId ==> o == it)
        ensures it.videoId in r.videos
      {
        if it !in init {
          assert it == last;
          forall o | o in init ensures o.videoId != it.videoId {
            assert o in items;
          }
        }
      }
      forall k | k in r.videos && k !in s.videos ensures exists it :: it in items && SavesUnder(FetchSearchItem(api, it), k) {
        if k !in m.videos {
          assert last in items && SavesUnder(FetchSearchItem(api, last), k);
        } else {
          var it :| it in init && SavesUnder(FetchSearchItem(api, it), k);
          assert it in items;
        }
      }
    }
  }

  /** Successive pages: only ids of those pages join the blacklist, and the
      collection grows by fresh 301 records saved from their items. */
  lemma {:induction false} AfterPagesChanges(s: CrawlState, api: YouTubeApi, pages: seq<Page>, now: int)
    ensures var r := AfterPages(s, api, pages, now);
      && s.blacklist <= r.blacklist
      && (forall x :: x in r.blacklist && x !in s.blacklist ==> exists p :: p in pages && x in PageIds(p))
      && Discovered(s.videos, r.videos, YouTube, now)
      && (forall k :: k in r.videos && k !in s.videos ==>
            exists p, it :: p in pages && it in p.items && SavesUnder(FetchSearchItem(api, it), k))
      && (WellFormed(s.videos) ==> WellFormed(r.videos))
    decreases |pages|
  {
    if pages != [] {
      var first, rest := pages[0], pages[1..];
      var m := AfterPage(s, api, first.items, now);
      var r := AfterPages(m, api, rest, now);
      AfterPageChanges(s, api, first.items, now);
      AfterPagesChanges(m, api, rest, now);
      DiscoveredTransitive(s.videos, m.videos, r.videos, YouTube, now);
      forall x | x in r.blacklist && x !in s.blacklist ensures exists p :: p in pages && x in PageIds(p) {
        if x in m.blacklist {
          var it :| it in first.items && it.videoId == x
                    && (it.liveBroadcastContent != "none" || ClassifySearchItem(api, it) == Some(Blacklist));
          var i :| 0 <= i < |first.items| && first.items[i] == it;
          assert PageIds(first)[i] == x;
          assert first in pages;
        } else {
          var p :| p in rest && x in PageIds(p);
          assert p in pages;
        }
      }
      forall k | k in r.videos && k !in s.videos
        ensures exists p, it :: p in pages && it in p.items && SavesUnder(FetchSearchItem(api, it), k)
      {
        if k in m.videos {
          var it :| it in first.items && SavesUnder(FetchSearchItem(api, it), k);
          assert first in pages;
        } else {
          var p, it :| p in rest && it in p.items && SavesUnder(FetchSearchItem(api, it), k);
          assert p in pages;
        }
      }
    }
  }

  /** `searchYouTube` changes the state only by processing the pages it
      keeps: only ids listed on a reply join the blacklist, and only fresh
      301 records saved from a reply's items join the collection. */
  lemma SearchChanges(s: CrawlState, api: YouTubeApi, maxPages: nat, replies: seq<ApiResult<Page>>, now: int)
    ensures var r := AfterPages(s, api, KeptPages(maxPages, InitialSearch, replies), now);
      && s.blacklist <= r.blacklist
      && (forall id :: id in r.blacklist && id !in s.blacklist ==> exists p :: Reply(p) in replies && id in PageIds(p))
      && Discovered(s.videos, r.videos, YouTube, now)
      && (forall k :: k in r.videos && k !in s.videos ==>
            exists p, it :: Reply(p) in replies && it in p.items && SavesUnder(FetchSearchItem(api, it), k))
      && (WellFormed(s.videos) ==> WellFormed(r.videos))
  {
    var kept := KeptPages(maxPages, InitialSearch, replies);
    AfterPagesChanges(s, api, kept, now);
    KeptPagesCounted(maxPages, InitialSearch, replies);
  }

  class Crawler {
    /** The Redis set `filteredVideoIds`. */
    var blacklist: set<string>
    /** The Video collection, by `videoId`. */
    var videos: map<string, VideoRecord>

    ghost predicate Valid()
      reads this
    {
      WellFormed(videos)
    }

    constructor (blacklist0: set<string>, videos0: map<string, VideoRecord>)
      requires WellFormed(videos0)
      ensures Valid() && blacklist == blacklist0 && videos == videos0
    {
      blacklist := blacklist0;
      videos := videos0;
    }

    /** `_addToRedisBlackList`: `sadd`, idempotent. */
    method AddToBlacklist(id: string)
      modifies this
      ensures blacklist == old(blacklist) + {id} && videos == old(videos)
    {
      blacklist := blacklist + {id};
    }

    /** `_saveVideo`: `Video.create`, refused on a duplicate `videoId` or on
      counts the schema cannot cast. */
    method SaveVideo(source: Source, item: VideoItem, channel: ChannelItem, now: int) returns (saved: bool)
      requires Valid()
      modifies this
      ensures Valid() && blacklist == old(blacklist)
      ensures saved <==> item.id !in old(videos) && NewRecord(source, item, channel, now).Some?
      ensures saved ==> videos == old(videos)[item.id := NewRecord(source, item, channel, now).value]
      ensures !saved ==> videos == old(videos)
    {
      var rec := NewRecord(source, item, channel, now);
      if item.id in videos || rec.None? {
        saved := false;
      } else {
        videos := videos[item.id := rec.value];
        saved := true;
      }
    }

    /** The end of both discovery pipelines, once the video and its channel
      are fetched: blacklist, save or leave alone, as the classifier says. */
    method Conclude(source: Source, id: string, items: seq<VideoItem>, channels: seq<ChannelItem>, now: int)
      returns (outcome: Outcome, calls: seq<Call>)
      requires Valid()
      modifies this
      ensures Valid()
      ensures Classify(items, channels) == Blacklist ==> outcome == Blacklisted && calls == [AddMember(id)]
      ensures Classify(items, channels) == Save ==>
        (outcome == Saved || outcome == SaveRejected) && calls == [CreateRecord(items[0].id)]
      ensures Classify(items, channels) == Ignore ==> outcome == Ignored && calls == []
      ensures Classify(items, channels) == Save ==>
        (outcome == Saved <==> items[0].id !in old(videos) && NewRecord(source, items[0], channels[0], now).Some?)
      ensures CrawlState(blacklist, videos) == Concluded(CrawlState(old(blacklist), old(videos)), source, id, Fetched(items, channels), now)
      ensures outcome == Saved ==>
        videos == old(videos)[items[0].id := NewRecord(source, items[0], channels[0], now).value]
      ensures outcome != Saved ==> videos == old(videos)
      ensures Discovered(old(videos), videos, source, now)
    {
      ConcludedChanges(CrawlState(blacklist, videos), source, id, Fetched(items, channels), now);
      match Classify(items, channels)
      case Blacklist =>
        calls := [AddMember(id)];
        AddToBlacklist(id);
        outcome := Blacklisted;
      case Save =>
        calls := [CreateRecord(items[0].id)];
        var saved := SaveVideo(source, items[0], channels[0], now);
        outcome := if saved then Saved else SaveRejected;
      case Ignore =>
        calls := [];
        outcome := Ignored;
    }

    /** One task of `_processVideoIds`' queue: the blacklist, then the
      collection, then the API, then the verdict. */
    method ProcessVideoId(source: Source, videoId: string, api: YouTubeApi, now: int)
      returns (outcome: Outcome, calls: seq<Call>)
      requires Valid()
      modifies this
      ensures Valid()
      ensures |calls| > 0 && calls[0] == IsMember(videoId)
      ensures videoId in old(blacklist) ==>
        outcome == AlreadyBlacklisted && calls == [IsMember(videoId)] && blacklist == old(blacklist) && videos == old(videos)
      ensures videoId !in old(blacklist) && videoId in old(videos) ==>
        outcome == AlreadyStored && calls == [IsMember(videoId), FindRecord(videoId)]
        && blacklist == old(blacklist) && videos == old(videos)
      ensures FetchVideo(videoId) in calls <==> videoId !in old(blacklist) && videoId !in old(videos)
      ensures videoId !in old(blacklist) && videoId !in old(videos) ==>
        && (outcome == FetchFailed <==> ClassifyVideoId(api, videoId).None?)
        && (outcome == Blacklisted <==> ClassifyVideoId(api, videoId) == Some(Blacklist))
        && (outcome == Saved || outcome == SaveRejected <==> ClassifyVideoId(api, videoId) == Some(Save))
        && (outcome == Ignored <==> ClassifyVideoId(api, videoId) == Some(Ignore))
      ensures outcome == Saved <==>
        && videoId !in old(blacklist) && videoId !in old(videos) && FetchVideoId(api, videoId).Some?
        && var f := FetchVideoId(api, videoId).value;
           Classify(f.items, f.channels) == Save && f.items[0].id !in old(videos)
           && NewRecord(source, f.items[0], f.channels[0], now).Some?
      ensures outcome == Saved ==>
        var f := FetchVideoId(api, videoId).value;
        videos == old(videos)[f.items[0].id := NewRecord(source, f.items[0], f.channels[0], now).value]
      ensures CrawlState(blacklist, videos) == AfterVideoId(CrawlState(old(blacklist), old(videos)), source, api, videoId, now)
      ensures blacklist == if outcome == Blacklisted then old(blacklist) + {videoId} else old(blacklist)
      ensures outcome != Saved ==> videos == old(videos)
      ensures Discovered(old(videos), videos, source, now)
    {
      calls := [IsMember(videoId)];
      if videoId in blacklist {
        return AlreadyBlacklisted, calls;
      }
      calls := calls + [FindRecord(videoId)];
      if videoId in videos {
        return AlreadyStored, calls;
      }
      calls := calls + [FetchVideo(videoId)];
      var videoReply := api.videoStatistics([videoId]);
      if videoReply.ApiError? {
        return FetchFailed, calls;
      }
      var items := videoReply.value;
      var channels: seq<ChannelItem> := [];
      if |items| > 0 {
        calls := calls + [FetchChannel(items[0].snippet.channelId)];
        var channelReply := api.channelStatistics([items[0].snippet.channelId]);
        if channelReply.ApiError? {
          return FetchFailed, calls;
        }
        channels := channelReply.value;
      }
      var tail;
      outcome, tail := Conclude(source, videoId, items, channels, now);
      calls := calls + tail;
    }

    /** `_processVideoIds`: the queue's tasks, one after the other. */
    method ProcessVideoIds(source: Source, videoIds: seq<string>, api: YouTubeApi, now: int)
      requires Valid()
      modifies this
      ensures Valid()
      ensures CrawlState(blacklist, videos) == AfterVideoIds(CrawlState(old(blacklist), old(videos)), source, api, videoIds, now)
      ensures old(blacklist) <= blacklist
      ensures forall id :: id in blacklist && id !in old(blacklist) ==> id in videoIds && ClassifyVideoId(api, id) == Some(Blacklist)
      ensures forall id :: id in videoIds && id !in videos && ClassifyVideoId(api, id) == Some(Blacklist) ==> id in blacklist
      ensures forall id :: id in videoIds && id !in old(blacklist) && Creatable(source, FetchVideoId(api, id), id, now) ==>
        id in videos
      ensures forall k :: k in videos && k !in old(videos) ==> exists id :: id in videoIds && SavesUnder(FetchVideoId(api, id), k)
      ensures Discovered(old(videos), videos, source, now)
    {
      var i := 0;
      while i < |videoIds|
        invariant 0 <= i <= |videoIds|
        invariant Valid()
        invariant CrawlState(blacklist, videos) == AfterVideoIds(CrawlState(old(blacklist), old(videos)), source, api, videoIds[..i], now)
      {
        assert videoIds[..i + 1][..i] == videoIds[..i];
        var outcome, calls := ProcessVideoId(source, videoIds[i], api, now);
        i := i + 1;
      }
      assert videoIds[..i] == videoIds;
      AfterVideoIdsChanges(CrawlState(old(blacklist), old(videos)), source, api, videoIds, now);
    }

    /** One task of `_processYouTubeSearchResultsPage`'s queue: the blacklist,
      then the live-broadcast flag, then the collection, then both fetches. */
    method ProcessSearchItem(item: SearchItem, api: YouTubeApi, now: int)
      returns (outcome: Outcome, calls: seq<Call>)
      requires Valid()
      modifies this
      ensures Valid()
      ensures |calls| > 0 && calls[0] == IsMember(item.videoId)
      ensures item.videoId in old(blacklist) ==>
        outcome == AlreadyBlacklisted && calls == [IsMember(item.videoId)]
        && blacklist == old(blacklist) && videos == old(videos)
      ensures item.videoId !in old(blacklist) && item.liveBroadcastContent != "none" ==>
        outcome == LiveBlacklisted && calls == [IsMember(item.videoId), AddMember(item.videoId)]
        && videos == old(videos)
      ensures FindRecord(item.videoId) in calls <==> item.videoId !in old(blacklist) && item.liveBroadcastContent == "none"
      ensures FetchVideo(item.videoId) in calls <==>
        item.videoId !in old(blacklist) && item.liveBroadcastContent == "none" && item.videoId !in old(videos)
      ensures item.videoId !in old(blacklist) && item.liveBroadcastContent == "none" && item.videoId !in old(videos) ==>
        && (outcome == FetchFailed <==> ClassifySearchItem(api, item).None?)
        && (outcome == Blacklisted <==> ClassifySearchItem(api, item) == Some(Blacklist))
        && (outcome == Saved || outcome == SaveRejected <==> ClassifySearchItem(api, item) == Some(Save))
        && (outcome == Ignored <==> ClassifySearchItem(api, item) == Some(Ignore))
      ensures outcome == Saved <==>
        && item.videoId !in old(blacklist) && item.liveBroadcastContent == "none" && item.videoId !in old(videos)
        && FetchSearchItem(api, item).Some?
        && var f := FetchSearchItem(api, item).value;
           Classify(f.items, f.channels) == Save && f.items[0].id !in old(videos)
           && NewRecord(YouTube, f.items[0], f.channels[0], now).Some?
      ensures outcome == Saved ==>
        var f := FetchSearchItem(api, item).value;
        videos == old(videos)[f.items[0].id := NewRecord(YouTube, f.items[0], f.channels[0], now).value]
      ensures CrawlState(blacklist, videos) == AfterSearchItem(CrawlState(old(blacklist), old(videos)), api, item, now)
      ensures blacklist == if outcome == Blacklisted || outcome == LiveBlacklisted
                           then old(blacklist) + {item.videoId} else old(blacklist)
      ensures outcome != Saved ==> videos == old(videos)
      ensures Discovered(old(videos), videos, YouTube, now)
    {
      var id := item.videoId;
      calls := [IsMember(id)];
      if id in blacklist {
        return AlreadyBlacklisted, calls;
      }
      if item.liveBroadcastContent != "none" {
        calls := calls + [AddMember(id)];
        AddToBlacklist(id);
        return LiveBlacklisted, calls;
      }
      calls := calls + [FindRecord(id)];
      if id in videos {
        return AlreadyStored, calls;
      }
      calls := calls + [FetchVideo(id), FetchChannel(item.channelId)];
      var videoReply := api.videoStatistics([id]);
      var channelReply := api.channelStatistics([item.channelId]);
      if videoReply.ApiError? || channelReply.ApiError? {
        return FetchFailed, calls;
      }
      var items, channels := videoReply.value, channelReply.value;
      var tail;
      outcome, tail := Conclude(YouTube, id, items, channels, now);
      calls := calls + tail;
    }

    /** `_processYouTubeSearchResultsPage`: the page's items, one after the other. */
    method ProcessSearchResultsPage(page: Page, api: YouTubeApi, now: int)
      requires Valid()
      modifies this
      ensures Valid()
      ensures CrawlState(blacklist, videos) == AfterPage(CrawlState(old(blacklist), old(videos)), api, page.items, now)
      ensures old(blacklist) <= blacklist
      ensures forall id :: id in blacklist && id !in old(blacklist) ==> id in PageIds(page)
      ensures forall it ::
        (&& it in page.items && it.videoId !in old(blacklist) && it.liveBroadcastContent == "none"
         && Creatable(YouTube, FetchSearchItem(api, it), it.videoId, now)
         && (forall o :: o in page.items && o.videoId == it.videoId ==> o == it))
        ==> it.videoId in videos
      ensures forall k :: k in videos && k !in old(videos) ==>
        exists it :: it in page.items && SavesUnder(FetchSearchItem(api, it), k)
      ensures Discovered(old(videos), videos, YouTube, now)
    {
      var i := 0;
      while i < |page.items|
        invariant 0 <= i <= |page.items|
        invariant Valid()
        invariant CrawlState(blacklist, videos) == AfterPage(CrawlState(old(blacklist), old(videos)), api, page.items[..i], now)
      {
        assert page.items[..i + 1][..i] == page.items[..i];
        var outcome, calls := ProcessSearchItem(page.items[i], api, now);
        i := i + 1;
      }
      assert page.items[..i] == page.items;
      AfterPageChanges(CrawlState(old(blacklist), old(videos)), api, page.items, now);
      forall id | id in blacklist && id !in old(blacklist) ensures id in PageIds(page) {
        var it :| it in page.items && it.videoId == id
                  && (it.liveBroadcastContent != "none" || ClassifySearchItem(api, it) == Some(Blacklist));
        var j :| 0 <= j < |page.items| && page.items[j] == it;
        assert PageIds(page)[j] == id;
      }
    }

    /** `searchYouTube`: the `async.whilst` loop over the API's successive
      replies. A repeated page only moves the counters; a new page is kept
      and its items processed. The result is the loop's final state and
      whether it ended on an error. */
    method SearchYouTube(maxPages: nat, replies: seq<ApiResult<Page>>, api: YouTubeApi, now: int)
      returns (result: SearchOutcome)
      requires Valid()
      modifies this
      ensures Valid()
      ensures result == SearchRun(maxPages, InitialSearch, replies)
      ensures result.state.pagesLoaded <= maxPages
      ensures CrawlState(blacklist, videos) ==
        AfterPages(CrawlState(old(blacklist), old(videos)), api, KeptPages(maxPages, InitialSearch, replies), now)
      ensures old(blacklist) <= blacklist
      ensures forall id :: id in blacklist && id !in old(blacklist) ==> exists p :: Reply(p) in replies && id in PageIds(p)
      ensures Discovered(old(videos), videos, YouTube, now)
    {
      var st := InitialSearch;
      var i := 0;
      while i < |replies| && Continues(st, maxPages)
        invariant 0 <= i <= |replies|
        invariant SearchRun(maxPages, st, replies[i..]) == SearchRun(maxPages, InitialSearch, replies)
        invariant AfterPages(CrawlState(blacklist, videos), api, KeptPages(maxPages, st, replies[i..]), now)
               == AfterPages(CrawlState(old(blacklist), old(videos)), api, KeptPages(maxPages, InitialSearch, replies), now)
        invariant st.pagesLoaded <= maxPages
        invariant Valid()
      {
        match replies[i]
        case ApiError =>
          assert KeptPages(maxPages, st, replies[i..]) == [];
          SearchChanges(CrawlState(old(blacklist), old(videos)), api, maxPages, replies, now);
          return SearchOutcome(st, true);
        case Reply(page) =>
          var repeat := IsRepeat(st, page);
          var rest := KeptPages(maxPages, NextSearchState(st, page), replies[i + 1..]);
          assert replies[i..][1..] == replies[i + 1..];
          if !repeat {
            assert KeptPages(maxPages, st, replies[i..]) == [page] + rest;
            assert ([page] + rest)[1..] == rest;
            ProcessSearchResultsPage(page, api, now);
          } else {
            assert KeptPages(maxPages, st, replies[i..]) == rest;
          }
          st := NextSearchState(st, page);
        i := i + 1;
      }
      assert KeptPages(maxPages, st, replies[i..]) == [];
      SearchChanges(CrawlState(old(blacklist), old(videos)), api, maxPages, replies, now);
      result := SearchOutcome(st, false);
    }


    /** The worker of one batch whose API call succeeded: each record of
      the batch gets its update, one after the other. */
    method RunBatch(batch: seq<string>, items: seq<VideoItem>, job: Job, now: int)
      requires Valid()
      modifies this
      ensures Valid() && blacklist == old(blacklist)
      ensures videos == UpdateRecords(old(videos), batch, items, job, now)
    {
      var j := 0;
      while j < |batch|
        invariant 0 <= j <= |batch|
        invariant videos == UpdateRecords(old(videos), batch[..j], items, job, now)
        invariant Valid() && blacklist == old(blacklist)
      {
        var id := batch[j];
        assert batch[..j + 1][..j] == batch[..j];
        UpdateOneEvolves(videos, id, items, job, now);
        if id in videos {
          var rec := videos[id];
          videos := videos[id := ApplyUpdate(rec, UpdateFor(job, rec, FindItem(items, id), now), now)];
        }
        j := j + 1;
      }
      assert batch[..j] == batch;
    }

    /** The cargo of both lifecycle jobs: batches of at most 50 records, one
      API call per batch; a batch whose call failed is skipped. */
    method RunBatches(order: seq<string>, api: YouTubeApi, job: Job, now: int)
      requires Valid()
      modifies this
      ensures Valid() && blacklist == old(blacklist)
      ensures videos == UpdateBatches(old(videos), Batches(order, MaxApiBatch), api, job, now)
    {
      var batches := Batches(order, MaxApiBatch);
      var b := 0;
      while b < |batches|
        invariant 0 <= b <= |batches|
        invariant videos == UpdateBatches(old(videos), batches[..b], api, job, now)
        invariant Valid() && blacklist == old(blacklist)
      {
        assert batches[..b + 1][..b] == batches[..b];
        var reply := api.videoStatistics(batches[b]);
        if reply.Reply? {
          RunBatch(batches[b], reply.value, job, now);
        }
        b := b + 1;
      }
      assert batches[..b] == batches;
    }

    /** `updateAll301`: refresh every loaded record (active, 301 views),
      `order` being the order the database returned them in; once all
      batches are done, deactivate every record above 301 views. Nothing is
      done, not even the sweep, when no record was loaded. */
    method UpdateAll301(order: seq<string>, api: YouTubeApi, now: int)
      requires Valid()
      requires NoDuplicates(order) && (set id | id in order) == RefreshSelection(videos)
      modifies this
      ensures Valid() && blacklist == old(blacklist)
      ensures order == [] ==> videos == old(videos)
      ensures order != [] ==> videos == Sweep(UpdateBatches(old(videos), Batches(order, MaxApiBatch), api, Refresh, now))
      ensures videos.Keys == old(videos).Keys
      ensures order != [] ==> forall k :: k in old(videos) ==>
        var u := Updated(old(videos)[k], ReplyFor(Batches(order, MaxApiBatch), api, k), Refresh, now);
        videos[k] == u.(active := u.active && u.statistics.viewCount <= Target)
      ensures order != [] ==> forall k :: k in old(videos) && k !in RefreshSelection(old(videos)) ==>
        videos[k] == old(videos)[k].(active := old(videos)[k].active && old(videos)[k].statistics.viewCount <= Target)
      ensures order != [] ==> forall k :: k in videos && videos[k].active ==> videos[k].statistics.viewCount <= Target
      ensures CollectionEvolves(old(videos), videos)
    {
      if order == [] {
        assert CollectionEvolves(old(videos), videos) by {
          forall k | k in videos ensures Evolves(videos[k], videos[k]) {
            assert videos[k].history[..|videos[k].history|] == videos[k].history;
          }
        }
        return;
      }
      var batches := Batches(order, MaxApiBatch);
      RunBatches(order, api, Refresh, now);
      UpdateBatchesPointwise(old(videos), batches, api, Refresh, now);
      UpdateBatchesWellFormed(old(videos), batches, api, Refresh, now);
      forall k | k in old(videos) && k !in RefreshSelection(old(videos))
        ensures ReplyFor(batches, api, k) == None
      {
        ReplyForOutside(batches, api, k);
      }
      ghost var updated := videos;
      SweepEvolves(videos);
      videos := Sweep(videos);
      CollectionEvolvesTransitive(old(videos), updated, videos);
    }

    /** `archiveOldVideos`: for every loaded record (inactive, not archived,
      at least `minArchiveAgeSecs` old), refresh its counts and set
      `archived` by the job's rule. */
    method ArchiveOldVideos(order: seq<string>, minArchiveAgeSecs: int, maxArchiveAgeSecs: int, api: YouTubeApi, now: int)
      requires Valid()
      requires NoDuplicates(order) && (set id | id in order) == ArchiveSelection(videos, minArchiveAgeSecs, now)
      modifies this
      ensures Valid() && blacklist == old(blacklist)
      ensures videos == UpdateBatches(old(videos), Batches(order, MaxApiBatch), api, Archive(maxArchiveAgeSecs), now)
      ensures videos.Keys == old(videos).Keys
      ensures forall k :: k in old(videos) ==>
        videos[k] == Updated(old(videos)[k], ReplyFor(Batches(order, MaxApiBatch), api, k), Archive(maxArchiveAgeSecs), now)
      ensures forall k :: k in old(videos) && k !in ArchiveSelection(old(videos), minArchiveAgeSecs, now) ==>
        videos[k] == old(videos)[k]
      ensures forall k :: k in old(videos) ==>
        videos[k].active == old(videos)[k].active && videos[k].history == old(videos)[k].history
      ensures CollectionEvolves(old(videos), videos)
    {
      var batches := Batches(order, MaxApiBatch);
      RunBatches(order, api, Archive(maxArchiveAgeSecs), now);
      UpdateBatchesPointwise(old(videos), batches, api, Archive(maxArchiveAgeSecs), now);
      UpdateBatchesWellFormed(old(videos), batches, api, Archive(maxArchiveAgeSecs), now);
      forall k | k in old(videos)
        ensures videos[k].active == old(videos)[k].active && videos[k].history == old(videos)[k].history
        ensures k !in ArchiveSelection(old(videos), minArchiveAgeSecs, now) ==> videos[k] == old(videos)[k]
      {
        if k !in ArchiveSelection(old(videos), minArchiveAgeSecs, now) {
          ReplyForOutside(batches, api, k);
        }
        var reply := ReplyFor(batches, api, k);
        if reply.Some? {
          ArchiveEffect(old(videos)[k], FindItem(reply.value, k), maxArchiveAgeSecs, now);
        }
      }
    }
  }
}
