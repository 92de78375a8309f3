/** The persisted video document of models/Video.js and the ranking pass
    built on it: the map body that scores one record, the query that decides
    which records are scored, and the module-level cache of the result. */
module VideoModel {
  import opened JsSemantics

  // ---------------------------------------------------------------------------
  // Schema
  // ---------------------------------------------------------------------------

  /** The `source` enum: "youTube", "reddit" or "digg". */
  datatype Source = YouTube | Reddit | Digg

  function SourceName(s: Source): (name: string)
    ensures name == "youTube" <==> s == YouTube
  {
    match s
    case YouTube => "youTube"
    case Reddit => "reddit"
    case Digg => "digg"
  }

  /** The five counts, as the schema stores them: numbers. */
  datatype Statistics = Statistics(
    viewCount: nat, likeCount: nat, dislikeCount: nat, favoriteCount: nat, commentCount: nat)

  /** One `historicalStatistics` entry; `timestamp` is in milliseconds. */
  datatype Sample = Sample(timestamp: int, stats: Statistics)

  datatype Thumbnails = Thumbnails(defaultUrl: string, mediumUrl: string, highUrl: string)

  /** A stored video. `videoId` is the unique key; `publishedAt` and
      `createdAt` are in milliseconds. `archived`, `wasRemoved`, `createdAt`
      and `predictedViewCount` are the fields the crawler reads and writes
      beyond the declared schema. */
  datatype VideoRecord = VideoRecord(
    videoId: string,
    channelId: string,
    categoryId: string,
    channelSubscriberCount: nat,
    channelTitle: string,
    publishedAt: int,
    title: string,
    description: string,
    source: Source,
    thumbnails: Thumbnails,
    statistics: Statistics,
    history: seq<Sample>,
    active: bool,
    archived: bool,
    wasRemoved: bool,
    createdAt: int,
    predictedViewCount: Option<int>)

  /** The collection: unique `videoId`, each document under its own id, and
      a history that is never empty (it is seeded when the document is created). */
  predicate WellFormed(videos: map<string, VideoRecord>)
  {
    forall k :: k in videos ==> videos[k].videoId == k && |videos[k].history| > 0
  }

  // ---------------------------------------------------------------------------
  // Scoring (the body of the map function)
  // ---------------------------------------------------------------------------

  /** The reference instant of the score's time term, in seconds. */
  const ScoreEpochSecs: real := 1427851426.0
  /** The divisor of the score's time term. */
  const ScoreTimeScale: real := 45000.0
  /** Channels above this many subscribers get the flat minimum factor. */
  const LargeChannel: nat := 300000
  /** The floor an exponential fit's correlation must reach to earn a boost. */
  const ExpFitFloor: real := 0.8

  /** The two Pearson coefficients of a record's history against its linear
      and its exponential regression fit. The regression and the correlation
      are computed outside this model. */
  datatype Fit = Fit(rLin: real, rExp: real)

  /** One point of `historicalScoreData`: seconds since the first sample,
      and the vote score (likes minus dislikes) at that sample. */
  datatype ScorePoint = ScorePoint(secs: real, votes: int)

  /** The scored record the map function emits. */
  datatype RankedRecord = RankedRecord(
    videoId: string,
    url: string,
    title: string,
    source: Source,
    description: string,
    channelSubscriberCount: nat,
    publishedAt: int,
    statistics: Statistics,
    scalingFactor: real,
    score: real,
    rExp: real,
    rLin: real,
    rDiff: real)

  function VoteScore(s: Statistics): int
  {
    s.likeCount - s.dislikeCount
  }

  /** The subscriber-count part of the scaling factor: linear from 1 down to
      0.6 over the first 300000 subscribers, then flat. */
  function BaseScalingFactor(subscribers: nat): (f: real)
    ensures 0.6 <= f <= 1.0
    ensures subscribers > LargeChannel ==> f == 0.6
  {
    if subscribers > LargeChannel then 0.6
    else 1.0 - (subscribers as real * 0.4) / LargeChannel as real
  }

  /** The two branches meet at 300000 subscribers, and the factor never
      grows with the subscriber count. */
  lemma BaseScalingFactorContinuousAndDecreasing(a: nat, b: nat)
    requires a <= b
    ensures BaseScalingFactor(b) <= BaseScalingFactor(a)
    ensures BaseScalingFactor(LargeChannel) == 0.6 == BaseScalingFactor(LargeChannel + 1)
  {
  }

  /** Every source but YouTube's own search earns a bonus of 0.05. */
  function SourceBonus(source: Source): (bonus: real)
    ensures bonus == (if SourceName(source) != "youTube" then 0.05 else 0.0)
  {
    if source == YouTube then 0.0 else 0.05
  }

  /** The sign `y` of the vote score. */
  function Sign(v: int): (y: int)
    ensures y == -1 || y == 0 || y == 1
    ensures y == 0 <==> v == 0
    ensures y * v >= 0
    ensures y * v == (if v < 0 then -v else v)
  {
    if v < 0 then -1 else if v > 0 then 1 else 0
  }

  /** `rDiff`: how far the exponential fit beats the linear one, counted
      only when it beats it and reaches the 0.8 floor. */
  function RDiff(fit: Fit): (d: real)
    ensures d >= 0.0
    ensures d > 0.0 <==> fit.rExp > fit.rLin && fit.rExp >= ExpFitFloor
    ensures d > 0.0 ==> d == fit.rExp - fit.rLin
  {
    if fit.rExp > fit.rLin && fit.rExp >= ExpFitFloor then fit.rExp - fit.rLin else 0.0
  }

  function ScalingFactor(rec: VideoRecord, fit: Fit): real
  {
    BaseScalingFactor(rec.channelSubscriberCount) + SourceBonus(rec.source) + 5.0 * RDiff(fit)
  }

  /** The scaling factor decomposes into its three parts, and it is at least
      0.6 whatever the fit. */
  lemma ScalingFactorParts(rec: VideoRecord, fit: Fit)
    ensures ScalingFactor(rec, fit) >= 0.6
    ensures ScalingFactor(rec, fit) - ScalingFactor(rec, Fit(0.0, 0.0)) == 5.0 * RDiff(fit)
    ensures rec.source != YouTube ==>
      ScalingFactor(rec, fit) == ScalingFactor(rec.(source := YouTube), fit) + 0.05
  {
  }

  /** A strong accelerating history earns a strictly larger factor than a
      history the linear fit explains at least as well. */
  lemma ExponentialFitIsRewarded(rec: VideoRecord, exp: Fit, lin: Fit)
    requires exp.rExp > exp.rLin && exp.rExp >= ExpFitFloor
    requires lin.rLin >= lin.rExp
    ensures ScalingFactor(rec, exp) > ScalingFactor(rec, lin)
  {
  }

  /** `timeDiffSecs`: the publication time relative to the score's epoch. */
  function TimeDiffSecs(publishedAtMs: int): real
  {
    publishedAtMs as real / 1000.0 - ScoreEpochSecs
  }

  function MaxOne(v: int): (m: real)
    ensures m >= 1.0
  {
    var a := if v < 0 then -v else v;
    if a > 1 then a as real else 1.0
  }

  /** The score: scaling factor times log10 of the vote magnitude (at least 1),
      plus the signed time term. `log10` is supplied by the caller. */
  function Score(rec: VideoRecord, fit: Fit, log10: real -> real): real
  {
    var v := VoteScore(rec.statistics);
    ScalingFactor(rec, fit) * log10(MaxOne(v)) + (Sign(v) as real * TimeDiffSecs(rec.publishedAt)) / ScoreTimeScale
  }

  /** With at most one net vote, only the time term is left; with none, the
      score is 0. */
  lemma ScoreOfFewVotes(rec: VideoRecord, fit: Fit, log10: real -> real)
    requires log10(1.0) == 0.0
    requires -1 <= VoteScore(rec.statistics) <= 1
    ensures Score(rec, fit, log10) == (Sign(VoteScore(rec.statistics)) as real * TimeDiffSecs(rec.publishedAt)) / ScoreTimeScale
    ensures VoteScore(rec.statistics) == 0 ==> Score(rec, fit, log10) == 0.0
  {
    assert MaxOne(VoteScore(rec.statistics)) == 1.0;
  }

  /** `historicalScoreData`: each sample as (seconds since the first sample, vote score). */
  function HistoricalScoreData(history: seq<Sample>): (points: seq<ScorePoint>)
    requires |history| > 0
    ensures |points| == |history|
    ensures points[0].secs == 0.0
    ensures forall i :: 0 <= i < |history| ==> points[i].votes == VoteScore(history[i].stats)
  {
    var t0 := history[0].timestamp as real / 1000.0;
    seq(|history|, i requires 0 <= i < |history| =>
      ScorePoint(history[i].timestamp as real / 1000.0 - t0, VoteScore(history[i].stats)))
  }

  /** The watch URL the ranked record carries. */
  function WatchUrl(videoId: string): string
  {
    "https://www.youtube.com/watch?v=" + videoId
  }

  /** What the map function emits for one record; `fitOf` stands for the
      regression and Pearson code run over the record's history. */
  function Rank(rec: VideoRecord, fitOf: seq<ScorePoint> -> Fit, log10: real -> real): (r: RankedRecord)
    requires |rec.history| > 0
    ensures r.videoId == rec.videoId && r.statistics == rec.statistics && r.source == rec.source
    ensures r.rDiff >= 0.0 && r.scalingFactor >= 0.6
    ensures r.rDiff > 0.0 <==> r.rExp > r.rLin && r.rExp >= ExpFitFloor
  {
    var fit := fitOf(HistoricalScoreData(rec.history));
    ScalingFactorParts(rec, fit);
    RankedRecord(
      rec.videoId, WatchUrl(rec.videoId), rec.title, rec.source, rec.description,
      rec.channelSubscriberCount, rec.publishedAt, rec.statistics,
      ScalingFactor(rec, fit), Score(rec, fit, log10), fit.rExp, fit.rLin, RDiff(fit))
  }

  // ---------------------------------------------------------------------------
  // Which records are ranked
  // ---------------------------------------------------------------------------

  /** The title keywords of the ranking query, matched case-insensitively. */
  const RankingKeywords: seq<string> := [
    "movie", "minecraft", "hardline", "hearthstone", "gta", "my little pony",
    "download", "m.o.v.i.e", "episode", "keygen", "cheat", "wwe", "game of thrones"]

  /** The mapReduce query: a fifth history entry exists, at least 25 likes,
      active, and no keyword in the title. `archived` is not consulted. */
  predicate EligibleForRanking(rec: VideoRecord)
  {
    |rec.history| >= 5 && rec.statistics.likeCount >= 25 && rec.active
    && !MentionsAny(rec.title, RankingKeywords)
  }

  /** The ranked set: one scored record per eligible document, nothing else. */
  function Rankings(videos: map<string, VideoRecord>, fitOf: seq<ScorePoint> -> Fit, log10: real -> real)
    : (ranked: map<string, RankedRecord>)
    ensures ranked.Keys == set k | k in videos && EligibleForRanking(videos[k])
    ensures forall k :: k in ranked ==> ranked[k] == Rank(videos[k], fitOf, log10)
  {
    map k | k in videos && EligibleForRanking(videos[k]) :: Rank(videos[k], fitOf, log10)
  }

  /** No more records are ranked than pass the query, an archived record can
      be ranked, and a record with a keyword in its title never is. */
  lemma RankingsAreFiltered(videos: map<string, VideoRecord>, fitOf: seq<ScorePoint> -> Fit, log10: real -> real, k: string)
    ensures |Rankings(videos, fitOf, log10)| <= |videos|
    ensures k in Rankings(videos, fitOf, log10) ==>
      k in videos && videos[k].active && |videos[k].history| >= 5 && videos[k].statistics.likeCount >= 25
    ensures k in videos && IndexOfIgnoringCase(videos[k].title, "movie", 0).Some? ==>
      k !in Rankings(videos, fitOf, log10)
  {
    var ranked := Rankings(videos, fitOf, log10);
    assert ranked.Keys <= videos.Keys;
    SubsetCardinality(ranked.Keys, videos.Keys);
    assert RankingKeywords[0] == "movie";
  }

  lemma SubsetCardinality(a: set<string>, b: set<string>)
    requires a <= b
    ensures |a| <= |b|
  {
    assert b == a + (b - a);
  }

  // ---------------------------------------------------------------------------
  // The `_rankedModel` cache
  // ---------------------------------------------------------------------------

  datatype RankingResult = RankingFailed | Ranked(model: map<string, RankedRecord>)

  /** The module-level `_rankedModel`: unset at start, set by every
      successful regeneration, cleared by a failed one. */
  class RankingCache {
    var rankedModel: Option<map<string, RankedRecord>>

    constructor ()
      ensures rankedModel == None
    {
      rankedModel := None;
    }

    /** `regenerateRankings`: `dbFailed` is the outcome of the mapReduce call. */
    method RegenerateRankings(videos: map<string, VideoRecord>, fitOf: seq<ScorePoint> -> Fit,
                              log10: real -> real, dbFailed: bool)
      returns (result: RankingResult)
      modifies this
      ensures dbFailed ==> result == RankingFailed && rankedModel == None
      ensures !dbFailed ==> result == Ranked(Rankings(videos, fitOf, log10))
      ensures !dbFailed ==> rankedModel == Some(Rankings(videos, fitOf, log10))
    {
      if dbFailed {
        rankedModel := None;
        result := RankingFailed;
      } else {
        var model := Rankings(videos, fitOf, log10);
        rankedModel := Some(model);
        result := Ranked(model);
      }
    }

    /** `getRankedModel`: the cached model when there is one, otherwise a
      regeneration (whose failure leaves the cache empty). */
    method GetRankedModel(videos: map<string, VideoRecord>, fitOf: seq<ScorePoint> -> Fit,
                          log10: real -> real, dbFailed: bool)
      returns (result: RankingResult)
      modifies this
      ensures old(rankedModel).Some? ==> result == Ranked(old(rankedModel).value) && rankedModel == old(rankedModel)
      ensures old(rankedModel).None? && dbFailed ==> result == RankingFailed && rankedModel == None
      ensures old(rankedModel).None? && !dbFailed ==>
        result == Ranked(Rankings(videos, fitOf, log10)) && rankedModel == Some(Rankings(videos, fitOf, log10))
    {
      if rankedModel.Some? {
        result := Ranked(rankedModel.value);
      } else {
        result := RegenerateRankings(videos, fitOf, log10, dbFailed);
      }
    }
  }
}
