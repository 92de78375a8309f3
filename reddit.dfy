/** Reddit.js: the YouTube ids in the links of scraped subreddit pages.
    A link is tested and taken apart with the pattern
    `youtube\.com(?:.*)v=([\w-]*?)(?:&|\/|$)` under the `i` flag, read with
    the backtracking order of section 22.2 of ECMA-262: the leftmost start
    wins, and for that start the greedy `.*` picks the rightmost "v=". */
module Reddit {
  import opened JsSemantics

  const Host: string := "youtube.com"
  const Param: string := "v="

  /** `.` can match every character of `s[from..to]`. */
  predicate OnOneLine(s: string, from: nat, to: nat)
    requires from <= to <= |s|
  {
    forall k :: from <= k < to ==> !IsLineTerminator(s[k])
  }

  /** The lazy `[\w-]*?` followed by `(?:&|\/|$)`, from `p`: since neither
      '&' nor '/' is a word character, it succeeds only at the end of the
      maximal run, and only when '&', '/' or the end of the string follows. */
  predicate Terminated(s: string, p: nat)
    requires p <= |s|
  {
    var e := RunEnd(s, p);
    e == |s| || s[e] == '&' || s[e] == '/'
  }

  /** A "v=" at `j` whose id is validly terminated. */
  predicate ParamAt(s: string, j: nat)
  {
    LiteralAt(s, j, Param) && Terminated(s, j + |Param|)
  }

  /** The pattern matches with "youtube.com" at `i` and the "v=" at `j`. */
  predicate MatchAt(s: string, i: nat, j: nat)
  {
    LiteralAt(s, i, Host) && i + |Host| <= j && ParamAt(s, j) && OnOneLine(s, i + |Host|, j)
  }

  /** The match the regex engine reports: leftmost start, then rightmost "v=". */
  ghost predicate Chosen(s: string, i: nat, j: nat)
  {
    && MatchAt(s, i, j)
    && (forall a: nat, b: nat :: MatchAt(s, a, b) ==> i <= a)
    && (forall b: nat :: MatchAt(s, i, b) ==> b <= j)
  }

  /** The capture group: the id run after the "v=" at `j`. */
  function Capture(s: string, j: nat): (id: string)
    requires j + |Param| <= |s|
    ensures forall c :: c in id ==> IsIdChar(c)
  {
    var p := j + |Param|;
    var e := RunEnd(s, p);
    assert forall c :: c in s[p..e] ==> exists k :: p <= k < e && s[k] == c;
    s[p..e]
  }

  /** The first line terminator at or after `p`, or the end of `s`. */
  function LineEnd(s: string, p: nat): (e: nat)
    requires p <= |s|
    ensures p <= e <= |s|
    ensures OnOneLine(s, p, e)
    ensures e < |s| ==> IsLineTerminator(s[e])
    decreases |s| - p
  {
    if p == |s| || IsLineTerminator(s[p]) then p else LineEnd(s, p + 1)
  }

  /** The greedy `.*`: the largest `j` in [lo, hi) with a valid "v=". */
  function LastParam(s: string, lo: nat, hi: nat): (r: Option<nat>)
    ensures r.Some? ==> lo <= r.value < hi && ParamAt(s, r.value)
    ensures r.Some? ==> forall j :: r.value < j < hi ==> !ParamAt(s, j)
    ensures r.None? ==> forall j :: lo <= j < hi ==> !ParamAt(s, j)
    decreases hi
  {
    if hi <= lo then None
    else if ParamAt(s, hi - 1) then Some(hi - 1)
    else LastParam(s, lo, hi - 1)
  }

  /** The engine's scan for a start position, from `i` on. */
  function MatchFrom(s: string, i: nat): (r: Option<(nat, nat)>)
    ensures r.Some? ==> i <= r.value.0 && MatchAt(s, r.value.0, r.value.1)
    ensures r.Some? ==> forall a: nat, b: nat :: i <= a < r.value.0 ==> !MatchAt(s, a, b)
    ensures r.Some? ==> forall b: nat :: r.value.1 < b ==> !MatchAt(s, r.value.0, b)
    ensures r.None? ==> forall a: nat, b: nat :: i <= a ==> !MatchAt(s, a, b)
    decreases |s| - i
  {
    if i + |Host| > |s| then None
    else if LiteralAt(s, i, Host) then
      var from := i + |Host|;
      var e := LineEnd(s, from);
      match LastParam(s, from, e + 1)
      case Some(j) => Some((i, j))
      case None => MatchFrom(s, i + 1)
    else MatchFrom(s, i + 1)
  }

  /** `link.search(re)`: the start of the match, or -1. */
  function Search(s: string): (r: int)
    ensures r == -1 <==> forall i: nat, j: nat :: !MatchAt(s, i, j)
    ensures r != -1 ==> r >= 0 && exists j: nat :: Chosen(s, r, j)
  {
    match MatchFrom(s, 0)
    case None => -1
    case Some((i, j)) =>
      assert Chosen(s, i, j);
      i
  }

  /** `link.match(re)[1]`, None where `match` returns null. */
  function Match(s: string): (r: Option<string>)
    ensures r.Some? ==> forall c :: c in r.value ==> IsIdChar(c)
  {
    match MatchFrom(s, 0)
    case None => None
    case Some((i, j)) => Some(Capture(s, j))
  }

  /** The filter's `search(...) !== -1` holds exactly where `match` finds a
      capture for the map to take, so `[1]` is never read from null. */
  lemma SearchAgreesWithMatch(s: string)
    ensures Match(s).Some? <==> Search(s) != -1
  {
  }

  /** The id `match` returns is the capture of the engine's chosen match. */
  lemma MatchIsChosen(s: string)
    ensures Match(s).Some? ==> exists i: nat, j: nat :: Chosen(s, i, j) && j + |Param| <= |s| && Match(s).value == Capture(s, j)
    ensures forall i: nat, j: nat :: Chosen(s, i, j) ==> j + |Param| <= |s| && Match(s) == Some(Capture(s, j))
  {
    var r := MatchFrom(s, 0);
    if r.Some? {
      var i, j := r.value.0, r.value.1;
      assert Chosen(s, i, j);
      forall i': nat, j': nat | Chosen(s, i', j') ensures i' == i && j' == j {
        assert i' <= i && i <= i';
      }
    }
  }

  /** The ids pushed by the pages that loaded, in completion order, each
      page's links filtered and mapped by `capture`; a page whose scrape
      failed pushes nothing. */
  function Scraped(pages: seq<Option<seq<string>>>, capture: string -> Option<string>): seq<string>
  {
    if pages == [] then []
    else
      var init := Scraped(pages[..|pages| - 1], capture);
      match pages[|pages| - 1]
      case None => init
      case Some(links) => init + FilterMap(links, capture)
  }

  /** Some link of some page that loaded yields `id`. */
  ghost predicate FromSomeLink(pages: seq<Option<seq<string>>>, capture: string -> Option<string>, id: string)
  {
    exists p, k :: 0 <= p < |pages| && pages[p].Some? && 0 <= k < |pages[p].value| && capture(pages[p].value[k]) == Some(id)
  }

  lemma {:induction false} ScrapedMembership(pages: seq<Option<seq<string>>>, capture: string -> Option<string>)
    ensures forall id :: id in Scraped(pages, capture) <==> FromSomeLink(pages, capture, id)
    decreases |pages|
  {
    if pages != [] {
      var init := pages[..|pages| - 1];
      var n := |init|;
      ScrapedMembership(init, capture);
      forall id | id in Scraped(pages, capture) ensures FromSomeLink(pages, capture, id) {
        if id in Scraped(init, capture) {
          var p, k :| 0 <= p < n && init[p].Some? && 0 <= k < |init[p].value| && capture(init[p].value[k]) == Some(id);
          assert pages[p] == init[p];
        } else {
          var k :| 0 <= k < |pages[n].value| && capture(pages[n].value[k]) == Some(id);
        }
      }
      forall id | FromSomeLink(pages, capture, id) ensures id in Scraped(pages, capture) {
        var p, k :| 0 <= p < |pages| && pages[p].Some? && 0 <= k < |pages[p].value| && capture(pages[p].value[k]) == Some(id);
        if p < n {
          assert init[p] == pages[p];
          assert FromSomeLink(init, capture, id);
        }
      }
    }
  }

  /** `scrapeSubreddits`: each loaded page's ids pushed in turn, then `_.unique`. */
  method ScrapeSubreddits(pages: seq<Option<seq<string>>>) returns (videoIds: seq<string>)
    ensures videoIds == Unique(Scraped(pages, Match))
    ensures NoDuplicates(videoIds)
    ensures forall id :: id in videoIds <==> FromSomeLink(pages, Match, id)
  {
    var pushed: seq<string> := [];
    var p := 0;
    while p < |pages|
      invariant 0 <= p <= |pages|
      invariant pushed == Scraped(pages[..p], Match)
    {
      assert pages[..p + 1][..p] == pages[..p];
      if pages[p].Some? {
        pushed := pushed + FilterMap(pages[p].value, Match);
      }
      p := p + 1;
    }
    assert pages[..p] == pages;
    videoIds := Unique(pushed);
    ScrapedMembership(pages, Match);
  }

  /** A YouTube watch link yields its id. */
  lemma WatchLinkRoundTrip(id: string)
    requires forall c :: c in id ==> IsIdChar(c)
    ensures Match("https://www.youtube.com/watch?v=" + id) == Some(id)
  {
    var s := "https://www.youtube.com/watch?v=" + id;
    WatchLinkChosen(id);
    MatchIsChosen(s);
    assert Capture(s, 30) == s[32..] == id;
  }

  /** In a watch link the host sits at 12, the "v=" at 30, and neither an
      earlier host nor a later "v=" exists. */
  lemma WatchLinkChosen(id: string)
    requires forall c :: c in id ==> IsIdChar(c)
    ensures var s := "https://www.youtube.com/watch?v=" + id;
      Chosen(s, 12, 30) && RunEnd(s, 32) == |s| && s[32..] == id
  {
    WatchLinkMatchAt(id);
    WatchLinkNoEarlierHost(id);
    WatchLinkNoLaterParam(id);
  }

  lemma WatchLinkMatchAt(id: string)
    requires forall c :: c in id ==> IsIdChar(c)
    ensures var s := "https://www.youtube.com/watch?v=" + id;
      MatchAt(s, 12, 30) && RunEnd(s, 32) == |s| && s[32..] == id
  {
    var scheme, path := "https://www.", "/watch?";
    var s := scheme + Host + path + Param + id;
    assert s == "https://www.youtube.com/watch?v=" + id;
    assert s[..12] == scheme && s[12..23] == Host && s[23..30] == path && s[30..32] == Param && s[32..] == id;
    LiteralHere(s, 12, Host);
    LiteralHere(s, 30, Param);
    forall k | 32 <= k < |s| ensures IsIdChar(s[k]) {
      assert s[k] == id[k - 32];
    }
    forall k | 23 <= k < 30 ensures !IsLineTerminator(s[k]) {
      assert s[k] == path[k - 23];
    }
  }

  lemma WatchLinkNoEarlierHost(id: string)
    ensures var s := "https://www.youtube.com/watch?v=" + id;
      forall a: nat, b: nat :: MatchAt(s, a, b) ==> 12 <= a
  {
    var scheme := "https://www.";
    var s := "https://www.youtube.com/watch?v=" + id;
    assert s[..12] == scheme;
    forall a: nat | a < 12 ensures !LiteralAt(s, a, Host) {
      assert s[a] == scheme[a];
      assert !SameIgnoringCase(s[a], Host[0]);
    }
  }

  lemma WatchLinkNoLaterParam(id: string)
    requires forall c :: c in id ==> IsIdChar(c)
    ensures var s := "https://www.youtube.com/watch?v=" + id;
      forall b: nat :: MatchAt(s, 12, b) ==> b <= 30
  {
    var s := "https://www.youtube.com/watch?v=" + id;
    assert s[31] == '=';
    forall b: nat | 30 < b && b + 1 < |s| ensures !LiteralAt(s, b, Param) {
      if b == 31 {
        assert !SameIgnoringCase(s[b], Param[0]);
      } else {
        assert s[b + 1] == id[b - 31] && id[b - 31] in id;
        assert !SameIgnoringCase(s[b + 1], Param[1]);
      }
    }
  }

  /** Of two valid "v=" after the host, the later one supplies the id. */
  lemma RightmostParamWins()
    ensures Match("youtube.com/watch?v=abc&v=def") == Some("def")
  {
    var s := "youtube.com/watch?v=abc&v=def";
    TwoParamsChosen();
    MatchIsChosen(s);
    assert Capture(s, 24) == s[26..29] == "def";
  }

  /** Both "v=" of the example are valid; the match takes the second. */
  lemma TwoParamsChosen()
    ensures var s := "youtube.com/watch?v=abc&v=def";
      MatchAt(s, 0, 18) && Chosen(s, 0, 24) && RunEnd(s, 26) == 29
  {
    TwoParamsMatchAt();
    TwoParamsNoLaterParam();
  }

  lemma TwoParamsMatchAt()
    ensures var s := "youtube.com/watch?v=abc&v=def";
      MatchAt(s, 0, 18) && MatchAt(s, 0, 24) && RunEnd(s, 26) == 29
  {
    TwoParamsLiterals();
    TwoParamsRuns();
  }

  lemma TwoParamsLiterals()
    ensures var s := "youtube.com/watch?v=abc&v=def";
      LiteralAt(s, 0, Host) && LiteralAt(s, 18, Param) && LiteralAt(s, 24, Param) && OnOneLine(s, 11, 24)
  {
    TwoParamsHost();
    TwoParamsParams();
    TwoParamsGap();
  }
  lemma TwoParamsHost()
    ensures LiteralAt("youtube.com/watch?v=abc&v=def", 0, Host)
  {
    var s := "youtube.com/watch?v=abc&v=def";
    assert s[..11] == Host;
    LiteralHere(s, 0, Host);
  }
  lemma TwoParamsParams()
    ensures LiteralAt("youtube.com/watch?v=abc&v=def", 18, Param) && LiteralAt("youtube.com/watch?v=abc&v=def", 24, Param)
  {
    var s := "youtube.com/watch?v=abc&v=def";
    assert s[18..20] == Param && s[24..26] == Param;
    LiteralHere(s, 18, Param);
    LiteralHere(s, 24, Param);
  }
  lemma TwoParamsGap()
    ensures OnOneLine("youtube.com/watch?v=abc&v=def", 11, 24)
  {
    var s := "youtube.com/watch?v=abc&v=def";
    var gap := s[11..24];
    assert gap == "/watch?v=abc&";
    forall k | 11 <= k < 24 ensures !IsLineTerminator(s[k]) {
      assert s[k] == gap[k - 11] && gap[k - 11] in gap;
    }
  }

  lemma TwoParamsRuns()
    ensures var s := "youtube.com/watch?v=abc&v=def";
      RunEnd(s, 20) == 23 && s[23] == '&' && RunEnd(s, 26) == 29 && |s| == 29
  {
    var s := "youtube.com/watch?v=abc&v=def";
    assert s[23] == '&' && s[22] == 'c' && s[21] == 'b' && s[20] == 'a';
    assert RunEnd(s, 23) == 23 && RunEnd(s, 22) == 23 && RunEnd(s, 21) == 23;
    assert s[28] == 'f' && s[27] == 'e' && s[26] == 'd' && |s| == 29;
    assert RunEnd(s, 29) == 29 && RunEnd(s, 28) == 29 && RunEnd(s, 27) == 29;
  }

  lemma TwoParamsNoLaterParam()
    ensures var s := "youtube.com/watch?v=abc&v=def";
      forall b: nat :: MatchAt(s, 0, b) ==> b <= 24
  {
    var s := "youtube.com/watch?v=abc&v=def";
    assert s[26] == 'd' && s[27] == 'e' && s[28] == 'f' && |s| == 29;
    forall b: nat | 24 < b && b + 1 < |s| ensures !LiteralAt(s, b, Param) {
      assert !SameIgnoringCase(s[b + 1], Param[1]);
    }
  }
}
