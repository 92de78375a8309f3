/** Digg.js: the YouTube ids in the embed frames of Digg's video stories.
    A frame source is tested and taken apart with the pattern
    `youtube\.com\/embed\/([\w-]*?)(?:\?|$)` under the `i` flag; the
    leftmost validly terminated occurrence wins (section 22.2 of ECMA-262). */
module Digg {
  import opened JsSemantics

  const Embed: string := "youtube.com/embed/"

  /** The lazy `[\w-]*?` followed by `(?:\?|$)`, from `p`: it succeeds only
      at the end of the maximal run, when '?' or the end of the string follows. */
  predicate Terminated(s: string, p: nat)
    requires p <= |s|
  {
    var e := RunEnd(s, p);
    e == |s| || s[e] == '?'
  }

  /** The pattern matches starting at `i`. */
  predicate MatchAt(s: string, i: nat)
  {
    LiteralAt(s, i, Embed) && Terminated(s, i + |Embed|)
  }

  /** The capture group of the match at `i`. */
  function Capture(s: string, i: nat): (id: string)
    requires i + |Embed| <= |s|
    ensures forall c :: c in id ==> IsIdChar(c)
  {
    var p := i + |Embed|;
    var e := RunEnd(s, p);
    assert forall c :: c in s[p..e] ==> exists k :: p <= k < e && s[k] == c;
    s[p..e]
  }

  /** The engine's scan for a start position, from `i` on. */
  function MatchFrom(s: string, i: nat): (r: Option<nat>)
    ensures r.Some? ==> i <= r.value && MatchAt(s, r.value)
    ensures r.Some? ==> forall a: nat :: i <= a < r.value ==> !MatchAt(s, a)
    ensures r.None? ==> forall a: nat :: i <= a ==> !MatchAt(s, a)
    decreases |s| - i
  {
    if i + |Embed| > |s| then None
    else if MatchAt(s, i) then Some(i)
    else MatchFrom(s, i + 1)
  }

  /** `url.search(re)`: the start of the leftmost match, or -1. */
  function Search(s: string): (r: int)
    ensures r == -1 <==> forall i: nat :: !MatchAt(s, i)
    ensures r != -1 ==> r >= 0 && MatchAt(s, r) && forall a: nat :: a < r ==> !MatchAt(s, a)
  {
    match MatchFrom(s, 0)
    case None => -1
    case Some(i) => i
  }

  /** `url.match(re)[1]`, None where `match` returns null. */
  function Match(s: string): (r: Option<string>)
    ensures r.Some? ==> forall c :: c in r.value ==> IsIdChar(c)
  {
    match MatchFrom(s, 0)
    case None => None
    case Some(i) => Some(Capture(s, i))
  }

  /** The test `search(...) !== -1` holds exactly where `match` finds a
      capture, so `[1]` is never read from null. */
  lemma SearchAgreesWithMatch(s: string)
    ensures Match(s).Some? <==> Search(s) != -1
  {
  }

  /** The id is the run after the leftmost validly terminated occurrence. */
  lemma MatchIsLeftmost(s: string)
    ensures forall i: nat :: MatchAt(s, i) && (forall a: nat :: a < i ==> !MatchAt(s, a)) ==>
      i + |Embed| <= |s| && Match(s) == Some(Capture(s, i))
  {
    var r := MatchFrom(s, 0);
    forall i: nat | MatchAt(s, i) && (forall a: nat :: a < i ==> !MatchAt(s, a))
      ensures Match(s) == Some(Capture(s, i))
    {
      assert r.Some? && r.value <= i;
    }
  }

  /** The frame sources that were found, in completion order. */
  function Present(frames: seq<Option<string>>): (urls: seq<string>)
    ensures forall u :: u in urls <==> Some(u) in frames
  {
    if frames == [] then []
    else
      var init := frames[..|frames| - 1];
      assert frames == init + [frames[|frames| - 1]];
      match frames[|frames| - 1]
      case None => Present(init)
      case Some(u) => Present(init) + [u]
  }

  /** `scrapeDigg`'s queue: for each story whose frame was found and
      matches, the id is pushed; the ids are returned through `_.unique`. */
  method ScrapeDigg(frames: seq<Option<string>>) returns (videoIds: seq<string>)
    ensures videoIds == Unique(FilterMap(Present(frames), Match))
    ensures NoDuplicates(videoIds)
    ensures forall id :: id in videoIds <==> exists u :: Some(u) in frames && Match(u) == Some(id)
  {
    var pushed: seq<string> := [];
    var p := 0;
    while p < |frames|
      invariant 0 <= p <= |frames|
      invariant pushed == FilterMap(Present(frames[..p]), Match)
    {
      var urls := Present(frames[..p]);
      assert frames[..p + 1] == frames[..p] + [frames[p]];
      assert frames[..p + 1][..p] == frames[..p];
      if frames[p].Some? {
        var url := frames[p].value;
        assert Present(frames[..p + 1]) == urls + [url];
        assert (urls + [url])[..|urls|] == urls;
        SearchAgreesWithMatch(url);
        if Search(url) != -1 {
          pushed := pushed + [Match(url).value];
        }
      }
      p := p + 1;
    }
    assert frames[..p] == frames;
    videoIds := Unique(pushed);
    PresentMembership(frames, Match);
  }

  lemma PresentMembership(frames: seq<Option<string>>, capture: string -> Option<string>)
    ensures forall id :: id in FilterMap(Present(frames), capture) <==> exists u :: Some(u) in frames && capture(u) == Some(id)
  {
    var urls := Present(frames);
    forall id | id in FilterMap(urls, capture) ensures exists u :: Some(u) in frames && capture(u) == Some(id) {
      var k :| 0 <= k < |urls| && capture(urls[k]) == Some(id);
      assert urls[k] in urls;
    }
    forall id, u | Some(u) in frames && capture(u) == Some(id) ensures id in FilterMap(urls, capture) {
      assert u in urls;
      var k :| 0 <= k < |urls| && urls[k] == u;
    }
  }

  /** A YouTube embed link, bare or followed by a query, yields its id. */
  lemma EmbedLinkRoundTrip(id: string, query: string)
    requires forall c :: c in id ==> IsIdChar(c)
    requires query == [] || query[0] == '?'
    ensures Match("https://www." + Embed + id + query) == Some(id)
  {
    var s := "https://www." + Embed + id + query;
    EmbedLinkMatchAt(id, query);
    EmbedLinkNoEarlier(id, query);
    MatchIsLeftmost(s);
    assert Capture(s, 12) == s[30..30 + |id|] == id;
  }

  lemma EmbedLinkMatchAt(id: string, query: string)
    requires forall c :: c in id ==> IsIdChar(c)
    requires query == [] || query[0] == '?'
    ensures var s := "https://www." + Embed + id + query;
      MatchAt(s, 12) && RunEnd(s, 30) == 30 + |id| && s[30..30 + |id|] == id
  {
    var s := "https://www." + Embed + id + query;
    assert s[12..30] == Embed && s[30..30 + |id|] == id;
    LiteralHere(s, 12, Embed);
    forall k | 30 <= k < 30 + |id| ensures IsIdChar(s[k]) {
      assert s[k] == id[k - 30] && id[k - 30] in id;
    }
    if query != [] {
      assert s[30 + |id|] == query[0];
    }
  }

  lemma EmbedLinkNoEarlier(id: string, query: string)
    ensures var s := "https://www." + Embed + id + query;
      forall a: nat :: a < 12 ==> !MatchAt(s, a)
  {
    var scheme := "https://www.";
    var s := scheme + Embed + id + query;
    forall a: nat | a < 12 && a + |Embed| <= |s| ensures !LiteralAt(s, a, Embed) {
      assert s[a] == scheme[a];
      assert !SameIgnoringCase(s[a], Embed[0]);
    }
  }

  /** An occurrence whose id run is not followed by '?' or the end is
      skipped, and a later one supplies the id. */
  lemma LaterOccurrenceSuppliesId()
    ensures Match("youtube.com/embed/a.youtube.com/embed/b") == Some("b")
  {
    var s := "youtube.com/embed/a.youtube.com/embed/b";
    FirstOccurrenceSkipped();
    SecondOccurrenceMatches();
    NothingInBetween();
    MatchIsLeftmost(s);
    assert Capture(s, 20) == s[38..39] == "b";
  }

  lemma FirstOccurrenceSkipped()
    ensures !MatchAt("youtube.com/embed/a.youtube.com/embed/b", 0)
  {
    var s := "youtube.com/embed/a.youtube.com/embed/b";
    assert s[18] == 'a' && s[19] == '.';
    assert RunEnd(s, 19) == 19 && RunEnd(s, 18) == 19;
  }

  lemma SecondOccurrenceMatches()
    ensures var s := "youtube.com/embed/a.youtube.com/embed/b";
      MatchAt(s, 20) && RunEnd(s, 38) == 39
  {
    var s := "youtube.com/embed/a.youtube.com/embed/b";
    assert s[20..38] == Embed;
    LiteralHere(s, 20, Embed);
    assert s[38] == 'b' && |s| == 39;
    assert RunEnd(s, 39) == 39;
  }

  lemma NothingInBetween()
    ensures forall a: nat :: 0 < a < 20 ==> !LiteralAt("youtube.com/embed/a.youtube.com/embed/b", a, Embed)
  {
    var s := Embed + "a." + Embed + "b";
    assert s == "youtube.com/embed/a.youtube.com/embed/b";
    forall a: nat | 0 < a < 20 ensures !LiteralAt(s, a, Embed) {
      if a < 18 {
        assert s[a] == Embed[a];
      } else {
        assert s[a] == "a."[a - 18];
      }
      assert !SameIgnoringCase(s[a], Embed[0]);
    }
  }
}
