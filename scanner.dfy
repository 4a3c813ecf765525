/**
 * Feed discovery in a web page (rawdoglib/feedscanner.py): start tags are scored as likely
 * feed links, and the candidates come back best first, in the order they were found.
 */
module FeedScanner {
  import opened Wrappers
  import opened Text
  import opened Sorting
  import opened Seqs

  /** One `(quality, count, url)` entry of `found`. */
  datatype Candidate = Candidate(quality: int, count: int, url: string)

  /** A start tag as the HTML parser reports it; an attribute without a value has `None`. */
  datatype StartTag = StartTag(tag: string, attrs: seq<(string, Option<string>)>)

  // ---------------------------------------------------------------------
  // handle_starttag's decision
  // ---------------------------------------------------------------------

  /** `dict(attrs).get(name)`: the value of the last attribute of that name. */
  function Attr(attrs: seq<(string, Option<string>)>, name: string): (v: Option<string>)
    ensures v.Some? ==> exists i :: 0 <= i < |attrs| && attrs[i] == (name, v)
                          && forall j :: i < j < |attrs| ==> attrs[j].0 != name
    ensures (forall i :: 0 <= i < |attrs| ==> attrs[i].0 != name) ==> v.None?
    decreases |attrs|
  {
    if attrs == [] then None
    else if attrs[|attrs| - 1].0 == name then attrs[|attrs| - 1].1
    else Attr(attrs[..|attrs| - 1], name)
  }

  /** Python 2's `\w` on byte strings. */
  predicate IsWordChar(c: char) {
    'a' <= c <= 'z' || 'A' <= c <= 'Z' || '0' <= c <= '9' || c == '_'
  }

  /** The words `\b(rss|atom|rdf|feeds?)\b` matches. */
  const FeedWords: seq<string> := ["rss", "atom", "rdf", "feed", "feeds"]

  /** `w` occurs at `i`, ignoring ASCII case, with a word boundary on either side. */
  predicate WholeWordAt(s: string, i: int, w: string) {
    OccursAt(Lower(s), w, i)
    && (i == 0 || !IsWordChar(s[i - 1]))
    && (i + |w| == |s| || !IsWordChar(s[i + |w|]))
  }

  /** Some feed word starts at `i`. */
  predicate MatchAt(s: string, i: int) {
    exists w :: w in FeedWords && WholeWordAt(s, i, w)
  }

  /** The regular-expression search from position `i` on. */
  function SearchFrom(s: string, i: nat): (b: bool)
    requires i <= |s|
    ensures b <==> exists j :: i <= j <= |s| && MatchAt(s, j)
    decreases |s| - i
  {
    if i == |s| then MatchAt(s, i)
    else MatchAt(s, i) || SearchFrom(s, i + 1)
  }

  /** `re.search(r'\b(rss|atom|rdf|feeds?)\b', href, re.I)` succeeds. */
  function MentionsFeed(href: string): (b: bool)
    ensures b <==> exists i :: MatchAt(href, i)
  {
    assert forall i :: MatchAt(href, i) ==> 0 <= i <= |href|;
    SearchFrom(href, 0)
  }

  /** A `link rel="alternate"` that is not declared `text/html`. */
  predicate IsAlternateLink(t: StartTag) {
    t.tag == "link" && Attr(t.attrs, "rel") == Some("alternate") && Attr(t.attrs, "type") != Some("text/html")
  }

  /** An anchor whose href mentions a feed word. */
  predicate IsFeedAnchor(t: StartTag) {
    t.tag == "a" && Attr(t.attrs, "href").Some? && MentionsFeed(Attr(t.attrs, "href").value)
  }

  /** The candidates `handle_starttag` adds for one tag, before their count is assigned. */
  function Scored(t: StartTag): (r: seq<(int, string)>)
    ensures |r| <= 1
    ensures Attr(t.attrs, "href").None? ==> r == []
    ensures r != [] ==> r[0].1 == Attr(t.attrs, "href").value
    ensures r != [] && r[0].0 == 10 <==> Attr(t.attrs, "href").Some? && IsAlternateLink(t)
    ensures r != [] && r[0].0 == 20 <==> IsFeedAnchor(t)
    ensures r != [] ==> r[0].0 == 10 || r[0].0 == 20
  {
    var href := Attr(t.attrs, "href");
    if href.None? then []
    else
      (if IsAlternateLink(t) then [(10, href.value)] else [])
      + (if IsFeedAnchor(t) then [(20, href.value)] else [])
  }

  // ---------------------------------------------------------------------
  // urls(): sorted by (quality, count, url), then projected
  // ---------------------------------------------------------------------

  function CandidateKey(c: Candidate): Tuple {
    [I(c.quality), I(c.count), S(c.url)]
  }

  function ByQuality(): Candidate -> Tuple {
    c => CandidateKey(c)
  }

  function UrlsOf(cs: seq<Candidate>): (r: seq<string>)
    ensures |r| == |cs| && forall i :: 0 <= i < |cs| ==> r[i] == cs[i].url
  {
    seq(|cs|, i requires 0 <= i < |cs| => cs[i].url)
  }

  /** `urls()`: the joined hrefs, best quality first. */
  function Ranking(found: seq<Candidate>): (r: seq<string>)
    ensures |r| == |found|
  {
    UrlsOf(SortBy(found, ByQuality()))
  }

  /** The counts are the positions in `found`: every candidate has its own discovery number. */
  ghost predicate Discovered(found: seq<Candidate>) {
    forall i :: 0 <= i < |found| ==> found[i].count == i
  }

  /** Sorted candidates: ascending quality, and in discovery order within one quality. */
  lemma RankingOrder(found: seq<Candidate>)
    requires Discovered(found)
    ensures var s := SortBy(found, ByQuality());
            multiset(s) == multiset(found)
            && forall i, j :: 0 <= i < j < |s| ==>
                 s[i].quality < s[j].quality || (s[i].quality == s[j].quality && s[i].count < s[j].count)
  {
    var s := SortBy(found, ByQuality());
    DiscoveredDistinct(found, s);
    SortedDistinctIsStrict(s, ByQuality());
    forall i, j | 0 <= i < j < |s|
      ensures s[i].quality < s[j].quality || (s[i].quality == s[j].quality && s[i].count < s[j].count)
    {
      assert TupleLess(CandidateKey(s[i]), CandidateKey(s[j]));
      StrictCandidateOrder(s[i], s[j]);
    }
  }

  lemma StrictCandidateOrder(a: Candidate, b: Candidate)
    requires TupleLess(CandidateKey(a), CandidateKey(b)) && a.count != b.count
    ensures a.quality < b.quality || (a.quality == b.quality && a.count < b.count)
  {
    var ka, kb := CandidateKey(a), CandidateKey(b);
    if ka[0] == kb[0] {
      assert ka[1..][0] == I(a.count) && kb[1..][0] == I(b.count);
    }
  }

  /** Different positions of the sorted list carry different counts. */
  lemma DiscoveredDistinct(found: seq<Candidate>, s: seq<Candidate>)
    requires Discovered(found) && multiset(s) == multiset(found)
    ensures forall i, j :: 0 <= i < j < |s| ==> s[i].count != s[j].count
    ensures forall i, j :: 0 <= i < j < |s| ==> CandidateKey(s[i]) != CandidateKey(s[j])
  {
    assert Distinct(found);
    PermutationDistinct(found, s);
    forall i, j | 0 <= i < j < |s| ensures s[i].count != s[j].count {
      assert s[i] in multiset(found) && s[j] in multiset(found);
      var p :| 0 <= p < |found| && found[p] == s[i];
      var q :| 0 <= q < |found| && found[q] == s[j];
    }
    forall i, j | 0 <= i < j < |s| ensures CandidateKey(s[i]) != CandidateKey(s[j]) {
      assert CandidateKey(s[i])[1] == I(s[i].count);
    }
  }

  /** The candidates of one quality, in document order. */
  function OfQuality(found: seq<Candidate>, q: int): (r: seq<Candidate>)
    ensures IsSubseq(r, found)
    ensures forall c :: c in r <==> c in found && c.quality == q
    decreases |found|
  {
    if found == [] then []
    else
      var init := found[..|found| - 1];
      var c := found[|found| - 1];
      var rest := OfQuality(init, q);
      assert found == init + [c];
      if c.quality == q then
        SubseqTake(rest, init, c);
        rest + [c]
      else
        SubseqSkip(rest, init, c);
        rest
  }

  /**
   * With the two qualities `handle_starttag` assigns, `urls()` lists every link-tag candidate
   * in document order and then every anchor candidate in document order.
   */
  lemma RankingIsLinksThenAnchors(found: seq<Candidate>)
    requires Discovered(found)
    requires forall i :: 0 <= i < |found| ==> found[i].quality == 10 || found[i].quality == 20
    ensures Ranking(found) == UrlsOf(OfQuality(found, 10) + OfQuality(found, 20))
  {
    var s := SortBy(found, ByQuality());
    var t := OfQuality(found, 10) + OfQuality(found, 20);
    DiscoveredDistinct(found, s);
    SortedDistinctIsStrict(s, ByQuality());
    LinksThenAnchorsStrict(found);
    forall c ensures c in s <==> c in t {
      assert c in s <==> c in multiset(found);
    }
    QualitiesCount(found);
    StrictSortedUnique(s, t, ByQuality());
  }

  /** Link candidates, then anchor candidates, each in document order, have increasing keys. */
  lemma LinksThenAnchorsStrict(found: seq<Candidate>)
    requires Discovered(found)
    ensures StrictlySortedBy(OfQuality(found, 10) + OfQuality(found, 20), ByQuality())
  {
    var links, anchors := OfQuality(found, 10), OfQuality(found, 20);
    var t := links + anchors;
    DiscoveredSubseq(links, found);
    DiscoveredSubseq(anchors, found);
    var n := |links|;
    forall i, j | 0 <= i < j < |t| ensures TupleLess(CandidateKey(t[i]), CandidateKey(t[j])) {
      if j < n {
        assert t[i] == links[i] && t[j] == links[j];
      } else if i >= n {
        assert t[i] == anchors[i - n] && t[j] == anchors[j - n];
      } else {
        assert t[i] == links[i] && t[j] == anchors[j - n];
        assert t[i] in links && t[j] in anchors;
      }
    }
  }

  /** A subsequence of a discovered list has strictly increasing counts. */
  lemma {:induction false} DiscoveredSubseq(k: seq<Candidate>, found: seq<Candidate>)
    requires Discovered(found) && IsSubseq(k, found)
    ensures forall i, j :: 0 <= i < j < |k| ==> k[i].count < k[j].count
    ensures forall i :: 0 <= i < |k| ==> 0 <= k[i].count < |found|
    decreases |found|
  {
    if found != [] {
      var init := found[..|found| - 1];
      assert Discovered(init);
      if k != [] && k[|k| - 1] == found[|found| - 1] && IsSubseq(k[..|k| - 1], init) {
        DiscoveredSubseq(k[..|k| - 1], init);
        assert forall i :: 0 <= i < |k| - 1 ==> k[i] == k[..|k| - 1][i];
      } else {
        DiscoveredSubseq(k, init);
      }
    }
  }

  /** The two quality classes together hold every candidate. */
  lemma {:induction false} QualitiesCount(found: seq<Candidate>)
    requires forall i :: 0 <= i < |found| ==> found[i].quality == 10 || found[i].quality == 20
    ensures |OfQuality(found, 10)| + |OfQuality(found, 20)| == |found|
    decreases |found|
  {
    if found != [] {
      QualitiesCount(found[..|found| - 1]);
    }
  }

  // ---------------------------------------------------------------------
  // FeedFinder
  // ---------------------------------------------------------------------

  /** The parser state: the candidates found so far and the next discovery number. */
  class FeedFinder {
    var found: seq<Candidate>
    var count: int
    const baseUri: string
    /** `urlparse.urljoin`. */
    const join: (string, string) -> string

    ghost predicate Valid()
      reads this
    {
      count == |found| && Discovered(found)
    }

    constructor (baseUri: string, join: (string, string) -> string)
      ensures this.baseUri == baseUri && this.join == join
      ensures found == [] && count == 0 && Valid()
    {
      this.baseUri := baseUri;
      this.join := join;
      found := [];
      count := 0;
    }

    /** `add`: append the joined href under the next discovery number. */
    method Add(quality: int, href: string)
      requires Valid()
      modifies this
      ensures Valid()
      ensures found == old(found) + [Candidate(quality, old(count), join(baseUri, href))]
      ensures count == old(count) + 1
    {
      found := found + [Candidate(quality, count, join(baseUri, href))];
      count := count + 1;
    }

    /** `urls()` */
    function Urls(): (r: seq<string>)
      reads this
      ensures |r| == |found|
    {
      Ranking(found)
    }

    /** `handle_starttag`: a link tag scores 10, an anchor mentioning a feed 20, no href nothing. */
    method HandleStarttag(t: StartTag)
      requires Valid()
      modifies this
      ensures Valid()
      ensures found == old(found) + Added(baseUri, join, old(|found|), Scored(t))
    {
      var href := Attr(t.attrs, "href");
      if href.None? {
        return;
      }
      if IsAlternateLink(t) {
        Add(10, href.value);
      }
      if IsFeedAnchor(t) {
        Add(20, href.value);
      }
    }
  }

  /** Scored hrefs turned into candidates numbered from `from`. */
  function Added(baseUri: string, join: (string, string) -> string, from: int, sc: seq<(int, string)>): (r: seq<Candidate>)
    ensures |r| == |sc|
    ensures forall i :: 0 <= i < |sc| ==> r[i] == Candidate(sc[i].0, from + i, join(baseUri, sc[i].1))
  {
    seq(|sc|, i requires 0 <= i < |sc| => Candidate(sc[i].0, from + i, join(baseUri, sc[i].1)))
  }

  /** The candidates after the parser has seen `tags`. */
  function FoundIn(baseUri: string, join: (string, string) -> string, tags: seq<StartTag>): (r: seq<Candidate>)
    ensures Discovered(r)
    ensures forall i :: 0 <= i < |r| ==> r[i].quality == 10 || r[i].quality == 20
    decreases |tags|
  {
    if tags == [] then []
    else
      var before := FoundIn(baseUri, join, tags[..|tags| - 1]);
      before + Added(baseUri, join, |before|, Scored(tags[|tags| - 1]))
  }

  /** A tag without an href leaves the candidates as they were. */
  lemma NoHrefNoCandidate(baseUri: string, join: (string, string) -> string, tags: seq<StartTag>, t: StartTag)
    requires Attr(t.attrs, "href").None?
    ensures FoundIn(baseUri, join, tags + [t]) == FoundIn(baseUri, join, tags)
  {
    assert (tags + [t])[..|tags|] == tags;
  }

  /** `[feed for feed in found if is_feed(feed)]` */
  function KeepFeeds(urls: seq<string>, isFeed: string -> bool): (r: seq<string>)
    ensures IsSubseq(r, urls)
    ensures forall u :: u in r <==> u in urls && isFeed(u)
    decreases |urls|
  {
    if urls == [] then []
    else
      var init := urls[..|urls| - 1];
      var u := urls[|urls| - 1];
      var rest := KeepFeeds(init, isFeed);
      assert urls == init + [u];
      if isFeed(u) then
        SubseqTake(rest, init, u);
        rest + [u]
      else
        SubseqSkip(rest, init, u);
        rest
  }

  /** `feeds(page_url)` over the start tags the page yields and the `is_feed` verdicts. */
  method Feeds(pageUrl: string, join: (string, string) -> string, tags: seq<StartTag>, isFeed: string -> bool)
    returns (r: seq<string>)
    ensures r == KeepFeeds(Ranking(FoundIn(pageUrl, join, tags)) + [pageUrl], isFeed)
  {
    var parser := new FeedFinder(pageUrl, join);
    var i := 0;
    while i < |tags|
      invariant 0 <= i <= |tags|
      invariant parser.Valid() && parser.baseUri == pageUrl && parser.join == join
      invariant parser.found == FoundIn(pageUrl, join, tags[..i])
    {
      assert tags[..i + 1][..i] == tags[..i];
      parser.HandleStarttag(tags[i]);
      i := i + 1;
    }
    assert tags[..|tags|] == tags;
    var found := parser.Urls() + [pageUrl];
    r := KeepFeeds(found, isFeed);
  }
}
