/**
 * Feeds, articles and what one fetch of a feed returns.
 *
 * Hashing (SHA-1 of the UTF-8 text), `calendar.timegm` and the `urlparse`
 * check on redirect targets are not computed here: an `Env` supplies them as
 * functions the model treats as unknown.
 */
module Feeds {
  import opened Wrappers
  import opened Text
  import opened Config

  /** The outside functions the aggregator calls. */
  datatype Env = Env(
    digest: string -> string,           // hex SHA-1 of the concatenated text
    timegm: seq<int> -> Option<int>,    // `calendar.timegm`; None where it overflows
    validUri: string -> bool)           // the URL has both a scheme and a network location

  /** The parts of a feedparser entry the aggregator reads. */
  datatype Entry = Entry(
    id: Option<string>,
    title: Option<string>,
    link: Option<string>,
    content: seq<string>,               // the `value` of each item of `content`, in order
    summary: Option<string>,            // the `value` of `summary_detail`
    updated: Option<seq<int>>,
    published: Option<seq<int>>,
    created: Option<seq<int>>)

  datatype Article = Article(
    feed: string,
    entry: Entry,
    sequence: int,
    date: Option<int>,
    hash: string,
    lastSeen: int,
    added: int)

  /** A feed's state: its options, the HTTP validators and when it was last fetched. */
  datatype Feed = Feed(
    url: string,
    period: int,
    args: Args,
    etag: Option<string>,
    modified: Option<string>,
    lastUpdate: int,
    info: map<string, string>)

  /** `Feed(url)`: checked every 30 minutes, no options, never fetched. */
  function NewFeed(url: string): (f: Feed)
    ensures f.url == url && f.args == map[] && f.lastUpdate == 0 && f.period == 30 * 60
    ensures f.etag == None && f.modified == None
  {
    Feed(url, 30 * 60, map[], None, None, 0, map[])
  }

  /** `needs_update`: the feed's period has elapsed since it was last fetched. */
  predicate NeedsUpdate(f: Feed, now: int) {
    now - f.lastUpdate >= f.period
  }

  /** A feed fetched at `now` is not due again until its period has passed. */
  lemma JustUpdatedNotDue(f: Feed, now: int, later: int)
    requires f.lastUpdate == now && now <= later < now + f.period
    ensures !NeedsUpdate(f, later)
    ensures NeedsUpdate(f, now + f.period)
  {
  }

  /** A numeric feed argument: the feed's own value, else the configured one. */
  function NumArg(f: Feed, name: string, fallback: int): (r: int)
    ensures name in f.args && f.args[name].Num? ==> r == f.args[name].n
    ensures name !in f.args ==> r == fallback
  {
    if name in f.args && f.args[name].Num? then f.args[name].n else fallback
  }

  /** `get_keepmin`. */
  function KeepMin(f: Feed, keepmin: int): int {
    NumArg(f, "keepmin", keepmin)
  }

  /** `feed.args.get("maxage", config["maxage"])`. */
  function MaxAgeOf(f: Feed, maxage: int): int {
    NumArg(f, "maxage", maxage)
  }

  /** The feed's `allowduplicates`, false when it has none. */
  predicate AllowsDuplicates(f: Feed) {
    "allowduplicates" in f.args && f.args["allowduplicates"] == Flag(true)
  }

  // ---------------------------------------------------------------------
  // Articles

  /** The entry's time: `updated`, else `published`, else `created`. */
  function ParsedTime(e: Entry): (r: Option<seq<int>>)
    ensures e.updated.Some? ==> r == e.updated
    ensures e.updated.None? && e.published.Some? ==> r == e.published
    ensures e.updated.None? && e.published.None? ==> r == e.created
  {
    if e.updated.Some? then e.updated
    else if e.published.Some? then e.published
    else e.created
  }

  /** The article date: the chosen time in seconds, or none when there is none or it overflows. */
  function ArticleDate(env: Env, e: Entry): (r: Option<int>)
    ensures ParsedTime(e).None? ==> r.None?
    ensures ParsedTime(e).Some? ==> r == env.timegm(ParsedTime(e).value)
  {
    match ParsedTime(e)
    case None => None
    case Some(t) => env.timegm(t)
  }

  function Concat(parts: seq<string>): string {
    if parts == [] then [] else parts[0] + Concat(parts[1..])
  }

  /** The text `compute_initial_hash` feeds to SHA-1: the feed URL, then title, link,
    * each content value and the summary, each left out when the entry lacks it. */
  function HashText(feed: string, e: Entry): (r: string)
    ensures StartsWith(r, feed)
  {
    feed + e.title.GetOr("") + e.link.GetOr("") + Concat(e.content) + e.summary.GetOr("")
  }

  /** The article built from a feedparser entry (`Article.__init__`). */
  function MakeArticle(env: Env, feed: string, e: Entry, now: int, sequence: int): (a: Article)
    ensures a.feed == feed && a.entry == e && a.sequence == sequence
    ensures a.added == now && a.lastSeen == now
  {
    Article(feed, e, sequence, ArticleDate(env, e), env.digest(HashText(feed, e)), now, now)
  }

  /** The hash does not depend on the entry's id or times, only on the feed and the hashed text. */
  lemma HashIgnoresIdAndTimes(env: Env, feed: string, e1: Entry, e2: Entry, t1: int, t2: int, s1: int, s2: int)
    requires e1.title == e2.title && e1.link == e2.link && e1.content == e2.content && e1.summary == e2.summary
    ensures MakeArticle(env, feed, e1, t1, s1).hash == MakeArticle(env, feed, e2, t2, s2).hash
  {
  }

  /** An entry with no title, link, content or summary hashes the feed URL alone. */
  lemma MissingFieldsHashEmpty(feed: string, e: Entry)
    requires e.title.None? && e.link.None? && e.summary.None? && e.content == []
    ensures HashText(feed, e) == feed
  {
  }

  /** `update_from`: the newer copy's entry, sequence and date, seen now; the feed, hash
    * and time added stay. */
  function UpdateFrom(a: Article, n: Article, now: int): (r: Article)
    ensures r.feed == a.feed && r.hash == a.hash && r.added == a.added
    ensures r.entry == n.entry && r.sequence == n.sequence && r.date == n.date && r.lastSeen == now
  {
    a.(entry := n.entry, sequence := n.sequence, date := n.date, lastSeen := now)
  }

  /** `can_expire`: not seen for longer than `expireage`. */
  predicate CanExpire(a: Article, now: int, expireage: int) {
    now - a.lastSeen > expireage
  }

  /** `get_sort_date`: `date or added`, so a missing date and a date of 0 both give the
    * time added; without `sortbyfeeddate` it is always the time added. */
  function SortDate(a: Article, byFeedDate: bool): (r: int)
    ensures !byFeedDate ==> r == a.added
    ensures byFeedDate && (a.date.None? || a.date == Some(0)) ==> r == a.added
    ensures byFeedDate && a.date.Some? && a.date.value != 0 ==> r == a.date.value
  {
    if byFeedDate && a.date.Some? && a.date.value != 0 then a.date.value else a.added
  }

  // ---------------------------------------------------------------------
  // What a fetch returns, and how `update` classifies it

  /** One HTTP response in the redirect chain. */
  datatype Response = Response(status: int, location: Option<string>)

  /** The dictionary `fetch` returns: feedparser's result, or a timeout or an exception. */
  datatype Fetched = Fetched(
    responses: seq<Response>,
    timedOut: bool,                  // `rawdog_timeout` present
    failed: bool,                    // `rawdog_exception` present
    hasFeedData: bool,               // `p.get("feed", [])` is not empty
    version: Option<string>,
    entries: seq<Entry>,
    etag: Option<string>,
    modified: Option<string>,
    info: map<string, string>)

  /** The status `update` goes by: the last response's, else 200 when some content came back
    * without HTTP, else 0. */
  function LastStatus(p: Fetched): (r: int)
    ensures p.responses != [] ==> r == p.responses[|p.responses| - 1].status
    ensures p.responses == [] ==> (r == 200 <==> p.hasFeedData) && (r == 0 <==> !p.hasFeedData)
  {
    if p.responses != [] then p.responses[|p.responses| - 1].status
    else if p.hasFeedData then 200
    else 0
  }

  /** `last_status / 100 != 2`, with Python 3's true division. */
  predicate HttpFails(status: int) {
    (status as real) / 100.0 != 2.0
  }

  /** True division makes every status other than 200 a failure, 201 to 299 included. */
  lemma OnlyOkPasses(status: int)
    ensures HttpFails(status) <==> status != 200
  {
    if status != 200 {
      assert (status as real) != 200.0;
    }
  }

  /** How `update` ends up treating a fetch, in the order its checks are made. */
  datatype Outcome = TimedOut | FetchFailed | NotModified | Gone | HttpError | NotAFeed | Usable

  function Classify(p: Fetched): (r: Outcome)
    ensures r == TimedOut <==> p.timedOut
    ensures r == FetchFailed <==> !p.timedOut && p.failed
    ensures r == NotModified <==> !p.timedOut && !p.failed && LastStatus(p) == 304
    ensures r == Gone <==> !p.timedOut && !p.failed && LastStatus(p) in {403, 410}
    ensures r == HttpError <==> !p.timedOut && !p.failed && LastStatus(p) !in {304, 403, 410, 200}
    ensures r == NotAFeed <==> !p.timedOut && !p.failed && LastStatus(p) == 200
                               && p.version.GetOr("") == "" && p.entries == []
    ensures r == Usable <==> !p.timedOut && !p.failed && LastStatus(p) == 200
                             && (p.version.GetOr("") != "" || p.entries != [])
  {
    var status := LastStatus(p);
    OnlyOkPasses(status);
    if p.timedOut then TimedOut
    else if p.failed then FetchFailed
    else if status == 304 then NotModified
    else if status in {403, 410} then Gone
    else if HttpFails(status) then HttpError
    else if p.version.GetOr("") == "" && |p.entries| == 0 then NotAFeed
    else Usable
  }

  /** The outcomes that print an error and stop the update. */
  predicate Fatal(o: Outcome) {
    o in {TimedOut, FetchFailed, Gone, HttpError, NotAFeed}
  }

  /** The number of leading 301 responses. */
  function LeadingRedirects(rs: seq<Response>): (n: nat)
    ensures n <= |rs|
    ensures forall i :: 0 <= i < n ==> rs[i].status == 301
    ensures n == |rs| || rs[n].status != 301
  {
    if rs == [] || rs[0].status != 301 then 0 else 1 + LeadingRedirects(rs[1..])
  }

  /** What the leading permanent redirects ask for. */
  datatype Redirect = NoRedirect | NoLocation | BadLocation(bad: string) | MoveTo(target: string)

  /** The `location` of the last leading 301 decides: missing, not absolute, or the new URL. */
  function RedirectOf(env: Env, rs: seq<Response>): (r: Redirect)
    ensures r.NoRedirect? <==> LeadingRedirects(rs) == 0
    ensures r.MoveTo? ==> var n := LeadingRedirects(rs);
              n > 0 && rs[n - 1].location == Some(r.target) && env.validUri(r.target)
    ensures r.NoLocation? ==> var n := LeadingRedirects(rs); n > 0 && rs[n - 1].location.None?
    ensures r.BadLocation? ==> var n := LeadingRedirects(rs);
              n > 0 && rs[n - 1].location == Some(r.bad) && !env.validUri(r.bad)
  {
    var n := LeadingRedirects(rs);
    if n == 0 then NoRedirect
    else
      match rs[n - 1].location
      case None => NoLocation
      case Some(loc) => if env.validUri(loc) then MoveTo(loc) else BadLocation(loc)
  }

  /** Only the last of several leading 301 hops counts. */
  lemma LastHopWins(env: Env, first: Response, rest: seq<Response>)
    requires first.status == 301 && rest != [] && rest[0].status == 301
    ensures RedirectOf(env, [first] + rest) == RedirectOf(env, rest)
  {
    assert ([first] + rest)[1..] == rest;
    var n := LeadingRedirects(rest);
    assert ([first] + rest)[n] == rest[n - 1];
  }

  /** Every feed key matches the feed's own URL. */
  ghost predicate KeyedByUrl(feeds: map<string, Feed>) {
    forall u :: u in feeds ==> feeds[u].url == u
  }

  /** Every article key matches the article's hash. */
  ghost predicate KeyedByHash(arts: map<string, Article>) {
    forall k :: k in arts ==> arts[k].hash == k
  }
}
