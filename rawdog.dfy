/**
 * The aggregator's state and the operations that change it: following a
 * permanent redirect, reconciling the feeds with the configuration, merging
 * a fetch into the articles, expiring articles and the update cycle.
 *
 * `Rawdog.modifications` counts the calls to the persister's `modified()`,
 * which marks the state as needing to be saved.
 */
module Aggregator {
  import opened Wrappers
  import opened Text
  import opened Config
  import opened Feeds
  import opened Sorting
  import opened Merge
  import opened Expiry
  import opened Output
  import opened Seqs

  // ---------------------------------------------------------------------
  // change_feed_url

  /** Every article of `oldurl` now belongs to `newurl`. */
  function Retarget(arts: map<string, Article>, oldurl: string, newurl: string): map<string, Article> {
    map k | k in arts :: if arts[k].feed == oldurl then arts[k].(feed := newurl) else arts[k]
  }

  /** Retargeting keeps the article keys, moves every article of the old URL and leaves the
    * others, and every field but the feed, as they were. */
  lemma RetargetProperties(arts: map<string, Article>, oldurl: string, newurl: string, k: string)
    requires k in arts
    ensures Retarget(arts, oldurl, newurl).Keys == arts.Keys
    ensures arts[k].feed == oldurl ==> Retarget(arts, oldurl, newurl)[k].feed == newurl
    ensures arts[k].feed != oldurl ==> Retarget(arts, oldurl, newurl)[k] == arts[k]
    ensures Retarget(arts, oldurl, newurl)[k].(feed := arts[k].feed) == arts[k]
  {
  }

  /** After a move to a different URL no article is left on the old one. */
  lemma RetargetLeavesNone(arts: map<string, Article>, oldurl: string, newurl: string)
    requires oldurl != newurl
    ensures forall k :: k in Retarget(arts, oldurl, newurl) ==> Retarget(arts, oldurl, newurl)[k].feed != oldurl
  {
  }

  // ---------------------------------------------------------------------
  // sync_from_config

  /** The URLs the configuration declares. */
  function Declared(decls: seq<FeedDecl>): set<string>
    decreases |decls|
  {
    if decls == [] then {} else Declared(decls[..|decls| - 1]) + {decls[|decls| - 1].url}
  }

  /** A URL is declared exactly when some declaration names it. */
  lemma {:induction false} DeclaredIndex(decls: seq<FeedDecl>)
    ensures forall i :: 0 <= i < |decls| ==> decls[i].url in Declared(decls)
    ensures forall u :: u in Declared(decls) ==> exists i :: 0 <= i < |decls| && decls[i].url == u
    decreases |decls|
  {
    if decls != [] {
      var init := decls[..|decls| - 1];
      DeclaredIndex(init);
      forall i | 0 <= i < |decls| - 1 ensures decls[i].url in Declared(decls) {
        assert init[i] == decls[i];
      }
      forall u | u in Declared(decls) ensures exists i :: 0 <= i < |decls| && decls[i].url == u {
        if u in Declared(init) {
          var i :| 0 <= i < |init| && init[i].url == u;
          assert decls[i] == init[i];
        } else {
          assert decls[|decls| - 1].url == u;
        }
      }
    }
  }

  /** A feed's options: the defaults, overridden by its own. */
  function FeedOptions(defaults: Args, args: Args): (r: Args)
    ensures r.Keys == defaults.Keys + args.Keys
    ensures forall k :: k in args ==> r[k] == args[k]
    ensures forall k :: k in defaults && k !in args ==> r[k] == defaults[k]
  {
    defaults + args
  }

  /** The first loop of `sync_from_config` for one declaration: the feed (added when new)
    * with the declared period and options, and how many times `modified()` is called. */
  function SyncStep(feeds: map<string, Feed>, d: FeedDecl, defaults: Args): (map<string, Feed>, nat) {
    var f0 := if d.url in feeds then feeds[d.url] else NewFeed(d.url);
    var c0: nat := if d.url in feeds then 0 else 1;
    var f1 := if f0.period != d.period then f0.(period := d.period) else f0;
    var c1: nat := if f0.period != d.period then c0 + 1 else c0;
    var na := FeedOptions(defaults, d.args);
    var f2 := if f1.args != na then f1.(args := na) else f1;
    var c2: nat := if f1.args != na then c1 + 1 else c1;
    (feeds[d.url := f2], c2)
  }

  /** The first loop over all declarations. */
  function SyncAll(feeds: map<string, Feed>, decls: seq<FeedDecl>, defaults: Args): (r: (map<string, Feed>, nat))
    decreases |decls|
  {
    if decls == [] then (feeds, 0)
    else
      var prev := SyncAll(feeds, decls[..|decls| - 1], defaults);
      var step := SyncStep(prev.0, decls[|decls| - 1], defaults);
      (step.0, prev.1 + step.1)
  }

  /** The feeds that remain. */
  function KeepFeeds(feeds: map<string, Feed>, keep: set<string>): map<string, Feed> {
    map u | u in feeds && u in keep :: feeds[u]
  }

  /** The articles that remain once the feeds in `gone` are removed. */
  function DropArticles(arts: map<string, Article>, gone: set<string>): map<string, Article> {
    map k | k in arts && arts[k].feed !in gone :: arts[k]
  }

  /** Removing one more feed from the kept ones. */
  lemma KeepFeedsStep(feeds: map<string, Feed>, todo: set<string>, keep: set<string>, url: string)
    requires url in todo
    ensures url !in keep ==> KeepFeeds(feeds, todo + keep) - {url} == KeepFeeds(feeds, (todo - {url}) + keep)
    ensures url in keep ==> KeepFeeds(feeds, todo + keep) == KeepFeeds(feeds, (todo - {url}) + keep)
  {
    if url in keep {
      assert todo + keep == (todo - {url}) + keep;
    }
  }

  /** The feeds removed so far, one loop step later. */
  lemma GoneStep(keys: set<string>, todo: set<string>, declared: set<string>, gone: set<string>, url: string)
    requires url in todo && todo <= keys && gone == (keys - todo) - declared
    ensures url !in declared ==> gone + {url} == (keys - (todo - {url})) - declared && |gone + {url}| == |gone| + 1
    ensures url in declared ==> gone == (keys - (todo - {url})) - declared
  {
  }

  /** Nothing, or everything, removed. */
  lemma KeepAndDropEdges(feeds: map<string, Feed>, arts: map<string, Article>, keep: set<string>)
    requires keep <= feeds.Keys
    ensures KeepFeeds(feeds, feeds.Keys + keep) == feeds
    ensures DropArticles(arts, {}) == arts
  {
  }

  /** Dropping the articles of one more feed. */
  lemma DropArticlesStep(arts: map<string, Article>, gone: set<string>, url: string)
    ensures DropArticles(DropArticles(arts, gone), {url}) == DropArticles(arts, gone + {url})
  {
  }

  /** The feed map after the first loop: the old feeds and every declared one. */
  lemma {:induction false} SyncAllKeys(feeds: map<string, Feed>, decls: seq<FeedDecl>, defaults: Args)
    ensures SyncAll(feeds, decls, defaults).0.Keys == feeds.Keys + Declared(decls)
    decreases |decls|
  {
    if decls != [] {
      SyncAllKeys(feeds, decls[..|decls| - 1], defaults);
    }
  }

  /** One step sets the declared feed's period and options and changes no other feed. */
  lemma SyncStepSets(feeds: map<string, Feed>, d: FeedDecl, defaults: Args)
    ensures var f := SyncStep(feeds, d, defaults).0;
            d.url in f && f[d.url].period == d.period && f[d.url].args == FeedOptions(defaults, d.args)
            && f[d.url].url == (if d.url in feeds then feeds[d.url].url else d.url)
    ensures var f := SyncStep(feeds, d, defaults).0;
            forall u :: u in feeds && u != d.url ==> f[u] == feeds[u]
  {
  }

  /** The period and options of a declared feed are those of its last declaration. */
  lemma {:induction false} SyncLastWins(feeds: map<string, Feed>, decls: seq<FeedDecl>, defaults: Args, i: nat)
    requires i < |decls|
    requires forall j :: i < j < |decls| ==> decls[j].url != decls[i].url
    ensures var f := SyncAll(feeds, decls, defaults).0;
            decls[i].url in f && f[decls[i].url].period == decls[i].period
            && f[decls[i].url].args == FeedOptions(defaults, decls[i].args)
    decreases |decls|
  {
    var init := decls[..|decls| - 1];
    var last := decls[|decls| - 1];
    SyncStepSets(SyncAll(feeds, init, defaults).0, last, defaults);
    if i < |decls| - 1 {
      assert init[i] == decls[i];
      SyncLastWins(feeds, init, defaults, i);
    }
  }

  lemma {:induction false} SyncAllKeyed(feeds: map<string, Feed>, decls: seq<FeedDecl>, defaults: Args)
    requires KeyedByUrl(feeds)
    ensures KeyedByUrl(SyncAll(feeds, decls, defaults).0)
    decreases |decls|
  {
    if decls != [] {
      var init := decls[..|decls| - 1];
      SyncAllKeyed(feeds, init, defaults);
      SyncStepSets(SyncAll(feeds, init, defaults).0, decls[|decls| - 1], defaults);
    }
  }

  /** The feeds already match every declaration. */
  ghost predicate InSync(feeds: map<string, Feed>, decls: seq<FeedDecl>, defaults: Args) {
    forall i :: 0 <= i < |decls| ==>
      decls[i].url in feeds && feeds[decls[i].url].period == decls[i].period
      && feeds[decls[i].url].args == FeedOptions(defaults, decls[i].args)
  }

  /** Feeds that already match change nothing and `modified()` is never called. */
  lemma {:induction false} SyncAllInSync(feeds: map<string, Feed>, decls: seq<FeedDecl>, defaults: Args)
    requires InSync(feeds, decls, defaults)
    ensures SyncAll(feeds, decls, defaults) == (feeds, 0)
    decreases |decls|
  {
    if decls != [] {
      var init := decls[..|decls| - 1];
      assert InSync(feeds, init, defaults) by {
        forall i | 0 <= i < |init| ensures init[i] == decls[i] { }
      }
      SyncAllInSync(feeds, init, defaults);
      var d := decls[|decls| - 1];
      assert feeds[d.url := feeds[d.url]] == feeds;
    }
  }

  /** With distinct URLs, one run leaves the feeds matching every declaration. */
  lemma SyncReachesInSync(feeds: map<string, Feed>, decls: seq<FeedDecl>, defaults: Args)
    requires forall i, j :: 0 <= i < j < |decls| ==> decls[i].url != decls[j].url
    ensures InSync(KeepFeeds(SyncAll(feeds, decls, defaults).0, Declared(decls)), decls, defaults)
  {
    DeclaredIndex(decls);
    forall i | 0 <= i < |decls|
      ensures var f := SyncAll(feeds, decls, defaults).0;
              decls[i].url in f && f[decls[i].url].period == decls[i].period
              && f[decls[i].url].args == FeedOptions(defaults, decls[i].args)
    {
      SyncLastWins(feeds, decls, defaults, i);
    }
  }

  /** All of `sync_from_config`: the feeds, the articles and the number of `modified()` calls. */
  function SyncResult(feeds: map<string, Feed>, arts: map<string, Article>, decls: seq<FeedDecl>, defaults: Args)
    : (map<string, Feed>, map<string, Article>, nat)
  {
    var (f, c) := SyncAll(feeds, decls, defaults);
    var gone := feeds.Keys - Declared(decls);
    (KeepFeeds(f, Declared(decls)), DropArticles(arts, gone), c + |gone|)
  }

  /** After a sync the feeds are exactly the declared URLs; no article of a dropped feed remains;
    * articles of every other feed stay. */
  lemma SyncResultProperties(feeds: map<string, Feed>, arts: map<string, Article>, decls: seq<FeedDecl>, defaults: Args)
    ensures SyncResult(feeds, arts, decls, defaults).0.Keys == Declared(decls)
    ensures var a := SyncResult(feeds, arts, decls, defaults).1;
            forall k :: k in a ==> !(a[k].feed in feeds && a[k].feed !in Declared(decls))
    ensures var a := SyncResult(feeds, arts, decls, defaults).1;
            forall k :: k in arts && (arts[k].feed !in feeds || arts[k].feed in Declared(decls)) ==> k in a && a[k] == arts[k]
  {
    SyncAllKeys(feeds, decls, defaults);
  }

  /** A sync over feeds that already match, keyed by exactly the declared URLs, changes nothing. */
  lemma SyncInSyncUnchanged(feeds: map<string, Feed>, arts: map<string, Article>, decls: seq<FeedDecl>, defaults: Args)
    requires InSync(feeds, decls, defaults) && feeds.Keys == Declared(decls)
    ensures SyncResult(feeds, arts, decls, defaults) == (feeds, arts, 0)
  {
    SyncAllInSync(feeds, decls, defaults);
    assert feeds.Keys - Declared(decls) == {};
    assert KeepFeeds(feeds, Declared(decls)) == feeds;
    assert DropArticles(arts, {}) == arts;
  }

  /** A sync keeps feeds keyed by URL and articles by hash. */
  lemma SyncResultKeyed(feeds: map<string, Feed>, arts: map<string, Article>, decls: seq<FeedDecl>, defaults: Args)
    requires KeyedByUrl(feeds) && KeyedByHash(arts)
    ensures KeyedByUrl(SyncResult(feeds, arts, decls, defaults).0)
    ensures KeyedByHash(SyncResult(feeds, arts, decls, defaults).1)
  {
    SyncAllKeyed(feeds, decls, defaults);
  }

  /** With distinct URLs a second sync from the same configuration changes nothing and
    * never calls `modified()`. */
  lemma SyncIdempotent(feeds: map<string, Feed>, arts: map<string, Article>, decls: seq<FeedDecl>, defaults: Args)
    requires forall i, j :: 0 <= i < j < |decls| ==> decls[i].url != decls[j].url
    ensures var r := SyncResult(feeds, arts, decls, defaults);
            SyncResult(r.0, r.1, decls, defaults) == (r.0, r.1, 0)
  {
    var r := SyncResult(feeds, arts, decls, defaults);
    SyncReachesInSync(feeds, decls, defaults);
    SyncResultProperties(feeds, arts, decls, defaults);
    SyncInSyncUnchanged(r.0, r.1, decls, defaults);
  }

  // ---------------------------------------------------------------------
  // Feed.update

  /** The feeds once `update` has picked what to update: with a feed named, that feed's
    * validators are cleared so that it is fetched in full; otherwise nothing changes. */
  function Selected(feeds: map<string, Feed>, feedurl: Option<string>): (r: map<string, Feed>)
    ensures r.Keys == feeds.Keys
    ensures forall u :: u in feeds ==> r[u].etag == (if feedurl == Some(u) then None else feeds[u].etag)
    ensures forall u :: u in feeds ==> r[u].modified == (if feedurl == Some(u) then None else feeds[u].modified)
    ensures forall u :: u in feeds && feedurl != Some(u) ==> r[u] == feeds[u]
  {
    if feedurl.Some? && feedurl.value in feeds
    then feeds[feedurl.value := feeds[feedurl.value].(etag := None, modified := None)]
    else feeds
  }

  /** The feed marked as fetched now. */
  function Stamped(feeds: map<string, Feed>, url: string, now: int): (r: map<string, Feed>)
    requires url in feeds
    ensures r.Keys == feeds.Keys && r[url].lastUpdate == now
    ensures forall u :: u in feeds && u != url ==> r[u] == feeds[u]
  {
    feeds[url := feeds[url].(lastUpdate := now)]
  }

  /** The URL a feed is known by after its redirects: the target of a permanent redirect with a
    * valid location that is not already subscribed, else the URL it had. */
  function NewUrl(env: Env, feeds: map<string, Feed>, url: string, p: Fetched): (r: string)
    ensures r == url || (r !in feeds && RedirectOf(env, p.responses) == MoveTo(r))
  {
    match RedirectOf(env, p.responses)
    case MoveTo(target) => if target in feeds then url else target
    case _ => url
  }

  /** Missing or invalid locations and targets already subscribed leave the URL as it was. */
  lemma RedirectFailuresKeepUrl(env: Env, feeds: map<string, Feed>, url: string, p: Fetched)
    requires RedirectOf(env, p.responses).NoLocation? || RedirectOf(env, p.responses).BadLocation?
             || RedirectOf(env, p.responses).NoRedirect?
             || (RedirectOf(env, p.responses).MoveTo? && RedirectOf(env, p.responses).target in feeds)
    ensures NewUrl(env, feeds, url, p) == url
  {
  }

  /** The feed map once the feed at `url` is known by `cur`. */
  function Moved(feeds: map<string, Feed>, url: string, cur: string): (r: map<string, Feed>)
    requires url in feeds
    ensures cur in r && r.Keys == feeds.Keys - {url} + {cur}
    ensures forall u :: u in feeds && u != url && u != cur ==> r[u] == feeds[u]
  {
    if cur == url then feeds else (feeds - {url})[cur := feeds[url].(url := cur)]
  }

  /** What an update does to the feed map, whichever way it ends: the feed is now under `cur`,
    * stamped with `now`, and no other feed has changed. */
  lemma UpdatedFeeds(before: map<string, Feed>, url: string, now: int, cur: string, p: Fetched, rc: bool,
                     after: map<string, Feed>)
    requires url in before && (cur == url || cur !in before)
    requires !rc ==> after == Moved(Stamped(before, url, now), url, cur)
    requires rc ==> var f := Moved(Stamped(before, url, now), url, cur);
                    after == f[cur := f[cur].(etag := p.etag, modified := p.modified, info := p.info)]
    ensures cur in after && after.Keys == before.Keys - {url} + {cur}
    ensures after[cur].lastUpdate == now
    ensures forall u :: u in before && u != url ==> u in after && after[u] == before[u]
  {
  }

  /** The articles once the feed at `url` is known by `cur`. */
  function MovedArticles(arts: map<string, Article>, url: string, cur: string): map<string, Article> {
    if cur == url then arts else Retarget(arts, url, cur)
  }

  /** Whether `update` gets as far as the merge, and so returns true. */
  predicate Merges(p: Fetched) {
    Classify(p) == Usable && p.entries != []
  }

  /** The fetch outcomes that return false before the merge, in the order they are checked. */
  lemma FalseBeforeMerge(p: Fetched)
    ensures p.timedOut ==> !Merges(p)
    ensures p.failed ==> !Merges(p)
    ensures LastStatus(p) != 200 ==> !Merges(p)
    ensures p.version.GetOr("") == "" && p.entries == [] ==> !Merges(p)
    ensures p.entries == [] ==> !Merges(p)
    ensures Merges(p) <==> !p.timedOut && !p.failed && LastStatus(p) == 200 && p.entries != []
  {
  }

  /** The articles after a merge of `es` into the feed at `cur` with the id index `ids`. */
  function Merged(env: Env, arts: map<string, Article>, cur: string, ids: map<string, string>, now: int,
                  currentonly: bool, es: seq<Entry>): map<string, Article>
    requires IntoMap(ids, arts)
  {
    var m := MergeAll(env, cur, ids, now, arts, es);
    if currentonly then KeepCurrent(m, cur, Seen(env, cur, es)) else m
  }

  /** The articles after `update` of the feed at `url`, now known by `cur`: moved with it, then,
    * when the fetch gets as far as the merge, merged under the id index `ids`. */
  ghost predicate TurnArticles(env: Env, now: int, currentonly: bool, before: map<string, Article>, url: string,
                               cur: string, p: Fetched, ids: map<string, string>, after: map<string, Article>) {
    var a := MovedArticles(before, url, cur);
    if Merges(p) then IdIndex(a, cur, ids) && IntoMap(ids, a) && after == Merged(env, a, cur, ids, now, currentonly, p.entries)
    else after == a
  }

  /** The feeds after `update` of the feed at `url`: stamped, moved to `cur`, the URL a valid
    * permanent redirect leads to, and, when the fetch gets as far as the merge, carrying the
    * fetch's validators and feed information. */
  ghost predicate TurnFeeds(env: Env, now: int, before: map<string, Feed>, url: string, cur: string, p: Fetched,
                            after: map<string, Feed>) {
    && url in before && cur == NewUrl(env, before, url, p)
    && var f := Moved(Stamped(before, url, now), url, cur);
       after == if Merges(p) then f[cur := f[cur].(etag := p.etag, modified := p.modified, info := p.info)] else f
  }

  /** The article under `k` is still stored, with its hash and time added, and belongs to `feed`. */
  ghost predicate KeptAs(before: map<string, Article>, after: map<string, Article>, k: string, feed: string) {
    k in before && k in after && after[k].feed == feed && after[k].hash == before[k].hash && after[k].added == before[k].added
  }

  /** One feed's update keeps every article, moving those of `url` to `cur`, except that a merge
    * may delete articles of the feed it merges into. */
  lemma TurnKeeps(env: Env, now: int, currentonly: bool, before: map<string, Article>, url: string,
                  cur: string, p: Fetched, ids: map<string, string>, after: map<string, Article>, k: string)
    requires TurnArticles(env, now, currentonly, before, url, cur, p, ids, after) && k in before
    requires Merges(p) ==> before[k].feed != url && before[k].feed != cur
    ensures KeptAs(before, after, k, if before[k].feed == url then cur else before[k].feed)
  {
    var a := MovedArticles(before, url, cur);
    assert k in a && a[k].hash == before[k].hash && a[k].added == before[k].added;
    assert a[k].feed == if before[k].feed == url then cur else before[k].feed;
    if Merges(p) {
      var m := MergeAll(env, cur, ids, now, a, p.entries);
      MergeKeepsIdentity(env, cur, ids, now, a, p.entries, k);
      assert m[k].feed != cur;
    }
  }

  // ---------------------------------------------------------------------
  // The update loop, after the feeds outside `todo` are done

  /** Where the done feeds are: `curOf` maps each to the URL it is now under, distinct, stamped,
    * never a URL that was registered and not due, and in `seen` exactly when it merged. */
  ghost predicate DueUrls(env: Env, now: int, due: set<string>, results: map<string, Fetched>,
                          feeds0: map<string, Feed>, todo: set<string>, curOf: map<string, string>,
                          seen: set<string>, feeds: map<string, Feed>)
  {
    && DueWhere(env, now, due, results, todo, curOf, feeds)
    && DueDistinct(due, feeds0, curOf)
    && DueSeen(due, results, curOf, seen)
    && DueKeys(due, feeds0, todo, curOf, feeds)
  }

  ghost predicate DueWhere(env: Env, now: int, due: set<string>, results: map<string, Fetched>,
                           todo: set<string>, curOf: map<string, string>, feeds: map<string, Feed>)
  {
    && todo <= due && due <= results.Keys && todo <= feeds.Keys
    && curOf.Keys == due - todo
    && (forall u :: u in curOf ==>
          (curOf[u] in feeds && feeds[curOf[u]].lastUpdate == now && curOf[u] !in todo
           && (curOf[u] == u || RedirectOf(env, results[u].responses) == MoveTo(curOf[u]))))
  }

  ghost predicate DueDistinct(due: set<string>, feeds0: map<string, Feed>, curOf: map<string, string>) {
    && (forall u :: u in curOf ==> curOf[u] !in feeds0.Keys - due)
    && (forall u, v :: u in curOf && v in curOf && u != v ==> curOf[u] != curOf[v])
  }

  ghost predicate DueSeen(due: set<string>, results: map<string, Fetched>, curOf: map<string, string>, seen: set<string>) {
    && curOf.Keys <= due && due <= results.Keys
    && (forall u :: u in curOf ==> (curOf[u] in seen <==> Merges(results[u])))
    && seen <= curOf.Values
  }

  ghost predicate DueKeys(due: set<string>, feeds0: map<string, Feed>, todo: set<string>, curOf: map<string, string>,
                          feeds: map<string, Feed>) {
    && feeds.Keys == (feeds0.Keys - (due - todo)) + curOf.Values
    && (forall u :: u in feeds0 && u !in due ==> u in feeds && feeds[u] == feeds0[u])
  }

  /** What the done feeds left of the articles: those of registered feeds not yet updated keep
    * their feed, and those of done feeds that did not merge moved to the feed's new URL. */
  ghost predicate DueArts(due: set<string>, results: map<string, Fetched>, feeds0: map<string, Feed>,
                          arts0: map<string, Article>, todo: set<string>, curOf: map<string, string>,
                          arts: map<string, Article>)
  {
    && curOf.Keys <= due && due <= results.Keys
    && (forall k :: k in arts0 && arts0[k].feed in feeds0 && (arts0[k].feed !in due || arts0[k].feed in todo)
          ==> KeptAs(arts0, arts, k, arts0[k].feed))
    && (forall k :: k in arts0 && arts0[k].feed in curOf && !Merges(results[arts0[k].feed])
          ==> KeptAs(arts0, arts, k, curOf[arts0[k].feed]))
  }

  lemma DueStart(env: Env, now: int, due: set<string>, results: map<string, Fetched>,
                 feeds: map<string, Feed>, arts: map<string, Article>)
    requires due <= feeds.Keys && due <= results.Keys
    ensures DueUrls(env, now, due, results, feeds, due, map[], {}, feeds)
    ensures DueArts(due, results, feeds, arts, due, map[], arts)
  {
    var none: map<string, string> := map[];
    assert none.Values == {};
  }

  /** One turn keeps the whereabouts of the done feeds and adds the one just updated. */
  lemma DueUrlsStep(env: Env, now: int, due: set<string>, results: map<string, Fetched>,
                    feeds0: map<string, Feed>, todo: set<string>, curOf: map<string, string>,
                    seen0: set<string>, f0: map<string, Feed>, url: string, cur: string,
                    seen1: set<string>, f1: map<string, Feed>)
    requires DueUrls(env, now, due, results, feeds0, todo, curOf, seen0, f0) && url in todo
    requires cur == NewUrl(env, f0, url, results[url])
    requires cur in f1 && f1.Keys == f0.Keys - {url} + {cur} && f1[cur].lastUpdate == now
    requires seen1 == if Merges(results[url]) then seen0 + {cur} else seen0
    requires forall u :: u in f0 && u != url ==> u in f1 && f1[u] == f0[u]
    ensures DueUrls(env, now, due, results, feeds0, todo - {url}, curOf[url := cur], seen1, f1)
  {
    forall u | u in curOf ensures curOf[u] != cur { }
    ValuesAdd(curOf, url, cur);
    WhereStep(env, now, due, results, todo, curOf, f0, url, cur, f1);
    DistinctStep(env, due, feeds0, todo, curOf, f0, url, cur, results[url]);
    SeenStep(due, results, curOf, seen0, url, cur, seen1);
    KeysStep(due, feeds0, todo, curOf, f0, url, cur, f1);
  }

  lemma WhereStep(env: Env, now: int, due: set<string>, results: map<string, Fetched>,
                  todo: set<string>, curOf: map<string, string>, f0: map<string, Feed>, url: string,
                  cur: string, f1: map<string, Feed>)
    requires DueWhere(env, now, due, results, todo, curOf, f0) && url in todo
    requires cur == NewUrl(env, f0, url, results[url])
    requires cur in f1 && f1.Keys == f0.Keys - {url} + {cur} && f1[cur].lastUpdate == now
    requires forall u :: u in f0 && u != url ==> u in f1 && f1[u] == f0[u]
    ensures DueWhere(env, now, due, results, todo - {url}, curOf[url := cur], f1)
  {
    var c1 := curOf[url := cur];
    forall u | u in c1
      ensures c1[u] in f1 && f1[c1[u]].lastUpdate == now && c1[u] !in todo - {url}
              && (c1[u] == u || RedirectOf(env, results[u].responses) == MoveTo(c1[u]))
    {
      if u != url {
        assert curOf[u] != url;
      }
    }
  }

  lemma DistinctStep(env: Env, due: set<string>, feeds0: map<string, Feed>, todo: set<string>,
                     curOf: map<string, string>, f0: map<string, Feed>, url: string, cur: string, p: Fetched)
    requires DueDistinct(due, feeds0, curOf) && url in todo && todo <= due
    requires forall u :: u in feeds0 && u !in due ==> u in f0
    requires cur == NewUrl(env, f0, url, p) && cur !in curOf.Values
    ensures DueDistinct(due, feeds0, curOf[url := cur])
  {
    var c1 := curOf[url := cur];
    forall u, v | u in c1 && v in c1 && u != v ensures c1[u] != c1[v] {
      if u == url { assert c1[v] in curOf.Values; }
      else if v == url { assert c1[u] in curOf.Values; }
    }
  }

  lemma SeenStep(due: set<string>, results: map<string, Fetched>, curOf: map<string, string>, seen0: set<string>,
                 url: string, cur: string, seen1: set<string>)
    requires DueSeen(due, results, curOf, seen0) && url in due && url !in curOf
    requires cur !in curOf.Values && curOf[url := cur].Values == curOf.Values + {cur}
    requires seen1 == if Merges(results[url]) then seen0 + {cur} else seen0
    ensures DueSeen(due, results, curOf[url := cur], seen1)
  {
    var c1 := curOf[url := cur];
    forall u | u in c1 ensures c1[u] in seen1 <==> Merges(results[u]) {
      if u != url { assert c1[u] in curOf.Values; }
    }
  }

  lemma KeysStep(due: set<string>, feeds0: map<string, Feed>, todo: set<string>, curOf: map<string, string>,
                 f0: map<string, Feed>, url: string, cur: string, f1: map<string, Feed>)
    requires DueKeys(due, feeds0, todo, curOf, f0) && url in todo && todo <= due
    requires url !in curOf.Values && curOf[url := cur].Values == curOf.Values + {cur}
    requires cur in f1 && f1.Keys == f0.Keys - {url} + {cur}
    requires forall u :: u in f0 && u != url ==> u in f1 && f1[u] == f0[u]
    ensures DueKeys(due, feeds0, todo - {url}, curOf[url := cur], f1)
  {
  }

  lemma ValuesAdd(m: map<string, string>, k: string, v: string)
    requires k !in m
    ensures m[k := v].Values == m.Values + {v}
  {
    var m1 := m[k := v];
    forall x | x in m1.Values ensures x in m.Values + {v} {
      var j :| j in m1 && m1[j] == x;
      if j != k { assert m[j] == x; }
    }
    forall x | x in m.Values ensures x in m1.Values {
      var j :| j in m && m[j] == x;
      assert m1[j] == x;
    }
    assert m1[k] == v;
  }

  /** One turn keeps the articles of the feeds it does not merge into. */
  lemma DueArtsStep(env: Env, now: int, currentonly: bool, due: set<string>, results: map<string, Fetched>,
                    feeds0: map<string, Feed>, arts0: map<string, Article>, todo: set<string>,
                    curOf: map<string, string>, f0: map<string, Feed>, a0: map<string, Article>,
                    url: string, cur: string, ids: map<string, string>, a1: map<string, Article>)
    requires DueArts(due, results, feeds0, arts0, todo, curOf, a0)
    requires due <= feeds0.Keys && todo <= due && todo <= f0.Keys && curOf.Keys == due - todo && url in todo
    requires forall u :: u in curOf ==> curOf[u] in f0 && curOf[u] !in todo
    requires forall u :: u in feeds0 && u !in due ==> u in f0
    requires cur == NewUrl(env, f0, url, results[url])
    requires TurnArticles(env, now, currentonly, a0, url, cur, results[url], ids, a1)
    ensures DueArts(due, results, feeds0, arts0, todo - {url}, curOf[url := cur], a1)
  {
    var p := results[url];
    assert cur == url || cur !in f0;
    forall k | k in arts0 && arts0[k].feed in feeds0 && (arts0[k].feed !in due || arts0[k].feed in todo - {url})
      ensures KeptAs(arts0, a1, k, arts0[k].feed)
    {
      TurnKeeps(env, now, currentonly, a0, url, cur, p, ids, a1, k);
    }
    var c1 := curOf[url := cur];
    forall k | k in arts0 && arts0[k].feed in c1 && !Merges(results[arts0[k].feed])
      ensures KeptAs(arts0, a1, k, c1[arts0[k].feed])
    {
      var f := arts0[k].feed;
      if f == url {
        assert KeptAs(arts0, a0, k, f);
      } else {
        assert KeptAs(arts0, a0, k, curOf[f]);
        assert curOf[f] != url && curOf[f] != cur;
      }
      TurnKeeps(env, now, currentonly, a0, url, cur, p, ids, a1, k);
    }
  }

  /** Everything the loop over the due feeds keeps: where the done feeds are, which articles are
    * kept, and the turn-by-turn record of the articles and the feeds. */
  ghost predicate DueLoop(env: Env, now: int, currentonly: bool, due: set<string>, results: map<string, Fetched>,
                          feeds0: map<string, Feed>, arts0: map<string, Article>, todo: set<string>,
                          curOf: map<string, string>, seen: set<string>, feeds: map<string, Feed>,
                          arts: map<string, Article>, visit: seq<string>, ids: seq<map<string, string>>,
                          stages: seq<map<string, Article>>, fstages: seq<map<string, Feed>>)
  {
    && DueUrls(env, now, due, results, feeds0, todo, curOf, seen, feeds)
    && DueArts(due, results, feeds0, arts0, todo, curOf, arts)
    && Trace(env, now, currentonly, due - todo, results, curOf, arts0, visit, ids, stages, arts)
    && FeedTrace(env, now, results, curOf, visit, feeds0, fstages, feeds)
  }

  /** One turn of the loop keeps `DueLoop`. */
  lemma DueTurn(env: Env, now: int, currentonly: bool, due: set<string>, results: map<string, Fetched>,
                feeds0: map<string, Feed>, arts0: map<string, Article>, todo: set<string>,
                curOf: map<string, string>, seen0: set<string>, f0: map<string, Feed>, a0: map<string, Article>,
                visit: seq<string>, ids: seq<map<string, string>>, stages: seq<map<string, Article>>,
                fstages: seq<map<string, Feed>>, url: string, cur: string, id1: map<string, string>,
                seen1: set<string>, f1: map<string, Feed>, a1: map<string, Article>)
    requires DueLoop(env, now, currentonly, due, results, feeds0, arts0, todo, curOf, seen0, f0, a0,
                     visit, ids, stages, fstages)
    requires due <= feeds0.Keys && url in todo
    requires seen1 == if Merges(results[url]) then seen0 + {cur} else seen0
    requires TurnArticles(env, now, currentonly, a0, url, cur, results[url], id1, a1)
    requires TurnFeeds(env, now, f0, url, cur, results[url], f1)
    requires cur in f1 && f1.Keys == f0.Keys - {url} + {cur} && f1[cur].lastUpdate == now
    requires forall u :: u in f0 && u != url ==> u in f1 && f1[u] == f0[u]
    ensures DueLoop(env, now, currentonly, due, results, feeds0, arts0, todo - {url}, curOf[url := cur], seen1,
                    f1, a1, visit + [url], ids + [id1], stages + [a1], fstages + [f1])
  {
    DueUrlsStep(env, now, due, results, feeds0, todo, curOf, seen0, f0, url, cur, seen1, f1);
    DueArtsStep(env, now, currentonly, due, results, feeds0, arts0, todo, curOf, f0, a0, url, cur, id1, a1);
    TraceStep(env, now, currentonly, due - todo, results, curOf, arts0, visit, ids, stages, a0, url, cur, id1, a1);
    FeedTraceStep(env, now, results, curOf, visit, feeds0, fstages, f0, url, cur, f1);
    assert due - (todo - {url}) == (due - todo) + {url};
  }

  /** When every due feed is done. */
  lemma DueDone(env: Env, now: int, due: set<string>, results: map<string, Fetched>,
                feeds0: map<string, Feed>, arts0: map<string, Article>, curOf: map<string, string>,
                seen: set<string>, feeds: map<string, Feed>, arts: map<string, Article>)
    requires DueUrls(env, now, due, results, feeds0, {}, curOf, seen, feeds)
    requires DueArts(due, results, feeds0, arts0, {}, curOf, arts)
    ensures Relocated(env, now, due, results, feeds0, curOf, seen, feeds)
    ensures KeepsUnmerged(arts0, arts, feeds0, due, results, curOf)
  {
  }

  /** The articles through a cycle: the feeds of `done` were updated once each, in the order
    * `visit`, and `stages[i + 1]` is what the update of `visit[i]`, now under `curOf[visit[i]]`,
    * made of `stages[i]`, from `before` to `after`. */
  ghost predicate Trace(env: Env, now: int, currentonly: bool, done: set<string>, results: map<string, Fetched>,
                        curOf: map<string, string>, before: map<string, Article>, visit: seq<string>,
                        ids: seq<map<string, string>>, stages: seq<map<string, Article>>, after: map<string, Article>)
  {
    && curOf.Keys == done && done <= results.Keys
    && |stages| == |visit| + 1 && |ids| == |visit|
    && stages[0] == before && stages[|visit|] == after
    && Distinct(visit)
    && (forall i :: 0 <= i < |visit| ==> visit[i] in done)
    && (forall u :: u in done ==> u in visit)
    && (forall i :: 0 <= i < |visit| ==>
          TurnArticles(env, now, currentonly, stages[i], visit[i], curOf[visit[i]], results[visit[i]], ids[i], stages[i + 1]))
  }

  /** A cycle that has done nothing yet. */
  lemma TraceStart(env: Env, now: int, currentonly: bool, results: map<string, Fetched>, arts: map<string, Article>)
    ensures Trace(env, now, currentonly, {}, results, map[], arts, [], [], [arts], arts)
  {
  }

  /** One more turn extends the trace by the feed it updated. */
  lemma TraceStep(env: Env, now: int, currentonly: bool, done: set<string>, results: map<string, Fetched>,
                  curOf: map<string, string>, before: map<string, Article>, visit: seq<string>,
                  ids: seq<map<string, string>>, stages: seq<map<string, Article>>, a0: map<string, Article>,
                  url: string, cur: string, id1: map<string, string>, a1: map<string, Article>)
    requires Trace(env, now, currentonly, done, results, curOf, before, visit, ids, stages, a0)
    requires url !in done && url in results
    requires TurnArticles(env, now, currentonly, a0, url, cur, results[url], id1, a1)
    ensures Trace(env, now, currentonly, done + {url}, results, curOf[url := cur], before,
                  visit + [url], ids + [id1], stages + [a1], a1)
  {
    var v1, i1, s1, c1 := visit + [url], ids + [id1], stages + [a1], curOf[url := cur];
    var n := |visit|;
    forall i | 0 <= i < |v1|
      ensures TurnArticles(env, now, currentonly, s1[i], v1[i], c1[v1[i]], results[v1[i]], i1[i], s1[i + 1])
    {
      if i < n {
        assert visit[i] in done;
        assert v1[i] == visit[i] && i1[i] == ids[i] && s1[i] == stages[i] && s1[i + 1] == stages[i + 1];
      } else {
        assert v1[i] == url && s1[i] == a0 && s1[i + 1] == a1 && i1[i] == id1;
      }
    }
    forall i, j | 0 <= i < j < |v1| ensures v1[i] != v1[j] {
      if j == n {
        assert visit[i] in done;
      }
    }
  }

  /** The feeds through a cycle, turn by turn as `Trace` has the articles: `fstages[i + 1]` is
    * what the update of `visit[i]` made of `fstages[i]`, under the URL `NewUrl` gives at that
    * point. */
  ghost predicate FeedTrace(env: Env, now: int, results: map<string, Fetched>, curOf: map<string, string>,
                            visit: seq<string>, fbefore: map<string, Feed>, fstages: seq<map<string, Feed>>,
                            fafter: map<string, Feed>)
  {
    && |fstages| == |visit| + 1 && fstages[0] == fbefore && fstages[|visit|] == fafter
    && (forall i :: 0 <= i < |visit| ==> visit[i] in curOf && visit[i] in results)
    && (forall i :: 0 <= i < |visit| ==>
          TurnFeeds(env, now, fstages[i], visit[i], curOf[visit[i]], results[visit[i]], fstages[i + 1]))
  }

  /** One more turn extends the feed trace by the feed it updated. */
  lemma FeedTraceStep(env: Env, now: int, results: map<string, Fetched>, curOf: map<string, string>,
                      visit: seq<string>, fbefore: map<string, Feed>, fstages: seq<map<string, Feed>>,
                      f0: map<string, Feed>, url: string, cur: string, f1: map<string, Feed>)
    requires FeedTrace(env, now, results, curOf, visit, fbefore, fstages, f0)
    requires url !in curOf && url in results
    requires TurnFeeds(env, now, f0, url, cur, results[url], f1)
    ensures FeedTrace(env, now, results, curOf[url := cur], visit + [url], fbefore, fstages + [f1], f1)
  {
    var v1, s1, c1 := visit + [url], fstages + [f1], curOf[url := cur];
    var n := |visit|;
    forall i | 0 <= i < |v1|
      ensures v1[i] in c1 && v1[i] in results
      ensures TurnFeeds(env, now, s1[i], v1[i], c1[v1[i]], results[v1[i]], s1[i + 1])
    {
      if i < n {
        assert visit[i] in curOf;
        assert v1[i] == visit[i] && s1[i] == fstages[i] && s1[i + 1] == fstages[i + 1];
      } else {
        assert v1[i] == url && s1[i] == f0 && s1[i + 1] == f1;
      }
    }
  }

  /** After a cycle over the due feeds: `curOf` maps each to the URL it is now under, distinct for
    * distinct feeds and never a registered feed that was not due, stamped with the time, different
    * from the old URL only when the fetch said the feed moved there, and in `seen` exactly when the
    * feed merged entries; every other feed is as it was, and nothing else is registered. */
  ghost predicate Relocated(env: Env, now: int, due: set<string>, results: map<string, Fetched>,
                            feeds0: map<string, Feed>, curOf: map<string, string>, seen: set<string>,
                            feeds: map<string, Feed>)
  {
    && curOf.Keys == due && due <= results.Keys
    && (forall u :: u in due ==>
          (curOf[u] in feeds && feeds[curOf[u]].lastUpdate == now
           && (curOf[u] == u || RedirectOf(env, results[u].responses) == MoveTo(curOf[u]))))
    && (forall u :: u in due ==> curOf[u] !in feeds0.Keys - due)
    && (forall u, v :: u in due && v in due && u != v ==> curOf[u] != curOf[v])
    && (forall u :: u in due ==> (curOf[u] in seen <==> Merges(results[u])))
    && seen <= curOf.Values
    && feeds.Keys == (feeds0.Keys - due) + curOf.Values
    && (forall u :: u in feeds0 && u !in due ==> u in feeds && feeds[u] == feeds0[u])
  }

  /** After a cycle: every article of a registered feed that was not due, and every article of a
    * due feed whose fetch stopped before the merge, is still there under the same key, with the
    * same hash and time added, and belongs to that feed under its current URL. */
  ghost predicate KeepsUnmerged(before: map<string, Article>, after: map<string, Article>, feeds0: map<string, Feed>,
                                due: set<string>, results: map<string, Fetched>, curOf: map<string, string>)
  {
    && curOf.Keys == due && due <= results.Keys
    && (forall k :: k in before && before[k].feed in feeds0 && before[k].feed !in due
          ==> KeptAs(before, after, k, before[k].feed))
    && (forall k :: k in before && before[k].feed in due && !Merges(results[before[k].feed])
          ==> KeptAs(before, after, k, curOf[before[k].feed]))
  }

  // ---------------------------------------------------------------------
  // FeedFetcher

  /** `FeedFetcher.run`: as many workers as the setting asks, raised to one, but no more than
    * there are jobs; so exactly the smaller of the two. */
  function NumWorkers(maxWorkers: int, jobs: nat): (r: int)
    ensures r <= jobs && (r <= maxWorkers || r <= 1)
    ensures r == jobs || r == maxWorkers || r == 1
    ensures r == jobs || (r >= 1 && r >= maxWorkers)
    ensures jobs > 0 ==> 1 <= r <= jobs
    ensures jobs == 0 ==> r == 0
  {
    var m := if maxWorkers >= 1 then maxWorkers else 1;
    if m <= jobs then m else jobs
  }

  /** One worker draining the job set: every job is fetched exactly once. */
  method Drain(jobs: set<string>, fetch: string -> Fetched) returns (results: map<string, Fetched>)
    ensures results.Keys == jobs
    ensures forall j :: j in jobs ==> results[j] == fetch(j)
  {
    results := map[];
    var todo := jobs;
    while todo != {}
      invariant todo <= jobs && results.Keys == jobs - todo
      invariant forall j :: j in results ==> results[j] == fetch(j)
      decreases todo
    {
      var job :| job in todo;
      todo := todo - {job};
      results := results[job := fetch(job)];
    }
  }

  // ---------------------------------------------------------------------
  // The aggregator

  /** Expiry deletes nothing of a registered feed outside `seen_some_items`, so an article kept
    * through the updates is kept through expiry too. */
  lemma ExpiryKeeps(cx: Context, order: seq<string>, before: map<string, Article>, k: string, feed: string)
    requires forall j :: 0 <= j < |order| ==> order[j] in cx.arts
    requires Covers(Start(cx).counts, cx.arts)
    requires KeptAs(before, cx.arts, k, feed) && feed in cx.feeds && feed !in cx.seen
    ensures KeptAs(before, ExpireWalk(cx, Start(cx), order).arts, k, feed)
  {
    UnseenFeedKeepsAll(cx, Start(cx), order, k);
  }

  /** The feeds that were not due, and the due feeds whose fetch stopped before the merge, are
    * outside `seen_some_items`, so the whole cycle keeps their articles. */
  lemma CycleKeeps(env: Env, now: int, cx: Context, order: seq<string>, before: map<string, Article>, feeds0: map<string, Feed>,
                   due: set<string>, results: map<string, Fetched>, curOf: map<string, string>,
                   arts: map<string, Article>)
    requires forall j :: 0 <= j < |order| ==> order[j] in cx.arts
    requires Covers(Start(cx).counts, cx.arts) && arts == ExpireWalk(cx, Start(cx), order).arts
    requires Relocated(env, now, due, results, feeds0, curOf, cx.seen, cx.feeds)
    requires KeepsUnmerged(before, cx.arts, feeds0, due, results, curOf)
    ensures KeepsUnmerged(before, arts, feeds0, due, results, curOf)
  {
    forall k | k in before && before[k].feed in feeds0 && before[k].feed !in due
      ensures KeptAs(before, arts, k, before[k].feed)
    {
      var f := before[k].feed;
      forall u | u in curOf ensures curOf[u] != f { }
      ExpiryKeeps(cx, order, before, k, f);
    }
    forall k | k in before && before[k].feed in due && !Merges(results[before[k].feed])
      ensures KeptAs(before, arts, k, curOf[before[k].feed])
    {
      ExpiryKeeps(cx, order, before, k, curOf[before[k].feed]);
    }
  }

  /** Clearing the validators of the due feeds before the cycle changes none of this. */
  lemma RelocatedFrom(env: Env, now: int, due: set<string>, results: map<string, Fetched>,
                      feeds0: map<string, Feed>, f1: map<string, Feed>, curOf: map<string, string>,
                      seen: set<string>, feeds: map<string, Feed>)
    requires Relocated(env, now, due, results, f1, curOf, seen, feeds)
    requires f1.Keys == feeds0.Keys && forall u :: u in feeds0 && u !in due ==> f1[u] == feeds0[u]
    ensures Relocated(env, now, due, results, feeds0, curOf, seen, feeds)
  {
  }

  class Rawdog {
    var feeds: map<string, Feed>
    var articles: map<string, Article>
    var modifications: nat

    /** Feeds are keyed by their URL and articles by their hash. */
    ghost predicate Valid()
      reads this
    {
      KeyedByUrl(feeds) && KeyedByHash(articles)
    }

    constructor()
      ensures feeds == map[] && articles == map[] && modifications == 0
      ensures Valid()
    {
      feeds := map[];
      articles := map[];
      modifications := 0;
    }

    /** `change_feed_url`: unless the new URL is already subscribed, the feed moves to the new
      * key with its URL changed, and every article of the old URL follows it. */
    method ChangeFeedUrl(oldurl: string, newurl: string) returns (moved: bool)
      requires oldurl in feeds && Valid()
      modifies this
      ensures Valid()
      ensures moved <==> newurl !in old(feeds)
      ensures moved ==> feeds == (old(feeds) - {oldurl})[newurl := old(feeds)[oldurl].(url := newurl)]
      ensures moved ==> articles == Retarget(old(articles), oldurl, newurl)
      ensures !moved ==> feeds == old(feeds) && articles == old(articles)
      ensures modifications == old(modifications)
    {
      if newurl in feeds {
        return false;
      }
      var feed := feeds[oldurl].(url := newurl);
      feeds := (feeds - {oldurl})[newurl := feed];
      var todo := articles.Keys;
      while todo != {}
        invariant todo <= articles.Keys == old(articles).Keys
        invariant forall k :: k in articles ==>
          articles[k] == if k in todo then old(articles)[k] else Retarget(old(articles), oldurl, newurl)[k]
        invariant feeds == (old(feeds) - {oldurl})[newurl := old(feeds)[oldurl].(url := newurl)]
        invariant modifications == old(modifications)
        decreases todo
      {
        var k :| k in todo;
        if articles[k].feed == oldurl {
          articles := articles[k := articles[k].(feed := newurl)];
        }
        todo := todo - {k};
      }
      moved := true;
    }

    /** `Feed.update` for the feed at `url`: stamp it, follow a permanent redirect, classify the
      * fetch and, when it is usable and has entries, record the validators and merge the entries.
      * `cur` is the URL the feed ends up under; `ids` is the id index the merge used. */
    method UpdateFeed(env: Env, url: string, now: int, currentonly: bool, p: Fetched)
      returns (rc: bool, cur: string, ids: map<string, string>)
      requires url in feeds && Valid()
      modifies this
      ensures Valid()
      ensures cur == NewUrl(env, old(feeds), url, p)
      ensures rc <==> Merges(p)
      ensures !rc ==> feeds == Moved(Stamped(old(feeds), url, now), url, cur)
      ensures !rc ==> articles == MovedArticles(old(articles), url, cur)
      ensures rc ==> var f := Moved(Stamped(old(feeds), url, now), url, cur);
                     feeds == f[cur := f[cur].(etag := p.etag, modified := p.modified, info := p.info)]
      ensures rc ==> var a := MovedArticles(old(articles), url, cur);
                     IdIndex(a, cur, ids) && IntoMap(ids, a)
                     && articles == Merged(env, a, cur, ids, now, currentonly, p.entries)
      ensures modifications == old(modifications)
    {
      cur := FollowRedirect(env, url, now, p);
      ids := map[];
      var outcome := Classify(p);
      if Fatal(outcome) || outcome == NotModified {
        return false, cur, ids;
      }
      if |p.entries| == 0 {
        return false, cur, ids;
      }
      ids := MergeFetch(env, cur, now, currentonly, p);
      rc := true;
    }

    /** The start of `Feed.update`: `last_update := now`, then the move a permanent redirect asks
      * for. Moving fails, without making the update fatal, when the location is missing or
      * invalid or the new URL is already subscribed. */
    method FollowRedirect(env: Env, url: string, now: int, p: Fetched) returns (cur: string)
      requires url in feeds && Valid()
      modifies this
      ensures Valid()
      ensures cur == NewUrl(env, old(feeds), url, p)
      ensures feeds == Moved(Stamped(old(feeds), url, now), url, cur)
      ensures articles == MovedArticles(old(articles), url, cur)
      ensures modifications == old(modifications)
    {
      feeds := Stamped(feeds, url, now);
      cur := url;
      match RedirectOf(env, p.responses) {
        case MoveTo(target) =>
          var moved := ChangeFeedUrl(url, target);
          if moved {
            cur := target;
          }
        case _ =>
      }
    }

    /** The end of `Feed.update`: record the validators and feed information, then merge. */
    method MergeFetch(env: Env, cur: string, now: int, currentonly: bool, p: Fetched) returns (ids: map<string, string>)
      requires cur in feeds && Valid()
      modifies this
      ensures Valid()
      ensures feeds == old(feeds)[cur := old(feeds)[cur].(etag := p.etag, modified := p.modified, info := p.info)]
      ensures IdIndex(old(articles), cur, ids) && IntoMap(ids, old(articles))
      ensures articles == Merged(env, old(articles), cur, ids, now, currentonly, p.entries)
      ensures modifications == old(modifications)
    {
      feeds := feeds[cur := feeds[cur].(etag := p.etag, modified := p.modified, info := p.info)];
      ids := IndexIds(articles, cur);
      var merged, seen := MergeEntries(env, cur, ids, now, articles, p.entries);
      KeyedThroughMerge(env, cur, ids, now, articles, p.entries);
      if currentonly {
        merged := DropUnseen(merged, cur, seen);
      }
      articles := merged;
    }

    /** `update`: pick the due feeds, update each from its fetch result, expire, and mark the
      * state modified. `seenSome` is `seen_some_items`, `mid` the articles before expiry, `curOf`
      * the URL each due feed ends up under. A registered feed that was not due, or whose fetch
      * stopped before the merge (a 304, an error, no entries), keeps every article. */
    method Update(env: Env, now: int, cfg: Settings, feedurl: Option<string>, fetch: string -> Fetched)
      returns (due: set<string>, results: map<string, Fetched>, seenSome: set<string>, ghost curOf: map<string, string>,
               ghost visit: seq<string>, ghost ids: seq<map<string, string>>, ghost stages: seq<map<string, Article>>,
               ghost fstages: seq<map<string, Feed>>, ghost mid: map<string, Article>, ghost order: seq<string>)
      requires Valid()
      modifies this
      ensures Valid()
      ensures feedurl.None? ==> due == set u | u in old(feeds) && NeedsUpdate(old(feeds)[u], now)
      ensures feedurl.Some? ==> due == if feedurl.value in old(feeds) then {feedurl.value} else {}
      ensures results.Keys == due && forall u :: u in due ==> results[u] == fetch(u)
      ensures Relocated(env, now, due, results, old(feeds), curOf, seenSome, feeds)
      ensures due == {} ==> feeds == old(feeds) && mid == old(articles) && seenSome == {}
      ensures SortedBy(order, k => ExpiryKey(mid, k)) && forall k :: k in mid <==> k in order
      ensures Distinct(order) && |order| == |mid|
      ensures var cx := Context(feeds, mid, now, cfg.expireage, cfg.keepmin, seenSome);
              (forall j :: 0 <= j < |order| ==> order[j] in cx.arts) && Covers(Start(cx).counts, cx.arts)
              && articles == ExpireWalk(cx, Start(cx), order).arts
      ensures Trace(env, now, cfg.currentonly, due, results, curOf, old(articles), visit, ids, stages, mid)
      ensures FeedTrace(env, now, results, curOf, visit, Selected(old(feeds), feedurl), fstages, feeds)
      ensures KeepsUnmerged(old(articles), articles, old(feeds), due, results, curOf)
      ensures modifications == old(modifications) + 1
    {
      ghost var before := articles;
      due, results, seenSome, curOf, visit, ids, stages, fstages := UpdateFeeds(env, now, cfg.currentonly, feedurl, fetch);
      mid := articles;
      order := Expire(now, cfg, seenSome);
      CycleKeeps(env, now, Context(feeds, mid, now, cfg.expireage, cfg.keepmin, seenSome), order, before, old(feeds),
                 due, results, curOf, articles);
    }

    /** `do_expiry` applied: the articles left after the walk, and the state marked modified. */
    method Expire(now: int, cfg: Settings, seenSome: set<string>) returns (ghost order: seq<string>)
      requires Valid()
      modifies this
      ensures Valid() && feeds == old(feeds)
      ensures SortedBy(order, k => ExpiryKey(old(articles), k)) && forall k :: k in old(articles) <==> k in order
      ensures Distinct(order) && |order| == |old(articles)|
      ensures var cx := Context(feeds, old(articles), now, cfg.expireage, cfg.keepmin, seenSome);
              (forall j :: 0 <= j < |order| ==> order[j] in cx.arts) && Covers(Start(cx).counts, cx.arts)
              && articles == ExpireWalk(cx, Start(cx), order).arts
      ensures modifications == old(modifications) + 1
    {
      var cx := Context(feeds, articles, now, cfg.expireage, cfg.keepmin, seenSome);
      var arts, _, o := DoExpiry(cx);
      order := o;
      articles := arts;
      modifications := modifications + 1;
    }

    /** The part of `update` before expiry: pick the due feeds, fetch them and update each;
      * `results` holds what each fetch returned. */
    method UpdateFeeds(env: Env, now: int, currentonly: bool, feedurl: Option<string>, fetch: string -> Fetched)
      returns (due: set<string>, results: map<string, Fetched>, seenSome: set<string>, ghost curOf: map<string, string>,
               ghost visit: seq<string>, ghost ids: seq<map<string, string>>, ghost stages: seq<map<string, Article>>,
               ghost fstages: seq<map<string, Feed>>)
      requires Valid()
      modifies this
      ensures Valid()
      ensures feedurl.None? ==> due == set u | u in old(feeds) && NeedsUpdate(old(feeds)[u], now)
      ensures feedurl.Some? ==> due == if feedurl.value in old(feeds) then {feedurl.value} else {}
      ensures results.Keys == due && forall u :: u in due ==> results[u] == fetch(u)
      ensures Relocated(env, now, due, results, old(feeds), curOf, seenSome, feeds)
      ensures due == {} ==> feeds == old(feeds) && articles == old(articles) && seenSome == {}
      ensures KeepsUnmerged(old(articles), articles, old(feeds), due, results, curOf)
      ensures Trace(env, now, currentonly, due, results, curOf, old(articles), visit, ids, stages, articles)
      ensures FeedTrace(env, now, results, curOf, visit, Selected(old(feeds), feedurl), fstages, feeds)
      ensures modifications == old(modifications)
    {
      due := SelectDue(now, feedurl);
      ghost var f1 := feeds;
      results := Drain(due, fetch);
      seenSome, curOf, visit, ids, stages, fstages := UpdateDue(env, now, currentonly, due, results);
      RelocatedFrom(env, now, due, results, old(feeds), f1, curOf, seenSome, feeds);
    }

    /** The due feeds: every feed whose period has elapsed, or the one feed asked for, whose
      * validators are then cleared so that it is fetched in full; none when it is unknown. */
    method SelectDue(now: int, feedurl: Option<string>) returns (due: set<string>)
      requires Valid()
      modifies this
      ensures Valid() && due <= feeds.Keys && feeds.Keys == old(feeds).Keys
      ensures feedurl.None? ==> due == set u | u in old(feeds) && NeedsUpdate(old(feeds)[u], now)
      ensures feedurl.Some? ==> due == if feedurl.value in old(feeds) then {feedurl.value} else {}
      ensures feeds == Selected(old(feeds), feedurl)
      ensures forall u :: u in old(feeds) && u !in due ==> feeds[u] == old(feeds)[u]
      ensures articles == old(articles) && modifications == old(modifications)
    {
      if feedurl.None? {
        due := set u | u in feeds && NeedsUpdate(feeds[u], now);
      } else if feedurl.value in feeds {
        var u := feedurl.value;
        due := {u};
        feeds := feeds[u := feeds[u].(etag := None, modified := None)];
      } else {
        due := {};
      }
    }

    /** The loop over the due feeds, in no particular order; returns `seen_some_items`, the URLs,
      * after any move, of the feeds whose update returned true, and, as `curOf`, the URL each due
      * feed ends up under. */
    method UpdateDue(env: Env, now: int, currentonly: bool, due: set<string>, results: map<string, Fetched>)
      returns (seenSome: set<string>, ghost curOf: map<string, string>, ghost visit: seq<string>,
               ghost ids: seq<map<string, string>>, ghost stages: seq<map<string, Article>>,
               ghost fstages: seq<map<string, Feed>>)
      requires Valid() && due <= feeds.Keys && due <= results.Keys
      modifies this
      ensures Valid()
      ensures Relocated(env, now, due, results, old(feeds), curOf, seenSome, feeds)
      ensures KeepsUnmerged(old(articles), articles, old(feeds), due, results, curOf)
      ensures Trace(env, now, currentonly, due, results, curOf, old(articles), visit, ids, stages, articles)
      ensures FeedTrace(env, now, results, curOf, visit, old(feeds), fstages, feeds)
      ensures due == {} ==> feeds == old(feeds) && articles == old(articles) && seenSome == {}
      ensures modifications == old(modifications)
    {
      seenSome := {};
      curOf := map[];
      visit, ids, stages, fstages := [], [], [articles], [feeds];
      TraceStart(env, now, currentonly, results, articles);
      if due == {} {
        return;
      }
      var todo := due;
      DueStart(env, now, due, results, feeds, articles);
      assert due - todo == {};
      while todo != {}
        invariant Valid()
        invariant DueLoop(env, now, currentonly, due, results, old(feeds), old(articles), todo, curOf, seenSome,
                          feeds, articles, visit, ids, stages, fstages)
        invariant modifications == old(modifications)
        decreases todo
      {
        var url :| url in todo;
        ghost var a0 := articles;
        ghost var f0 := feeds;
        ghost var s0 := seenSome;
        var cur;
        ghost var id1;
        seenSome, cur, id1 := UpdateStep(env, url, now, currentonly, results[url], seenSome);
        DueTurn(env, now, currentonly, due, results, old(feeds), old(articles), todo, curOf, s0, f0, a0,
                visit, ids, stages, fstages, url, cur, id1, seenSome, feeds, articles);
        curOf := curOf[url := cur];
        visit, ids, stages, fstages := visit + [url], ids + [id1], stages + [articles], fstages + [feeds];
        todo := todo - {url};
      }
      assert due - todo == due;
      assert Trace(env, now, currentonly, due, results, curOf, old(articles), visit, ids, stages, articles);
      DueDone(env, now, due, results, old(feeds), old(articles), curOf, seenSome, feeds, articles);
    }

    /** One turn of the loop: update the feed, and remember its URL, after any move, when the
      * update returned true. */
    method UpdateStep(env: Env, url: string, now: int, currentonly: bool, p: Fetched, seenSome: set<string>)
      returns (seen: set<string>, cur: string, ghost ids: map<string, string>)
      requires url in feeds && Valid()
      modifies this
      ensures Valid()
      ensures cur == NewUrl(env, old(feeds), url, p)
      ensures cur in feeds && feeds.Keys == old(feeds).Keys - {url} + {cur} && feeds[cur].lastUpdate == now
      ensures seen == if Merges(p) then seenSome + {cur} else seenSome
      ensures forall u :: u in old(feeds) && u != url ==> u in feeds && feeds[u] == old(feeds)[u]
      ensures TurnArticles(env, now, currentonly, old(articles), url, cur, p, ids, articles)
      ensures TurnFeeds(env, now, old(feeds), url, cur, p, feeds)
      ensures modifications == old(modifications)
    {
      ghost var before := feeds;
      var rc;
      rc, cur, ids := UpdateFeed(env, url, now, currentonly, p);
      UpdatedFeeds(before, url, now, cur, p, rc, feeds);
      seen := seenSome;
      if rc {
        seen := seen + {cur};
      }
    }

    /** `sync_from_config`: add or adjust every declared feed, then remove the undeclared ones
      * together with their articles. */
    method SyncFromConfig(decls: seq<FeedDecl>, defaults: Args)
      requires Valid()
      modifies this
      ensures Valid()
      ensures feeds == SyncResult(old(feeds), old(articles), decls, defaults).0
      ensures articles == SyncResult(old(feeds), old(articles), decls, defaults).1
      ensures modifications == old(modifications) + SyncResult(old(feeds), old(articles), decls, defaults).2
    {
      var fs, count, seen := SyncFeeds(feeds, decls, defaults);
      ghost var r := SyncResult(feeds, articles, decls, defaults);
      SyncResultKeyed(feeds, articles, decls, defaults);
      SyncAllKeys(feeds, decls, defaults);
      assert fs.Keys - seen == feeds.Keys - Declared(decls);
      var kept, arts, removed := PruneFeeds(fs, articles, seen);
      assert kept == r.0 && arts == r.1 && count + removed == r.2;
      feeds, articles, modifications := kept, arts, modifications + count + removed;
    }

    /** `write` up to the output file: the ranked articles after `write_remove_dups`, the number
      * of articles there were and the number of duplicates dropped. Every article's feed must be
      * registered (`self.feeds[article.feed]` fails otherwise). */
    method Write(cfg: Settings, now: int)
      returns (selected: seq<Article>, numarticles: nat, dupCount: nat, ghost ks: seq<string>)
      requires forall k :: k in articles ==> articles[k].feed in feeds
      ensures Enumerates(ks, articles) && numarticles == |articles|
      ensures var ranked := LookUp(articles, Ranked(ValuesAt(articles, ks), cfg.sortbyfeeddate, cfg.maxarticles));
              Registered(feeds, ranked)
              && selected == Dedup(feeds, ranked, cfg.maxage, now).kept
              && dupCount == Dedup(feeds, ranked, cfg.maxage, now).dups
    {
      var ranked;
      ranked, numarticles, ks := Select(articles, cfg.sortbyfeeddate, cfg.maxarticles);
      forall i | 0 <= i < |ranked| ensures ranked[i].feed in feeds {
        var k :| k in articles && articles[k] == ranked[i];
      }
      selected, dupCount := RemoveDups(feeds, ranked, cfg.maxage, now);
    }
  }

  /** The first loop of `sync_from_config`. */
  method SyncFeeds(feeds: map<string, Feed>, decls: seq<FeedDecl>, defaults: Args)
    returns (fs: map<string, Feed>, count: nat, seen: set<string>)
    ensures fs == SyncAll(feeds, decls, defaults).0 && count == SyncAll(feeds, decls, defaults).1
    ensures seen == Declared(decls)
  {
    fs, count, seen := feeds, 0, {};
    var i := 0;
    while i < |decls|
      invariant 0 <= i <= |decls|
      invariant seen == Declared(decls[..i])
      invariant fs == SyncAll(feeds, decls[..i], defaults).0 && count == SyncAll(feeds, decls[..i], defaults).1
    {
      SyncAllNext(feeds, decls, defaults, i);
      DeclaredNext(decls, i);
      var c;
      fs, c := SyncDecl(fs, decls[i], defaults);
      count := count + c;
      seen := seen + {decls[i].url};
      i := i + 1;
    }
    assert decls[..i] == decls;
  }

  /** One more declaration is one more `SyncStep`. */
  lemma SyncAllNext(feeds: map<string, Feed>, decls: seq<FeedDecl>, defaults: Args, i: int)
    requires 0 <= i < |decls|
    ensures var prev := SyncAll(feeds, decls[..i], defaults);
            SyncAll(feeds, decls[..i + 1], defaults).0 == SyncStep(prev.0, decls[i], defaults).0
            && SyncAll(feeds, decls[..i + 1], defaults).1 == prev.1 + SyncStep(prev.0, decls[i], defaults).1
  {
    assert decls[..i + 1][..i] == decls[..i] && decls[..i + 1][i] == decls[i];
  }

  lemma DeclaredNext(decls: seq<FeedDecl>, i: int)
    requires 0 <= i < |decls|
    ensures Declared(decls[..i + 1]) == Declared(decls[..i]) + {decls[i].url}
  {
    assert decls[..i + 1][..i] == decls[..i] && decls[..i + 1][i] == decls[i];
  }

  /** The first loop's body for one declaration: the feed map and the number of `modified()`
    * calls it makes. */
  method SyncDecl(feeds: map<string, Feed>, d: FeedDecl, defaults: Args) returns (fs: map<string, Feed>, count: nat)
    ensures fs == SyncStep(feeds, d, defaults).0
    ensures count == SyncStep(feeds, d, defaults).1
  {
    fs, count := feeds, 0;
    if d.url !in fs {
      fs := fs[d.url := NewFeed(d.url)];
      count := count + 1;
    }
    var feed := fs[d.url];
    if feed.period != d.period {
      feed := feed.(period := d.period);
      fs := fs[d.url := feed];
      count := count + 1;
    }
    var newargs := FeedOptions(defaults, d.args);
    if feed.args != newargs {
      feed := feed.(args := newargs);
      fs := fs[d.url := feed];
      count := count + 1;
    }
  }

  /** The second loop of `sync_from_config`: every feed not in `declared` goes, with its
    * articles; `removed` counts the removals. */
  method PruneFeeds(feeds: map<string, Feed>, articles: map<string, Article>, declared: set<string>)
    returns (fs: map<string, Feed>, arts: map<string, Article>, removed: nat)
    requires declared <= feeds.Keys
    ensures fs == KeepFeeds(feeds, declared)
    ensures arts == DropArticles(articles, feeds.Keys - declared)
    ensures removed == |feeds.Keys - declared|
  {
    fs, arts, removed := feeds, articles, 0;
    var todo := fs.Keys;
    ghost var gone: set<string> := {};
    KeepAndDropEdges(fs, arts, declared);
    while todo != {}
      invariant todo <= feeds.Keys
      invariant gone == (feeds.Keys - todo) - declared
      invariant fs == KeepFeeds(feeds, todo + declared)
      invariant arts == DropArticles(articles, gone)
      invariant removed == |gone|
      decreases todo
    {
      var url :| url in todo;
      KeepFeedsStep(feeds, todo, declared, url);
      GoneStep(feeds.Keys, todo, declared, gone, url);
      if url !in declared {
        DropArticlesStep(articles, gone, url);
        arts := WithoutFeed(arts, url);
        fs := fs - {url};
        removed := removed + 1;
        gone := gone + {url};
      }
      todo := todo - {url};
    }
    assert gone == feeds.Keys - declared;
    assert todo + declared == declared;
  }

  /** The inner loop of the removal: delete every article of the feed. */
  method WithoutFeed(arts: map<string, Article>, url: string) returns (r: map<string, Article>)
    ensures r == DropArticles(arts, {url})
  {
    r := arts;
    var todo := arts.Keys;
    while todo != {}
      invariant todo <= arts.Keys
      invariant r == map k | k in arts && (k in todo || arts[k].feed != url) :: arts[k]
      decreases todo
    {
      var key :| key in todo;
      if r[key].feed == url {
        r := r - {key};
      }
      todo := todo - {key};
    }
  }
}
