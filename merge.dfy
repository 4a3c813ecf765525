/**
 * How `Feed.update` merges the entries of a fetch into the article map:
 * the index of existing articles by entry id, the walk over the entries with
 * their sequence numbers, and the `currentonly` pruning.
 */
module Merge {
  import opened Wrappers
  import opened Feeds

  /** The key an entry of `feed` is stored under when it is new. */
  function EntryHash(env: Env, feed: string, e: Entry): (h: string)
    ensures forall now, sequence :: MakeArticle(env, feed, e, now, sequence).hash == h
  {
    env.digest(HashText(feed, e))
  }

  /** `article_ids`: each id of an existing article of `feed` leads to one such article. What
    * article a duplicated id leads to depends on dictionary order, so any is allowed. */
  ghost predicate IdIndex(arts: map<string, Article>, feed: string, ids: map<string, string>) {
    (forall id :: id in ids ==> ids[id] in arts && arts[ids[id]].feed == feed && arts[ids[id]].entry.id == Some(id))
    && (forall k :: k in arts && arts[k].feed == feed && arts[k].entry.id.Some? ==> arts[k].entry.id.value in ids)
  }

  /** Every id leads to a stored article. */
  ghost predicate IntoMap(ids: map<string, string>, arts: map<string, Article>) {
    forall id :: id in ids ==> ids[id] in arts
  }

  /** The key an entry lands on: the article its id matches, else its hash. */
  function Target(env: Env, feed: string, ids: map<string, string>, e: Entry): string {
    if e.id.Some? && e.id.value in ids then ids[e.id.value] else EntryHash(env, feed, e)
  }

  /** One entry of the loop at rawdog.py:613-631: update the article its id matches, else the
    * article stored under its hash, else insert it. */
  function MergeOne(env: Env, feed: string, ids: map<string, string>, now: int,
                    arts: map<string, Article>, e: Entry, sequence: int): (r: map<string, Article>)
    requires IntoMap(ids, arts)
    ensures r.Keys == arts.Keys + {Target(env, feed, ids, e)}
  {
    var a := MakeArticle(env, feed, e, now, sequence);
    if e.id.Some? && e.id.value in ids then
      var k := ids[e.id.value];
      arts[k := UpdateFrom(arts[k], a, now)]
    else if a.hash in arts then
      arts[a.hash := UpdateFrom(arts[a.hash], a, now)]
    else
      arts[a.hash := a]
  }

  /** The whole loop: entry `i` gets sequence number `i`. */
  function MergeAll(env: Env, feed: string, ids: map<string, string>, now: int,
                    arts: map<string, Article>, es: seq<Entry>): (r: map<string, Article>)
    requires IntoMap(ids, arts)
    ensures arts.Keys <= r.Keys
    decreases |es|
  {
    if es == [] then arts
    else
      var prev := MergeAll(env, feed, ids, now, arts, es[..|es| - 1]);
      MergeOne(env, feed, ids, now, prev, es[|es| - 1], |es| - 1)
  }

  /** `seen_articles`: the hashes computed for the entries. */
  function Seen(env: Env, feed: string, es: seq<Entry>): set<string>
    decreases |es|
  {
    if es == [] then {} else Seen(env, feed, es[..|es| - 1]) + {EntryHash(env, feed, es[|es| - 1])}
  }

  /** The keys the entries land on. */
  function Targets(env: Env, feed: string, ids: map<string, string>, es: seq<Entry>): set<string>
    decreases |es|
  {
    if es == [] then {} else Targets(env, feed, ids, es[..|es| - 1]) + {Target(env, feed, ids, es[|es| - 1])}
  }

  /** `currentonly`: drop every article of `feed` whose key is not among `seen`. */
  function KeepCurrent(arts: map<string, Article>, feed: string, seen: set<string>): map<string, Article> {
    map k | k in arts && (arts[k].feed != feed || k in seen) :: arts[k]
  }

  // ---------------------------------------------------------------------
  // Properties of the merge

  /** The merge adds exactly the keys the entries land on. */
  lemma {:induction false} MergeKeys(env: Env, feed: string, ids: map<string, string>, now: int,
                                     arts: map<string, Article>, es: seq<Entry>)
    requires IntoMap(ids, arts)
    ensures MergeAll(env, feed, ids, now, arts, es).Keys == arts.Keys + Targets(env, feed, ids, es)
    decreases |es|
  {
    if es != [] {
      MergeKeys(env, feed, ids, now, arts, es[..|es| - 1]);
    }
  }

  /** An article no entry lands on is left as it was. */
  lemma {:induction false} MergeUntouched(env: Env, feed: string, ids: map<string, string>, now: int,
                                          arts: map<string, Article>, es: seq<Entry>, k: string)
    requires IntoMap(ids, arts) && k in arts
    requires forall j :: 0 <= j < |es| ==> Target(env, feed, ids, es[j]) != k
    ensures MergeAll(env, feed, ids, now, arts, es)[k] == arts[k]
    decreases |es|
  {
    if es != [] {
      MergeUntouched(env, feed, ids, now, arts, es[..|es| - 1], k);
    }
  }

  /** A merge never changes an article's key, hash, feed or time added; articles it adds belong to
    * `feed`, carry their key as hash and were added and seen now. */
  lemma {:induction false} MergeKeepsIdentity(env: Env, feed: string, ids: map<string, string>, now: int,
                                              arts: map<string, Article>, es: seq<Entry>, k: string)
    requires IntoMap(ids, arts)
    requires k in MergeAll(env, feed, ids, now, arts, es)
    ensures var r := MergeAll(env, feed, ids, now, arts, es);
            k in arts ==> r[k].feed == arts[k].feed && r[k].hash == arts[k].hash && r[k].added == arts[k].added
    ensures var r := MergeAll(env, feed, ids, now, arts, es);
            k !in arts ==> r[k].feed == feed && r[k].hash == k && r[k].added == now && r[k].lastSeen == now
    decreases |es|
  {
    if es != [] {
      var prev := MergeAll(env, feed, ids, now, arts, es[..|es| - 1]);
      if k in prev {
        MergeKeepsIdentity(env, feed, ids, now, arts, es[..|es| - 1], k);
      }
    }
  }

  /** The last entry that lands on an existing article decides its entry, sequence number and date,
    * and marks it seen now. */
  lemma {:induction false} LastTouchUpdates(env: Env, feed: string, ids: map<string, string>, now: int,
                                            arts: map<string, Article>, es: seq<Entry>, i: nat)
    requires IntoMap(ids, arts) && i < |es|
    requires Target(env, feed, ids, es[i]) in arts
    requires forall j :: i < j < |es| ==> Target(env, feed, ids, es[j]) != Target(env, feed, ids, es[i])
    ensures var k := Target(env, feed, ids, es[i]);
            MergeAll(env, feed, ids, now, arts, es)[k]
            == arts[k].(entry := es[i], sequence := i, date := ArticleDate(env, es[i]), lastSeen := now)
    decreases |es|
  {
    var k := Target(env, feed, ids, es[i]);
    var init := es[..|es| - 1];
    if i < |es| - 1 {
      assert init[i] == es[i];
      LastTouchUpdates(env, feed, ids, now, arts, init, i);
    } else {
      var prev := MergeAll(env, feed, ids, now, arts, init);
      MergeKeys(env, feed, ids, now, arts, init);
      MergeKeepsIdentity(env, feed, ids, now, arts, init, k);
    }
  }

  /** An entry that lands on no existing article and is the last to land on its hash is stored
    * as a new article with sequence number `i`. */
  lemma {:induction false} FreshEntryStored(env: Env, feed: string, ids: map<string, string>, now: int,
                                            arts: map<string, Article>, es: seq<Entry>, i: nat)
    requires IntoMap(ids, arts) && i < |es|
    requires Target(env, feed, ids, es[i]) !in arts
    requires forall j :: i < j < |es| ==> Target(env, feed, ids, es[j]) != Target(env, feed, ids, es[i])
    ensures EntryHash(env, feed, es[i]) == Target(env, feed, ids, es[i])
    ensures EntryHash(env, feed, es[i]) in MergeAll(env, feed, ids, now, arts, es)
    ensures MergeAll(env, feed, ids, now, arts, es)[EntryHash(env, feed, es[i])] == MakeArticle(env, feed, es[i], now, i)
    decreases |es|
  {
    var init := es[..|es| - 1];
    TargetPresent(env, feed, ids, now, arts, es, i);
    if i < |es| - 1 {
      assert init[i] == es[i];
      FreshEntryStored(env, feed, ids, now, arts, init, i);
    } else {
      var k := EntryHash(env, feed, es[i]);
      var prev := MergeAll(env, feed, ids, now, arts, init);
      if k in prev {
        MergeKeepsIdentity(env, feed, ids, now, arts, init, k);
      }
    }
  }

  /** Every entry's key is present after the merge. */
  lemma TargetPresent(env: Env, feed: string, ids: map<string, string>, now: int,
                      arts: map<string, Article>, es: seq<Entry>, i: nat)
    requires IntoMap(ids, arts) && i < |es|
    ensures Target(env, feed, ids, es[i]) in MergeAll(env, feed, ids, now, arts, es)
  {
    MergeKeys(env, feed, ids, now, arts, es);
    InTargets(env, feed, ids, es, i);
  }

  /** Every entry's key is among the targets. */
  lemma {:induction false} InTargets(env: Env, feed: string, ids: map<string, string>, es: seq<Entry>, i: nat)
    requires i < |es|
    ensures Target(env, feed, ids, es[i]) in Targets(env, feed, ids, es)
    decreases |es|
  {
    if i < |es| - 1 {
      assert es[..|es| - 1][i] == es[i];
      InTargets(env, feed, ids, es[..|es| - 1], i);
    }
  }

  /** Every entry's hash is among `seen_articles`. */
  lemma {:induction false} SeenHashes(env: Env, feed: string, es: seq<Entry>, i: nat)
    requires i < |es|
    ensures EntryHash(env, feed, es[i]) in Seen(env, feed, es)
    decreases |es|
  {
    if i < |es| - 1 {
      assert es[..|es| - 1][i] == es[i];
      SeenHashes(env, feed, es[..|es| - 1], i);
    }
  }

  /** `currentonly` keeps every article of another feed and every seen article, and drops the
    * other articles of this feed. */
  lemma KeepCurrentKeeps(arts: map<string, Article>, feed: string, seen: set<string>, k: string)
    requires k in arts
    ensures k in KeepCurrent(arts, feed, seen) <==> arts[k].feed != feed || k in seen
    ensures k in KeepCurrent(arts, feed, seen) ==> KeepCurrent(arts, feed, seen)[k] == arts[k]
  {
  }

  /** The quirk: an existing article matched by id whose content, and so whose hash, has changed
    * is updated by the merge and then deleted by `currentonly`, because `seen_articles` holds the
    * new hash. */
  lemma MatchedByIdThenDropped(env: Env, feed: string, ids: map<string, string>, now: int,
                               arts: map<string, Article>, es: seq<Entry>, i: nat)
    requires IdIndex(arts, feed, ids) && i < |es|
    requires es[i].id.Some? && es[i].id.value in ids
    requires ids[es[i].id.value] !in Seen(env, feed, es)
    ensures IntoMap(ids, arts)
    ensures var k := ids[es[i].id.value];
            k in MergeAll(env, feed, ids, now, arts, es)
            && k !in KeepCurrent(MergeAll(env, feed, ids, now, arts, es), feed, Seen(env, feed, es))
  {
    var k := ids[es[i].id.value];
    var r := MergeAll(env, feed, ids, now, arts, es);
    MergeKeys(env, feed, ids, now, arts, es);
    MergeKeepsIdentity(env, feed, ids, now, arts, es, k);
  }

  /** After the merge and the pruning, the article each entry was stored under when new is present. */
  lemma FreshEntrySurvives(env: Env, feed: string, ids: map<string, string>, now: int,
                           arts: map<string, Article>, es: seq<Entry>, i: nat)
    requires IntoMap(ids, arts) && i < |es|
    requires Target(env, feed, ids, es[i]) !in arts
    requires forall j :: i < j < |es| ==> Target(env, feed, ids, es[j]) != Target(env, feed, ids, es[i])
    ensures var r := KeepCurrent(MergeAll(env, feed, ids, now, arts, es), feed, Seen(env, feed, es));
            EntryHash(env, feed, es[i]) in r && r[EntryHash(env, feed, es[i])] == MakeArticle(env, feed, es[i], now, i)
  {
    FreshEntryStored(env, feed, ids, now, arts, es, i);
    SeenHashes(env, feed, es, i);
    MergeKeys(env, feed, ids, now, arts, es);
  }

  /** Articles stay keyed by their hash through the merge and the pruning. */
  lemma KeyedThroughMerge(env: Env, feed: string, ids: map<string, string>, now: int,
                          arts: map<string, Article>, es: seq<Entry>)
    requires IntoMap(ids, arts)
    requires forall k :: k in arts ==> arts[k].hash == k
    ensures var r := MergeAll(env, feed, ids, now, arts, es);
            forall k :: k in r ==> r[k].hash == k
    ensures var r := KeepCurrent(MergeAll(env, feed, ids, now, arts, es), feed, Seen(env, feed, es));
            forall k :: k in r ==> r[k].hash == k
  {
    var r := MergeAll(env, feed, ids, now, arts, es);
    forall k | k in r ensures r[k].hash == k {
      MergeKeepsIdentity(env, feed, ids, now, arts, es, k);
    }
  }

  // ---------------------------------------------------------------------
  // The loops

  /** The loop at rawdog.py:606-610 that indexes this feed's articles by id. */
  method IndexIds(arts: map<string, Article>, feed: string) returns (ids: map<string, string>)
    ensures IdIndex(arts, feed, ids)
  {
    ids := map[];
    var todo := arts.Keys;
    while todo != {}
      invariant todo <= arts.Keys
      invariant forall id :: id in ids ==> ids[id] in arts && arts[ids[id]].feed == feed && arts[ids[id]].entry.id == Some(id)
      invariant forall k :: k in arts && k !in todo && arts[k].feed == feed && arts[k].entry.id.Some? ==> arts[k].entry.id.value in ids
      decreases todo
    {
      var k :| k in todo;
      var a := arts[k];
      if a.feed == feed && a.entry.id.Some? {
        ids := ids[a.entry.id.value := k];
      }
      todo := todo - {k};
    }
  }

  /** The loop over the entries, with the hashes it sees. */
  method MergeEntries(env: Env, feed: string, ids: map<string, string>, now: int,
                      arts: map<string, Article>, es: seq<Entry>)
    returns (r: map<string, Article>, seen: set<string>)
    requires IntoMap(ids, arts)
    ensures r == MergeAll(env, feed, ids, now, arts, es)
    ensures seen == Seen(env, feed, es)
  {
    r, seen := arts, {};
    var sequence := 0;
    while sequence < |es|
      invariant 0 <= sequence <= |es|
      invariant r == MergeAll(env, feed, ids, now, arts, es[..sequence])
      invariant seen == Seen(env, feed, es[..sequence])
      invariant arts.Keys <= r.Keys
    {
      var e := es[sequence];
      assert es[..sequence + 1][..sequence] == es[..sequence];
      ghost var next := MergeOne(env, feed, ids, now, r, e, sequence);
      assert MergeAll(env, feed, ids, now, arts, es[..sequence + 1]) == next;
      var article := MakeArticle(env, feed, e, now, sequence);
      seen := seen + {article.hash};
      if e.id.Some? && e.id.value in ids {
        var k := ids[e.id.value];
        r := r[k := UpdateFrom(r[k], article, now)];
      } else if article.hash in r {
        r := r[article.hash := UpdateFrom(r[article.hash], article, now)];
      } else {
        r := r[article.hash := article];
      }
      sequence := sequence + 1;
    }
    assert es[..sequence] == es;
  }

  /** The `currentonly` loop. */
  method DropUnseen(arts: map<string, Article>, feed: string, seen: set<string>) returns (r: map<string, Article>)
    ensures r == KeepCurrent(arts, feed, seen)
  {
    r := arts;
    var todo := arts.Keys;
    while todo != {}
      invariant todo <= arts.Keys
      invariant r == map k | k in arts && (k in todo || arts[k].feed != feed || k in seen) :: arts[k]
      decreases todo
    {
      var k :| k in todo;
      if r[k].feed == feed && k !in seen {
        r := r - {k};
      }
      todo := todo - {k};
    }
  }
}
