/**
 * `do_expiry`: a walk over the articles, oldest first, that deletes the
 * articles of feeds no longer registered and the expirable articles of the
 * feeds updated this cycle while leaving each such feed at least `keepmin`.
 */
module Expiry {
  import opened Feeds
  import opened Sorting
  import opened Seqs

  /** What the walk reads: the registered feeds, the articles as they were before it started, the
    * time, `expireage`, the global `keepmin` and `seen_some_items`. */
  datatype Context = Context(
    feeds: map<string, Feed>,
    arts: map<string, Article>,
    now: int,
    expireage: int,
    keepmin: int,
    seen: set<string>)

  /** The walk's state: the articles left, the running count per feed and how many have gone. */
  datatype Walk = Walk(arts: map<string, Article>, counts: map<string, int>, expired: nat)

  /** The number of articles of feed `u`. */
  function Present(arts: map<string, Article>, u: string): nat {
    |set k | k in arts && arts[k].feed == u|
  }

  /** The feeds that have articles. */
  function FeedsOf(arts: map<string, Article>): set<string> {
    set k | k in arts :: arts[k].feed
  }

  /** `feedcounts` before the walk. */
  function CountsOf(arts: map<string, Article>): map<string, int> {
    map u | u in FeedsOf(arts) :: Present(arts, u)
  }

  /** The sort key `(added, sequence, key)` of an entry of `expiry_list`. */
  function ExpiryKey(arts: map<string, Article>, k: string): Tuple {
    if k in arts then [I(arts[k].added), I(arts[k].sequence), S(k)] else [S(k)]
  }

  /** The running count holds an entry for the feed of every article. */
  ghost predicate Covers(counts: map<string, int>, arts: map<string, Article>) {
    forall k :: k in arts ==> arts[k].feed in counts
  }

  /** One step of the walk, for the article first stored under `key`. */
  function ExpireStep(cx: Context, w: Walk, key: string): (r: Walk)
    requires key in cx.arts && Covers(w.counts, cx.arts)
    ensures r.counts.Keys == w.counts.Keys
  {
    var a := cx.arts[key];
    var u := a.feed;
    if u !in cx.feeds then
      Walk(w.arts - {key}, w.counts, w.expired + 1)
    else if u in cx.seen && CanExpire(a, cx.now, cx.expireage) && w.counts[u] > KeepMin(cx.feeds[u], cx.keepmin) then
      Walk(w.arts - {key}, w.counts[u := w.counts[u] - 1], w.expired + 1)
    else
      w
  }

  /** The walk over `order`. */
  function ExpireWalk(cx: Context, w: Walk, order: seq<string>): (r: Walk)
    requires forall i :: 0 <= i < |order| ==> order[i] in cx.arts
    requires Covers(w.counts, cx.arts)
    ensures r.counts.Keys == w.counts.Keys
    ensures r.arts.Keys <= w.arts.Keys
    ensures forall k :: k in r.arts ==> r.arts[k] == w.arts[k]
    decreases |order|
  {
    if order == [] then w
    else
      var prev := ExpireWalk(cx, w, order[..|order| - 1]);
      ExpireStep(cx, prev, order[|order| - 1])
  }

  /** The walk before its first step. */
  function Start(cx: Context): Walk {
    Walk(cx.arts, CountsOf(cx.arts), 0)
  }

  lemma StartCovers(cx: Context)
    ensures Covers(Start(cx).counts, cx.arts)
  {
    forall k | k in cx.arts ensures cx.arts[k].feed in CountsOf(cx.arts) {
      assert cx.arts[k].feed in FeedsOf(cx.arts);
    }
  }

  // ---------------------------------------------------------------------
  // Properties of the walk

  /** Every article of a feed that is no longer registered is deleted. */
  lemma {:induction false} UnregisteredRemoved(cx: Context, w: Walk, order: seq<string>, i: nat)
    requires forall j :: 0 <= j < |order| ==> order[j] in cx.arts
    requires Covers(w.counts, cx.arts)
    requires i < |order| && cx.arts[order[i]].feed !in cx.feeds
    ensures order[i] !in ExpireWalk(cx, w, order).arts
    decreases |order|
  {
    if i < |order| - 1 {
      assert order[..|order| - 1][i] == order[i];
      UnregisteredRemoved(cx, w, order[..|order| - 1], i);
    }
  }

  /** An article is deleted only when its feed is no longer registered, or when its feed was
    * updated this cycle and the article can expire. */
  lemma {:induction false} RemovedOnlyIf(cx: Context, w: Walk, order: seq<string>, k: string)
    requires forall j :: 0 <= j < |order| ==> order[j] in cx.arts
    requires Covers(w.counts, cx.arts)
    requires k in w.arts && k !in ExpireWalk(cx, w, order).arts
    ensures k in cx.arts
    ensures cx.arts[k].feed !in cx.feeds
            || (cx.arts[k].feed in cx.seen && CanExpire(cx.arts[k], cx.now, cx.expireage))
    decreases |order|
  {
    var prev := ExpireWalk(cx, w, order[..|order| - 1]);
    if k !in prev.arts {
      RemovedOnlyIf(cx, w, order[..|order| - 1], k);
    }
  }

  /** So a registered feed not updated this cycle loses nothing. */
  lemma UnseenFeedKeepsAll(cx: Context, w: Walk, order: seq<string>, k: string)
    requires forall j :: 0 <= j < |order| ==> order[j] in cx.arts
    requires Covers(w.counts, cx.arts)
    requires k in w.arts && k in cx.arts && cx.arts[k].feed in cx.feeds && cx.arts[k].feed !in cx.seen
    ensures k in ExpireWalk(cx, w, order).arts
    ensures ExpireWalk(cx, w, order).arts[k] == w.arts[k]
  {
    if k !in ExpireWalk(cx, w, order).arts {
      RemovedOnlyIf(cx, w, order, k);
    }
  }

  /** Deleting an article lowers its feed's number by one and leaves the other feeds' as they were. */
  lemma PresentRemove(m: map<string, Article>, key: string, u: string)
    ensures key in m && m[key].feed == u ==> Present(m - {key}, u) == Present(m, u) - 1
    ensures !(key in m && m[key].feed == u) ==> Present(m - {key}, u) == Present(m, u)
  {
    var before := set k | k in m && m[k].feed == u;
    var after := set k | k in m - {key} && (m - {key})[k].feed == u;
    assert after == before - {key};
  }

  /** The walk's running bound: every registered feed still has at least as many articles as its
    * running count, and that count is at least the smaller of its initial number and its keepmin. */
  ghost predicate Floor(cx: Context, w: Walk) {
    forall u :: u in cx.feeds && u in w.counts ==>
      Present(w.arts, u) >= w.counts[u]
      && w.counts[u] >= Min(Present(cx.arts, u), KeepMin(cx.feeds[u], cx.keepmin))
  }

  function Min(a: int, b: int): int {
    if a <= b then a else b
  }

  /** Every article left is the one first stored under its key. */
  ghost predicate Unchanged(cx: Context, w: Walk) {
    forall k :: k in w.arts ==> k in cx.arts && w.arts[k] == cx.arts[k]
  }

  lemma FloorStep(cx: Context, w: Walk, key: string)
    requires key in cx.arts && Covers(w.counts, cx.arts)
    requires Floor(cx, w) && Unchanged(cx, w)
    ensures Floor(cx, ExpireStep(cx, w, key)) && Unchanged(cx, ExpireStep(cx, w, key))
  {
    var r := ExpireStep(cx, w, key);
    forall u | u in cx.feeds && u in r.counts
      ensures Present(r.arts, u) >= r.counts[u]
      ensures r.counts[u] >= Min(Present(cx.arts, u), KeepMin(cx.feeds[u], cx.keepmin))
    {
      if r.arts != w.arts {
        PresentRemove(w.arts, key, u);
      }
    }
  }

  lemma {:induction false} FloorWalk(cx: Context, w: Walk, order: seq<string>)
    requires forall j :: 0 <= j < |order| ==> order[j] in cx.arts
    requires Covers(w.counts, cx.arts)
    requires Floor(cx, w) && Unchanged(cx, w)
    ensures Floor(cx, ExpireWalk(cx, w, order)) && Unchanged(cx, ExpireWalk(cx, w, order))
    decreases |order|
  {
    if order != [] {
      var init := order[..|order| - 1];
      FloorWalk(cx, w, init);
      FloorStep(cx, ExpireWalk(cx, w, init), order[|order| - 1]);
    }
  }

  /** A registered feed with `c` articles keeps at least `min(c, keepmin)` of them, whatever the
    * order of the walk. */
  lemma KeepMinFloor(cx: Context, order: seq<string>, u: string)
    requires forall j :: 0 <= j < |order| ==> order[j] in cx.arts
    requires u in cx.feeds
    ensures Covers(Start(cx).counts, cx.arts)
    ensures Present(ExpireWalk(cx, Start(cx), order).arts, u) >= Min(Present(cx.arts, u), KeepMin(cx.feeds[u], cx.keepmin))
  {
    StartCovers(cx);
    var r := ExpireWalk(cx, Start(cx), order);
    FloorWalk(cx, Start(cx), order);
    if u !in FeedsOf(cx.arts) {
      PresentNone(cx.arts, u);
    }
  }

  // ---------------------------------------------------------------------
  // The loops

  /** Adding an article raises its feed's number by one. */
  lemma PresentAdd(m: map<string, Article>, key: string, a: Article, u: string)
    requires key !in m
    ensures Present(m[key := a], u) == Present(m, u) + (if a.feed == u then 1 else 0)
  {
    var m2 := m[key := a];
    var before := set k | k in m && m[k].feed == u;
    var after := set k | k in m2 && m2[k].feed == u;
    if a.feed == u {
      assert after == before + {key};
    } else {
      assert after == before;
    }
  }

  lemma FeedsOfAdd(m: map<string, Article>, key: string, a: Article)
    requires key !in m
    ensures FeedsOf(m[key := a]) == FeedsOf(m) + {a.feed}
  {
    var m2 := m[key := a];
    forall u | u in FeedsOf(m2) ensures u in FeedsOf(m) + {a.feed} {
      var k :| k in m2 && m2[k].feed == u;
      if k != key { assert m[k].feed == u; }
    }
    forall u | u in FeedsOf(m) ensures u in FeedsOf(m2) {
      var k :| k in m && m[k].feed == u;
      assert m2[k].feed == u;
    }
    assert key in m2 && m2[key].feed == a.feed;
  }

  /** A feed without articles has none. */
  lemma PresentNone(m: map<string, Article>, u: string)
    requires u !in FeedsOf(m)
    ensures Present(m, u) == 0
  {
    assert (set k | k in m && m[k].feed == u) == {};
  }

  lemma CountsOfAdd(m: map<string, Article>, key: string, a: Article)
    requires key !in m
    ensures CountsOf(m[key := a])
            == CountsOf(m)[a.feed := (if a.feed in CountsOf(m) then CountsOf(m)[a.feed] else 0) + 1]
  {
    var m2 := m[key := a];
    FeedsOfAdd(m, key, a);
    forall u | u in FeedsOf(m2) ensures CountsOf(m2)[u] == Present(m, u) + (if a.feed == u then 1 else 0) {
      PresentAdd(m, key, a, u);
    }
    if a.feed !in FeedsOf(m) {
      PresentNone(m, a.feed);
    }
  }

  /** The loop that fills `feedcounts`. */
  method CountFeeds(arts: map<string, Article>) returns (counts: map<string, int>)
    ensures counts == CountsOf(arts)
  {
    counts := map[];
    var todo := arts.Keys;
    ghost var done: map<string, Article> := map[];
    assert CountsOf(done) == map[];
    while todo != {}
      invariant todo <= arts.Keys
      invariant done == map k | k in arts && k !in todo :: arts[k]
      invariant counts == CountsOf(done)
      decreases todo
    {
      var k :| k in todo;
      var u := arts[k].feed;
      CountsOfAdd(done, k, arts[k]);
      assert done[k := arts[k]] == map j | j in arts && j !in todo - {k} :: arts[j];
      done := done[k := arts[k]];
      counts := counts[u := (if u in counts then counts[u] else 0) + 1];
      todo := todo - {k};
    }
    assert done == arts;
  }

  /** The keys of a map, in some order. */
  method KeysOf(arts: map<string, Article>) returns (keys: seq<string>)
    ensures forall k :: k in arts <==> k in keys
    ensures Distinct(keys) && |keys| == |arts|
  {
    keys := [];
    var todo := arts.Keys;
    while todo != {}
      invariant todo <= arts.Keys && |keys| + |todo| == |arts|
      invariant forall i, j :: 0 <= i < j < |keys| ==> keys[i] != keys[j]
      invariant forall k :: k in arts <==> k in keys || k in todo
      invariant forall k :: k in keys ==> k !in todo
      decreases todo
    {
      var k :| k in todo;
      keys := keys + [k];
      todo := todo - {k};
    }
  }

  /** A permutation has the same elements. */
  lemma SameElements(s: seq<string>, t: seq<string>)
    requires multiset(s) == multiset(t)
    ensures forall x :: x in s <==> x in t
  {
    forall x ensures x in s <==> x in t {
      assert x in s <==> x in multiset(s);
      assert x in t <==> x in multiset(t);
    }
  }

  /** `expiry_list.sort()`: all the keys, ascending by `(added, sequence, key)`. */
  method ExpiryOrder(arts: map<string, Article>) returns (order: seq<string>)
    ensures forall k :: k in arts <==> k in order
    ensures Distinct(order) && |order| == |arts|
    ensures SortedBy(order, k => ExpiryKey(arts, k))
  {
    var keys := KeysOf(arts);
    order := SortBy(keys, k => ExpiryKey(arts, k));
    SameElements(keys, order);
    PermutationDistinct(keys, order);
  }

  /** The walk order is determined: two orders that list every article once, ascending by
    * `(added, sequence, key)`, are the same, since the key part makes the sort key unique. */
  lemma ExpiryOrderUnique(arts: map<string, Article>, o1: seq<string>, o2: seq<string>)
    requires forall k :: k in arts <==> k in o1
    requires forall k :: k in arts <==> k in o2
    requires Distinct(o1) && Distinct(o2) && |o1| == |o2|
    requires SortedBy(o1, k => ExpiryKey(arts, k)) && SortedBy(o2, k => ExpiryKey(arts, k))
    ensures o1 == o2
  {
    ExpiryStrict(arts, o1);
    ExpiryStrict(arts, o2);
    StrictSortedUnique(o1, o2, k => ExpiryKey(arts, k));
  }

  lemma ExpiryStrict(arts: map<string, Article>, o: seq<string>)
    requires Distinct(o) && SortedBy(o, k => ExpiryKey(arts, k))
    ensures StrictlySortedBy(o, k => ExpiryKey(arts, k))
  {
    forall i, j | 0 <= i < j < |o| ensures ExpiryKey(arts, o[i]) != ExpiryKey(arts, o[j]) {
      var a, b := ExpiryKey(arts, o[i]), ExpiryKey(arts, o[j]);
      assert a[|a| - 1] == S(o[i]) && b[|b| - 1] == S(o[j]);
    }
    SortedDistinctIsStrict(o, k => ExpiryKey(arts, k));
  }

  /** The walk over `order`. */
  method RunWalk(cx: Context, order: seq<string>, counts: map<string, int>) returns (w: Walk)
    requires forall j :: 0 <= j < |order| ==> order[j] in cx.arts
    requires counts == CountsOf(cx.arts) && Covers(counts, cx.arts)
    ensures w == ExpireWalk(cx, Start(cx), order)
  {
    w := Walk(cx.arts, counts, 0);
    var i := 0;
    while i < |order|
      invariant 0 <= i <= |order|
      invariant w == ExpireWalk(cx, Start(cx), order[..i])
    {
      assert order[..i + 1][..i] == order[..i];
      var key := order[i];
      assert ExpireWalk(cx, Start(cx), order[..i + 1]) == ExpireStep(cx, w, key);
      var a := cx.arts[key];
      var u := a.feed;
      if u !in cx.feeds {
        w := w.(arts := w.arts - {key}, expired := w.expired + 1);
      } else if u in cx.seen && CanExpire(a, cx.now, cx.expireage) && w.counts[u] > KeepMin(cx.feeds[u], cx.keepmin) {
        w := Walk(w.arts - {key}, w.counts[u := w.counts[u] - 1], w.expired + 1);
      }
      i := i + 1;
    }
    assert order[..i] == order;
  }

  /** `do_expiry`: the articles left and how many went. The walk order is the ascending
    * `(added, sequence, key)` order of all the articles. */
  method DoExpiry(cx: Context) returns (arts: map<string, Article>, expired: nat, ghost order: seq<string>)
    ensures forall k :: k in cx.arts <==> k in order
    ensures Distinct(order) && |order| == |cx.arts|
    ensures SortedBy(order, k => ExpiryKey(cx.arts, k))
    ensures forall j :: 0 <= j < |order| ==> order[j] in cx.arts
    ensures Covers(Start(cx).counts, cx.arts)
    ensures arts == ExpireWalk(cx, Start(cx), order).arts
    ensures expired == ExpireWalk(cx, Start(cx), order).expired
  {
    var sorted := ExpiryOrder(cx.arts);
    order := sorted;
    StartCovers(cx);
    var counts := CountFeeds(cx.arts);
    var w := RunWalk(cx, sorted, counts);
    arts, expired := w.arts, w.expired;
  }
}
