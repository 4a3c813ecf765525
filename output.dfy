/**
 * Output selection: which articles `Rawdog.write` lists and in what order, and the
 * filter `write_remove_dups` applies to them (rawdoglib/rawdog.py).
 */
module Output {
  import opened Wrappers
  import opened Feeds
  import opened Sorting
  import opened Seqs

  // ---------------------------------------------------------------------
  // Ranking: sort on (-sort date, feed, sequence, hash), then truncate
  // ---------------------------------------------------------------------

  /** The tuple `write` sorts on: newest first, ties broken by feed, sequence and hash. */
  function WriteKeyOf(a: Article, byFeedDate: bool): Tuple {
    [I(-SortDate(a, byFeedDate)), S(a.feed), I(a.sequence), S(a.hash)]
  }

  function WriteKey(byFeedDate: bool): Article -> Tuple {
    a => WriteKeyOf(a, byFeedDate)
  }

  function Min(a: int, b: int): int { if a <= b then a else b }
  function Max(a: int, b: int): int { if a >= b then a else b }

  /** Python's slice `s[:n]`: a negative `n` drops that many elements from the end. */
  function SliceTo<T>(s: seq<T>, n: int): (r: seq<T>)
    ensures |r| <= |s| && r == s[..|r|]
    ensures n >= 0 ==> |r| == Min(n, |s|)
    ensures n < 0 ==> |r| == Max(0, |s| + n)
  {
    if n >= 0 then (if n <= |s| then s[..n] else s)
    else if |s| + n >= 0 then s[..|s| + n]
    else []
  }

  /** The sorted list, cut to `maxarticles` entries unless that is 0. */
  function Ranked(vals: seq<Article>, byFeedDate: bool, maxarticles: int): (r: seq<Article>)
    ensures |r| <= |vals| && r == SortBy(vals, WriteKey(byFeedDate))[..|r|]
    ensures maxarticles == 0 ==> |r| == |vals|
    ensures maxarticles > 0 ==> |r| == Min(maxarticles, |vals|)
    ensures maxarticles < 0 ==> |r| == Max(0, |vals| + maxarticles)
  {
    var sorted := SortBy(vals, WriteKey(byFeedDate));
    if maxarticles == 0 then sorted else SliceTo(sorted, maxarticles)
  }

  /** `found.get(hash)` for each ranked entry, keeping the ones that are present. */
  function LookUp(found: map<string, Article>, s: seq<Article>): (r: seq<Article>)
    ensures |r| <= |s|
    ensures forall i :: 0 <= i < |r| ==> r[i] in found.Values
  {
    if s == [] then []
    else
      var a := s[|s| - 1];
      LookUp(found, s[..|s| - 1]) + (if a.hash in found then [found[a.hash]] else [])
  }

  /** `ks` lists every key of `m` exactly once. */
  ghost predicate Enumerates(ks: seq<string>, m: map<string, Article>) {
    (forall i, j :: 0 <= i < j < |ks| ==> ks[i] != ks[j])
    && (forall k :: k in m <==> k in ks)
  }

  function ValuesAt(m: map<string, Article>, ks: seq<string>): (vs: seq<Article>)
    requires forall i :: 0 <= i < |ks| ==> ks[i] in m
    ensures |vs| == |ks| && forall i :: 0 <= i < |ks| ==> vs[i] == m[ks[i]]
  {
    seq(|ks|, i requires 0 <= i < |ks| => m[ks[i]])
  }

  /** An article whose hash is its key is found again by its hash. */
  lemma {:induction false} LookUpFindsAll(found: map<string, Article>, s: seq<Article>)
    requires KeyedByHash(found)
    requires forall i :: 0 <= i < |s| ==> s[i] in found.Values
    ensures LookUp(found, s) == s
    decreases |s|
  {
    if s != [] {
      var a := s[|s| - 1];
      LookUpFindsAll(found, s[..|s| - 1]);
      var k :| k in found && found[k] == a;
      assert a.hash in found && found[a.hash] == a;
      assert s == s[..|s| - 1] + [a];
    }
  }

  /** The sorted list of a hash-keyed map: strictly increasing keys, every article exactly once. */
  lemma SortedValues(found: map<string, Article>, ks: seq<string>, byFeedDate: bool)
    requires Enumerates(ks, found) && KeyedByHash(found)
    ensures var s := SortBy(ValuesAt(found, ks), WriteKey(byFeedDate));
            StrictlySortedBy(s, WriteKey(byFeedDate)) && forall a :: a in s <==> a in found.Values
  {
    SortedValuesStrict(found, ks, byFeedDate);
    var vs := ValuesAt(found, ks);
    var s := SortBy(vs, WriteKey(byFeedDate));
    forall a ensures a in s <==> a in found.Values {
      assert a in s <==> a in multiset(vs);
      if a in found.Values {
        var k :| k in found && found[k] == a;
        var i :| 0 <= i < |ks| && ks[i] == k;
        assert vs[i] == a;
      }
    }
  }

  lemma SortedValuesStrict(found: map<string, Article>, ks: seq<string>, byFeedDate: bool)
    requires Enumerates(ks, found) && KeyedByHash(found)
    ensures StrictlySortedBy(SortBy(ValuesAt(found, ks), WriteKey(byFeedDate)), WriteKey(byFeedDate))
  {
    var vs := ValuesAt(found, ks);
    var s := SortBy(vs, WriteKey(byFeedDate));
    ValuesDistinct(found, ks);
    PermutationDistinct(vs, s);
    forall i | 0 <= i < |s| ensures s[i] in found.Values {
      assert s[i] in multiset(vs);
    }
    forall i, j | 0 <= i < j < |s| ensures WriteKeyOf(s[i], byFeedDate) != WriteKeyOf(s[j], byFeedDate) {
      KeysDiffer(found, s[i], s[j], byFeedDate);
    }
    SortedDistinctIsStrict(s, WriteKey(byFeedDate));
  }

  lemma ValuesDistinct(found: map<string, Article>, ks: seq<string>)
    requires Enumerates(ks, found) && KeyedByHash(found)
    ensures Distinct(ValuesAt(found, ks))
    ensures forall i :: 0 <= i < |ks| ==> ValuesAt(found, ks)[i] in found.Values
  {
    var vs := ValuesAt(found, ks);
    forall i, j | 0 <= i < j < |vs| ensures vs[i] != vs[j] {
      assert vs[i].hash == ks[i] && vs[j].hash == ks[j];
    }
  }

  /** Two different stored articles have different write keys: their hashes differ. */
  lemma KeysDiffer(found: map<string, Article>, a: Article, b: Article, byFeedDate: bool)
    requires KeyedByHash(found) && a in found.Values && b in found.Values && a != b
    ensures WriteKeyOf(a, byFeedDate) != WriteKeyOf(b, byFeedDate)
  {
    var p :| p in found && found[p] == a;
    var q :| q in found && found[q] == b;
    assert WriteKeyOf(a, byFeedDate)[3] == S(p) && WriteKeyOf(b, byFeedDate)[3] == S(q);
  }

  /** One key not above the other: the first has the later (or the same) sort date. */
  lemma NewerFirst(a: Article, b: Article, byFeedDate: bool)
    requires !TupleLess(WriteKeyOf(b, byFeedDate), WriteKeyOf(a, byFeedDate))
    ensures SortDate(a, byFeedDate) >= SortDate(b, byFeedDate)
  {
  }

  /**
   * `write`'s selection over a hash-keyed article map: every listed article is stored, the
   * list is in ascending key order (so descending sort date), and the lookup loses nothing.
   */
  lemma SelectionOrdered(found: map<string, Article>, ks: seq<string>, byFeedDate: bool, maxarticles: int)
    requires Enumerates(ks, found) && KeyedByHash(found)
    ensures var r := Ranked(ValuesAt(found, ks), byFeedDate, maxarticles);
            LookUp(found, r) == r
            && (forall i :: 0 <= i < |r| ==> r[i] in found.Values)
            && (forall i, j :: 0 <= i < j < |r| ==> TupleLess(WriteKeyOf(r[i], byFeedDate), WriteKeyOf(r[j], byFeedDate)))
            && (forall i, j :: 0 <= i < j < |r| ==> SortDate(r[i], byFeedDate) >= SortDate(r[j], byFeedDate))
  {
    var s := SortBy(ValuesAt(found, ks), WriteKey(byFeedDate));
    var r := Ranked(ValuesAt(found, ks), byFeedDate, maxarticles);
    SortedValues(found, ks, byFeedDate);
    forall i | 0 <= i < |r| ensures r[i] in found.Values {
      assert r[i] == s[i] && s[i] in s;
    }
    LookUpFindsAll(found, r);
    forall i, j | 0 <= i < j < |r|
      ensures TupleLess(WriteKeyOf(r[i], byFeedDate), WriteKeyOf(r[j], byFeedDate))
      ensures SortDate(r[i], byFeedDate) >= SortDate(r[j], byFeedDate)
    {
      assert r[i] == s[i] && r[j] == s[j];
      TupleLessAsymmetric(WriteKeyOf(r[i], byFeedDate), WriteKeyOf(r[j], byFeedDate));
      NewerFirst(r[i], r[j], byFeedDate);
    }
  }

  /** An article cut off by `maxarticles` is no newer than any article that was listed. */
  lemma TruncationKeepsNewest(found: map<string, Article>, ks: seq<string>, byFeedDate: bool, maxarticles: int, a: Article)
    requires Enumerates(ks, found) && KeyedByHash(found)
    requires a in found.Values && a !in Ranked(ValuesAt(found, ks), byFeedDate, maxarticles)
    ensures forall x :: x in Ranked(ValuesAt(found, ks), byFeedDate, maxarticles) ==>
              SortDate(x, byFeedDate) >= SortDate(a, byFeedDate)
  {
    var vs := ValuesAt(found, ks);
    var s := SortBy(vs, WriteKey(byFeedDate));
    var r := Ranked(vs, byFeedDate, maxarticles);
    var k :| k in found && found[k] == a;
    var i :| 0 <= i < |ks| && ks[i] == k;
    assert vs[i] == a && a in multiset(vs);
    CutOffNotBefore(s, r, WriteKey(byFeedDate), a);
    forall x | x in r ensures SortDate(x, byFeedDate) >= SortDate(a, byFeedDate) {
      NewerFirst(x, a, byFeedDate);
    }
  }

  /** Whatever a prefix of a sorted sequence leaves out has no smaller key than what it keeps. */
  lemma CutOffNotBefore<T>(s: seq<T>, r: seq<T>, key: T -> Tuple, a: T)
    requires SortedBy(s, key) && |r| <= |s| && r == s[..|r|]
    requires a in s && a !in r
    ensures forall x :: x in r ==> !TupleLess(key(a), key(x))
  {
    var p :| 0 <= p < |s| && s[p] == a;
    assert forall q :: 0 <= q < |r| ==> r[q] != a;
    assert forall q :: 0 <= q < |r| ==> s[q] == r[q];
    assert p >= |r|;
    forall x | x in r ensures !TupleLess(key(a), key(x)) {
      var q :| 0 <= q < |r| && r[q] == x;
      assert s[q] == x;
    }
  }

  /** The order of the list does not depend on the order the map yields its values in. */
  lemma SelectionIndependentOfOrder(found: map<string, Article>, ks1: seq<string>, ks2: seq<string>,
                                    byFeedDate: bool, maxarticles: int)
    requires Enumerates(ks1, found) && Enumerates(ks2, found) && KeyedByHash(found)
    ensures Ranked(ValuesAt(found, ks1), byFeedDate, maxarticles) == Ranked(ValuesAt(found, ks2), byFeedDate, maxarticles)
  {
    SameSorted(found, ks1, ks2, byFeedDate);
  }

  /** Both enumerations sort to the same list, since the sort key is unique. */
  lemma SameSorted(found: map<string, Article>, ks1: seq<string>, ks2: seq<string>, byFeedDate: bool)
    requires Enumerates(ks1, found) && Enumerates(ks2, found) && KeyedByHash(found)
    ensures SortBy(ValuesAt(found, ks1), WriteKey(byFeedDate)) == SortBy(ValuesAt(found, ks2), WriteKey(byFeedDate))
  {
    var s1 := SortBy(ValuesAt(found, ks1), WriteKey(byFeedDate));
    var s2 := SortBy(ValuesAt(found, ks2), WriteKey(byFeedDate));
    SortedValues(found, ks1, byFeedDate);
    SortedValues(found, ks2, byFeedDate);
    EnumerationsSameLength(found, ks1, ks2);
    StrictSortedUnique(s1, s2, WriteKey(byFeedDate));
  }

  lemma EnumerationsSameLength(m: map<string, Article>, ks1: seq<string>, ks2: seq<string>)
    requires Enumerates(ks1, m) && Enumerates(ks2, m)
    ensures |ks1| == |ks2|
  {
    DistinctCard(ks1);
    DistinctCard(ks2);
    assert (set k | k in ks1) == (set k | k in ks2);
  }

  lemma {:induction false} DistinctCard(ks: seq<string>)
    requires forall i, j :: 0 <= i < j < |ks| ==> ks[i] != ks[j]
    ensures |set k | k in ks| == |ks|
    decreases |ks|
  {
    if ks != [] {
      var init := ks[..|ks| - 1];
      var x := ks[|ks| - 1];
      DistinctCard(init);
      assert (set k | k in ks) == (set k | k in init) + {x};
      forall i | 0 <= i < |init| ensures init[i] != x {
        assert ks[i] == init[i];
      }
    }
  }

  /** The list `write` builds from `list(articles.values())`. */
  method ListValues(found: map<string, Article>) returns (vals: seq<Article>, ghost ks: seq<string>)
    ensures Enumerates(ks, found) && |vals| == |found|
    ensures vals == ValuesAt(found, ks)
  {
    vals, ks := [], [];
    var todo := found.Keys;
    while todo != {}
      invariant todo <= found.Keys && |ks| + |todo| == |found|
      invariant forall i, j :: 0 <= i < j < |ks| ==> ks[i] != ks[j]
      invariant forall k :: k in found <==> k in ks || k in todo
      invariant forall k :: k in ks ==> k !in todo
      invariant vals == ValuesAt(found, ks)
      decreases todo
    {
      var k :| k in todo;
      vals, ks := vals + [found[k]], ks + [k];
      todo := todo - {k};
    }
  }

  /** `write` up to the `write_remove_dups` call: the ranked list and the number of articles. */
  method Select(found: map<string, Article>, byFeedDate: bool, maxarticles: int)
    returns (selected: seq<Article>, numarticles: nat, ghost ks: seq<string>)
    ensures Enumerates(ks, found) && numarticles == |found|
    ensures selected == LookUp(found, Ranked(ValuesAt(found, ks), byFeedDate, maxarticles))
  {
    var vals;
    vals, ks := ListValues(found);
    numarticles := |vals|;
    var ranked := Ranked(vals, byFeedDate, maxarticles);
    selected := LookUpAll(found, ranked);
  }

  /** The loop over the ranked list that keeps the entries `found.get` finds. */
  method LookUpAll(found: map<string, Article>, ranked: seq<Article>) returns (selected: seq<Article>)
    ensures selected == LookUp(found, ranked)
  {
    selected := [];
    var i := 0;
    while i < |ranked|
      invariant 0 <= i <= |ranked|
      invariant selected == LookUp(found, ranked[..i])
    {
      var a := ranked[i];
      assert ranked[..i + 1][..i] == ranked[..i];
      if a.hash in found {
        selected := selected + [found[a.hash]];
      }
      i := i + 1;
    }
    assert ranked[..|ranked|] == ranked;
  }

  // ---------------------------------------------------------------------
  // write_remove_dups
  // ---------------------------------------------------------------------

  /** An empty `id` counts as no id. */
  function Guid(e: Entry): (g: Option<string>)
    ensures g.Some? <==> e.id.Some? && e.id.value != ""
    ensures g.Some? ==> g == e.id
  {
    if e.id == Some("") then None else e.id
  }

  /** Not older than the feed's `maxage` (a `maxage` of 0 keeps everything). */
  predicate Young(feeds: map<string, Feed>, a: Article, maxage: int, now: int)
    requires a.feed in feeds
  {
    var m := MaxAgeOf(feeds[a.feed], maxage);
    m == 0 || now - a.added <= m
  }

  /** The article takes part in the guid check: its feed forbids duplicates and it has an id. */
  predicate Checked(feeds: map<string, Feed>, a: Article)
    requires a.feed in feeds
  {
    !AllowsDuplicates(feeds[a.feed]) && Guid(a.entry).Some?
  }

  ghost predicate Registered(feeds: map<string, Feed>, arts: seq<Article>) {
    forall i :: 0 <= i < |arts| ==> arts[i].feed in feeds
  }

  /** The loop's state: kept articles, duplicates counted, guids seen. */
  datatype Pass = Pass(kept: seq<Article>, dups: nat, seen: set<string>)

  function DedupStep(feeds: map<string, Feed>, p: Pass, a: Article, maxage: int, now: int): Pass
    requires a.feed in feeds
  {
    if !Young(feeds, a, maxage, now) then p
    else if Checked(feeds, a) then
      var g := Guid(a.entry).value;
      if g in p.seen then Pass(p.kept, p.dups + 1, p.seen)
      else Pass(p.kept + [a], p.dups, p.seen + {g})
    else Pass(p.kept + [a], p.dups, p.seen)
  }

  /** `write_remove_dups` on `arts`, element by element. */
  function Dedup(feeds: map<string, Feed>, arts: seq<Article>, maxage: int, now: int): Pass
    requires Registered(feeds, arts)
    decreases |arts|
  {
    if arts == [] then Pass([], 0, {})
    else DedupStep(feeds, Dedup(feeds, arts[..|arts| - 1], maxage, now), arts[|arts| - 1], maxage, now)
  }

  /** How many articles are past their feed's `maxage`. */
  function TooOld(feeds: map<string, Feed>, arts: seq<Article>, maxage: int, now: int): (n: nat)
    requires Registered(feeds, arts)
    ensures n <= |arts|
    decreases |arts|
  {
    if arts == [] then 0
    else
      var a := arts[|arts| - 1];
      TooOld(feeds, arts[..|arts| - 1], maxage, now) + (if Young(feeds, a, maxage, now) then 0 else 1)
  }

  /** Kept articles form an order-preserving subsequence of the input, all of them young. */
  lemma {:induction false} DedupSubsequence(feeds: map<string, Feed>, arts: seq<Article>, maxage: int, now: int)
    requires Registered(feeds, arts)
    ensures IsSubseq(Dedup(feeds, arts, maxage, now).kept, arts)
    ensures forall a :: a in Dedup(feeds, arts, maxage, now).kept ==> a.feed in feeds && Young(feeds, a, maxage, now)
    decreases |arts|
  {
    if arts == [] {
      SubseqEmpty(arts);
    } else {
      var init := arts[..|arts| - 1];
      var a := arts[|arts| - 1];
      DedupSubsequence(feeds, init, maxage, now);
      var p := Dedup(feeds, init, maxage, now);
      assert arts == init + [a];
      if Dedup(feeds, arts, maxage, now).kept == p.kept {
        SubseqSkip(p.kept, init, a);
      } else {
        SubseqTake(p.kept, init, a);
      }
    }
  }

  /** Every article is kept, dropped as too old, or counted as a duplicate: `dup_count` is the
    * number of guid drops and nothing else is lost. */
  lemma {:induction false} DedupAccounting(feeds: map<string, Feed>, arts: seq<Article>, maxage: int, now: int)
    requires Registered(feeds, arts)
    ensures var p := Dedup(feeds, arts, maxage, now);
            |p.kept| + p.dups + TooOld(feeds, arts, maxage, now) == |arts|
    decreases |arts|
  {
    if arts != [] {
      DedupAccounting(feeds, arts[..|arts| - 1], maxage, now);
    }
  }

  /** The guids seen are those of the kept articles that were checked, and those guids are
    * pairwise different: no guid occurs twice among them. */
  lemma {:induction false} DedupGuidsDistinct(feeds: map<string, Feed>, arts: seq<Article>, maxage: int, now: int)
    requires Registered(feeds, arts)
    ensures var p := Dedup(feeds, arts, maxage, now);
            (forall i :: 0 <= i < |p.kept| ==> p.kept[i].feed in feeds)
            && (forall i :: 0 <= i < |p.kept| && Checked(feeds, p.kept[i]) ==> Guid(p.kept[i].entry).value in p.seen)
            && (forall g :: g in p.seen ==> exists i :: 0 <= i < |p.kept| && Checked(feeds, p.kept[i]) && Guid(p.kept[i].entry) == Some(g))
            && (forall i, j :: 0 <= i < j < |p.kept| && Checked(feeds, p.kept[i]) && Checked(feeds, p.kept[j]) ==>
                  Guid(p.kept[i].entry) != Guid(p.kept[j].entry))
    decreases |arts|
  {
    if arts != [] {
      var init := arts[..|arts| - 1];
      var a := arts[|arts| - 1];
      DedupGuidsDistinct(feeds, init, maxage, now);
      var p := Dedup(feeds, init, maxage, now);
      var q := Dedup(feeds, arts, maxage, now);
      assert q == DedupStep(feeds, p, a, maxage, now);
      if Young(feeds, a, maxage, now) && (!Checked(feeds, a) || Guid(a.entry).value !in p.seen) {
        assert q.kept == p.kept + [a] && q.kept[|p.kept|] == a;
        assert forall i :: 0 <= i < |p.kept| ==> q.kept[i] == p.kept[i];
        forall g | g in q.seen
          ensures exists i :: 0 <= i < |q.kept| && q.kept[i].feed in feeds && Checked(feeds, q.kept[i]) && Guid(q.kept[i].entry) == Some(g)
        {
          if g in p.seen {
            var i :| 0 <= i < |p.kept| && Checked(feeds, p.kept[i]) && Guid(p.kept[i].entry) == Some(g);
            assert q.kept[i] == p.kept[i];
          }
        }
      } else {
        assert q.kept == p.kept && q.seen == p.seen;
        forall g | g in q.seen
          ensures exists i :: 0 <= i < |q.kept| && q.kept[i].feed in feeds && Checked(feeds, q.kept[i]) && Guid(q.kept[i].entry) == Some(g)
        {
          var i :| 0 <= i < |p.kept| && Checked(feeds, p.kept[i]) && Guid(p.kept[i].entry) == Some(g);
          assert q.kept[i] == p.kept[i];
        }
      }
    }
  }

  /** No backfill and no loss: an article that is young and not checked is always kept. */
  lemma {:induction false} UncheckedKept(feeds: map<string, Feed>, arts: seq<Article>, maxage: int, now: int, i: int)
    requires Registered(feeds, arts) && 0 <= i < |arts|
    requires Young(feeds, arts[i], maxage, now) && !Checked(feeds, arts[i])
    ensures arts[i] in Dedup(feeds, arts, maxage, now).kept
    decreases |arts|
  {
    var init := arts[..|arts| - 1];
    if i < |arts| - 1 {
      assert init[i] == arts[i];
      UncheckedKept(feeds, init, maxage, now, i);
    }
  }

  /** A checked young article is kept exactly when its guid was not seen before it; a repeat
    * only raises the duplicate count. */
  lemma RepeatDropped(feeds: map<string, Feed>, arts: seq<Article>, maxage: int, now: int)
    requires Registered(feeds, arts) && arts != []
    requires var a := arts[|arts| - 1]; Young(feeds, a, maxage, now) && Checked(feeds, a)
    ensures var a := arts[|arts| - 1];
            var before := Dedup(feeds, arts[..|arts| - 1], maxage, now);
            var after := Dedup(feeds, arts, maxage, now);
            (Guid(a.entry).value !in before.seen ==> after.kept == before.kept + [a] && after.dups == before.dups)
            && (Guid(a.entry).value in before.seen ==> after.kept == before.kept && after.dups == before.dups + 1)
  {
  }

  /** `write_remove_dups`: returns the kept articles and the number of duplicates. */
  method RemoveDups(feeds: map<string, Feed>, arts: seq<Article>, maxage: int, now: int)
    returns (kept: seq<Article>, dupCount: nat)
    requires Registered(feeds, arts)
    ensures kept == Dedup(feeds, arts, maxage, now).kept
    ensures dupCount == Dedup(feeds, arts, maxage, now).dups
  {
    kept, dupCount := [], 0;
    var seenGuids: set<string> := {};
    var i := 0;
    while i < |arts|
      invariant 0 <= i <= |arts|
      invariant Pass(kept, dupCount, seenGuids) == Dedup(feeds, arts[..i], maxage, now)
    {
      var article := arts[i];
      assert arts[..i + 1][..i] == arts[..i];
      var feed := feeds[article.feed];
      var m := MaxAgeOf(feed, maxage);
      if m != 0 && now - article.added > m {
        i := i + 1;
        continue;
      }
      var guid := Guid(article.entry);
      if !AllowsDuplicates(feed) {
        var isDup := false;
        if guid.Some? {
          if guid.value in seenGuids {
            isDup := true;
          }
          seenGuids := seenGuids + {guid.value};
        }
        if isDup {
          dupCount := dupCount + 1;
          i := i + 1;
          continue;
        }
      }
      kept := kept + [article];
      i := i + 1;
    }
    assert arts[..|arts|] == arts;
  }
}
