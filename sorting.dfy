/**
 * Python's `sorted` on tuples of integers and strings. Each sorted item is
 * mapped to its tuple key; tuples compare lexicographically, element by
 * element, as Python compares them.
 */
module Sorting {
  import opened Text

  /** One component of a sort tuple. */
  datatype Atom = I(i: int) | S(s: string)

  type Tuple = seq<Atom>

  /** Python's `<` on tuple components. Components of different kinds are never compared by the
    * aggregator; they are given an arbitrary fixed order here. */
  predicate AtomLess(x: Atom, y: Atom) {
    match (x, y)
    case (I(a), I(b)) => a < b
    case (S(a), S(b)) => StrLess(a, b)
    case (I(_), S(_)) => true
    case (S(_), I(_)) => false
  }

  /** Python's `<` on tuples. */
  predicate TupleLess(a: Tuple, b: Tuple) {
    if a == [] then b != []
    else if b == [] then false
    else if a[0] != b[0] then AtomLess(a[0], b[0])
    else TupleLess(a[1..], b[1..])
  }

  lemma AtomLessIrreflexive(x: Atom)
    ensures !AtomLess(x, x)
  {
    if x.S? { StrLessIrreflexive(x.s); }
  }

  lemma AtomLessTransitive(x: Atom, y: Atom, z: Atom)
    requires AtomLess(x, y) && AtomLess(y, z)
    ensures AtomLess(x, z)
  {
    if x.S? && y.S? && z.S? { StrLessTransitive(x.s, y.s, z.s); }
  }

  lemma AtomLessTotal(x: Atom, y: Atom)
    requires x != y
    ensures AtomLess(x, y) || AtomLess(y, x)
  {
    if x.S? && y.S? { StrLessTotal(x.s, y.s); }
  }

  lemma {:induction false} TupleLessIrreflexive(a: Tuple)
    ensures !TupleLess(a, a)
  {
    if a != [] { TupleLessIrreflexive(a[1..]); }
  }

  lemma {:induction false} TupleLessTransitive(a: Tuple, b: Tuple, c: Tuple)
    requires TupleLess(a, b) && TupleLess(b, c)
    ensures TupleLess(a, c)
  {
    if a != [] && b != [] && c != [] {
      if a[0] == b[0] && b[0] == c[0] {
        TupleLessTransitive(a[1..], b[1..], c[1..]);
      } else if a[0] != b[0] && b[0] != c[0] {
        AtomLessTransitive(a[0], b[0], c[0]);
        if a[0] == c[0] { AtomLessIrreflexive(a[0]); }
      }
    }
  }

  lemma {:induction false} TupleLessTotal(a: Tuple, b: Tuple)
    requires a != b
    ensures TupleLess(a, b) || TupleLess(b, a)
  {
    if a != [] && b != [] {
      if a[0] == b[0] {
        assert a == [a[0]] + a[1..] && b == [b[0]] + b[1..];
        TupleLessTotal(a[1..], b[1..]);
      } else {
        AtomLessTotal(a[0], b[0]);
      }
    }
  }

  lemma TupleLessAsymmetric(a: Tuple, b: Tuple)
    requires TupleLess(a, b)
    ensures !TupleLess(b, a)
  {
    if TupleLess(b, a) {
      TupleLessTransitive(a, b, a);
      TupleLessIrreflexive(a);
    }
  }

  /** No element is followed by one with a smaller key. */
  ghost predicate SortedBy<T>(s: seq<T>, key: T -> Tuple) {
    forall i, j :: 0 <= i < j < |s| ==> !TupleLess(key(s[j]), key(s[i]))
  }

  /** Keys strictly increase along the sequence. */
  ghost predicate StrictlySortedBy<T>(s: seq<T>, key: T -> Tuple) {
    forall i, j :: 0 <= i < j < |s| ==> TupleLess(key(s[i]), key(s[j]))
  }

  /** Put `x` in front of the first element whose key is not smaller than its own. */
  function Insert<T>(x: T, s: seq<T>, key: T -> Tuple): (r: seq<T>)
    requires SortedBy(s, key)
    ensures multiset(r) == multiset(s) + multiset{x}
    ensures |r| == |s| + 1
    ensures SortedBy(r, key)
  {
    if s == [] then [x]
    else if !TupleLess(key(s[0]), key(x)) then
      InsertFront(x, s, key);
      [x] + s
    else
      SortedTail(s, key);
      var rest := Insert(x, s[1..], key);
      InsertBehind(x, s, rest, key);
      assert s == [s[0]] + s[1..];
      [s[0]] + rest
  }

  /** `a` is not above `b`: the non-strict order belonging to `TupleLess`. */
  predicate NotAbove(a: Tuple, b: Tuple) {
    !TupleLess(b, a)
  }

  lemma NotAboveTransitive(a: Tuple, b: Tuple, c: Tuple)
    requires NotAbove(a, b) && NotAbove(b, c)
    ensures NotAbove(a, c)
  {
    if TupleLess(c, a) && a != b {
      TupleLessTotal(a, b);
      assert TupleLess(a, b);
      TupleLessTransitive(c, a, b);
      assert false;
    }
  }

  lemma InsertFront<T>(x: T, s: seq<T>, key: T -> Tuple)
    requires SortedBy(s, key) && s != []
    requires NotAbove(key(x), key(s[0]))
    ensures SortedBy([x] + s, key)
  {
    var r := [x] + s;
    forall i, j | 0 <= i < j < |r| ensures NotAbove(key(r[i]), key(r[j])) {
      if i == 0 {
        assert r[j] == s[j - 1];
        if j > 1 {
          assert NotAbove(key(s[0]), key(s[j - 1]));
          NotAboveTransitive(key(x), key(s[0]), key(s[j - 1]));
        }
      } else {
        assert r[i] == s[i - 1] && r[j] == s[j - 1];
      }
    }
  }

  lemma InsertBehind<T>(x: T, s: seq<T>, rest: seq<T>, key: T -> Tuple)
    requires SortedBy(s, key) && s != []
    requires TupleLess(key(s[0]), key(x))
    requires SortedBy(rest, key) && multiset(rest) == multiset(s[1..]) + multiset{x}
    ensures SortedBy([s[0]] + rest, key)
  {
    var r := [s[0]] + rest;
    forall i, j | 0 <= i < j < |r| ensures NotAbove(key(r[i]), key(r[j])) {
      assert r[j] == rest[j - 1];
      if i == 0 {
        assert rest[j - 1] in multiset(rest);
        if rest[j - 1] == x {
          TupleLessAsymmetric(key(s[0]), key(x));
        } else {
          assert rest[j - 1] in multiset(s[1..]);
          var k :| 0 <= k < |s[1..]| && s[1..][k] == rest[j - 1];
          assert s[k + 1] == rest[j - 1];
        }
      } else {
        assert r[i] == rest[i - 1];
      }
    }
  }

  lemma SortedTail<T>(s: seq<T>, key: T -> Tuple)
    requires SortedBy(s, key) && s != []
    ensures SortedBy(s[1..], key)
  {
    forall i, j | 0 <= i < j < |s| - 1 ensures !TupleLess(key(s[1..][j]), key(s[1..][i])) {
      assert s[1..][j] == s[j + 1] && s[1..][i] == s[i + 1];
    }
  }

  /** `sorted(s, key=key)`: insertion sort, stable like Python's. */
  function SortBy<T>(s: seq<T>, key: T -> Tuple): (r: seq<T>)
    ensures multiset(r) == multiset(s)
    ensures |r| == |s|
    ensures SortedBy(r, key)
  {
    if s == [] then []
    else
      assert s == [s[0]] + s[1..];
      Insert(s[0], SortBy(s[1..], key), key)
  }

  /** When keys are distinct, a sorted sequence is strictly increasing. */
  lemma SortedDistinctIsStrict<T>(s: seq<T>, key: T -> Tuple)
    requires SortedBy(s, key)
    requires forall i, j :: 0 <= i < j < |s| ==> key(s[i]) != key(s[j])
    ensures StrictlySortedBy(s, key)
  {
    forall i, j | 0 <= i < j < |s| ensures TupleLess(key(s[i]), key(s[j])) {
      TupleLessTotal(key(s[i]), key(s[j]));
    }
  }

  /** With strictly increasing keys there is only one order of a given set of elements: the result
    * of sorting does not depend on the order the elements came in. */
  lemma {:induction false} StrictSortedUnique<T>(a: seq<T>, b: seq<T>, key: T -> Tuple)
    requires StrictlySortedBy(a, key) && StrictlySortedBy(b, key)
    requires forall x :: x in a <==> x in b
    requires |a| == |b|
    ensures a == b
    decreases |a|
  {
    if a != [] {
      assert a[0] in a;
      var j :| 0 <= j < |b| && b[j] == a[0];
      assert b[0] in b;
      var i :| 0 <= i < |a| && a[i] == b[0];
      if j != 0 {
        if i == 0 {
          TupleLessIrreflexive(key(b[0]));
        } else {
          TupleLessAsymmetric(key(a[0]), key(a[i]));
        }
      }
      assert a[0] == b[0];
      forall x ensures x in a[1..] <==> x in b[1..] {
        StrictHeadUnique(a, key, x);
        StrictHeadUnique(b, key, x);
      }
      StrictTail(a, key);
      StrictTail(b, key);
      StrictSortedUnique(a[1..], b[1..], key);
      assert a == [a[0]] + a[1..] && b == [b[0]] + b[1..];
    }
  }

  /** In a strictly sorted sequence the head occurs only once. */
  lemma StrictHeadUnique<T>(s: seq<T>, key: T -> Tuple, x: T)
    requires StrictlySortedBy(s, key) && s != []
    ensures x in s[1..] <==> x in s && x != s[0]
  {
    if x in s[1..] {
      var k :| 0 <= k < |s[1..]| && s[1..][k] == x;
      if x == s[0] {
        assert TupleLess(key(s[0]), key(s[k + 1]));
        TupleLessIrreflexive(key(s[0]));
      }
    }
    if x in s && x != s[0] {
      var k :| 0 <= k < |s| && s[k] == x;
      assert s[1..][k - 1] == x;
    }
  }

  lemma StrictTail<T>(s: seq<T>, key: T -> Tuple)
    requires StrictlySortedBy(s, key) && s != []
    ensures StrictlySortedBy(s[1..], key)
  {
    forall i, j | 0 <= i < j < |s| - 1 ensures TupleLess(key(s[1..][i]), key(s[1..][j])) {
      assert s[1..][j] == s[j + 1] && s[1..][i] == s[i + 1];
    }
  }
}
