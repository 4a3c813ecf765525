/**
 * The pieces of Python's string semantics that the aggregator relies on:
 * whitespace classes, `strip`, `split()` and `split(None, 1)`, `split(c, 1)`,
 * `lower` on ASCII, `replace(old, new, 1)`, code-point string ordering,
 * `str(n)` and `int(s)` for base 10.
 */
module Text {
  import opened Wrappers

  /** Python's `str.isspace` (the characters `strip` and `split()` remove). */
  predicate IsSpace(c: char) {
    c == ' ' || ('\t' <= c <= '\r') || ('\U{1C}' <= c <= '\U{1F}')
    || c == '\U{85}' || c == '\U{A0}' || c == '\U{1680}'
    || ('\U{2000}' <= c <= '\U{200A}') || c == '\U{2028}' || c == '\U{2029}'
    || c == '\U{202F}' || c == '\U{205F}' || c == '\U{3000}'
  }

  /** Python's `string.whitespace`: the six ASCII whitespace characters. */
  predicate IsAsciiSpace(c: char) {
    c == ' ' || ('\t' <= c <= '\r')
  }

  predicate NoSpace(s: string) {
    forall i :: 0 <= i < |s| ==> !IsSpace(s[i])
  }

  function TrimLeft(s: string): (r: string)
    ensures |r| <= |s| && r == s[|s| - |r|..]
    ensures r == [] || !IsSpace(r[0])
  {
    if s != [] && IsSpace(s[0]) then TrimLeft(s[1..]) else s
  }

  function TrimRight(s: string): (r: string)
    ensures |r| <= |s| && r == s[..|r|]
    ensures r == [] || !IsSpace(r[|r| - 1])
  {
    if s != [] && IsSpace(s[|s| - 1]) then TrimRight(s[..|s| - 1]) else s
  }

  /** `s.strip()` */
  function Strip(s: string): (r: string)
    ensures r == [] || (!IsSpace(r[0]) && !IsSpace(r[|r| - 1]))
  {
    TrimRight(TrimLeft(s))
  }

  lemma StripNoEdgeSpace(s: string)
    requires s == [] || (!IsSpace(s[0]) && !IsSpace(s[|s| - 1]))
    ensures Strip(s) == s
  {
  }

  predicate AllSpace(s: string) {
    forall i :: 0 <= i < |s| ==> IsSpace(s[i])
  }

  /** Leading whitespace in front of text that starts with a non-space is all `lstrip` removes. */
  lemma {:induction false} TrimLeftGap(g: string, t: string)
    requires AllSpace(g) && (t == [] || !IsSpace(t[0]))
    ensures TrimLeft(g + t) == t
    decreases |g|
  {
    if g != [] {
      assert (g + t)[0] == g[0];
      assert (g + t)[1..] == g[1..] + t;
      TrimLeftGap(g[1..], t);
    } else {
      assert g + t == t;
    }
  }

  /** Trailing whitespace behind text that ends with a non-space is all `rstrip` removes. */
  lemma {:induction false} TrimRightGap(t: string, g: string)
    requires AllSpace(g) && (t == [] || !IsSpace(t[|t| - 1]))
    ensures TrimRight(t + g) == t
    decreases |g|
  {
    if g != [] {
      var s := t + g;
      assert s[|s| - 1] == g[|g| - 1];
      assert s[..|s| - 1] == t + g[..|g| - 1];
      TrimRightGap(t, g[..|g| - 1]);
    } else {
      assert t + g == t;
    }
  }

  /** What `lstrip` removes is whitespace. */
  lemma {:induction false} TrimLeftDrops(s: string)
    ensures AllSpace(s[..|s| - |TrimLeft(s)|])
    decreases |s|
  {
    if s != [] && IsSpace(s[0]) {
      TrimLeftDrops(s[1..]);
      var n := |s| - |TrimLeft(s)|;
      assert s[..n] == [s[0]] + s[1..][..n - 1];
    }
  }

  /** What `rstrip` removes is whitespace. */
  lemma {:induction false} TrimRightDrops(s: string)
    ensures AllSpace(s[|TrimRight(s)|..])
    decreases |s|
  {
    if s != [] && IsSpace(s[|s| - 1]) {
      TrimRightDrops(s[..|s| - 1]);
      var n := |TrimRight(s)|;
      assert s[n..] == s[..|s| - 1][n..] + [s[|s| - 1]];
    }
  }

  /** `strip` gives back the text between the surrounding whitespace, whatever that whitespace is. */
  lemma StripSurrounded(g1: string, m: string, g2: string)
    requires AllSpace(g1) && AllSpace(g2)
    requires m == [] || (!IsSpace(m[0]) && !IsSpace(m[|m| - 1]))
    ensures Strip(g1 + m + g2) == m
  {
    if m == [] {
      assert g1 + m + g2 == (g1 + g2) + [];
      assert AllSpace(g1 + g2) by {
        forall i | 0 <= i < |g1 + g2| ensures IsSpace((g1 + g2)[i]) {
          if i >= |g1| { assert (g1 + g2)[i] == g2[i - |g1|]; }
        }
      }
      TrimLeftGap(g1 + g2, []);
    } else {
      assert g1 + m + g2 == g1 + (m + g2);
      assert (m + g2)[0] == m[0];
      TrimLeftGap(g1, m + g2);
      TrimRightGap(m, g2);
    }
  }

  /** Every string is its stripped text with whitespace on either side. */
  lemma StripInfix(s: string)
    ensures exists i, j :: 0 <= i <= j <= |s| && Strip(s) == s[i..j] && AllSpace(s[..i]) && AllSpace(s[j..])
  {
    var t := TrimLeft(s);
    var i := |s| - |t|;
    var r := TrimRight(t);
    var j := i + |r|;
    TrimLeftDrops(s);
    TrimRightDrops(t);
    assert s[i..j] == t[..|r|] == r;
    assert s[j..] == t[|r|..];
  }

  /** The longest prefix of `s` without whitespace. */
  function TakeWord(s: string): (w: string)
    ensures |w| <= |s| && w == s[..|w|]
    ensures NoSpace(w)
    ensures |w| == |s| || IsSpace(s[|w|])
  {
    if s == [] || IsSpace(s[0]) then [] else [s[0]] + TakeWord(s[1..])
  }

  /** `s.split()`: the maximal whitespace-free runs of `s`. */
  function SplitWs(s: string): (r: seq<string>)
    ensures AreWords(r)
    decreases |s|
  {
    var t := TrimLeft(s);
    if t == [] then []
    else
      var w := TakeWord(t);
      assert w != [] by { assert !IsSpace(t[0]); }
      var rest := SplitWs(t[|w|..]);
      ConsWords(w, rest);
      [w] + rest
  }

  predicate AreWords(ws: seq<string>) {
    forall i :: 0 <= i < |ws| ==> ws[i] != [] && NoSpace(ws[i])
  }

  lemma ConsWords(w: string, rest: seq<string>)
    requires w != [] && NoSpace(w) && AreWords(rest)
    ensures AreWords([w] + rest)
  {
    var r := [w] + rest;
    forall i | 0 <= i < |r| ensures r[i] != [] && NoSpace(r[i]) {
      if i > 0 { assert r[i] == rest[i - 1]; }
    }
  }

  /** `s.split(None, 1)`: the first word, then the rest with its leading whitespace removed. */
  function SplitWsOnce(s: string): (r: seq<string>)
    ensures |r| <= 2
    ensures |r| >= 1 ==> r[0] != [] && NoSpace(r[0])
    ensures |r| == 2 ==> r[1] != [] && !IsSpace(r[1][0])
    ensures r == [] <==> TrimLeft(s) == []
  {
    var t := TrimLeft(s);
    if t == [] then []
    else
      var w := TakeWord(t);
      var rest := TrimLeft(t[|w|..]);
      if rest == [] then [w] else [w, rest]
  }

  /** Words separated by one space each. */
  function JoinWs(words: seq<string>): string {
    if words == [] then []
    else if |words| == 1 then words[0]
    else words[0] + " " + JoinWs(words[1..])
  }

  lemma TakeWordOfPrefix(w: string, t: string)
    requires NoSpace(w)
    requires t == [] || IsSpace(t[0])
    ensures TakeWord(w + t) == w
  {
    if w != [] {
      assert (w + t)[1..] == w[1..] + t;
      TakeWordOfPrefix(w[1..], t);
    }
  }

  /** Splitting a space-joined list of non-empty words gives the words back. */
  lemma SplitJoin(words: seq<string>)
    requires AreWords(words)
    ensures SplitWs(JoinWs(words)) == words
  {
    WordListOfWords(words);
    SplitJoinList(words);
  }

  /** `AreWords` unrolled one word at a time. */
  predicate WordList(words: seq<string>) {
    words == [] || (words[0] != [] && NoSpace(words[0]) && WordList(words[1..]))
  }

  lemma {:induction false} WordListOfWords(words: seq<string>)
    requires AreWords(words)
    ensures WordList(words)
  {
    if words != [] {
      TailWords(words);
      WordListOfWords(words[1..]);
    }
  }

  lemma {:induction false} SplitJoinList(words: seq<string>)
    requires WordList(words)
    ensures SplitWs(JoinWs(words)) == words
  {
    if words == [] {
    } else if |words| == 1 {
      SplitWsWord(words[0]);
    } else {
      var tail := words[1..];
      SplitJoinList(tail);
      SplitJoinStep(words[0], tail);
      assert [words[0]] + tail == words;
    }
  }

  lemma TailWords(words: seq<string>)
    requires AreWords(words) && words != []
    ensures AreWords(words[1..])
  {
    var tail := words[1..];
    forall i | 0 <= i < |tail| ensures tail[i] != [] && NoSpace(tail[i]) {
      assert tail[i] == words[i + 1];
    }
  }

  lemma SplitJoinStep(w: string, tail: seq<string>)
    requires w != [] && NoSpace(w)
    requires tail != [] && tail[0] != [] && NoSpace(tail[0])
    requires SplitWs(JoinWs(tail)) == tail
    ensures SplitWs(JoinWs([w] + tail)) == [w] + tail
  {
    var j := JoinWs(tail);
    JoinStartsWithWord(tail);
    assert ([w] + tail)[1..] == tail;
    assert JoinWs([w] + tail) == w + " " + j;
    SplitWsCons(w, j);
  }

  lemma SplitWsWord(w: string)
    requires w != [] && NoSpace(w)
    ensures SplitWs(w) == [w]
  {
    TakeWordOfPrefix(w, []);
    assert w + [] == w;
    assert w[|w|..] == [];
  }

  lemma SplitWsCons(w: string, rest: string)
    requires w != [] && NoSpace(w)
    requires rest != [] && !IsSpace(rest[0])
    ensures SplitWs(w + " " + rest) == [w] + SplitWs(rest)
  {
    var s := w + " " + rest;
    assert s == w + (" " + rest);
    TakeWordOfPrefix(w, " " + rest);
    assert s[|w|..] == " " + rest;
    assert (" " + rest)[1..] == rest;
    assert TrimLeft(" " + rest) == TrimLeft(rest) == rest;
  }

  lemma JoinStartsWithWord(words: seq<string>)
    requires words != [] && words[0] != [] && NoSpace(words[0])
    ensures JoinWs(words) != [] && !IsSpace(JoinWs(words)[0])
  {
    if |words| > 1 {
      assert JoinWs(words) == words[0] + " " + JoinWs(words[1..]);
      assert JoinWs(words)[0] == words[0][0];
    }
  }

  lemma SplitWsOnceWord(w: string)
    requires w != [] && NoSpace(w)
    ensures SplitWsOnce(w) == [w]
  {
    TakeWordOfPrefix(w, []);
    assert w + [] == w;
    assert w[|w|..] == [];
  }

  lemma SplitWsOnceCons(w: string, rest: string)
    requires w != [] && NoSpace(w)
    requires rest != [] && !IsSpace(rest[0])
    ensures SplitWsOnce(w + " " + rest) == [w, rest]
  {
    var s := w + " " + rest;
    assert s == w + (" " + rest);
    TakeWordOfPrefix(w, " " + rest);
    assert s[|w|..] == " " + rest;
    assert (" " + rest)[1..] == rest;
    assert TrimLeft(" " + rest) == TrimLeft(rest) == rest;
  }

  /** Splitting a joined line once gives its first word and the join of the others. */
  lemma SplitWsOnceJoin(words: seq<string>)
    requires AreWords(words) && |words| >= 2
    ensures SplitWsOnce(JoinWs(words)) == [words[0], JoinWs(words[1..])]
  {
    var tail := words[1..];
    TailWords(words);
    assert tail[0] == words[1];
    JoinStartsWithWord(tail);
    SplitWsOnceCons(words[0], JoinWs(tail));
  }

  lemma {:induction false} JoinEndsWithWord(words: seq<string>)
    requires WordList(words) && words != []
    ensures JoinWs(words) != [] && !IsSpace(JoinWs(words)[|JoinWs(words)| - 1])
  {
    if |words| > 1 {
      JoinEndsWithWord(words[1..]);
      var j := JoinWs(words[1..]);
      assert JoinWs(words) == words[0] + " " + j;
      assert JoinWs(words)[|JoinWs(words)| - 1] == j[|j| - 1];
    }
  }

  /** A line of words joined by single spaces is already stripped. */
  lemma StripJoin(words: seq<string>)
    requires AreWords(words)
    ensures Strip(JoinWs(words)) == JoinWs(words)
  {
    if words != [] {
      WordListOfWords(words);
      JoinStartsWithWord(words);
      JoinEndsWithWord(words);
      StripNoEdgeSpace(JoinWs(words));
    }
  }

  // ---------------------------------------------------------------------
  // `split()` and `split(None, 1)` described by the input

  /** `split()` gives no words exactly for a blank string, and `split(None, 1)` no parts. */
  lemma SplitWsBlank(s: string)
    ensures SplitWs(s) == [] <==> AllSpace(s)
    ensures SplitWsOnce(s) == [] <==> AllSpace(s)
  {
    TrimLeftDrops(s);
    if AllSpace(s) {
      assert s == s + [];
      TrimLeftGap(s, []);
    } else {
      assert s[..|s|] == s;
    }
  }

  /** The first word of `split()` is the first whitespace-free run after the leading whitespace;
    * the other words are those of the rest. */
  lemma SplitWsFirstWord(g: string, w: string, rest: string)
    requires AllSpace(g) && w != [] && NoSpace(w)
    requires rest == [] || IsSpace(rest[0])
    ensures SplitWs(g + w + rest) == [w] + SplitWs(rest)
  {
    var s := g + w + rest;
    assert s == g + (w + rest);
    assert (w + rest)[0] == w[0];
    TrimLeftGap(g, w + rest);
    TakeWordOfPrefix(w, rest);
    assert (w + rest)[|w|..] == rest;
  }

  /** `split(None, 1)`: the first word, and the text after the whitespace that follows it,
    * trailing whitespace included. */
  lemma SplitWsOnceParts(g: string, w: string, g2: string, t: string)
    requires AllSpace(g) && w != [] && NoSpace(w) && AllSpace(g2)
    requires g2 != [] || t == []
    requires t == [] || !IsSpace(t[0])
    ensures SplitWsOnce(g + w + g2 + t) == if t == [] then [w] else [w, t]
  {
    Regroup4(g, w, g2, t);
    Regroup3(w, g2, t);
    assert (w + (g2 + t))[0] == w[0];
    TrimLeftGap(g, w + (g2 + t));
    assert g2 + t == [] || IsSpace((g2 + t)[0]);
    TakeWordOfPrefix(w, g2 + t);
    assert (w + (g2 + t))[|w|..] == g2 + t;
    TrimLeftGap(g2, t);
  }

  /** A string that is not blank is leading whitespace, a word, and a rest that is empty or
    * starts with whitespace. */
  lemma FirstWordOf(s: string) returns (g: string, w: string, rest: string)
    requires !AllSpace(s)
    ensures s == g + w + rest && AllSpace(g) && w != [] && NoSpace(w)
    ensures rest == [] || IsSpace(rest[0])
  {
    var t := TrimLeft(s);
    TrimLeftDrops(s);
    var i := |s| - |t|;
    w := TakeWord(t);
    var j := i + |w|;
    assert w == s[i..j];
    g, rest := s[..i], s[j..];
    Pieces(s, i, j);
    assert t == [] ==> s == g;
  }

  /** When `split()` finds two words or more, `split(None, 1)` gives the first of them and a
    * remainder whose words are the others. */
  lemma SplitWsOnceRest(s: string, w: string, ws: seq<string>)
    requires SplitWs(s) == [w] + ws && ws != []
    ensures |SplitWsOnce(s)| == 2 && SplitWsOnce(s)[0] == w
    ensures SplitWs(SplitWsOnce(s)[1]) == ws
  {
    SplitWsBlank(s);
    var g, v, rest := FirstWordOf(s);
    SplitWsFirstWord(g, v, rest);
    assert v == w && SplitWs(rest) == ws by {
      assert ([v] + SplitWs(rest))[0] == v && ([v] + SplitWs(rest))[1..] == SplitWs(rest);
      assert ([w] + ws)[0] == w && ([w] + ws)[1..] == ws;
    }
    SplitWsBlank(rest);
    var t := TrimLeft(rest);
    var g2 := LeadingSpace(rest);
    assert g2 != [] by { assert rest[0] == (g2 + t)[0]; }
    Regroup4(g, v, g2, t);
    SplitWsOnceParts(g, v, g2, t);
    SplitWsBlank(g2);
    SplitWsAppend(g2, t);
    assert SplitWs(rest) == SplitWs(t);
  }

  /** A string is its leading whitespace followed by what `lstrip` leaves. */
  lemma LeadingSpace(s: string) returns (g: string)
    ensures s == g + TrimLeft(s) && AllSpace(g)
  {
    TrimLeftDrops(s);
    var n := |s| - |TrimLeft(s)|;
    g := s[..n];
    assert s == s[..n] + s[n..];
  }

  lemma Regroup3<T>(x: seq<T>, y: seq<T>, z: seq<T>)
    ensures x + y + z == x + (y + z)
  {
  }

  lemma Regroup4(x: string, y: string, z: string, u: string)
    ensures (x + y + z) + u == x + y + (z + u)
    ensures x + (y + z + u) == (x + y) + z + u
  {
  }

  lemma Pieces(s: string, i: int, j: int)
    requires 0 <= i <= j <= |s|
    ensures s == s[..i] + s[i..j] + s[j..]
  {
  }

  lemma AllSpaceAppend(a: string, b: string)
    requires AllSpace(a) && AllSpace(b)
    ensures AllSpace(a + b)
  {
    forall i | 0 <= i < |a + b| ensures IsSpace((a + b)[i]) {
      if i >= |a| { assert (a + b)[i] == b[i - |a|]; }
    }
  }

  /** Leading whitespace adds no words. */
  lemma SplitWsBlankFront(a: string, b: string)
    requires AllSpace(a)
    ensures SplitWs(a + b) == SplitWs(b)
  {
    SplitWsBlank(b);
    if AllSpace(b) {
      AllSpaceAppend(a, b);
      SplitWsBlank(a + b);
    } else {
      var g, w, rest := FirstWordOf(b);
      AllSpaceAppend(a, g);
      Regroup4(a, g, w, rest);
      SplitWsFirstWord(a + g, w, rest);
      SplitWsFirstWord(g, w, rest);
    }
  }

  /** The join of a word with its rest meets the next piece at whitespace when the rest does. */
  lemma MeetsAtSpace(g: string, w: string, rest: string, b: string)
    requires w != [] && NoSpace(w)
    requires rest == [] || IsSpace(rest[0])
    requires b == [] || IsSpace((g + w + rest)[|g + w + rest| - 1]) || IsSpace(b[0])
    ensures rest + b == [] || IsSpace((rest + b)[0])
    ensures rest == [] || b == [] || IsSpace(rest[|rest| - 1]) || IsSpace(b[0])
  {
    var a := g + w + rest;
    if rest != [] {
      assert (rest + b)[0] == rest[0];
      assert rest[|rest| - 1] == a[|a| - 1];
    } else {
      assert a[|a| - 1] == w[|w| - 1];
      assert rest + b == b;
    }
  }

  /** Two pieces that meet at whitespace split into the words of each. */
  lemma {:induction false} SplitWsAppend(a: string, b: string)
    requires a == [] || b == [] || IsSpace(a[|a| - 1]) || IsSpace(b[0])
    ensures SplitWs(a + b) == SplitWs(a) + SplitWs(b)
    decreases |a|
  {
    SplitWsBlank(a);
    if AllSpace(a) {
      SplitWsBlankFront(a, b);
    } else {
      var g, w, rest := FirstWordOf(a);
      Regroup4(g, w, rest, b);
      MeetsAtSpace(g, w, rest, b);
      SplitWsFirstWord(g, w, rest + b);
      SplitWsFirstWord(g, w, rest);
      SplitWsAppend(rest, b);
      Regroup3([w], SplitWs(rest), SplitWs(b));
    }
  }

  /** Stripping first does not change the words. */
  lemma SplitWsStrip(s: string)
    ensures SplitWs(Strip(s)) == SplitWs(s)
  {
    StripInfix(s);
    var i, j :| 0 <= i <= j <= |s| && Strip(s) == s[i..j] && AllSpace(s[..i]) && AllSpace(s[j..]);
    Pieces(s, i, j);
    SplitAround(s[..i], s[i..j], s[j..]);
  }

  lemma SplitAround(g1: string, m: string, g2: string)
    requires AllSpace(g1) && AllSpace(g2)
    ensures SplitWs(g1 + m + g2) == SplitWs(m)
  {
    Regroup3(g1, m, g2);
    SplitWsBlankFront(g1, m + g2);
    SplitWsBlank(g2);
    SplitWsAppend(m, g2);
    assert SplitWs(m) + [] == SplitWs(m);
  }

  /** `s.split(c, 1)`: `[s]` when `c` does not occur, else the text before and after its first occurrence. */
  function SplitOnce(s: string, c: char): (r: seq<string>)
    ensures c !in s ==> r == [s]
    ensures c in s ==> |r| == 2 && c !in r[0] && s == r[0] + [c] + r[1]
  {
    if s == [] then [s]
    else if s[0] == c then
      assert s == [] + [c] + s[1..];
      [[], s[1..]]
    else
      var t := SplitOnce(s[1..], c);
      if |t| == 1 then [s] else
        assert s == [s[0]] + s[1..];
        [[s[0]] + t[0], t[1]]
  }

  function LowerChar(c: char): char {
    if 'A' <= c <= 'Z' then (c as int + 32) as char else c
  }

  /** `s.lower()` on the ASCII letters. */
  function Lower(s: string): (r: string)
    ensures |r| == |s|
    ensures forall i :: 0 <= i < |s| ==> r[i] == LowerChar(s[i])
  {
    if s == [] then [] else [LowerChar(s[0])] + Lower(s[1..])
  }

  predicate StartsWith(s: string, prefix: string) {
    |prefix| <= |s| && s[..|prefix|] == prefix
  }

  predicate EndsWith(s: string, suffix: string) {
    |suffix| <= |s| && s[|s| - |suffix|..] == suffix
  }

  predicate OccursAt(s: string, pat: string, i: int) {
    0 <= i && i + |pat| <= |s| && s[i..i + |pat|] == pat
  }

  /** `s.find(pat)` as an option: the first index where `pat` occurs. */
  function Find(s: string, pat: string): (r: Option<nat>)
    ensures r.Some? ==> OccursAt(s, pat, r.value) && forall j :: 0 <= j < r.value ==> !OccursAt(s, pat, j)
    ensures r.None? ==> forall j :: !OccursAt(s, pat, j)
    decreases |s|
  {
    if |s| < |pat| then None
    else if s[..|pat|] == pat then Some(0)
    else
      match Find(s[1..], pat)
      case None =>
        assert forall j :: 1 <= j ==> (OccursAt(s, pat, j) ==> OccursAt(s[1..], pat, j - 1));
        None
      case Some(i) =>
        assert forall j :: 1 <= j <= i ==> (OccursAt(s, pat, j) ==> OccursAt(s[1..], pat, j - 1));
        assert s[i + 1..i + 1 + |pat|] == s[1..][i..i + |pat|];
        Some(i + 1)
  }

  /** `s.replace(pat, repl, 1)` */
  function ReplaceFirst(s: string, pat: string, repl: string): (r: string)
    ensures (forall j :: !OccursAt(s, pat, j)) ==> r == s
    ensures forall i :: OccursAt(s, pat, i) && (forall j :: 0 <= j < i ==> !OccursAt(s, pat, j))
              ==> r == s[..i] + repl + s[i + |pat|..]
  {
    match Find(s, pat)
    case None => s
    case Some(i) =>
      assert OccursAt(s, pat, i);
      assert forall k :: OccursAt(s, pat, k) && (forall j :: 0 <= j < k ==> !OccursAt(s, pat, j)) ==> k == i;
      s[..i] + repl + s[i + |pat|..]
  }

  /** Replacing the first occurrence, when it is the one right after `head`. */
  lemma ReplaceFirstAt(head: string, pat: string, tail: string, repl: string)
    requires forall j :: 0 <= j < |head| ==> !OccursAt(head + pat + tail, pat, j)
    ensures ReplaceFirst(head + pat + tail, pat, repl) == head + repl + tail
  {
    var s := head + pat + tail;
    assert s[|head|..|head| + |pat|] == pat;
    assert OccursAt(s, pat, |head|);
    assert s[..|head|] == head;
    assert s[|head| + |pat|..] == tail;
  }

  /** Python's `<` on strings: code-point lexicographic order, a proper prefix first. */
  predicate StrLess(a: string, b: string) {
    if a == [] then b != []
    else if b == [] then false
    else if a[0] != b[0] then a[0] < b[0]
    else StrLess(a[1..], b[1..])
  }

  lemma {:induction false} StrLessIrreflexive(a: string)
    ensures !StrLess(a, a)
  {
    if a != [] {
      StrLessIrreflexive(a[1..]);
    }
  }

  lemma {:induction false} StrLessTransitive(a: string, b: string, c: string)
    requires StrLess(a, b) && StrLess(b, c)
    ensures StrLess(a, c)
  {
    if a != [] && b != [] && c != [] && a[0] == b[0] && b[0] == c[0] {
      StrLessTransitive(a[1..], b[1..], c[1..]);
    }
  }

  lemma {:induction false} StrLessTotal(a: string, b: string)
    requires a != b
    ensures StrLess(a, b) || StrLess(b, a)
  {
    if a != [] && b != [] && a[0] == b[0] {
      assert a == [a[0]] + a[1..] && b == [b[0]] + b[1..];
      StrLessTotal(a[1..], b[1..]);
    }
  }

  predicate IsDigit(c: char) {
    '0' <= c <= '9'
  }

  function DigitValue(c: char): nat {
    if IsDigit(c) then c as int - '0' as int else 0
  }

  function DigitChar(d: nat): (c: char)
    requires d < 10
    ensures IsDigit(c) && DigitValue(c) == d
  {
    ('0' as int + d) as char
  }

  /** The value of a string of digits, ignoring underscores. */
  function DigitsValue(t: string): nat
    decreases |t|
  {
    if t == [] then 0
    else
      var c := t[|t| - 1];
      if IsDigit(c) then DigitsValue(t[..|t| - 1]) * 10 + DigitValue(c)
      else DigitsValue(t[..|t| - 1])
  }

  /** What `int()` accepts after the sign: digits with single underscores between them. */
  predicate WellFormedDigits(t: string) {
    && |t| > 0 && IsDigit(t[0]) && IsDigit(t[|t| - 1])
    && (forall i :: 0 <= i < |t| ==> IsDigit(t[i]) || t[i] == '_')
    && (forall i :: 0 <= i < |t| - 1 ==> !(t[i] == '_' && t[i + 1] == '_'))
  }

  /** `int(s)` in base 10; `None` where Python raises `ValueError`. */
  function ParseInt(s: string): Option<int> {
    var t := Strip(s);
    if t == [] then None
    else if t[0] == '+' || t[0] == '-' then
      var body := t[1..];
      if !WellFormedDigits(body) then None
      else if t[0] == '-' then Some(0 - DigitsValue(body))
      else Some(DigitsValue(body))
    else if WellFormedDigits(t) then Some(DigitsValue(t))
    else None
  }

  /** `str(n)` for a natural number. */
  function NatToString(n: nat): (r: string)
    ensures r != [] && forall i :: 0 <= i < |r| ==> IsDigit(r[i])
    decreases n
  {
    if n < 10 then [DigitChar(n)] else NatToString(n / 10) + [DigitChar(n % 10)]
  }

  /** `str(i)` for an integer. */
  function IntToString(i: int): string {
    if i < 0 then "-" + NatToString(-i) else NatToString(i)
  }

  lemma {:induction false} NatToStringValue(n: nat)
    ensures DigitsValue(NatToString(n)) == n
    decreases n
  {
    if n >= 10 {
      var s := NatToString(n);
      assert s[..|s| - 1] == NatToString(n / 10);
      NatToStringValue(n / 10);
    }
  }

  /** `int(str(i)) == i` */
  lemma NatToStringWellFormed(n: nat)
    ensures WellFormedDigits(NatToString(n)) && DigitsValue(NatToString(n)) == n
  {
    NatToStringValue(n);
  }

  lemma IntToStringEndsWithDigit(i: int)
    ensures IntToString(i) != [] && IsDigit(IntToString(i)[|IntToString(i)| - 1])
  {
    var d := NatToString(if i < 0 then -i else i);
    assert IsDigit(d[|d| - 1]);
  }

  /** `int` reads well-formed digits as their value... */
  lemma ParseIntOfDigits(d: string)
    requires WellFormedDigits(d)
    ensures ParseInt(d) == Some(DigitsValue(d))
  {
    assert !IsSpace(d[0]) && !IsSpace(d[|d| - 1]);
    StripNoEdgeSpace(d);
  }

  /** ... and, after a minus sign, as its negation. */
  lemma ParseIntOfNegDigits(d: string)
    requires WellFormedDigits(d)
    ensures ParseInt("-" + d) == Some(0 - DigitsValue(d))
  {
    var s := "-" + d;
    assert s[1..] == d;
    assert !IsSpace(s[0]) && !IsSpace(s[|s| - 1]);
    StripNoEdgeSpace(s);
  }

  lemma ParseIntOfIntToString(i: int)
    ensures ParseInt(IntToString(i)) == Some(i)
  {
    var n: nat := if i < 0 then -i else i;
    NatToStringWellFormed(n);
    if i < 0 {
      ParseIntOfNegDigits(NatToString(n));
    } else {
      ParseIntOfDigits(NatToString(n));
    }
  }
}
