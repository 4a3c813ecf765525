/**
 * Pieces of output rendering that are logic rather than formatting:
 * `encode_references`, `select_detail` and the `DayWriter` section counter.
 */
module Render {
  import opened Wrappers
  import opened Text

  // ---------------------------------------------------------------------
  // encode_references

  predicate IsAscii(s: string) {
    forall i :: 0 <= i < |s| ==> s[i] as int <= 127
  }

  /** One character of the output: itself when ASCII, else `&#N;` with N its code point in decimal. */
  function EncodeChar(c: char): (r: string)
    ensures IsAscii(r)
    ensures c as int <= 127 ==> r == [c]
    ensures c as int > 127 ==> |r| >= 4 && r[0] == '&' && r[1] == '#' && r[|r| - 1] == ';'
  {
    if c as int <= 127 then [c] else "&#" + NatToString(c as int) + ";"
  }

  /** `encode_references`: every character above 127 becomes an HTML numeric character reference. */
  function EncodeReferences(s: string): (r: string)
    ensures IsAscii(r)
    ensures IsAscii(s) ==> r == s
    ensures |r| >= |s|
    decreases |s|
  {
    if s == [] then []
    else
      var r := EncodeChar(s[0]) + EncodeReferences(s[1..]);
      assert IsAscii(s) ==> IsAscii(s[1..]) && s == [s[0]] + s[1..];
      r
  }

  lemma {:induction false} EncodeAppend(a: string, b: string)
    ensures EncodeReferences(a + b) == EncodeReferences(a) + EncodeReferences(b)
    decreases |a|
  {
    if a == [] {
      assert a + b == b;
    } else {
      assert (a + b)[0] == a[0] && (a + b)[1..] == a[1..] + b;
      EncodeAppend(a[1..], b);
    }
  }

  /** Encoding twice is encoding once. */
  lemma EncodeIdempotent(s: string)
    ensures EncodeReferences(EncodeReferences(s)) == EncodeReferences(s)
  {
  }

  /** A code point that Dafny's `char` can hold. */
  predicate IsScalar(n: int) {
    0 <= n < 0xD800 || 0xE000 <= n < 0x11_0000
  }

  /** The length of the run of decimal digits that `s` starts with. */
  function DigitRun(s: string): (n: nat)
    ensures n <= |s|
    ensures forall i :: 0 <= i < n ==> IsDigit(s[i])
    ensures n < |s| ==> !IsDigit(s[n])
  {
    if s != [] && IsDigit(s[0]) then 1 + DigitRun(s[1..]) else 0
  }

  /**
   * Reads `&#N;` references back as characters; everything else is copied.
   * It is the partner of `EncodeReferences`, which the source does not have.
   */
  function DecodeReferences(s: string): string
    decreases |s|
  {
    if s == [] then []
    else if |s| >= 2 && s[0] == '&' && s[1] == '#' then
      var n := DigitRun(s[2..]);
      if n > 0 && 2 + n < |s| && s[2 + n] == ';' && IsScalar(DigitsValue(s[2..2 + n])) then
        [DigitsValue(s[2..2 + n]) as char] + DecodeReferences(s[3 + n..])
      else [s[0]] + DecodeReferences(s[1..])
    else [s[0]] + DecodeReferences(s[1..])
  }

  lemma {:induction false} DigitRunOfDigits(d: string, t: string)
    requires forall i :: 0 <= i < |d| ==> IsDigit(d[i])
    requires t != [] && !IsDigit(t[0])
    ensures DigitRun(d + t) == |d|
    decreases |d|
  {
    if d == [] {
      assert d + t == t;
    } else {
      assert (d + t)[0] == d[0] && (d + t)[1..] == d[1..] + t;
      DigitRunOfDigits(d[1..], t);
    }
  }

  /** `&#N;` followed by anything decodes to the character N. */
  lemma DecodeReference(d: string, rest: string)
    requires d != [] && forall i :: 0 <= i < |d| ==> IsDigit(d[i])
    requires IsScalar(DigitsValue(d))
    ensures DecodeReferences("&#" + d + ";" + rest) == [DigitsValue(d) as char] + DecodeReferences(rest)
  {
    var s := "&#" + d + ";" + rest;
    var t := ";" + rest;
    assert s[2..] == d + t;
    DigitRunOfDigits(d, t);
    var n := |d|;
    assert s[2..2 + n] == d;
    assert s[2 + n] == ';';
    assert s[3 + n..] == rest;
  }

  lemma DecodeEncodeChar(c: char, rest: string)
    requires c != '&'
    ensures DecodeReferences(EncodeChar(c) + rest) == [c] + DecodeReferences(rest)
  {
    if c as int > 127 {
      var d := NatToString(c as int);
      NatToStringValue(c as int);
      DecodeReference(d, rest);
      assert EncodeChar(c) + rest == "&#" + d + ";" + rest;
    } else {
      var s := EncodeChar(c) + rest;
      assert s[0] == c && s[1..] == rest;
    }
  }

  /** Without a literal `&` in the input, decoding undoes the encoding. */
  lemma {:induction false} DecodeEncode(s: string)
    requires forall i :: 0 <= i < |s| ==> s[i] != '&'
    ensures DecodeReferences(EncodeReferences(s)) == s
    decreases |s|
  {
    if s != [] {
      DecodeEncodeChar(s[0], EncodeReferences(s[1..]));
      DecodeEncode(s[1..]);
      assert s == [s[0]] + s[1..];
    }
  }

  // ---------------------------------------------------------------------
  // select_detail

  /** A feedparser detail dictionary: its `type`, its `value` and its other keys. */
  datatype Detail = Detail(ctype: Option<string>, value: string, extra: map<string, string>)

  /** What an entry field holds: nothing, one detail, or a list of them. */
  datatype Details = NoDetails | OneDetail(d: Detail) | DetailList(ds: seq<Detail>)

  /** Python 3 cannot order two different dictionaries, so a tie between
    * different candidates makes the sort raise. */
  datatype SelectError = Unorderable

  function TypeScore(ctype: string): (n: int)
    ensures n in {0, 10, 20, 30}
  {
    if ctype == "text/html" then 30
    else if ctype == "application/xhtml+xml" then 20
    else if ctype == "text/plain" then 10
    else 0
  }

  /** A detail is a candidate when it has a type and a non-empty value. */
  predicate IsCandidate(d: Detail) {
    d.ctype.Some? && d.value != ""
  }

  function Score(d: Detail): int
    requires d.ctype.Some?
  {
    TypeScore(d.ctype.value)
  }

  function AsList(details: Details): seq<Detail> {
    match details
    case NoDetails => []
    case OneDetail(d) => [d]
    case DetailList(ds) => ds
  }

  /** Two candidates with equal scores and different contents. */
  predicate HasConflict(ds: seq<Detail>) {
    exists i, j :: 0 <= i < |ds| && 0 <= j < |ds| && IsCandidate(ds[i]) && IsCandidate(ds[j])
      && Score(ds[i]) == Score(ds[j]) && ds[i] != ds[j]
  }

  /** The best-scoring candidate; on equal scores the earlier one is kept. */
  function Best(ds: seq<Detail>): (r: Option<Detail>)
    ensures r.None? <==> forall i :: 0 <= i < |ds| ==> !IsCandidate(ds[i])
    ensures r.Some? ==> IsCandidate(r.value) && r.value in ds
    ensures r.Some? ==> forall i :: 0 <= i < |ds| && IsCandidate(ds[i]) ==> Score(ds[i]) <= Score(r.value)
    decreases |ds|
  {
    if ds == [] then None
    else
      var b := Best(ds[..|ds| - 1]);
      var d := ds[|ds| - 1];
      assert ds == ds[..|ds| - 1] + [d];
      if !IsCandidate(d) then b
      else if b.None? || Score(d) > Score(b.value) then Some(d)
      else b
  }

  /** Whether some candidate in `ds` has the score of `d` but other contents. */
  function Clashes(d: Detail, ds: seq<Detail>): (r: bool)
    requires IsCandidate(d)
    ensures r <==> exists i :: 0 <= i < |ds| && IsCandidate(ds[i]) && Score(ds[i]) == Score(d) && ds[i] != d
    decreases |ds|
  {
    if ds == [] then false
    else
      var e := ds[|ds| - 1];
      assert ds == ds[..|ds| - 1] + [e];
      (IsCandidate(e) && Score(e) == Score(d) && e != d) || Clashes(d, ds[..|ds| - 1])
  }

  /** Whether the sort would have to compare two different candidates of equal score. */
  function Tied(ds: seq<Detail>): (r: bool)
    ensures r <==> HasConflict(ds)
    decreases |ds|
  {
    if ds == [] then false
    else
      var d := ds[|ds| - 1];
      ConflictExtend(ds[..|ds| - 1], d);
      assert ds == ds[..|ds| - 1] + [d];
      Tied(ds[..|ds| - 1]) || (IsCandidate(d) && Clashes(d, ds[..|ds| - 1]))
  }

  lemma ConflictExtend(ds: seq<Detail>, d: Detail)
    ensures HasConflict(ds + [d]) <==>
      HasConflict(ds) || (IsCandidate(d) && exists i :: 0 <= i < |ds| && IsCandidate(ds[i]) && Score(ds[i]) == Score(d) && ds[i] != d)
  {
    var s := ds + [d];
    if HasConflict(s) && !HasConflict(ds) {
      var i, j :| 0 <= i < |s| && 0 <= j < |s| && IsCandidate(s[i]) && IsCandidate(s[j])
        && Score(s[i]) == Score(s[j]) && s[i] != s[j];
      if i == |ds| {
        assert s[j] == ds[j];
      } else {
        assert j == |ds|;
        assert s[i] == ds[i];
      }
    }
    if HasConflict(ds) {
      var i, j :| 0 <= i < |ds| && 0 <= j < |ds| && IsCandidate(ds[i]) && IsCandidate(ds[j])
        && Score(ds[i]) == Score(ds[j]) && ds[i] != ds[j];
      assert s[i] == ds[i] && s[j] == ds[j];
    }
    if IsCandidate(d) && exists i :: 0 <= i < |ds| && IsCandidate(ds[i]) && Score(ds[i]) == Score(d) && ds[i] != d {
      var i :| 0 <= i < |ds| && IsCandidate(ds[i]) && Score(ds[i]) == Score(d) && ds[i] != d;
      assert s[i] == ds[i] && s[|ds|] == d;
    }
  }

  /**
   * `select_detail`: the candidate with the highest type score (`text/html`
   * over `application/xhtml+xml` over `text/plain` over anything else), or
   * `None` when there is no candidate.
   */
  function SelectDetail(details: Details): (r: Result<Option<Detail>, SelectError>)
    ensures r.Failure? <==> HasConflict(AsList(details))
    ensures r == Success(None) <==> forall i :: 0 <= i < |AsList(details)| ==> !IsCandidate(AsList(details)[i])
    ensures r.Success? && r.value.Some? ==>
      && IsCandidate(r.value.value) && r.value.value in AsList(details)
      && forall i :: 0 <= i < |AsList(details)| && IsCandidate(AsList(details)[i]) ==>
           Score(AsList(details)[i]) <= Score(r.value.value)
  {
    var ds := AsList(details);
    if Tied(ds) then Failure(Unorderable) else Success(Best(ds))
  }

  /** Without a conflicting tie the choice is unique: any candidate of top score is the one chosen. */
  lemma SelectDetailUnique(details: Details, d: Detail)
    requires !HasConflict(AsList(details))
    requires d in AsList(details) && IsCandidate(d)
    requires forall i :: 0 <= i < |AsList(details)| && IsCandidate(AsList(details)[i]) ==> Score(AsList(details)[i]) <= Score(d)
    ensures SelectDetail(details) == Success(Some(d))
  {
    var ds := AsList(details);
    var b := Best(ds).value;
    var k :| 0 <= k < |ds| && ds[k] == d;
    var m :| 0 <= m < |ds| && ds[m] == b;
    assert Score(b) == Score(d);
  }

  // ---------------------------------------------------------------------
  // DayWriter

  /** What the day writer emits: an opening `<div>` with its heading, or a closing `</div>`. */
  datatype Piece = OpenDay(day: string) | OpenTime(clock: string) | CloseDiv

  /** How many `<div>`s are open after `out`. */
  function Depth(out: seq<Piece>): int {
    if out == [] then 0
    else Depth(out[..|out| - 1]) + (if out[|out| - 1] == CloseDiv then -1 else 1)
  }

  /** No prefix closes more `<div>`s than it opened. */
  ghost predicate WellNested(out: seq<Piece>)
    decreases |out|
  {
    out == [] || (Depth(out) >= 0 && WellNested(out[..|out| - 1]))
  }

  /** `WellNested` says what its name promises: no prefix has negative depth. */
  lemma {:induction false} WellNestedPrefixes(out: seq<Piece>, k: nat)
    requires WellNested(out) && k <= |out|
    ensures Depth(out[..k]) >= 0
    decreases |out|
  {
    if k < |out| {
      assert out[..k] == out[..|out| - 1][..k];
      WellNestedPrefixes(out[..|out| - 1], k);
    } else {
      assert out[..k] == out;
      if out == [] { assert Depth(out) == 0; }
    }
  }

  function Closes(n: nat): (r: seq<Piece>)
    ensures |r| == n && forall i :: 0 <= i < n ==> r[i] == CloseDiv
  {
    if n == 0 then [] else Closes(n - 1) + [CloseDiv]
  }

  lemma {:induction false} DepthAppend(a: seq<Piece>, b: seq<Piece>)
    ensures Depth(a + b) == Depth(a) + Depth(b)
    decreases |b|
  {
    if b == [] {
      assert a + b == a;
    } else {
      assert (a + b)[..|a + b| - 1] == a + b[..|b| - 1];
      DepthAppend(a, b[..|b| - 1]);
    }
  }

  lemma {:induction false} DepthCloses(n: nat)
    ensures Depth(Closes(n)) == -(n as int)
    decreases n
  {
    if n > 0 {
      assert Closes(n)[..n - 1] == Closes(n - 1);
      DepthCloses(n - 1);
    }
  }

  /** `localtime(s)[:k]` */
  function Take(tm: seq<int>, k: nat): seq<int> {
    if |tm| <= k then tm else tm[..k]
  }

  /**
   * `DayWriter`: opens a day section when the date changes and a time
   * section when the minute-second stamp changes, and keeps `counter` equal
   * to the number of sections still open.
   */
  class DayWriter {
    var counter: nat
    /** `None` before the first article (the initial `[]`, which no time tuple equals). */
    var lasttime: Option<seq<int>>
    var out: seq<Piece>
    const daysections: bool
    const timesections: bool

    ghost predicate Valid()
      reads this
    {
      && Depth(out) == counter
      && WellNested(out)
      && counter <= (if daysections then 1 else 0) + (if timesections then 1 else 0)
    }

    constructor (daysections: bool, timesections: bool)
      ensures Valid()
      ensures counter == 0 && lasttime == None && out == []
      ensures this.daysections == daysections && this.timesections == timesections
    {
      this.daysections := daysections;
      this.timesections := timesections;
      counter := 0;
      lasttime := None;
      out := [];
    }

    /** `close(n)`: closes sections until at most `n` remain open. */
    method Close(n: nat)
      requires Depth(out) == counter && WellNested(out)
      modifies this
      ensures counter == if old(counter) > n then n else old(counter)
      ensures out == old(out) + Closes(old(counter) - counter)
      ensures Depth(out) == counter && WellNested(out)
      ensures lasttime == old(lasttime)
    {
      while counter > n
        invariant counter <= old(counter)
        invariant old(counter) > n ==> counter >= n
        invariant old(counter) <= n ==> counter == old(counter)
        invariant out == old(out) + Closes(old(counter) - counter)
        invariant Depth(out) == counter && WellNested(out)
        invariant lasttime == old(lasttime)
        decreases counter
      {
        ghost var before := out;
        out := out + [CloseDiv];
        counter := counter - 1;
        assert Closes(old(counter) - counter) == Closes(old(counter) - counter - 1) + [CloseDiv];
        assert out[..|out| - 1] == before;
      }
    }

    /** `start_day` / `start_time`: open one section. */
    method Open(p: Piece)
      requires p != CloseDiv
      requires Depth(out) == counter && WellNested(out)
      modifies this
      ensures counter == old(counter) + 1
      ensures out == old(out) + [p]
      ensures Depth(out) == counter && WellNested(out)
      ensures lasttime == old(lasttime)
    {
      ghost var before := out;
      out := out + [p];
      counter := counter + 1;
      assert out[..|out| - 1] == before;
    }

    /**
     * `time(s)`, given `localtime(s)` (`None` when it raises `ValueError`,
     * which is ignored) and the day and clock headings the configured formats
     * give for it.
     */
    method Time(tm: Option<seq<int>>, day: string, clock: string)
      requires Valid()
      modifies this
      ensures Valid()
      ensures tm.None? ==> counter == old(counter) && out == old(out) && lasttime == old(lasttime)
      ensures tm.Some? ==>
        var (p1, c1) := DaySection(old(counter), daysections && NewDay(old(lasttime), tm.value), day);
        var (p2, c2) := TimeSection(c1, timesections && NewStamp(old(lasttime), tm.value), daysections, clock);
        out == old(out) + p1 + p2 && counter == c2 && lasttime == tm
    {
      if tm.None? {
        return;
      }
      var t := tm.value;
      DayPhase(NewDay(lasttime, t) && daysections, day);
      TimePhase(NewStamp(lasttime, t) && timesections, clock);
      lasttime := tm;
    }

    /** The first half of `time`: on a new date, `close(0)` and `start_day`. */
    method DayPhase(start: bool, day: string)
      requires Valid()
      modifies this
      ensures Valid() && lasttime == old(lasttime)
      ensures out == old(out) + DaySection(old(counter), start && daysections, day).0
      ensures counter == DaySection(old(counter), start && daysections, day).1
    {
      if start && daysections {
        Close(0);
        Open(OpenDay(day));
      }
    }

    /** The second half of `time`: on a new stamp, `close(1)` (or `close(0)`
      * without day sections) and `start_time`. */
    method TimePhase(start: bool, clock: string)
      requires Valid()
      modifies this
      ensures Valid() && lasttime == old(lasttime)
      ensures out == old(out) + TimeSection(old(counter), start && timesections, daysections, clock).0
      ensures counter == TimeSection(old(counter), start && timesections, daysections, clock).1
    {
      if start && timesections {
        if daysections {
          Close(1);
        } else {
          Close(0);
        }
        Open(OpenTime(clock));
      }
    }

    /** Check that the date differs from the previous article's. */
    static predicate NewDay(last: Option<seq<int>>, tm: seq<int>) {
      last.None? || Take(tm, 3) != Take(last.value, 3)
    }

    static predicate NewStamp(last: Option<seq<int>>, tm: seq<int>) {
      last.None? || Take(tm, 6) != Take(last.value, 6)
    }
  }

  /** The pieces a new day writes and the sections then open: all
    * open sections are closed and a day section is opened. */
  function DaySection(counter: nat, start: bool, day: string): (r: (seq<Piece>, nat))
    ensures start ==> r.1 == 1 && r.0 == Closes(counter) + [OpenDay(day)]
    ensures !start ==> r == ([], counter)
  {
    if start then (Closes(counter) + [OpenDay(day)], 1) else ([], counter)
  }

  /** The pieces a new time stamp writes: the sections below the day
    * section (or all of them without day sections) are closed and a
    * time section is opened. */
  function TimeSection(counter: nat, start: bool, daysections: bool, clock: string): (r: (seq<Piece>, nat))
    ensures start ==> r.1 == 1 + (if daysections && counter >= 1 then 1 else 0)
    ensures start ==> r.0 == Closes(counter - (r.1 - 1)) + [OpenTime(clock)]
    ensures !start ==> r == ([], counter)
  {
    var keep := if daysections && counter >= 1 then 1 else 0;
    if start then (Closes(counter - keep) + [OpenTime(clock)], keep + 1) else ([], counter)
  }

  /** A new date is always a new time stamp too, so with both kinds of
    * section a new day opens a day section and then a time section in it. */
  lemma NewDayOpensBoth(counter: nat, last: Option<seq<int>>, tm: seq<int>, day: string, clock: string)
    requires DayWriter.NewDay(last, tm)
    ensures DayWriter.NewStamp(last, tm)
    ensures var (p1, c1) := DaySection(counter, true, day);
      TimeSection(c1, DayWriter.NewStamp(last, tm), true, clock) == ([OpenTime(clock)], 2)
      && p1 + [OpenTime(clock)] == Closes(counter) + [OpenDay(day), OpenTime(clock)]
  {
    assert Closes(counter) + [OpenDay(day)] + [OpenTime(clock)] == Closes(counter) + [OpenDay(day), OpenTime(clock)];
    assert Closes(0) + [OpenTime(clock)] == [OpenTime(clock)];
  }

  /** After the final `close()` every `<div>` the writer opened is closed. */
  lemma ClosedBalanced(out: seq<Piece>, counter: nat)
    requires Depth(out) == counter
    ensures Depth(out + Closes(counter)) == 0
  {
    DepthAppend(out, Closes(counter));
    DepthCloses(counter);
  }
}
