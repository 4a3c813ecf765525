/**
 * Template expansion (`fill_template`). A template is given as the list of
 * parts that splitting it on `__[^_].*?__` produces: literal text and
 * markers. `__x__` expands to `bits["x"]` (or to nothing when `x` is not a
 * bit), and `__if_x__ .. [__else__ ..] __endif__` keeps its first branch
 * only when `bits["x"]` exists and is not empty.
 */
module Templates {
  import opened Text

  type Bits = map<string, string>

  /** A part counts as a marker when it starts and ends with two underscores. */
  predicate IsMarker(part: string) {
    StartsWith(part, "__") && EndsWith(part, "__")
  }

  /** `part[2:-2]` */
  function MarkerKey(part: string): string {
    if |part| >= 4 then part[2..|part| - 2] else ""
  }

  /** The if-stack (innermost condition last) and the text written so far. */
  datatype FillState = FillState(stack: seq<bool>, out: string)

  const Start := FillState([], "")

  /** Text is written only when no enclosing condition is false. */
  function Write(st: FillState, s: string): FillState {
    if false !in st.stack then st.(out := st.out + s) else st
  }

  /** What one part of the template does. */
  function Step(st: FillState, part: string, bits: Bits): FillState {
    if IsMarker(part) then
      var key := MarkerKey(part);
      if StartsWith(key, "if_") then
        var k := key[3..];
        st.(stack := st.stack + [k in bits && bits[k] != ""])
      else if key == "endif" then
        if st.stack != [] then st.(stack := st.stack[..|st.stack| - 1]) else st
      else if key == "else" then
        if st.stack != [] then st.(stack := st.stack[..|st.stack| - 1] + [!st.stack[|st.stack| - 1]]) else st
      else if key in bits then Write(st, bits[key])
      else st
    else Write(st, part)
  }

  /** The state after the remaining parts. */
  function FillFrom(st: FillState, parts: seq<string>, bits: Bits): FillState
    decreases |parts|
  {
    if parts == [] then st else FillFrom(Step(st, parts[0], bits), parts[1..], bits)
  }

  /** `fill_template`, over the template's parts. */
  method FillTemplate(parts: seq<string>, bits: Bits) returns (v: string)
    ensures v == FillFrom(Start, parts, bits).out
  {
    var ifStack: seq<bool> := [];
    var f: string := "";
    var i := 0;
    while i < |parts|
      invariant 0 <= i <= |parts|
      invariant FillFrom(FillState(ifStack, f), parts[i..], bits) == FillFrom(Start, parts, bits)
    {
      var part := parts[i];
      assert parts[i..] == [part] + parts[i + 1..];
      if StartsWith(part, "__") && EndsWith(part, "__") {
        var key := MarkerKey(part);
        if StartsWith(key, "if_") {
          var k := key[3..];
          ifStack := ifStack + [k in bits && bits[k] != ""];
        } else if key == "endif" {
          if ifStack != [] {
            ifStack := ifStack[..|ifStack| - 1];
          }
        } else if key == "else" {
          if ifStack != [] {
            var top := ifStack[|ifStack| - 1];
            ifStack := ifStack[..|ifStack| - 1] + [!top];
          }
        } else if key in bits {
          if false !in ifStack {
            f := f + bits[key];
          }
        }
      } else {
        if false !in ifStack {
          f := f + part;
        }
      }
      i := i + 1;
    }
    v := f;
  }

  function Concat(parts: seq<string>): string {
    if parts == [] then [] else parts[0] + Concat(parts[1..])
  }

  lemma {:induction false} FillFromAppend(st: FillState, a: seq<string>, b: seq<string>, bits: Bits)
    ensures FillFrom(st, a + b, bits) == FillFrom(FillFrom(st, a, bits), b, bits)
    decreases |a|
  {
    if a == [] {
      assert a + b == b;
    } else {
      assert (a + b)[0] == a[0] && (a + b)[1..] == a[1..] + b;
      FillFromAppend(Step(st, a[0], bits), a[1..], b, bits);
    }
  }

  /** Literal text keeps the if-stack and is written exactly when no enclosing condition is false. */
  lemma {:induction false} PlainText(st: FillState, parts: seq<string>, bits: Bits)
    requires forall i :: 0 <= i < |parts| ==> !IsMarker(parts[i])
    ensures FillFrom(st, parts, bits).stack == st.stack
    ensures FillFrom(st, parts, bits).out == st.out + (if false !in st.stack then Concat(parts) else "")
    decreases |parts|
  {
    if parts != [] {
      PlainText(Step(st, parts[0], bits), parts[1..], bits);
      if false !in st.stack {
        assert st.out + parts[0] + Concat(parts[1..]) == st.out + Concat(parts);
      }
    }
  }

  /** A template without markers is returned unchanged. */
  lemma MarkerFreeUnchanged(parts: seq<string>, bits: Bits)
    requires forall i :: 0 <= i < |parts| ==> !IsMarker(parts[i])
    ensures FillFrom(Start, parts, bits).out == Concat(parts)
  {
    PlainText(Start, parts, bits);
  }

  /** The marker `__name__` for a key. */
  function Marker(key: string): string {
    "__" + key + "__"
  }

  lemma MarkerShape(key: string)
    ensures IsMarker(Marker(key)) && MarkerKey(Marker(key)) == key
  {
    var m := Marker(key);
    assert m[..2] == "__";
    assert m[|m| - 2..] == "__";
    assert m[2..|m| - 2] == key;
  }

  lemma StepIf(st: FillState, k: string, bits: Bits)
    ensures Step(st, Marker("if_" + k), bits) == st.(stack := st.stack + [k in bits && bits[k] != ""])
  {
    MarkerShape("if_" + k);
    assert ("if_" + k)[..3] == "if_" && ("if_" + k)[3..] == k;
  }

  lemma StepEndif(st: FillState, bits: Bits)
    ensures st.stack != [] ==> Step(st, Marker("endif"), bits) == st.(stack := st.stack[..|st.stack| - 1])
    ensures st.stack == [] ==> Step(st, Marker("endif"), bits) == st
  {
    MarkerShape("endif");
    assert "endif"[..3][0] == 'e';
  }

  lemma StepElse(st: FillState, bits: Bits)
    ensures st.stack != [] ==> Step(st, Marker("else"), bits)
                                == st.(stack := st.stack[..|st.stack| - 1] + [!st.stack[|st.stack| - 1]])
    ensures st.stack == [] ==> Step(st, Marker("else"), bits) == st
  {
    MarkerShape("else");
    assert "else"[..3][0] == 'e';
  }

  /** `__if_k__ body __endif__` gives the body exactly when bit `k` is present and not empty. */
  lemma IfEndif(k: string, body: seq<string>, bits: Bits)
    requires forall i :: 0 <= i < |body| ==> !IsMarker(body[i])
    ensures FillFrom(Start, [Marker("if_" + k)] + body + [Marker("endif")], bits).out
         == if k in bits && bits[k] != "" then Concat(body) else ""
  {
    var c := k in bits && bits[k] != "";
    var p1, p3 := [Marker("if_" + k)], [Marker("endif")];
    FillFromAppend(Start, p1 + body, p3, bits);
    FillFromAppend(Start, p1, body, bits);
    StepIf(Start, k, bits);
    var st1 := FillFrom(Start, p1, bits);
    assert st1 == FillState([c], "");
    PlainText(st1, body, bits);
    var st2 := FillFrom(st1, body, bits);
    StepEndif(st2, bits);
    assert FillFrom(st2, p3, bits) == FillState([], st2.out);
  }

  /** `__if_k__ a __else__ b __endif__` gives `a` when bit `k` is present and not empty, else `b`. */
  lemma IfElseEndif(k: string, a: seq<string>, b: seq<string>, bits: Bits)
    requires forall i :: 0 <= i < |a| ==> !IsMarker(a[i])
    requires forall i :: 0 <= i < |b| ==> !IsMarker(b[i])
    ensures FillFrom(Start, [Marker("if_" + k)] + a + [Marker("else")] + b + [Marker("endif")], bits).out
         == if k in bits && bits[k] != "" then Concat(a) else Concat(b)
  {
    var c := k in bits && bits[k] != "";
    var w2 := [Marker("if_" + k)] + a;
    var w3 := w2 + [Marker("else")];
    IfPrefix(k, a, bits);
    var st2 := FillFrom(Start, w2, bits);
    assert st2 == FillState([c], if c then Concat(a) else "");
    ElseEndif(Start, w2, b, bits);
  }

  lemma IfPrefix(k: string, a: seq<string>, bits: Bits)
    requires forall i :: 0 <= i < |a| ==> !IsMarker(a[i])
    ensures FillFrom(Start, [Marker("if_" + k)] + a, bits)
         == FillState([k in bits && bits[k] != ""], if k in bits && bits[k] != "" then Concat(a) else "")
  {
    var c := k in bits && bits[k] != "";
    var p1 := [Marker("if_" + k)];
    FillFromAppend(Start, p1, a, bits);
    StepIf(Start, k, bits);
    var st1 := FillFrom(Start, p1, bits);
    assert st1 == FillState([c], "");
    PlainText(st1, a, bits);
  }

  /** After a prefix that leaves one open condition, `__else__ b __endif__` writes `b` when that condition is false. */
  lemma ElseEndif(st: FillState, w: seq<string>, b: seq<string>, bits: Bits)
    requires |FillFrom(st, w, bits).stack| == 1
    requires forall i :: 0 <= i < |b| ==> !IsMarker(b[i])
    ensures FillFrom(st, w + [Marker("else")] + b + [Marker("endif")], bits)
         == FillState([], FillFrom(st, w, bits).out + (if FillFrom(st, w, bits).stack[0] then "" else Concat(b)))
  {
    var st2 := FillFrom(st, w, bits);
    var w3 := w + [Marker("else")];
    FillFromAppend(st, w3 + b, [Marker("endif")], bits);
    FillFromAppend(st, w3, b, bits);
    FillFromAppend(st, w, [Marker("else")], bits);
    StepElse(st2, bits);
    FillFromCons(st2, Marker("else"), [], bits);
    var st3 := FillState([!st2.stack[0]], st2.out);
    assert FillFrom(st, w3, bits) == st3;
    PlainText(st3, b, bits);
    var st4 := FillFrom(st3, b, bits);
    StepEndif(st4, bits);
    FillFromCons(st4, Marker("endif"), [], bits);
  }

  lemma FillFromCons(st: FillState, part: string, rest: seq<string>, bits: Bits)
    ensures FillFrom(st, [part] + rest, bits) == FillFrom(Step(st, part, bits), rest, bits)
  {
    assert ([part] + rest)[0] == part && ([part] + rest)[1..] == rest;
  }

  /** `__endif__` and `__else__` with an empty if-stack are ignored. */
  lemma StrayCloseIgnored(out: string, part: string, bits: Bits)
    requires part == Marker("endif") || part == Marker("else")
    ensures Step(FillState([], out), part, bits) == FillState([], out)
  {
    StepEndif(FillState([], out), bits);
    StepElse(FillState([], out), bits);
  }

  /** `__x__` writes `bits["x"]` where writing is enabled, and nothing when `x` is not a bit. */
  lemma KeyExpansion(st: FillState, x: string, bits: Bits)
    requires !StartsWith(x, "if_") && x != "endif" && x != "else"
    ensures Step(st, Marker(x), bits).stack == st.stack
    ensures Step(st, Marker(x), bits).out
         == st.out + (if x in bits && false !in st.stack then bits[x] else "")
  {
    MarkerShape(x);
  }

  /** Inside a false condition nothing is written, whatever the parts, until an
    * `__else__` or `__endif__` closes it. */
  lemma {:induction false} Suppressed(st: FillState, parts: seq<string>, bits: Bits)
    requires false in st.stack
    requires forall i :: 0 <= i < |parts| ==> !(IsMarker(parts[i]) && MarkerKey(parts[i]) in {"endif", "else"})
    ensures FillFrom(st, parts, bits).out == st.out
    ensures st.stack <= FillFrom(st, parts, bits).stack
    decreases |parts|
  {
    if parts != [] {
      var st1 := Step(st, parts[0], bits);
      assert st1.out == st.out && st.stack <= st1.stack && false in st1.stack by {
        if IsMarker(parts[0]) && StartsWith(MarkerKey(parts[0]), "if_") {
          var k := MarkerKey(parts[0])[3..];
          assert st1.stack == st.stack + [k in bits && bits[k] != ""];
        } else {
          assert st1 == st;
        }
      }
      Suppressed(st1, parts[1..], bits);
      assert st.stack <= st1.stack <= FillFrom(st1, parts[1..], bits).stack;
    }
  }
}
