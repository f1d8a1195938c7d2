/**
 Which texts the tokenizer refuses, and for which reason: what a primitive, a string and a closing bracket must look
 like to be taken, what makes a text partial rather than invalid, and when the token array is too small.

 A string that is only partial can be completed; what is invalid stays so whatever follows.

 Source: src/jsmn.h in strict mode with parent links.
 */
module Refusals {
  import opened Bytes
  import opened Tokenizer
  import opened TokenForest

  // ------------------------------------------------------------------ primitives

  /** Tab, newline, return, blank, comma and the closing brackets, or the terminating zero. */
  predicate EndsPrimitive(c: byte) {
    c in {0, 9, 10, 13, 32, 44, 93, 125}
  }

  /**
   A primitive runs to the first of these; it is invalid exactly when it holds a character that is not printable
   ASCII, and partial exactly when it is not invalid and nothing but the end of the text follows.
   */
  lemma {:induction false} PrimitiveExact(js: Text, p: nat, q: nat)
    requires p <= q <= |js| && (q < |js| ==> EndsPrimitive(js[q])) && forall k :: p <= k < q ==> !EndsPrimitive(js[k])
    ensures PrimitiveEnd(js, p) ==
      if exists k :: p <= k < q && !(32 < js[k] < 127) then Bad(Inval)
      else if q == |js| || js[q] == 0 then Bad(Part)
      else At(q)
    decreases q - p
  {
    if p < q {
      assert !EndsPrimitive(js[p]);
      PrimitiveExact(js, p + 1, q);
    }
  }

  // ------------------------------------------------------------------ strings

  /** What is wrong, or right, with a string stays so whatever text follows. */
  lemma {:induction false} StringStays(js: Text, more: Text, p: nat)
    requires p <= |js| && StringEnd(js, p) != Bad(Part)
    ensures StringEnd(js + more, p) == StringEnd(js, p)
    decreases |js| - p
  {
    var all := js + more;
    if js[p] != QUOTE {
      if js[p] != BACKSLASH {
        StringStays(js, more, p + 1);
      } else if p + 1 < |js| && IsShortEscape(js[p + 1]) {
        StringStays(js, more, p + 2);
      } else if p + 1 < |js| && js[p + 1] == LOWER_U {
        HexStays(js, more, p + 2, 4);
        var h := HexRun(js, p + 2, 4);
        if h.At? {
          StringStays(js, more, h.p);
        }
      }
    }
  }

  lemma {:induction false} HexStays(js: Text, more: Text, p: nat, n: nat)
    requires p <= |js|
    ensures var h := HexRun(js, p, n);
      (h.At? && h.p < |js|) || h.Bad? ==> HexRun(js + more, p, n) == h
    decreases n
  {
    if n > 0 && p < |js| && js[p] != 0 && IsHex(js[p]) {
      HexStays(js, more, p + 1, n - 1);
    }
  }

  lemma {:induction false} HexFills(js: Text, more: Text, p: nat, n: nat)
    requires p <= |js| <= p + n && (forall k :: p <= k < |js| ==> IsHex(js[k])) && p + n <= |js| + |more|
    requires forall k :: 0 <= k < |more| && k < p + n - |js| ==> more[k] == 48
    ensures HexRun(js + more, p, n) == At(p + n)
    decreases n
  {
    if n > 0 {
      assert (js + more)[p] == if p < |js| then js[p] else more[p - |js|];
      if p < |js| {
        HexFills(js, more, p + 1, n - 1);
      } else {
        var all := js + more;
        assert all[..p + 1] + more[1..] == all;
        HexFills(all[..p + 1], more[1..], p + 1, n - 1);
      }
    }
  }

  lemma {:induction false} HexRead(js: Text, p: nat, n: nat)
    requires p <= |js| && HexRun(js, p, n).At?
    ensures var q := HexRun(js, p, n).p; q <= p + n && forall k :: p <= k < q ==> IsHex(js[k])
    ensures var q := HexRun(js, p, n).p; q < p + n ==> q == |js| || js[q] == 0
    decreases n
  {
    if n > 0 && p < |js| && js[p] != 0 {
      HexRead(js, p + 1, n - 1);
    }
  }

  /** A partial string can be completed: nothing but its end is missing. */
  lemma {:induction false} PartialCompletes(js: Text, p: nat) returns (more: Text)
    requires p <= |js| && StringEnd(js, p) == Bad(Part) && forall k :: p <= k < |js| ==> js[k] != 0
    ensures StringEnd(js + more, p).At?
    decreases |js| - p
  {
    if p == |js| {
      more := [QUOTE];
    } else if js[p] != BACKSLASH {
      more := PartialCompletes(js, p + 1);
    } else if p + 1 == |js| {
      more := [LOWER_N, QUOTE];
      assert StringEnd(js + more, p + 2) == At(p + 2);
    } else if IsShortEscape(js[p + 1]) {
      more := PartialCompletes(js, p + 2);
    } else {
      var h := HexRun(js, p + 2, 4);
      HexRead(js, p + 2, 4);
      if h.p < p + 6 {
        more := Repeated(48, p + 6 - h.p) + [QUOTE];
        HexFills(js, more, p + 2, 4);
        assert (js + more)[p + 6] == QUOTE;
      } else {
        more := PartialCompletes(js, h.p);
        assert HexRun(js + more, p + 2, 4) == h by {
          assert js[..h.p] + (js[h.p..] + more) == js + more;
          HexFills(js[..h.p], js[h.p..] + more, p + 2, 4);
        }
      }
    }
  }

  function Repeated(b: byte, n: nat): (t: Text)
    ensures |t| == n && forall i :: 0 <= i < n ==> t[i] == b
  {
    seq(n, _ => b)
  }

  // ------------------------------------------------------------------ the whole text

  lemma {:induction false} PrimitiveStays(js: Text, more: Text, p: nat)
    requires p <= |js| && PrimitiveEnd(js, p) != Bad(Part)
    ensures PrimitiveEnd(js + more, p) == PrimitiveEnd(js, p)
    decreases |js| - p
  {
    if !IsDelimiter(js[p]) && 32 <= js[p] < 127 {
      PrimitiveStays(js, more, p + 1);
    }
  }

  lemma StepStays(js: Text, more: Text, s: State, cap: nat)
    requires Shape(s) && s.pos < |js| && js[s.pos] != 0 && Step(js, s, cap) != Failed(Part)
    ensures Step(js + more, s, cap) == Step(js, s, cap)
  {
    var c := js[s.pos];
    assert (js + more)[s.pos] == c;
    if c == QUOTE {
      StringStays(js, more, s.pos + 1);
    } else if StartsPrimitive(c) && TakesPrimitive(s) {
      PrimitiveStays(js, more, s.pos);
    }
  }

  /** An invalid text and one with too many tokens stay so whatever follows; only a partial one may still become valid. */
  lemma {:induction false} RefusalIsFinal(js: Text, more: Text, s: State, cap: nat)
    requires Shape(s) && s.pos <= |js| && Run(js, s, cap).Failed? && Run(js, s, cap).f != Part
    ensures Run(js + more, s, cap) == Run(js, s, cap)
    decreases |js| - s.pos
  {
    StepStays(js, more, s, cap);
    if Step(js, s, cap).Done? {
      RefusalIsFinal(js, more, Step(js, s, cap).s, cap);
    }
  }

  // ------------------------------------------------------------------ the token array

  lemma StepTokens(js: Text, s: State, a: nat, b: nat)
    requires Shape(s) && s.pos < |js| && js[s.pos] != 0 && |s.toks| <= a && |s.toks| <= b && Step(js, s, a).Done?
    ensures var n := |Step(js, s, a).s.toks|;
      n <= a && Step(js, s, b) == if n <= b then Step(js, s, a) else Failed(NoMem)
  {
  }

  /** What is parsed with one array is parsed alike with any array that holds its tokens, and runs out of any smaller one. */
  lemma {:induction false} CapacityExact(js: Text, s: State, a: nat, b: nat)
    requires Shape(s) && |s.toks| <= a && |s.toks| <= b && Run(js, s, a).Done?
    ensures var n := |Run(js, s, a).s.toks|;
      |s.toks| <= n <= a && Run(js, s, b) == if n <= b then Run(js, s, a) else Failed(NoMem)
    decreases |js| - s.pos
  {
    if s.pos < |js| && js[s.pos] != 0 {
      StepTokens(js, s, a, b);
      var t := Step(js, s, a).s;
      CapacityExact(js, t, a, a);
      if |t.toks| <= b {
        CapacityExact(js, t, a, b);
      }
    }
  }

  // ------------------------------------------------------------------ closing brackets

  function FirstOpen(toks: seq<Token>, i: int): (r: int)
    requires Linked(toks) && 0 <= i < |toks|
    ensures -1 <= r <= i && (r >= 0 ==> IsOpen(toks[r]))
    decreases i
  {
    if IsOpen(toks[i]) then i else if toks[i].parent == -1 then -1 else FirstOpen(toks, toks[i].parent)
  }

  function RootOf(toks: seq<Token>, i: int): (r: int)
    requires Linked(toks) && 0 <= i < |toks|
    ensures 0 <= r <= i && toks[r].parent == -1
    decreases i
  {
    if toks[i].parent == -1 then i else RootOf(toks, toks[i].parent)
  }

  lemma {:induction false} WalkIs(toks: seq<Token>, i: int, kind: Kind, super: int)
    requires Linked(toks) && 0 <= i < |toks| && -1 <= super
    ensures var f := FirstOpen(toks, i);
      Walk(toks, i, kind, super) ==
        if f >= 0 then (if toks[f].kind == kind then Close(f) else Reject)
        else if toks[RootOf(toks, i)].kind == kind && super >= 0 then Ignore else Reject
    decreases i
  {
    if !IsOpen(toks[i]) && toks[i].parent != -1 {
      WalkIs(toks, toks[i].parent, kind, super);
    }
  }

  lemma {:induction false} NoneOnChain(toks: seq<Token>, i: int, a: nat)
    requires Linked(toks) && 0 <= i < |toks| && a < |toks| && FirstOpen(toks, i) == -1 && OnChain(toks, i, a)
    ensures !IsOpen(toks[a])
    decreases i
  {
    if i != a {
      NoneOnChain(toks, toks[i].parent, a);
    }
  }

  lemma FirstIsInnermost(toks: seq<Token>)
    requires Linked(toks) && toks != [] && OpenOnChain(toks, |toks| - 1)
    ensures var f := FirstOpen(toks, |toks| - 1);
      if f == -1 then !AnyOpen(toks) else Innermost(toks, f)
  {
    var last := |toks| - 1;
    var f := FirstOpen(toks, last);
    if f >= 0 {
      WalkIs(toks, last, toks[f].kind, -1);
      WalkClosesInnermost(toks, last, toks[f].kind, -1);
    } else {
      forall a | 0 <= a < |toks| ensures !IsOpen(toks[a]) {
        assert Covers(toks, last, a);
        if IsOpen(toks[a]) {
          NoneOnChain(toks, last, a);
        }
      }
    }
  }

  lemma OneInnermost(toks: seq<Token>, i: nat)
    requires Linked(toks) && toks != [] && OpenOnChain(toks, |toks| - 1) && Innermost(toks, i)
    ensures i == FirstOpen(toks, |toks| - 1)
  {
    FirstIsInnermost(toks);
    var f := FirstOpen(toks, |toks| - 1);
    assert f >= 0 && !(i < f) && !(f < i);
  }

  /**
   A closing bracket anywhere in any text: it closes the innermost open container, which becomes a closed child of its
   parent, exactly when that one is of its kind. Where none is open, it is passed over exactly when the last token's
   root is of its kind and a token is current. Every other one makes the text invalid.
   */
  lemma {:induction false} BracketExact(js: Text, cap: nat, n: nat, kind: Kind)
    requires After(js, cap, n).Done?
    ensures var s := After(js, cap, n).s;
      var r := StepClose(s, kind);
      && (s.toks == [] ==> r == Failed(Inval))
      && (forall i: nat :: Innermost(s.toks, i) ==>
            r == if s.toks[i].kind == kind then Done(State(s.pos + 1, s.toks[i := s.toks[i].(end := s.pos + 1)], s.toks[i].parent))
                 else Failed(Inval))
      && (s.toks != [] && !AnyOpen(s.toks) ==>
            r == if s.toks[RootOf(s.toks, |s.toks| - 1)].kind == kind && s.super >= 0 then Done(s.(pos := s.pos + 1)) else Failed(Inval))
  {
    AfterGood(js, cap, n);
    var s := After(js, cap, n).s;
    if s.toks != [] {
      WalkIs(s.toks, |s.toks| - 1, kind, s.super);
      FirstIsInnermost(s.toks);
      forall i: nat | Innermost(s.toks, i) ensures i == FirstOpen(s.toks, |s.toks| - 1) {
        OneInnermost(s.toks, i);
      }
    }
  }
}
