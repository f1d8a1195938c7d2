/**
 What holds of the tokens whatever bytes were parsed: the token array is always a forest of
 nested or disjoint intervals, and closing brackets always close the innermost open container.
 */
module TokenForest {
  import opened Bytes
  import opened Tokenizer

  /** `a` is `i` or one of its ancestors; -1 has none. */
  ghost predicate OnChain(toks: seq<Token>, i: int, a: int)
    requires Linked(toks) && -1 <= i < |toks|
    decreases i
  {
    i >= 0 && (i == a || OnChain(toks, toks[i].parent, a))
  }

  ghost predicate Covers(toks: seq<Token>, i: int, a: nat)
    requires Linked(toks) && -1 <= i < |toks| && a < |toks|
  {
    IsOpen(toks[a]) ==> OnChain(toks, i, a)
  }

  /** Every open container is `i` or an ancestor of `i`. */
  ghost predicate OpenOnChain(toks: seq<Token>, i: int)
    requires Linked(toks) && -1 <= i < |toks|
  {
    forall a | 0 <= a < |toks| :: Covers(toks, i, a)
  }

  /** The number of tokens among the first `n` whose parent is `i`. */
  function Children(toks: seq<Token>, n: nat, i: int): nat
    requires n <= |toks|
  {
    if n == 0 then 0 else Children(toks, n - 1, i) + if toks[n - 1].parent == i then 1 else 0
  }

  /** The interval of token `i`, which may still be open. */
  predicate Bounded(toks: seq<Token>, i: nat, pos: int)
    requires i < |toks|
  {
    var t := toks[i];
    0 <= t.start < pos &&
    if t.end == -1 then t.kind == Object || t.kind == Array else t.start <= t.end <= pos
  }

  /** Of two tokens the later one starts later, and lies after the earlier one or wholly inside it. */
  predicate Ordered(toks: seq<Token>, i: nat, j: nat)
    requires i < j < |toks|
  {
    var s, t := toks[i], toks[j];
    s.start < t.start && (s.end == -1 || t.start >= s.end || (t.end != -1 && t.end <= s.end))
  }

  ghost predicate Spans(toks: seq<Token>, pos: int) {
    && (forall i | 0 <= i < |toks| :: Bounded(toks, i, pos))
    && (forall i, j | 0 <= i < j < |toks| :: Ordered(toks, i, j))
  }

  predicate CountedAt(toks: seq<Token>, i: nat)
    requires i < |toks|
  {
    toks[i].size == Children(toks, |toks|, i)
  }

  ghost predicate Counted(toks: seq<Token>) {
    forall i | 0 <= i < |toks| :: CountedAt(toks, i)
  }

  ghost predicate Good(s: State) {
    && Shape(s)
    && Spans(s.toks, s.pos)
    && Counted(s.toks)
    && OpenOnChain(s.toks, s.super)
    && OpenOnChain(s.toks, |s.toks| - 1)
  }

  // ------------------------------------------------------------------ framing

  predicate SameLinks(a: seq<Token>, b: seq<Token>) {
    |a| <= |b| && forall i | 0 <= i < |a| :: a[i].parent == b[i].parent
  }

  lemma {:induction false} ChainFrame(a: seq<Token>, b: seq<Token>, i: int, x: int)
    requires Linked(a) && Linked(b) && SameLinks(a, b) && -1 <= i < |a|
    ensures OnChain(a, i, x) == OnChain(b, i, x)
    decreases i
  {
    if i >= 0 {
      ChainFrame(a, b, a[i].parent, x);
    }
  }

  lemma {:induction false} ChildrenFrame(a: seq<Token>, b: seq<Token>, n: nat, i: int)
    requires SameLinks(a, b) && n <= |a|
    ensures Children(a, n, i) == Children(b, n, i)
  {
    if n > 0 {
      ChildrenFrame(a, b, n - 1, i);
    }
  }

  lemma {:induction false} NoChildrenYet(toks: seq<Token>, n: nat, i: int)
    requires Linked(toks) && n <= |toks| && i >= n
    ensures Children(toks, n, i) == 0
  {
    if n > 0 {
      NoChildrenYet(toks, n - 1, i);
    }
  }

  lemma {:induction false} ChainBelow(toks: seq<Token>, i: int, a: int)
    requires Linked(toks) && -1 <= i < |toks| && OnChain(toks, i, a)
    ensures 0 <= a <= i
    decreases i
  {
    if i != a {
      ChainBelow(toks, toks[i].parent, a);
    }
  }

  // ------------------------------------------------------------------ the bracket walk

  lemma ParentKeepsChain(toks: seq<Token>, i: nat)
    requires Linked(toks) && i < |toks| && OpenOnChain(toks, i) && !IsOpen(toks[i])
    ensures OpenOnChain(toks, toks[i].parent)
  {
    forall a | 0 <= a < |toks| ensures Covers(toks, toks[i].parent, a) {
      assert Covers(toks, i, a);
    }
  }

  /** The walk closes the innermost open container: every later token is already closed. */
  lemma {:induction false} WalkClosesInnermost(toks: seq<Token>, i: int, kind: Kind, super: int)
    requires Linked(toks) && 0 <= i < |toks| && OpenOnChain(toks, i)
    ensures var r := Walk(toks, i, kind, super);
            r.Close? ==> forall j | r.i < j < |toks| :: !IsOpen(toks[j])
    ensures var r := Walk(toks, i, kind, super);
            r.Close? ==> forall a | 0 <= a < |toks| && a != r.i :: Covers(toks, toks[r.i].parent, a)
    decreases i
  {
    var t := toks[i];
    forall a | 0 <= a < |toks| && IsOpen(toks[a]) ensures OnChain(toks, i, a) && a <= i {
      assert Covers(toks, i, a);
      ChainBelow(toks, i, a);
    }
    if !IsOpen(t) && t.parent != -1 {
      ParentKeepsChain(toks, i);
      WalkClosesInnermost(toks, t.parent, kind, super);
    }
  }

  // ------------------------------------------------------------------ one step

  function Grown(toks: seq<Token>, super: int, kind: Kind, start: int, end: int): (r: seq<Token>)
    requires Linked(toks) && -1 <= super < |toks|
    ensures Linked(r) && SameLinks(toks, r)
  {
    Bump(toks, super) + [Token(kind, start, end, 0, super)]
  }

  lemma AddCounts(toks: seq<Token>, super: int, kind: Kind, start: int, end: int)
    requires Linked(toks) && -1 <= super < |toks| && Counted(toks)
    ensures Counted(Grown(toks, super, kind, start, end))
  {
    var n, r := |toks|, Grown(toks, super, kind, start, end);
    forall i | 0 <= i < |r| ensures CountedAt(r, i) {
      if i < n {
        assert CountedAt(toks, i);
        ChildrenFrame(toks, r, n, i);
      } else {
        NoChildrenYet(r, n, i);
      }
    }
  }

  lemma AddSpans(toks: seq<Token>, super: int, kind: Kind, start: int, end: int, pos: int, next: int)
    requires Linked(toks) && -1 <= super < |toks| && Spans(toks, pos) && 0 <= pos <= start < next
    requires if end == -1 then kind == Object || kind == Array else start <= end <= next
    ensures Spans(Grown(toks, super, kind, start, end), next)
  {
    var n, r := |toks|, Grown(toks, super, kind, start, end);
    forall i | 0 <= i < |r| ensures Bounded(r, i, next) {
      assert i < n ==> Bounded(toks, i, pos);
    }
    forall i, j | 0 <= i < j < |r| ensures Ordered(r, i, j) {
      assert Bounded(toks, i, pos);
      assert j < n ==> Ordered(toks, i, j);
    }
  }

  lemma AddChains(toks: seq<Token>, super: int, kind: Kind, start: int, end: int)
    requires Linked(toks) && -1 <= super < |toks| && OpenOnChain(toks, super)
    ensures var r := Grown(toks, super, kind, start, end);
            OpenOnChain(r, |toks|) && (end != -1 ==> OpenOnChain(r, super))
  {
    var n, r := |toks|, Grown(toks, super, kind, start, end);
    forall a | 0 <= a < |r| ensures Covers(r, n, a) && (a < n ==> Covers(r, super, a)) {
      if a < n {
        assert Covers(toks, super, a);
        ChainFrame(toks, r, super, a);
      }
    }
  }

  lemma AddKeeps(s: State, kind: Kind, start: int, end: int, next: nat)
    requires Good(s) && s.pos <= start < next
    requires if end == -1 then kind == Object || kind == Array else start <= end <= next
    ensures Good(State(next, Grown(s.toks, s.super, kind, start, end), if end == -1 then |s.toks| else s.super))
  {
    AddCounts(s.toks, s.super, kind, start, end);
    AddSpans(s.toks, s.super, kind, start, end, s.pos, next);
    AddChains(s.toks, s.super, kind, start, end);
  }

  function Shut(toks: seq<Token>, i: nat, end: int): (r: seq<Token>)
    requires Linked(toks) && i < |toks|
    ensures Linked(r) && SameLinks(toks, r)
  {
    toks[i := toks[i].(end := end)]
  }

  lemma ShutCounts(toks: seq<Token>, i: nat, end: int)
    requires Linked(toks) && i < |toks| && Counted(toks)
    ensures Counted(Shut(toks, i, end))
  {
    var r := Shut(toks, i, end);
    forall k | 0 <= k < |r| ensures CountedAt(r, k) {
      assert CountedAt(toks, k);
      ChildrenFrame(toks, r, |r|, k);
    }
  }

  lemma ShutSpans(toks: seq<Token>, i: nat, pos: int)
    requires Linked(toks) && i < |toks| && Spans(toks, pos) && IsOpen(toks[i])
    requires forall j | i < j < |toks| :: !IsOpen(toks[j])
    ensures Spans(Shut(toks, i, pos + 1), pos + 1)
  {
    var p := pos + 1;
    var r := Shut(toks, i, p);
    forall k | 0 <= k < |r| ensures Bounded(r, k, p) {
      assert Bounded(toks, k, pos);
    }
    forall h, j | 0 <= h < j < |r| ensures Ordered(r, h, j) {
      assert Ordered(toks, h, j);
      assert Bounded(toks, j, pos);
    }
  }

  lemma ShutChains(toks: seq<Token>, i: nat, end: int, from: int)
    requires Linked(toks) && i < |toks| && -1 <= from < |toks|
    requires forall a | 0 <= a < |toks| && a != i :: Covers(toks, from, a)
    requires end != -1
    ensures OpenOnChain(Shut(toks, i, end), from)
  {
    var r := Shut(toks, i, end);
    forall a | 0 <= a < |r| ensures Covers(r, from, a) {
      assert a != i ==> Covers(toks, from, a);
      ChainFrame(toks, r, from, a);
    }
  }

  lemma CloseKeeps(s: State, kind: Kind)
    requires Good(s) && |s.toks| > 0 && Walk(s.toks, |s.toks| - 1, kind, s.super).Close?
    ensures var i := Walk(s.toks, |s.toks| - 1, kind, s.super).i;
            Good(State(s.pos + 1, Shut(s.toks, i, s.pos + 1), s.toks[i].parent))
  {
    var last := |s.toks| - 1;
    WalkClosesInnermost(s.toks, last, kind, s.super);
    var i := Walk(s.toks, last, kind, s.super).i;
    ShutCounts(s.toks, i, s.pos + 1);
    ShutSpans(s.toks, i, s.pos);
    ShutChains(s.toks, i, s.pos + 1, last);
    ShutChains(s.toks, i, s.pos + 1, s.toks[i].parent);
  }

  lemma MoveKeeps(s: State, super: int)
    requires Good(s) && -1 <= super < |s.toks| && OpenOnChain(s.toks, super)
    ensures Good(State(s.pos + 1, s.toks, super))
  {
    var p := s.pos + 1;
    forall i | 0 <= i < |s.toks| ensures Bounded(s.toks, i, p) {
      assert Bounded(s.toks, i, s.pos);
    }
  }

  lemma StepKeeps(js: Text, s: State, cap: nat)
    requires Good(s) && s.pos < |js| && js[s.pos] != 0
    ensures var r := Step(js, s, cap); r.Done? ==> Good(r.s)
  {
    var r := Step(js, s, cap);
    if r.Done? {
      var c := js[s.pos];
      if c == LBRACE || c == LBRACKET {
        AddKeeps(s, if c == LBRACE then Object else Array, s.pos, -1, s.pos + 1);
      } else if c == RBRACE || c == RBRACKET {
        var kind := if c == RBRACE then Object else Array;
        if Walk(s.toks, |s.toks| - 1, kind, s.super).Close? {
          CloseKeeps(s, kind);
        } else {
          MoveKeeps(s, s.super);
        }
      } else if c == QUOTE {
        var e := StringEnd(js, s.pos + 1).p;
        AddKeeps(s, Str, s.pos + 1, e, e + 1);
      } else if IsSpace(c) {
        MoveKeeps(s, s.super);
      } else if c == COLON {
        MoveKeeps(s, |s.toks| - 1);
      } else if c == COMMA {
        CommaKeeps(s);
      } else {
        var e := PrimitiveEnd(js, s.pos).p;
        AddKeeps(s, Primitive, s.pos, e, e);
      }
    }
  }

  lemma CommaKeeps(s: State)
    requires Good(s)
    ensures Good(StepComma(s))
  {
    if s.super != -1 && s.toks[s.super].kind != Array && s.toks[s.super].kind != Object {
      assert Bounded(s.toks, s.super, s.pos);
      ParentKeepsChain(s.toks, s.super);
      MoveKeeps(s, s.toks[s.super].parent);
    } else {
      MoveKeeps(s, s.super);
    }
  }

  // ------------------------------------------------------------------ whole parses

  lemma {:induction false} RunKeeps(js: Text, s: State, cap: nat)
    requires Good(s)
    ensures var r := Run(js, s, cap); r.Done? ==> Good(r.s)
    decreases |js| - s.pos
  {
    if s.pos < |js| && js[s.pos] != 0 && Step(js, s, cap).Done? {
      StepKeeps(js, s, cap);
      RunKeeps(js, Step(js, s, cap).s, cap);
    }
  }

  /** Any accepted text gives a forest of closed tokens in text order. */
  lemma ParsedForest(js: Text, cap: nat)
    requires Run(js, INIT, cap).Done?
    ensures var toks := Run(js, INIT, cap).s.toks;
            && (forall i | 0 <= i < |toks| :: -1 <= toks[i].parent < i)
            && (forall i | 0 <= i < |toks| :: 0 <= toks[i].start <= toks[i].end <= |js|)
            && (forall i, j | 0 <= i < j < |toks| :: toks[i].start < toks[j].start)
            && (forall i, j | 0 <= i < j < |toks| :: toks[j].start >= toks[i].end || toks[j].end <= toks[i].end)
            && (forall i | 0 <= i < |toks| :: toks[i].size == Children(toks, |toks|, i))
  {
    RunKeeps(js, INIT, cap);
    var s := Run(js, INIT, cap).s;
    EndsInText(js, INIT, cap);
    forall i | 0 <= i < |s.toks| ensures 0 <= s.toks[i].start <= s.toks[i].end <= |js| && CountedAt(s.toks, i) {
      assert Bounded(s.toks, i, s.pos) && !IsOpen(s.toks[i]);
    }
    forall i, j | 0 <= i < j < |s.toks|
      ensures s.toks[i].start < s.toks[j].start && (s.toks[j].start >= s.toks[i].end || s.toks[j].end <= s.toks[i].end)
    {
      assert Ordered(s.toks, i, j);
    }
  }

  lemma {:induction false} EndsInText(js: Text, s: State, cap: nat)
    requires Shape(s) && s.pos <= |js|
    ensures var r := Run(js, s, cap); r.Done? ==> r.s.pos <= |js|
    decreases |js| - s.pos
  {
    if s.pos < |js| && js[s.pos] != 0 && Step(js, s, cap).Done? {
      EndsInText(js, Step(js, s, cap).s, cap);
    }
  }

  /** Where the parse of `js` stands after `n` turns of its loop, or how it has ended. */
  function After(js: Text, cap: nat, n: nat): (r: Outcome)
    ensures r.Done? ==> Shape(r.s)
    decreases n
  {
    if n == 0 then Done(INIT)
    else match After(js, cap, n - 1)
         case Failed(f) => Failed(f)
         case Done(b) => if b.pos < |js| && js[b.pos] != 0 then Step(js, b, cap) else Done(b)
  }

  predicate Ended(js: Text, s: State) {
    s.pos >= |js| || js[s.pos] == 0
  }

  /** Every turn of the loop moves the cursor on. */
  lemma {:induction false} TurnsMoveOn(js: Text, cap: nat, n: nat)
    ensures var r := After(js, cap, n); r.Done? ==> r.s.pos <= |js| && (!Ended(js, r.s) ==> n <= r.s.pos)
    decreases n
  {
    if n > 0 {
      TurnsMoveOn(js, cap, n - 1);
    }
  }

  lemma {:induction false} TurnsAreRun(js: Text, cap: nat, n: nat)
    ensures var r := After(js, cap, n); Run(js, INIT, cap) == if r.Done? then Run(js, r.s, cap) else r
    decreases n
  {
    if n > 0 {
      TurnsAreRun(js, cap, n - 1);
    }
  }

  /** As many turns as the text has bytes end the loop on every input, and the parse is what they leave behind. */
  lemma RunStops(js: Text, cap: nat)
    ensures var r := After(js, cap, |js|);
            && (r.Done? ==> Ended(js, r.s) && r.s.pos <= |js|)
            && Run(js, INIT, cap) == if r.Done? && AnyOpen(r.s.toks) then Failed(Part) else r
  {
    TurnsMoveOn(js, cap, |js|);
    TurnsAreRun(js, cap, |js|);
  }

  lemma {:induction false} AfterGood(js: Text, cap: nat, n: nat)
    requires After(js, cap, n).Done?
    ensures Good(After(js, cap, n).s)
    decreases n
  {
    if n > 0 {
      AfterGood(js, cap, n - 1);
      var b := After(js, cap, n - 1).s;
      if b.pos < |js| && js[b.pos] != 0 {
        StepKeeps(js, b, cap);
      }
    }
  }

  /** `i` is the last container that is still open. */
  predicate Innermost(toks: seq<Token>, i: nat) {
    i < |toks| && IsOpen(toks[i]) && forall j | i < j < |toks| :: !IsOpen(toks[j])
  }

  ghost predicate ShutsInnermost(s: State, kind: Kind, toks: seq<Token>)
    requires Shape(s)
  {
    toks == s.toks ||
    exists i: nat :: Innermost(s.toks, i) && s.toks[i].kind == kind && toks == Shut(s.toks, i, s.pos + 1)
  }

  /** A closing bracket met anywhere in any text closes the innermost open container, or nothing. */
  lemma {:induction false} BracketClosesInnermost(js: Text, cap: nat, n: nat, kind: Kind)
    requires After(js, cap, n).Done?
    ensures var s := After(js, cap, n).s;
            StepClose(s, kind).Done? ==> ShutsInnermost(s, kind, StepClose(s, kind).s.toks)
  {
    AfterGood(js, cap, n);
    ClosesInnermost(After(js, cap, n).s, kind);
  }

  lemma ClosesInnermost(s: State, kind: Kind)
    requires Shape(s) && OpenOnChain(s.toks, |s.toks| - 1)
    ensures StepClose(s, kind).Done? ==> ShutsInnermost(s, kind, StepClose(s, kind).s.toks)
  {
    if |s.toks| > 0 {
      WalkClosesInnermost(s.toks, |s.toks| - 1, kind, s.super);
      var r := Walk(s.toks, |s.toks| - 1, kind, s.super);
      assert r.Close? ==> Innermost(s.toks, r.i);
    }
  }

  // ------------------------------------------------------------------ json_parse

  /** src/json.c:89-102: a single root object, every other token below it. */
  predicate OneRoot(toks: seq<Token>) {
    |toks| >= 1 && toks[0].kind == Object && forall i | 1 <= i < |toks| :: toks[i].parent >= 0
  }

  /** When the request is taken, every token hangs below token 0. */
  lemma {:induction false} RootIsAncestor(toks: seq<Token>, i: nat)
    requires Linked(toks) && OneRoot(toks) && i < |toks|
    ensures OnChain(toks, i, 0)
    decreases i
  {
    if i > 0 {
      RootIsAncestor(toks, toks[i].parent);
    }
  }
}
