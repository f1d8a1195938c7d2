/**
 The tokenizer builds the right tree for every JSON document: running it over the text of a
 tree appends exactly the tree's tokens and leaves `toksuper` where it was.
 */
module Completeness {
  import opened Bytes
  import opened Tokenizer
  import opened JsonTree

  // ------------------------------------------------------------------ runs that meet

  /** `Run` under a dummy argument that keeps the quantifier below from firing on every run. */
  function RunAt(k: int, js: Text, cap: nat, s: State): Outcome
    requires Shape(s)
  {
    Run(js, s, cap)
  }

  /** Parsing goes on from `s` exactly as it does from `t`. */
  ghost predicate Leads(js: Text, cap: nat, s: State, t: State)
  {
    Shape(s) && Shape(t) && forall k: int {:trigger RunAt(k, js, cap, s)} :: RunAt(k, js, cap, s) == RunAt(k, js, cap, t)
  }

  lemma Then(js: Text, cap: nat, s: State, t: State, u: State)
    requires Leads(js, cap, s, t) && Leads(js, cap, t, u)
    ensures Leads(js, cap, s, u)
  {
    forall k: int ensures RunAt(k, js, cap, s) == RunAt(k, js, cap, u) {
      assert RunAt(k, js, cap, s) == RunAt(k, js, cap, t);
    }
  }

  lemma StepLeads(js: Text, cap: nat, s: State, t: State)
    requires Shape(s) && s.pos < |js| && js[s.pos] != 0 && Step(js, s, cap) == Done(t)
    ensures Leads(js, cap, s, t)
  {
    forall k: int ensures RunAt(k, js, cap, s) == RunAt(k, js, cap, t) {
      assert Run(js, s, cap) == Run(js, t, cap);
    }
  }

  // ------------------------------------------------------------------ scanners

  lemma {:induction false} RawStringEnd(js: Text, p: nat, raw: Text)
    requires IsRawString(raw) && Occurs(js, p, raw + [QUOTE])
    ensures StringEnd(js, p) == At(p + |raw|)
    decreases |raw|
  {
    var all := raw + [QUOTE];
    OccursAt(js, p, all, 0);
    if raw != [] {
      OccursAt(js, p, all, 1);
      var n := if raw[0] != BACKSLASH then 1 else if raw[1] == LOWER_U then 6 else 2;
      assert raw[n..] + [QUOTE] == all[n..] == js[p + n..p + |all|];
      if n == 6 {
        OccursAt(js, p, all, 2);
        OccursAt(js, p, all, 3);
        OccursAt(js, p, all, 4);
        OccursAt(js, p, all, 5);
        assert HexRun(js, p + 2, 4) == HexRun(js, p + 3, 3) == HexRun(js, p + 4, 2) == HexRun(js, p + 5, 1) == At(p + 6);
      }
      RawStringEnd(js, p + n, raw[n..]);
    }
  }

  lemma {:induction false} PrimitiveTextEnd(js: Text, p: nat, t: Text)
    requires Occurs(js, p, t) && forall i | 0 <= i < |t| :: 32 < t[i] < 127 && !IsDelimiter(t[i])
    requires p + |t| < |js| && IsDelimiter(js[p + |t|])
    ensures PrimitiveEnd(js, p) == At(p + |t|)
    decreases |t|
  {
    if t != [] {
      assert js[p] == js[p..p + |t|][0] == t[0];
      assert t[1..] == js[p + 1..p + |t|];
      PrimitiveTextEnd(js, p + 1, t[1..]);
    }
  }

  lemma {:induction false} RunGap(js: Text, s: State, cap: nat, gap: Text)
    requires Shape(s) && IsGap(gap) && Occurs(js, s.pos, gap)
    ensures Leads(js, cap, s, s.(pos := s.pos + |gap|))
    decreases |gap|
  {
    if gap != [] {
      assert js[s.pos] == js[s.pos..s.pos + |gap|][0] == gap[0];
      assert gap[1..] == js[s.pos + 1..s.pos + |gap|];
      var t := s.(pos := s.pos + 1);
      StepLeads(js, cap, s, t);
      RunGap(js, t, cap, gap[1..]);
      Then(js, cap, s, t, s.(pos := s.pos + |gap|));
    }
  }

  // ------------------------------------------------------------------ closing a container

  /** Above token `idx` everything is closed and hangs below `idx`. */
  predicate ClosedAbove(toks: seq<Token>, idx: nat) {
    forall k | idx < k < |toks| :: !IsOpen(toks[k]) && idx <= toks[k].parent < k
  }

  lemma {:induction false} WalkFinds(toks: seq<Token>, i: nat, idx: nat, kind: Kind, super: int)
    requires Linked(toks) && idx <= i < |toks| && ClosedAbove(toks, idx)
    requires IsOpen(toks[idx]) && toks[idx].kind == kind
    ensures Walk(toks, i, kind, super) == Close(idx)
    decreases i
  {
    if i != idx {
      WalkFinds(toks, toks[i].parent, idx, kind, super);
    }
  }

  /** The tokens of a value: closed, and all but the first below the first. */
  ghost predicate Under(r: seq<Token>, idx: nat, parent: int) {
    && (forall k | 0 <= k < |r| :: r[k].start >= 0 && r[k].end != -1)
    && (forall k | 0 <= k < |r| :: r[k].parent == parent || idx <= r[k].parent < idx + k)
  }

  lemma UnderJoin(a: seq<Token>, b: seq<Token>, idx: nat, parent: int)
    requires Under(a, idx, parent) && Under(b, idx + |a|, parent)
    ensures Under(a + b, idx, parent)
  {
    var r := a + b;
    forall k | 0 <= k < |r| ensures r[k].start >= 0 && r[k].end != -1 && (r[k].parent == parent || idx <= r[k].parent < idx + k) {
      if k >= |a| {
        assert r[k] == b[k - |a|];
      }
    }
  }

  lemma UnderNest(t: Token, b: seq<Token>, idx: nat, parent: int)
    requires t.start >= 0 && t.end != -1 && t.parent == parent && Under(b, idx + 1, idx)
    ensures Under([t] + b, idx, parent)
  {
    var r := [t] + b;
    forall k | 0 <= k < |r| ensures r[k].start >= 0 && r[k].end != -1 && (r[k].parent == parent || idx <= r[k].parent < idx + k) {
      if k >= 1 {
        assert r[k] == b[k - 1];
      }
    }
  }

  lemma {:induction false} NodesUnder(v: Value, pos: nat, idx: nat, parent: int)
    ensures Under(Nodes(v, pos, idx, parent), idx, parent)
    ensures forall k | 0 < k < |Nodes(v, pos, idx, parent)| :: idx <= Nodes(v, pos, idx, parent)[k].parent < idx + k
    decreases v
  {
    match v
    case ArrayOf(es) =>
      ElementsUnder(es, pos + 1, idx + 1, idx);
      UnderNest(Nodes(v, pos, idx, parent)[0], ElementNodes(es, pos + 1, idx + 1, idx), idx, parent);
    case ObjectOf(ms) =>
      MembersUnder(ms, pos + 1, idx + 1, idx);
      UnderNest(Nodes(v, pos, idx, parent)[0], MemberNodes(ms, pos + 1, idx + 1, idx), idx, parent);
    case _ =>
  }

  lemma {:induction false} ElementsUnder(es: Elements, pos: nat, idx: nat, parent: int)
    ensures Under(ElementNodes(es, pos, idx, parent), idx, parent)
    decreases es
  {
    var v, at := es.e.value, pos + |es.e.pre|;
    NodesUnder(v, at, idx, parent);
    if es.MoreElements? {
      var next := pos + |PrintPadded(es.e)| + 1;
      ElementsUnder(es.rest, next, idx + Size(v), parent);
      UnderJoin(Nodes(v, at, idx, parent), ElementNodes(es.rest, next, idx + Size(v), parent), idx, parent);
    }
  }

  lemma {:induction false} MembersUnder(ms: Members, pos: nat, idx: nat, parent: int)
    ensures Under(MemberNodes(ms, pos, idx, parent), idx, parent)
    decreases ms
  {
    var v, at := ms.m.e.value, pos + |PrintKey(ms.m)| + |ms.m.e.pre|;
    NodesUnder(v, at, idx + 1, idx);
    var first := [KeyToken(ms.m, pos, 1, parent)] + Nodes(v, at, idx + 1, idx);
    UnderNest(KeyToken(ms.m, pos, 1, parent), Nodes(v, at, idx + 1, idx), idx, parent);
    if ms.LastMember? {
      assert MemberNodes(ms, pos, idx, parent) == first;
    } else {
      var next := pos + |PrintKey(ms.m)| + |PrintPadded(ms.m.e)| + 1;
      MembersUnder(ms.rest, next, idx + 1 + Size(v), parent);
      var more := MemberNodes(ms.rest, next, idx + 1 + Size(v), parent);
      assert MemberNodes(ms, pos, idx, parent) == first + more;
      UnderJoin(first, more, idx, parent);
    }
  }

  // ------------------------------------------------------------------ parsing a value

  /** The token array after `k` children of `super`, with tokens `r`, were added to it. */
  function Extended(toks: seq<Token>, super: int, k: nat, r: seq<Token>): (e: seq<Token>)
    requires -1 <= super < |toks|
    ensures |e| == |toks| + |r|
  {
    (if super == -1 then toks else toks[super := toks[super].(size := toks[super].size + k)]) + r
  }

  lemma ExtendedLinked(toks: seq<Token>, super: int, k: nat, r: seq<Token>)
    requires Linked(toks) && -1 <= super < |toks| && Under(r, |toks|, super)
    ensures Linked(Extended(toks, super, k, r))
  {
    var e := Extended(toks, super, k, r);
    forall i | 0 <= i < |e| ensures -1 <= e[i].parent < i {
      if i >= |toks| {
        assert e[i] == r[i - |toks|];
      }
    }
  }

  lemma ExtendTwice(toks: seq<Token>, super: int, j: nat, k: nat, a: seq<Token>, b: seq<Token>)
    requires -1 <= super < |toks|
    ensures Extended(Extended(toks, super, j, a), super, k, b) == Extended(toks, super, j + k, a + b)
  {
  }

  /** The state after the value `v` was read in state `s`. */
  function AfterValue(s: State, v: Value): (r: State)
    requires Shape(s)
    ensures Shape(r)
  {
    NodesUnder(v, s.pos, |s.toks|, s.super);
    ExtendedLinked(s.toks, s.super, 1, Nodes(v, s.pos, |s.toks|, s.super));
    State(s.pos + |Print(v)|, Extended(s.toks, s.super, 1, Nodes(v, s.pos, |s.toks|, s.super)), s.super)
  }

  predicate CanTake(js: Text, s: State, cap: nat, v: Value)
    requires Shape(s)
  {
    && IsValue(v)
    && Occurs(js, s.pos, Print(v))
    && |s.toks| + Size(v) <= cap
    && TakesPrimitive(s)
    && (v.Literal? ==> s.pos + |Print(v)| < |js| && IsDelimiter(js[s.pos + |Print(v)|]))
  }

  lemma RunLiteral(js: Text, s: State, cap: nat, t: Text)
    requires Shape(s) && CanTake(js, s, cap, Literal(t))
    ensures Leads(js, cap, s, AfterValue(s, Literal(t)))
  {
    OccursAt(js, s.pos, t, 0);
    PrimitiveTextEnd(js, s.pos, t);
    assert StepPrimitive(js, s, cap) == Done(AfterValue(s, Literal(t)));
    StepLeads(js, cap, s, AfterValue(s, Literal(t)));
  }

  /** A string literal: a value, or a key under its object. */
  lemma RunString(js: Text, s: State, cap: nat, raw: Text)
    requires Shape(s) && IsRawString(raw) && Occurs(js, s.pos, [QUOTE] + raw + [QUOTE]) && |s.toks| < cap
    ensures Leads(js, cap, s, AfterValue(s, Chars(raw)))
  {
    assert [QUOTE] + raw + [QUOTE] == [QUOTE] + (raw + [QUOTE]);
    OccursAt(js, s.pos, [QUOTE] + (raw + [QUOTE]), 0);
    OccursSplit(js, s.pos, [QUOTE], raw + [QUOTE]);
    RawStringEnd(js, s.pos + 1, raw);
    assert StepString(js, s, cap) == Done(AfterValue(s, Chars(raw)));
    StepLeads(js, cap, s, AfterValue(s, Chars(raw)));
  }

  // ------------------------------------------------------------------ containers

  function Bracket(kind: Kind, opening: bool): byte {
    if opening then if kind == Object then LBRACE else LBRACKET
    else if kind == Object then RBRACE else RBRACKET
  }

  function Opened(s: State, kind: Kind): (r: State)
    requires Shape(s)
    ensures Shape(r)
  {
    State(s.pos + 1, Bump(s.toks, s.super) + [Token(kind, s.pos, -1, 0, s.super)], |s.toks|)
  }

  lemma RunOpen(js: Text, s: State, cap: nat, kind: Kind)
    requires Shape(s) && TakesPrimitive(s) && |s.toks| < cap && (kind == Object || kind == Array)
    requires s.pos < |js| && js[s.pos] == Bracket(kind, true)
    ensures Leads(js, cap, s, Opened(s, kind))
  {
    assert StepOpen(s, cap, kind) == Done(Opened(s, kind));
    StepLeads(js, cap, s, Opened(s, kind));
  }

  lemma RunClose(js: Text, s: State, cap: nat, kind: Kind, idx: nat)
    requires Shape(s) && (kind == Object || kind == Array) && s.pos < |js| && js[s.pos] == Bracket(kind, false)
    requires idx < |s.toks| && ClosedAbove(s.toks, idx) && IsOpen(s.toks[idx]) && s.toks[idx].kind == kind
    ensures Leads(js, cap, s, State(s.pos + 1, s.toks[idx := s.toks[idx].(end := s.pos + 1)], s.toks[idx].parent))
  {
    WalkFinds(s.toks, |s.toks| - 1, idx, kind, s.super);
    StepLeads(js, cap, s, State(s.pos + 1, s.toks[idx := s.toks[idx].(end := s.pos + 1)], s.toks[idx].parent));
  }

  /** The state after a padded value. */
  function AfterPadded(s: State, e: Padded): (r: State)
    requires Shape(s)
    ensures Shape(r)
  {
    AfterValue(s.(pos := s.pos + |e.pre|), e.value).(pos := s.pos + |PrintPadded(e)|)
  }

  predicate Delimited(js: Text, p: nat) {
    p < |js| && IsDelimiter(js[p])
  }

  lemma PaddedText(js: Text, p: nat, e: Padded)
    requires IsPadded(e) && Occurs(js, p, PrintPadded(e)) && Delimited(js, p + |PrintPadded(e)|)
    ensures Occurs(js, p, e.pre) && Occurs(js, p + |e.pre|, Print(e.value))
    ensures Occurs(js, p + |e.pre| + |Print(e.value)|, e.post)
    ensures Delimited(js, p + |e.pre| + |Print(e.value)|)
  {
    var text := Print(e.value);
    OccursSplit(js, p, e.pre + text, e.post);
    OccursSplit(js, p, e.pre, text);
    if e.post != [] {
      OccursAt(js, p + |e.pre| + |text|, e.post, 0);
    }
  }

  lemma {:induction false} RunPadded(js: Text, s: State, cap: nat, e: Padded)
    requires Shape(s) && IsPadded(e) && Occurs(js, s.pos, PrintPadded(e)) && Delimited(js, s.pos + |PrintPadded(e)|)
    requires |s.toks| + Size(e.value) <= cap && TakesPrimitive(s)
    ensures Leads(js, cap, s, AfterPadded(s, e))
    decreases e, 1
  {
    PaddedText(js, s.pos, e);
    RunGap(js, s, cap, e.pre);
    var t := s.(pos := s.pos + |e.pre|);
    RunValue(js, t, cap, e.value);
    Then(js, cap, s, t, AfterValue(t, e.value));
    RunTrailingGap(js, s, cap, e);
  }

  lemma RunTrailingGap(js: Text, s: State, cap: nat, e: Padded)
    requires Shape(s) && IsGap(e.post) && Occurs(js, s.pos + |e.pre| + |Print(e.value)|, e.post)
    requires Leads(js, cap, s, AfterValue(s.(pos := s.pos + |e.pre|), e.value))
    ensures Leads(js, cap, s, AfterPadded(s, e))
  {
    var u := AfterValue(s.(pos := s.pos + |e.pre|), e.value);
    RunGap(js, u, cap, e.post);
    Then(js, cap, s, u, AfterPadded(s, e));
  }

  /** In `text , more` both parts stand where they should, and the comma ends the first. */
  lemma CommaText(js: Text, p: nat, text: Text, more: Text)
    requires Occurs(js, p, text + ([COMMA] + more))
    ensures Occurs(js, p, text) && Delimited(js, p + |text|) && js[p + |text|] == COMMA
    ensures Occurs(js, p + |text| + 1, more)
  {
    OccursSplit(js, p, text, [COMMA] + more);
    OccursAt(js, p + |text|, [COMMA] + more, 0);
    OccursSplit(js, p + |text|, [COMMA], more);
  }

  function AfterElements(s: State, es: Elements): (r: State)
    requires Shape(s)
    ensures Shape(r)
  {
    var nodes := ElementNodes(es, s.pos, |s.toks|, s.super);
    ElementsUnder(es, s.pos, |s.toks|, s.super);
    ExtendedLinked(s.toks, s.super, CountElements(es), nodes);
    State(s.pos + |PrintElements(es)|, Extended(s.toks, s.super, CountElements(es), nodes), s.super)
  }

  /** One element, a comma and the rest make up the elements. */
  lemma ElementsJoin(s: State, es: Elements)
    requires Shape(s) && es.MoreElements?
    ensures var t := AfterPadded(s, es.e); AfterElements(t.(pos := t.pos + 1), es.rest) == AfterElements(s, es)
  {
    var t := AfterPadded(s, es.e);
    var u := t.(pos := t.pos + 1);
    ExtendTwice(s.toks, s.super, 1, CountElements(es.rest), Nodes(es.e.value, s.pos + |es.e.pre|, |s.toks|, s.super),
                ElementNodes(es.rest, u.pos, |u.toks|, s.super));
  }

  lemma {:induction false} RunElements(js: Text, s: State, cap: nat, es: Elements)
    requires Shape(s) && AreElements(es)
    requires Occurs(js, s.pos, PrintElements(es)) && Delimited(js, s.pos + |PrintElements(es)|)
    requires |s.toks| + ElementsSize(es) <= cap && s.super >= 0 && s.toks[s.super].kind == Array
    ensures Leads(js, cap, s, AfterElements(s, es))
    decreases es, 2
  {
    var text := PrintPadded(es.e);
    if es.LastElement? {
      assert PrintElements(es) == text;
      assert AfterElements(s, es) == AfterPadded(s, es.e);
      RunPadded(js, s, cap, es.e);
    } else {
      CommaText(js, s.pos, text, PrintElements(es.rest));
      RunPadded(js, s, cap, es.e);
      RunMoreElements(js, s, cap, es);
    }
  }

  lemma {:induction false} RunMoreElements(js: Text, s: State, cap: nat, es: Elements)
    requires Shape(s) && AreElements(es) && es.MoreElements?
    requires Occurs(js, s.pos, PrintElements(es)) && Delimited(js, s.pos + |PrintElements(es)|)
    requires |s.toks| + ElementsSize(es) <= cap && s.super >= 0 && s.toks[s.super].kind == Array
    requires Leads(js, cap, s, AfterPadded(s, es.e))
    ensures Leads(js, cap, s, AfterElements(s, es))
    decreases es, 1
  {
    CommaText(js, s.pos, PrintPadded(es.e), PrintElements(es.rest));
    var t := AfterPadded(s, es.e);
    var u := t.(pos := t.pos + 1);
    StepLeads(js, cap, t, u);
    RunElements(js, u, cap, es.rest);
    ElementsJoin(s, es);
    Then(js, cap, t, u, AfterElements(s, es));
    Then(js, cap, s, t, AfterElements(s, es));
  }

  /** The state after the key, the colon and the value of a member. */
  function AfterMember(s: State, m: Member): (r: State)
    requires Shape(s)
    ensures Shape(r)
  {
    AfterPadded(AfterKey(s, m), m.e)
  }

  lemma MemberText(js: Text, p: nat, m: Member)
    requires Occurs(js, p, PrintKey(m) + PrintPadded(m.e))
    ensures Occurs(js, p, m.pre) && Occurs(js, p + |m.pre|, [QUOTE] + m.key + [QUOTE])
    ensures var q := p + |PrintKey(m)|;
            Occurs(js, q - 1 - |m.mid|, m.mid) && q <= |js| && js[q - 1] == COLON && Occurs(js, q, PrintPadded(m.e))
  {
    var key := [QUOTE] + m.key + [QUOTE];
    OccursSplit(js, p, PrintKey(m), PrintPadded(m.e));
    OccursSplit(js, p, m.pre + key + m.mid, [COLON]);
    OccursSplit(js, p, m.pre + key, m.mid);
    OccursSplit(js, p, m.pre, key);
    OccursAt(js, p + |PrintKey(m)| - 1, [COLON], 0);
  }

  /** The state behind the colon of a member. */
  function AfterKey(s: State, m: Member): (r: State)
    requires Shape(s)
    ensures Shape(r)
  {
    State(s.pos + |PrintKey(m)|, AfterValue(s.(pos := s.pos + |m.pre|), Chars(m.key)).toks, |s.toks|)
  }

  lemma RunKey(js: Text, s: State, cap: nat, m: Member)
    requires Shape(s) && IsGap(m.pre) && IsRawString(m.key) && IsGap(m.mid) && |s.toks| < cap
    requires Occurs(js, s.pos, PrintKey(m) + PrintPadded(m.e))
    ensures Leads(js, cap, s, AfterKey(s, m))
  {
    MemberText(js, s.pos, m);
    RunGap(js, s, cap, m.pre);
    var t := s.(pos := s.pos + |m.pre|);
    RunString(js, t, cap, m.key);
    var k := AfterValue(t, Chars(m.key));
    Then(js, cap, s, t, k);
    RunGap(js, k, cap, m.mid);
    var c := k.(pos := k.pos + |m.mid|);
    Then(js, cap, s, k, c);
    StepLeads(js, cap, c, AfterKey(s, m));
    Then(js, cap, s, c, AfterKey(s, m));
  }

  lemma {:induction false} RunMember(js: Text, s: State, cap: nat, m: Member)
    requires Shape(s) && IsGap(m.pre) && IsRawString(m.key) && IsGap(m.mid) && IsPadded(m.e)
    requires Occurs(js, s.pos, PrintKey(m) + PrintPadded(m.e))
    requires Delimited(js, s.pos + |PrintKey(m)| + |PrintPadded(m.e)|)
    requires |s.toks| + 1 + Size(m.e.value) <= cap && s.super >= 0
    ensures Leads(js, cap, s, AfterMember(s, m))
    decreases m, 3
  {
    MemberText(js, s.pos, m);
    RunKey(js, s, cap, m);
    RunPadded(js, AfterKey(s, m), cap, m.e);
    Then(js, cap, s, AfterKey(s, m), AfterMember(s, m));
  }

  /** The number of the last key of `ms` when its tokens start at `idx`. */
  function LastKey(ms: Members, idx: nat): nat {
    if ms.LastMember? then idx else LastKey(ms.rest, idx + 1 + Size(ms.m.e.value))
  }

  lemma {:induction false} LastKeyBound(ms: Members, idx: nat)
    ensures idx <= LastKey(ms, idx) < idx + MembersSize(ms)
    decreases ms
  {
    if ms.MoreMembers? {
      LastKeyBound(ms.rest, idx + 1 + Size(ms.m.e.value));
    }
  }

  function AfterMembers(s: State, ms: Members): (r: State)
    requires Shape(s)
    ensures Shape(r)
  {
    var nodes := MemberNodes(ms, s.pos, |s.toks|, s.super);
    MembersUnder(ms, s.pos, |s.toks|, s.super);
    ExtendedLinked(s.toks, s.super, CountMembers(ms), nodes);
    LastKeyBound(ms, |s.toks|);
    State(s.pos + |PrintMembers(ms)|, Extended(s.toks, s.super, CountMembers(ms), nodes), LastKey(ms, |s.toks|))
  }

  /** The tokens of one member, with its key already counting its value. */
  lemma AfterMemberTokens(s: State, m: Member)
    requires Shape(s)
    ensures var key := KeyToken(m, s.pos, 1, s.super);
            var nodes := Nodes(m.e.value, s.pos + |PrintKey(m)| + |m.e.pre|, |s.toks| + 1, |s.toks|);
            AfterMember(s, m) == State(s.pos + |PrintKey(m)| + |PrintPadded(m.e)|,
                                       Extended(s.toks, s.super, 1, [key] + nodes), |s.toks|)
  {
  }

  /** One member, a comma and the rest make up the members. */
  lemma MembersJoin(s: State, ms: Members)
    requires Shape(s) && ms.MoreMembers? && s.super >= 0
    ensures var t := AfterMember(s, ms.m); AfterMembers(State(t.pos + 1, t.toks, s.super), ms.rest) == AfterMembers(s, ms)
  {
    AfterMemberTokens(s, ms.m);
    var t := AfterMember(s, ms.m);
    var v, at := ms.m.e.value, s.pos + |PrintKey(ms.m)| + |ms.m.e.pre|;
    ExtendTwice(s.toks, s.super, 1, CountMembers(ms.rest),
                [KeyToken(ms.m, s.pos, 1, s.super)] + Nodes(v, at, |s.toks| + 1, |s.toks|),
                MemberNodes(ms.rest, t.pos + 1, |t.toks|, s.super));
  }

  lemma {:induction false} RunMembers(js: Text, s: State, cap: nat, ms: Members)
    requires Shape(s) && AreMembers(ms)
    requires Occurs(js, s.pos, PrintMembers(ms)) && Delimited(js, s.pos + |PrintMembers(ms)|)
    requires |s.toks| + MembersSize(ms) <= cap && s.super >= 0 && s.toks[s.super].kind == Object
    ensures Leads(js, cap, s, AfterMembers(s, ms))
    decreases ms, 2
  {
    var text := PrintKey(ms.m) + PrintPadded(ms.m.e);
    if ms.LastMember? {
      AfterMemberTokens(s, ms.m);
      assert PrintMembers(ms) == text;
      assert AfterMembers(s, ms) == AfterMember(s, ms.m);
      RunMember(js, s, cap, ms.m);
    } else {
      assert PrintMembers(ms) == text + ([COMMA] + PrintMembers(ms.rest));
      CommaText(js, s.pos, text, PrintMembers(ms.rest));
      RunMember(js, s, cap, ms.m);
      RunMoreMembers(js, s, cap, ms);
    }
  }

  lemma {:induction false} RunMoreMembers(js: Text, s: State, cap: nat, ms: Members)
    requires Shape(s) && AreMembers(ms) && ms.MoreMembers?
    requires Occurs(js, s.pos, PrintMembers(ms)) && Delimited(js, s.pos + |PrintMembers(ms)|)
    requires |s.toks| + MembersSize(ms) <= cap && s.super >= 0 && s.toks[s.super].kind == Object
    requires Leads(js, cap, s, AfterMember(s, ms.m))
    ensures Leads(js, cap, s, AfterMembers(s, ms))
    decreases ms, 1
  {
    assert PrintMembers(ms) == PrintKey(ms.m) + PrintPadded(ms.m.e) + ([COMMA] + PrintMembers(ms.rest));
    CommaText(js, s.pos, PrintKey(ms.m) + PrintPadded(ms.m.e), PrintMembers(ms.rest));
    AfterMemberTokens(s, ms.m);
    var t := AfterMember(s, ms.m);
    var u := State(t.pos + 1, t.toks, s.super);
    StepLeads(js, cap, t, u);
    RunMembers(js, u, cap, ms.rest);
    MembersJoin(s, ms);
    Then(js, cap, t, u, AfterMembers(s, ms));
    Then(js, cap, s, t, AfterMembers(s, ms));
  }

  /** Closing after the contents `r` of a container that was opened in `s`. */
  lemma CloseAfter(js: Text, s: State, t: State, cap: nat, kind: Kind, k: nat, r: seq<Token>)
    requires Shape(s) && (kind == Object || kind == Array) && Under(r, |s.toks| + 1, |s.toks|)
    requires Shape(t) && t.toks == Extended(Opened(s, kind).toks, |s.toks|, k, r)
    requires t.pos < |js| && js[t.pos] == Bracket(kind, false)
    ensures Linked(Extended(s.toks, s.super, 1, [Token(kind, s.pos, t.pos + 1, k, s.super)] + r))
    ensures Leads(js, cap, t, State(t.pos + 1, Extended(s.toks, s.super, 1, [Token(kind, s.pos, t.pos + 1, k, s.super)] + r), s.super))
  {
    var idx := |s.toks|;
    forall i | idx < i < |t.toks| ensures !IsOpen(t.toks[i]) && idx <= t.toks[i].parent < i {
      assert t.toks[i] == r[i - idx - 1];
    }
    RunClose(js, t, cap, kind, idx);
    assert t.toks[idx := t.toks[idx].(end := t.pos + 1)] ==
           Extended(s.toks, s.super, 1, [Token(kind, s.pos, t.pos + 1, k, s.super)] + r);
  }

  lemma {:induction false} RunValue(js: Text, s: State, cap: nat, v: Value)
    requires Shape(s) && CanTake(js, s, cap, v)
    ensures Leads(js, cap, s, AfterValue(s, v))
    decreases v, 1
  {
    match v
    case Literal(t) => RunLiteral(js, s, cap, t);
    case Chars(raw) => RunString(js, s, cap, raw);
    case EmptyArray(gap) => RunEmpty(js, s, cap, Array, gap);
    case EmptyObject(gap) => RunEmpty(js, s, cap, Object, gap);
    case ArrayOf(es) => RunArray(js, s, cap, es);
    case ObjectOf(ms) => RunObject(js, s, cap, ms);
  }

  lemma {:induction false} RunArray(js: Text, s: State, cap: nat, es: Elements)
    requires Shape(s) && CanTake(js, s, cap, ArrayOf(es))
    ensures Leads(js, cap, s, AfterValue(s, ArrayOf(es)))
    decreases ArrayOf(es), 0
  {
    RunBrackets(js, s, cap, Array, PrintElements(es));
    var o := Opened(s, Array);
    RunElements(js, o, cap, es);
    var t := AfterElements(o, es);
    ElementsUnder(es, o.pos, |o.toks|, o.super);
    CloseAfter(js, s, t, cap, Array, CountElements(es), ElementNodes(es, o.pos, |o.toks|, o.super));
    Then(js, cap, o, t, AfterValue(s, ArrayOf(es)));
    Then(js, cap, s, o, AfterValue(s, ArrayOf(es)));
  }

  lemma {:induction false} RunObject(js: Text, s: State, cap: nat, ms: Members)
    requires Shape(s) && CanTake(js, s, cap, ObjectOf(ms))
    ensures Leads(js, cap, s, AfterValue(s, ObjectOf(ms)))
    decreases ObjectOf(ms), 0
  {
    RunBrackets(js, s, cap, Object, PrintMembers(ms));
    var o := Opened(s, Object);
    RunMembers(js, o, cap, ms);
    var t := AfterMembers(o, ms);
    MembersUnder(ms, o.pos, |o.toks|, o.super);
    CloseAfter(js, s, t, cap, Object, CountMembers(ms), MemberNodes(ms, o.pos, |o.toks|, o.super));
    Then(js, cap, o, t, AfterValue(s, ObjectOf(ms)));
    Then(js, cap, s, o, AfterValue(s, ObjectOf(ms)));
  }

  /** The opening bracket is read; the contents and the closing bracket stand behind it. */
  lemma RunBrackets(js: Text, s: State, cap: nat, kind: Kind, inner: Text)
    requires Shape(s) && TakesPrimitive(s) && |s.toks| < cap && (kind == Object || kind == Array)
    requires Occurs(js, s.pos, [Bracket(kind, true)] + inner + [Bracket(kind, false)])
    ensures Leads(js, cap, s, Opened(s, kind))
    ensures Occurs(js, s.pos + 1, inner)
    ensures s.pos + 1 + |inner| < |js| && js[s.pos + 1 + |inner|] == Bracket(kind, false)
    ensures Delimited(js, s.pos + 1 + |inner|)
  {
    var a, b := [Bracket(kind, true)], [Bracket(kind, false)];
    OccursSplit(js, s.pos, a + inner, b);
    OccursSplit(js, s.pos, a, inner);
    OccursAt(js, s.pos, a, 0);
    OccursAt(js, s.pos + 1 + |inner|, b, 0);
    RunOpen(js, s, cap, kind);
  }

  lemma RunEmpty(js: Text, s: State, cap: nat, kind: Kind, gap: Text)
    requires Shape(s) && TakesPrimitive(s) && |s.toks| < cap && (kind == Object || kind == Array) && IsGap(gap)
    requires Occurs(js, s.pos, [Bracket(kind, true)] + gap + [Bracket(kind, false)])
    ensures Leads(js, cap, s, AfterValue(s, if kind == Object then EmptyObject(gap) else EmptyArray(gap)))
  {
    RunBrackets(js, s, cap, kind, gap);
    var o := Opened(s, kind);
    RunGap(js, o, cap, gap);
    var t := o.(pos := o.pos + |gap|);
    assert t.toks == Extended(o.toks, |s.toks|, 0, []);
    CloseAfter(js, s, t, cap, kind, 0, []);
    var v := if kind == Object then EmptyObject(gap) else EmptyArray(gap);
    assert [Token(kind, s.pos, t.pos + 1, 0, s.super)] + [] == Nodes(v, s.pos, |s.toks|, s.super);
    Then(js, cap, o, t, AfterValue(s, v));
    Then(js, cap, s, o, AfterValue(s, v));
  }

  // ------------------------------------------------------------------ documents

  /** A whole text: white space, a value, white space. */
  lemma RunDocument(e: Padded, cap: nat)
    requires IsPadded(e) && !e.value.Literal? && Size(e.value) <= cap
    ensures Run(PrintPadded(e), INIT, cap) == Done(State(|PrintPadded(e)|, Nodes(e.value, |e.pre|, 0, -1), -1))
  {
    var js := PrintPadded(e);
    var u := State(|js|, Nodes(e.value, |e.pre|, 0, -1), -1);
    DocumentLeads(e, cap);
    assert RunAt(0, js, cap, INIT) == RunAt(0, js, cap, u);
    NodesUnder(e.value, |e.pre|, 0, -1);
    assert !AnyOpen(u.toks);
  }

  lemma DocumentLeads(e: Padded, cap: nat)
    requires IsPadded(e) && !e.value.Literal? && Size(e.value) <= cap
    ensures Leads(PrintPadded(e), cap, INIT, State(|PrintPadded(e)|, Nodes(e.value, |e.pre|, 0, -1), -1))
  {
    var js := PrintPadded(e);
    DocumentText(e);
    RunGap(js, INIT, cap, e.pre);
    var s := INIT.(pos := |e.pre|);
    RunValue(js, s, cap, e.value);
    Then(js, cap, INIT, s, AfterValue(s, e.value));
    RunTrailingGap(js, INIT, cap, e);
    assert AfterPadded(INIT, e).toks == Nodes(e.value, |e.pre|, 0, -1);
  }

  lemma DocumentText(e: Padded)
    ensures var js := PrintPadded(e);
            Occurs(js, 0, e.pre) && Occurs(js, |e.pre|, Print(e.value)) && Occurs(js, |e.pre| + |Print(e.value)|, e.post)
  {
    var js := PrintPadded(e);
    assert js == js[..|js|];
    OccursSplit(js, 0, e.pre + Print(e.value), e.post);
    OccursSplit(js, 0, e.pre, Print(e.value));
  }
}
