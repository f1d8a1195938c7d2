/** json_parse and json_get of src/json.c, and what they give on every JSON document. */
module JsonLookup {
  import opened Bytes
  import opened Tokenizer
  import opened TokenForest
  import opened JsonTree
  import opened Completeness
  import opened JsmnParser

  const JSON_TOK_CAP := 4096

  /** The text a token covers. */
  function Covered(src: Text, t: Token): Text
    requires 0 <= t.start <= t.end <= |src|
  {
    src[t.start..t.end]
  }

  predicate InText(src: Text, toks: seq<Token>) {
    forall i | 0 <= i < |toks| :: 0 <= toks[i].start <= toks[i].end <= |src|
  }

  predicate Matches(src: Text, toks: seq<Token>, obj: int, key: Text, i: nat)
    requires InText(src, toks) && i < |toks|
  {
    toks[i].parent == obj && toks[i].kind == Str && Covered(src, toks[i]) == key && i + 1 < |toks|
  }

  /** The token behind the first direct child of `obj`, from token `i` on, that is the string `key`; else -1. */
  function First(src: Text, toks: seq<Token>, obj: int, key: Text, i: nat): (r: int)
    requires InText(src, toks) && i <= |toks|
    ensures r == -1 || i < r < |toks|
    decreases |toks| - i
  {
    if i == |toks| then -1
    else if Matches(src, toks, obj, key, i) then i + 1
    else First(src, toks, obj, key, i + 1)
  }

  function Get(src: Text, toks: seq<Token>, obj: int, key: Text): (r: int)
    requires InText(src, toks) && obj < |toks|
    ensures -1 <= r < |toks|
  {
    if obj < 0 || toks[obj].kind != Object then -1 else First(src, toks, obj, key, obj + 1)
  }

  class Json {
    var src: Text
    var tok: array<Token>
    var n: int

    constructor ()
      ensures fresh(tok) && tok.Length == JSON_TOK_CAP
    {
      src := [];
      tok := new Token[JSON_TOK_CAP](_ => Token(Object, 0, 0, 0, -1));
      n := -1;
    }

    ghost predicate Valid()
      reads this, tok
    {
      -1 <= n <= tok.Length && (n >= 0 ==> InText(src, tok[..n]))
    }

    /** The token count, or -1 unless the text is one object with everything else below it. */
    method Parse(text: Text) returns (rc: int)
      modifies this, tok
      ensures src == text && tok == old(tok)
      ensures Valid() && rc == n
      ensures match Run(text, INIT, tok.Length)
              case Failed(_) => n == -1
              case Done(s) => if OneRoot(s.toks) then n == |s.toks| && tok[..n] == s.toks else n == -1
    {
      var p := new Parser();
      src := text;
      assert p.Abs(tok) == INIT;
      n := p.Parse(text, tok);
      ghost var r := Run(text, INIT, tok.Length);
      if r.Done? {
        ParsedForest(text, tok.Length);
      }
      if n < 1 || tok[0].kind != Object {
        n := -1;
      }
      ghost var all := tok[..];
      var i := 1;
      while i < n
        invariant i >= 1 && -1 <= n && tok[..] == all && src == text && tok == old(tok)
        invariant n == -1 || (r.Done? && n == |r.s.toks| >= 1 && tok[..n] == r.s.toks && tok[0].kind == Object)
        invariant n != -1 ==> forall k | 1 <= k < i && k < n :: tok[k].parent >= 0
        invariant n == -1 ==> r.Failed? || !OneRoot(r.s.toks)
      {
        if tok[i].parent < 0 {
          assert r.s.toks[i].parent < 0;
          n := -1;
        }
        i := i + 1;
      }
      return n;
    }

    /** The value of the first direct member `key` of object `obj`; -1 when absent. */
    method Lookup(obj: int, key: Text) returns (t: int)
      requires Valid() && n >= 0 && obj < n
      ensures t == Get(src, tok[..n], obj, key)
    {
      if obj < 0 || tok[obj].kind != Object {
        return -1;
      }
      ghost var toks := tok[..n];
      var i := obj + 1;
      while i < n
        invariant obj < i <= n
        invariant First(src, toks, obj, key, obj + 1) == First(src, toks, obj, key, i)
      {
        var t := tok[i];
        assert t == toks[i];
        if t.parent == obj && t.kind == Str && t.end - t.start == |key| && src[t.start..t.end] == key && i + 1 < n {
          return i + 1;
        }
        i := i + 1;
      }
      return -1;
    }
  }

  // ------------------------------------------------------------------ lookups in a document

  datatype Option<T> = None | Some(value: T)

  function ValueOf(ms: Members, key: Text): Option<Value> {
    if ms.m.key == key then Some(ms.m.e.value)
    else if ms.LastMember? then None
    else ValueOf(ms.rest, key)
  }

  /** The value of the first member with that raw name. */
  function Member(v: Value, key: Text): Option<Value> {
    if v.ObjectOf? then ValueOf(v.members, key) else None
  }

  /** The value a path of names leads to. */
  function Resolve(v: Value, path: seq<Text>): Option<Value>
    decreases |path|
  {
    if path == [] then Some(v)
    else match Member(v, path[0])
         case None => None
         case Some(w) => Resolve(w, path[1..])
  }

  /** The same walk by repeated json_get. */
  function GetPath(src: Text, toks: seq<Token>, obj: int, path: seq<Text>): (r: int)
    requires InText(src, toks) && -1 <= obj < |toks|
    ensures -1 <= r < |toks|
    decreases |path|
  {
    if path == [] then obj else GetPath(src, toks, Get(src, toks, obj, path[0]), path[1..])
  }

  /** Value `v` has its text at `pos`, its tokens at `idx`, and no later token hangs below it. */
  ghost predicate Sits(src: Text, toks: seq<Token>, v: Value, pos: nat, idx: nat, parent: int) {
    && Occurs(src, pos, Print(v))
    && Occurs(toks, idx, Nodes(v, pos, idx, parent))
    && forall k | idx + Size(v) <= k < |toks| :: toks[k].parent < idx || toks[k].parent >= idx + Size(v)
  }

  /** A value with the offset of its text, the index of its token and that token's parent. */
  datatype Place = Place(value: Value, at: nat, idx: nat, parent: int)

  /** The place of the value of the first member `key`, when the members' text is at `pos` and their tokens are at `i`. */
  function PlaceOf(ms: Members, key: Text, pos: nat, i: nat): Option<Place> {
    if ms.m.key == key then Some(Place(ms.m.e.value, pos + |PrintKey(ms.m)| + |ms.m.e.pre|, i + 1, i))
    else if ms.LastMember? then None
    else PlaceOf(ms.rest, key, RestAt(ms, pos), i + 1 + Size(ms.m.e.value))
  }

  function PlaceIn(v: Value, key: Text, pos: nat, idx: nat): Option<Place> {
    if v.ObjectOf? then PlaceOf(v.members, key, pos + 1, idx + 1) else None
  }

  /** The place a path of names leads to. */
  function PlaceAlong(p: Place, path: seq<Text>): Option<Place>
    decreases |path|
  {
    if path == [] then Some(p)
    else match PlaceIn(p.value, path[0], p.at, p.idx)
         case None => None
         case Some(q) => PlaceAlong(q, path[1..])
  }

  function ValueAt(p: Option<Place>): Option<Value> {
    if p.Some? then Some(p.value.value) else None
  }

  /** What a lookup owes: the very token of the value's place, with the value's text and tokens there; else -1. */
  ghost predicate Answers(src: Text, toks: seq<Token>, p: Option<Place>, r: int) {
    if p.Some? then r == p.value.idx && Sits(src, toks, p.value.value, p.value.at, p.value.idx, p.value.parent) else r == -1
  }

  /** Places and values are the same walk through the tree. */
  lemma {:induction false} PlaceOfValue(ms: Members, key: Text, pos: nat, i: nat)
    ensures ValueAt(PlaceOf(ms, key, pos, i)) == ValueOf(ms, key)
    decreases ms
  {
    if ms.MoreMembers? {
      PlaceOfValue(ms.rest, key, RestAt(ms, pos), i + 1 + Size(ms.m.e.value));
    }
  }

  lemma {:induction false} PlaceAlongValue(p: Place, path: seq<Text>)
    ensures ValueAt(PlaceAlong(p, path)) == Resolve(p.value, path)
    decreases |path|
  {
    if path != [] {
      var q := PlaceIn(p.value, path[0], p.at, p.idx);
      if p.value.ObjectOf? {
        PlaceOfValue(p.value.members, path[0], p.at + 1, p.idx + 1);
      }
      if q.Some? {
        PlaceAlongValue(q.value, path[1..]);
      }
    }
  }

  lemma {:induction false} FirstMatches(src: Text, toks: seq<Token>, obj: int, key: Text, i: nat)
    requires InText(src, toks) && i <= |toks|
    ensures var r := First(src, toks, obj, key, i); r != -1 ==> Matches(src, toks, obj, key, r - 1)
    decreases |toks| - i
  {
    if i < |toks| && !Matches(src, toks, obj, key, i) {
      FirstMatches(src, toks, obj, key, i + 1);
    }
  }

  lemma {:induction false} Skip(src: Text, toks: seq<Token>, obj: int, key: Text, i: nat, j: nat)
    requires InText(src, toks) && i <= j <= |toks|
    requires forall k | i <= k < j :: toks[k].parent != obj
    ensures First(src, toks, obj, key, i) == First(src, toks, obj, key, j)
    decreases j - i
  {
    if i < j {
      Skip(src, toks, obj, key, i + 1, j);
    }
  }

  function ValueTokens(ms: Members, pos: nat, i: nat): (r: seq<Token>)
    ensures |r| == Size(ms.m.e.value)
  {
    Nodes(ms.m.e.value, pos + |PrintKey(ms.m)| + |ms.m.e.pre|, i + 1, i)
  }

  function RestAt(ms: Members, pos: nat): nat {
    pos + |PrintKey(ms.m)| + |PrintPadded(ms.m.e)| + 1
  }

  function RestTokens(ms: Members, obj: nat, pos: nat, i: nat): seq<Token> {
    if ms.LastMember? then [] else MemberNodes(ms.rest, RestAt(ms, pos), i + 1 + Size(ms.m.e.value), obj)
  }

  /** Inside a member: the key token, then the value's tokens. */
  lemma MemberTokens(toks: seq<Token>, obj: nat, ms: Members, pos: nat, i: nat)
    requires Occurs(toks, i, MemberNodes(ms, pos, i, obj))
    ensures i + 1 < |toks| && toks[i] == KeyToken(ms.m, pos, 1, obj)
    ensures Occurs(toks, i + 1, ValueTokens(ms, pos, i))
    ensures Occurs(toks, i + 1 + Size(ms.m.e.value), RestTokens(ms, obj, pos, i))
  {
    MemberNodesSplit(ms, obj, pos, i);
    OccursThree(toks, i, KeyToken(ms.m, pos, 1, obj), ValueTokens(ms, pos, i), RestTokens(ms, obj, pos, i));
    NodesNonEmpty(ms.m.e.value);
  }

  lemma MemberNodesSplit(ms: Members, obj: nat, pos: nat, i: nat)
    ensures MemberNodes(ms, pos, i, obj) ==
            [KeyToken(ms.m, pos, 1, obj)] + ValueTokens(ms, pos, i) + RestTokens(ms, obj, pos, i)
  {
  }

  /** Tokens that hang below `parent` or below each other still do inside a larger array. */
  lemma UnderAt(toks: seq<Token>, at: nat, r: seq<Token>, parent: int)
    requires Occurs(toks, at, r) && Under(r, at, parent)
    ensures forall k | at <= k < at + |r| :: toks[k].parent == parent || toks[k].parent >= at
  {
    forall k | at <= k < at + |r| ensures toks[k].parent == parent || toks[k].parent >= at {
      OccursAt(toks, at, r, k - at);
    }
  }

  lemma NodesNonEmpty(v: Value)
    ensures Size(v) > 0
  {
  }

  /** None of the value's tokens is a child of the object. */
  lemma ValueParents(toks: seq<Token>, ms: Members, pos: nat, i: nat)
    requires Occurs(toks, i + 1, ValueTokens(ms, pos, i))
    ensures forall k | i < k < i + 1 + Size(ms.m.e.value) :: toks[k].parent >= i
  {
    NodesUnder(ms.m.e.value, pos + |PrintKey(ms.m)| + |ms.m.e.pre|, i + 1, i);
    UnderAt(toks, i + 1, ValueTokens(ms, pos, i), i);
  }

  /** The tokens of the later members hang below the object or below each other. */
  lemma RestParents(toks: seq<Token>, obj: nat, ms: Members, pos: nat, i: nat)
    requires Occurs(toks, i + 1 + Size(ms.m.e.value), RestTokens(ms, obj, pos, i))
    ensures forall k | i + 1 + Size(ms.m.e.value) <= k < i + MembersSize(ms) ::
              toks[k].parent == obj || toks[k].parent >= i + 1 + Size(ms.m.e.value)
  {
    if ms.MoreMembers? {
      var next := i + 1 + Size(ms.m.e.value);
      MembersUnder(ms.rest, RestAt(ms, pos), next, obj);
      UnderAt(toks, next, RestTokens(ms, obj, pos, i), obj);
    }
  }

  lemma MemberSits(src: Text, toks: seq<Token>, obj: nat, ms: Members, pos: nat, i: nat)
    requires Occurs(src, pos, PrintMembers(ms)) && Occurs(toks, i, MemberNodes(ms, pos, i, obj)) && obj < i
    requires forall k | i + MembersSize(ms) <= k < |toks| :: toks[k].parent < i || toks[k].parent >= i + MembersSize(ms)
    ensures Sits(src, toks, ms.m.e.value, pos + |PrintKey(ms.m)| + |ms.m.e.pre|, i + 1, i)
  {
    MemberTextSits(src, ms, pos);
    MemberTokens(toks, obj, ms, pos, i);
    RestParents(toks, obj, ms, pos, i);
  }

  lemma PaddedValue(src: Text, p: nat, e: Padded)
    requires Occurs(src, p, PrintPadded(e))
    ensures Occurs(src, p + |e.pre|, Print(e.value))
  {
    OccursSplit(src, p, e.pre + Print(e.value), e.post);
    OccursSplit(src, p, e.pre, Print(e.value));
  }

  lemma MemberTextSits(src: Text, ms: Members, pos: nat)
    requires Occurs(src, pos, PrintMembers(ms))
    ensures var e := ms.m.e;
            var at := pos + |PrintKey(ms.m)|;
            && Occurs(src, pos + |ms.m.pre| + 1, ms.m.key)
            && Occurs(src, at + |e.pre|, Print(e.value))
            && (ms.MoreMembers? ==> Occurs(src, at + |PrintPadded(e)| + 1, PrintMembers(ms.rest)))
  {
    if ms.MoreMembers? {
      CommaText(src, pos, PrintKey(ms.m) + PrintPadded(ms.m.e), PrintMembers(ms.rest));
    } else {
      assert PrintMembers(ms) == PrintKey(ms.m) + PrintPadded(ms.m.e);
    }
    OneMemberText(src, ms.m, pos);
  }

  lemma OneMemberText(src: Text, m: JsonTree.Member, pos: nat)
    requires Occurs(src, pos, PrintKey(m) + PrintPadded(m.e))
    ensures Occurs(src, pos + |m.pre| + 1, m.key) && Occurs(src, pos + |PrintKey(m)| + |m.e.pre|, Print(m.e.value))
  {
    MemberText(src, pos, m);
    OccursSplit(src, pos + |m.pre|, [QUOTE] + m.key, [QUOTE]);
    OccursSplit(src, pos + |m.pre|, [QUOTE], m.key);
    PaddedValue(src, pos + |PrintKey(m)|, m.e);
  }

  /** The scan over the members finds the first one with that name, and its value sits there. */
  lemma {:induction false} FirstMember(src: Text, toks: seq<Token>, obj: nat, key: Text, ms: Members, pos: nat, i: nat)
    requires InText(src, toks)
    requires Occurs(src, pos, PrintMembers(ms)) && Occurs(toks, i, MemberNodes(ms, pos, i, obj)) && obj < i
    requires forall k | i + MembersSize(ms) <= k < |toks| :: toks[k].parent < obj || toks[k].parent >= i + MembersSize(ms)
    ensures Answers(src, toks, PlaceOf(ms, key, pos, i), First(src, toks, obj, key, i))
    decreases ms, 1
  {
    MemberTokens(toks, obj, ms, pos, i);
    KeyMatches(src, toks, obj, key, ms, pos, i);
    if ms.m.key == key {
      MemberSits(src, toks, obj, ms, pos, i);
    } else {
      NextMember(src, toks, obj, key, ms, pos, i);
    }
  }

  /** A member of another name is passed over, value and all. */
  lemma {:induction false} NextMember(src: Text, toks: seq<Token>, obj: nat, key: Text, ms: Members, pos: nat, i: nat)
    requires InText(src, toks) && i + 1 < |toks| && !Matches(src, toks, obj, key, i) && ms.m.key != key
    requires Occurs(src, pos, PrintMembers(ms)) && obj < i
    requires Occurs(toks, i + 1, ValueTokens(ms, pos, i))
    requires Occurs(toks, i + 1 + Size(ms.m.e.value), RestTokens(ms, obj, pos, i))
    requires forall k | i + MembersSize(ms) <= k < |toks| :: toks[k].parent < obj || toks[k].parent >= i + MembersSize(ms)
    ensures Answers(src, toks, PlaceOf(ms, key, pos, i), First(src, toks, obj, key, i))
    decreases ms, 0
  {
    var next := i + 1 + Size(ms.m.e.value);
    PassValue(src, toks, obj, key, ms, pos, i);
    if ms.LastMember? {
      Skip(src, toks, obj, key, next, |toks|);
    } else {
      MemberTextSits(src, ms, pos);
      FirstMember(src, toks, obj, key, ms.rest, RestAt(ms, pos), next);
    }
  }

  lemma PassValue(src: Text, toks: seq<Token>, obj: nat, key: Text, ms: Members, pos: nat, i: nat)
    requires InText(src, toks) && i + 1 < |toks| && !Matches(src, toks, obj, key, i) && obj < i
    requires Occurs(toks, i + 1, ValueTokens(ms, pos, i))
    ensures i + 1 + Size(ms.m.e.value) <= |toks|
    ensures First(src, toks, obj, key, i) == First(src, toks, obj, key, i + 1 + Size(ms.m.e.value))
  {
    ValueParents(toks, ms, pos, i);
    Skip(src, toks, obj, key, i + 1, i + 1 + Size(ms.m.e.value));
  }

  lemma KeyMatches(src: Text, toks: seq<Token>, obj: nat, key: Text, ms: Members, pos: nat, i: nat)
    requires InText(src, toks) && i + 1 < |toks| && toks[i] == KeyToken(ms.m, pos, 1, obj)
    requires Occurs(src, pos, PrintMembers(ms))
    ensures Matches(src, toks, obj, key, i) <==> ms.m.key == key
  {
    MemberTextSits(src, ms, pos);
  }

  /**
   json_get on any value of a document: the token of the value of its first member of that name, or -1. The
   token's parent is the key just before it, a child of the object with that raw name.
   */
  lemma GetMember(src: Text, toks: seq<Token>, v: Value, pos: nat, idx: nat, parent: int, key: Text)
    requires InText(src, toks) && Sits(src, toks, v, pos, idx, parent)
    ensures idx < |toks|
    ensures var r := Get(src, toks, idx, key);
      && Answers(src, toks, PlaceIn(v, key, pos, idx), r)
      && ValueAt(PlaceIn(v, key, pos, idx)) == Member(v, key)
      && (r != -1 ==> toks[r].parent == r - 1 && Matches(src, toks, idx, key, r - 1))
  {
    var nodes := Nodes(v, pos, idx, parent);
    OccursAt(toks, idx, nodes, 0);
    match v
    case ObjectOf(ms) =>
      ObjectMember(src, toks, ms, pos, idx, parent, key);
      PlaceOfValue(ms, key, pos + 1, idx + 1);
      ParentIsKey(src, toks, ms, key, pos + 1, idx + 1, First(src, toks, idx, key, idx + 1));
      FirstMatches(src, toks, idx, key, idx + 1);
    case EmptyObject(_) =>
      Skip(src, toks, idx, key, idx + 1, |toks|);
    case _ =>
  }

  lemma ObjectMember(src: Text, toks: seq<Token>, ms: Members, pos: nat, idx: nat, parent: int, key: Text)
    requires InText(src, toks) && Sits(src, toks, ObjectOf(ms), pos, idx, parent)
    ensures idx < |toks| && Answers(src, toks, PlaceOf(ms, key, pos + 1, idx + 1), First(src, toks, idx, key, idx + 1))
  {
    var nodes := Nodes(ObjectOf(ms), pos, idx, parent);
    OccursSplit(toks, idx, [nodes[0]], MemberNodes(ms, pos + 1, idx + 1, idx));
    OccursSplit(src, pos, [LBRACE] + PrintMembers(ms), [RBRACE]);
    OccursSplit(src, pos, [LBRACE], PrintMembers(ms));
    FirstMember(src, toks, idx, key, ms, pos + 1, idx + 1);
  }

  /** The value found hangs below the key before it. */
  lemma ParentIsKey(src: Text, toks: seq<Token>, ms: Members, key: Text, pos: nat, i: nat, r: int)
    requires Answers(src, toks, PlaceOf(ms, key, pos, i), r)
    ensures r != -1 ==> 0 < r < |toks| && toks[r].parent == r - 1
  {
    var p := PlaceOf(ms, key, pos, i);
    if p.Some? {
      PlaceBehindKey(ms, key, pos, i);
      OccursAt(toks, p.value.idx, Nodes(p.value.value, p.value.at, p.value.idx, p.value.parent), 0);
    }
  }

  lemma {:induction false} PlaceBehindKey(ms: Members, key: Text, pos: nat, i: nat)
    ensures var p := PlaceOf(ms, key, pos, i);
      p.Some? ==> p.value.idx == p.value.parent + 1 && p.value.parent >= i && Size(p.value.value) > 0
    decreases ms
  {
    if ms.m.key != key && ms.MoreMembers? {
      PlaceBehindKey(ms.rest, key, RestAt(ms, pos), i + 1 + Size(ms.m.e.value));
    }
  }

  lemma {:induction false} PathFinds(src: Text, toks: seq<Token>, p: Place, path: seq<Text>)
    requires InText(src, toks) && Sits(src, toks, p.value, p.at, p.idx, p.parent)
    ensures p.idx < |toks|
    ensures Answers(src, toks, PlaceAlong(p, path), GetPath(src, toks, p.idx, path))
    decreases |path|
  {
    OccursAt(toks, p.idx, Nodes(p.value, p.at, p.idx, p.parent), 0);
    if path != [] {
      GetMember(src, toks, p.value, p.at, p.idx, p.parent, path[0]);
      match PlaceIn(p.value, path[0], p.at, p.idx)
      case None => NoPath(src, toks, path[1..]);
      case Some(q) => PathFinds(src, toks, q, path[1..]);
    }
  }

  lemma {:induction false} NoPath(src: Text, toks: seq<Token>, path: seq<Text>)
    requires InText(src, toks)
    ensures GetPath(src, toks, -1, path) == -1
    decreases |path|
  {
    if path != [] {
      NoPath(src, toks, path[1..]);
    }
  }

  /**
   End to end, for every object document of RFC 8259 with at most JSON_TOK_CAP tokens: the text
   is taken, the tokens are the tree's in pre-order, and following any path of names by json_get
   gives the one token that belongs to the value the tree has at that path, or -1 when it has none.
   */
  lemma DocumentLookups(e: Padded, path: seq<Text>)
    requires IsPadded(e) && (e.value.ObjectOf? || e.value.EmptyObject?) && Size(e.value) <= JSON_TOK_CAP
    ensures var text := PrintPadded(e);
            var toks := Nodes(e.value, |e.pre|, 0, -1);
            Run(text, INIT, JSON_TOK_CAP) == Done(State(|text|, toks, -1)) && OneRoot(toks) && InText(text, toks)
    ensures var text := PrintPadded(e);
            var toks := Nodes(e.value, |e.pre|, 0, -1);
            var place := PlaceAlong(Place(e.value, |e.pre|, 0, -1), path);
            && Answers(text, toks, place, GetPath(text, toks, 0, path)) && ValueAt(place) == Resolve(e.value, path)
  {
    var text := PrintPadded(e);
    var toks := Nodes(e.value, |e.pre|, 0, -1);
    RunDocument(e, JSON_TOK_CAP);
    ParsedForest(text, JSON_TOK_CAP);
    NodesUnder(e.value, |e.pre|, 0, -1);
    DocumentText(e);
    assert toks[0..|toks|] == toks;
    assert Sits(text, toks, e.value, |e.pre|, 0, -1);
    PathFinds(text, toks, Place(e.value, |e.pre|, 0, -1), path);
    PlaceAlongValue(Place(e.value, |e.pre|, 0, -1), path);
  }

  // ------------------------------------------------------------------ not a validator

  /** `{}:}` is taken: the stray bracket closes nothing and is ignored. */
  lemma StrayBracketTaken()
    ensures Run([LBRACE, RBRACE, COLON, RBRACE], INIT, JSON_TOK_CAP) == Done(State(4, [Token(Object, 0, 2, 0, -1)], 0))
  {
    var js := [LBRACE, RBRACE, COLON, RBRACE];
    var shut := [Token(Object, 0, 2, 0, -1)];
    StepLeads(js, JSON_TOK_CAP, INIT, State(1, [Token(Object, 0, -1, 0, -1)], 0));
    StepLeads(js, JSON_TOK_CAP, State(1, [Token(Object, 0, -1, 0, -1)], 0), State(2, shut, -1));
    StepLeads(js, JSON_TOK_CAP, State(2, shut, -1), State(3, shut, 0));
    StepLeads(js, JSON_TOK_CAP, State(3, shut, 0), State(4, shut, 0));
    Then(js, JSON_TOK_CAP, State(2, shut, -1), State(3, shut, 0), State(4, shut, 0));
    Then(js, JSON_TOK_CAP, State(1, [Token(Object, 0, -1, 0, -1)], 0), State(2, shut, -1), State(4, shut, 0));
    Then(js, JSON_TOK_CAP, INIT, State(1, [Token(Object, 0, -1, 0, -1)], 0), State(4, shut, 0));
    assert RunAt(0, js, JSON_TOK_CAP, INIT) == RunAt(0, js, JSON_TOK_CAP, State(4, shut, 0));
  }
}
