/**
 JSON documents as trees (RFC 8259, sections 2 to 7) with all the white space and spelling of their text, the
 text of a tree, and the tokens a tokenizer owes it in pre-order.

 A tree is any document a writer could print: the gaps between its parts and the spelling of its literals are
 part of it, so the statements about printed trees are about every text of the grammar, and not about one
 canonical form. A key is a token of its own, and a value's parent is its key.
 */
module JsonTree {
  import opened Bytes
  import opened Tokenizer

  datatype Value =
    | Literal(text: Text)
    | Chars(raw: Text)
    | EmptyArray(gap: Text)
    | ArrayOf(elements: Elements)
    | EmptyObject(gap: Text)
    | ObjectOf(members: Members)

  /** A value with the white space around it. */
  datatype Padded = Padded(pre: Text, value: Value, post: Text)

  datatype Elements = LastElement(e: Padded) | MoreElements(e: Padded, rest: Elements)

  /** `pre "key" mid : e` */
  datatype Member = Member(pre: Text, key: Text, mid: Text, e: Padded)

  datatype Members = LastMember(m: Member) | MoreMembers(m: Member, rest: Members)

  // ------------------------------------------------------------------ text

  predicate IsGap(t: Text) {
    forall i | 0 <= i < |t| :: IsSpace(t[i])
  }

  /** Number, true, false or null, as far as the tokenizer looks: see NumberGrammar for the exact syntax. */
  predicate IsPrimitiveText(t: Text) {
    |t| > 0 && StartsPrimitive(t[0]) && forall i | 0 <= i < |t| :: 32 < t[i] < 127 && !IsDelimiter(t[i])
  }

  /**
   What may stand between the quotes of a string literal. Raw control characters other than NUL
   are let through as well, as the tokenizer does; RFC 8259 strings are the ones without them.
   */
  predicate IsRawString(r: Text) {
    r == [] ||
    if r[0] == BACKSLASH then
      |r| >= 2 &&
      if r[1] == LOWER_U then |r| >= 6 && IsHex(r[2]) && IsHex(r[3]) && IsHex(r[4]) && IsHex(r[5]) && IsRawString(r[6..])
      else IsShortEscape(r[1]) && IsRawString(r[2..])
    else r[0] != 0 && r[0] != QUOTE && IsRawString(r[1..])
  }

  predicate IsValue(v: Value) {
    match v
    case Literal(t) => IsPrimitiveText(t)
    case Chars(r) => IsRawString(r)
    case EmptyArray(g) => IsGap(g)
    case ArrayOf(es) => AreElements(es)
    case EmptyObject(g) => IsGap(g)
    case ObjectOf(ms) => AreMembers(ms)
  }

  predicate IsPadded(e: Padded) {
    IsGap(e.pre) && IsValue(e.value) && IsGap(e.post)
  }

  predicate AreElements(es: Elements) {
    IsPadded(es.e) && (es.MoreElements? ==> AreElements(es.rest))
  }

  predicate AreMembers(ms: Members) {
    IsGap(ms.m.pre) && IsRawString(ms.m.key) && IsGap(ms.m.mid) && IsPadded(ms.m.e) &&
    (ms.MoreMembers? ==> AreMembers(ms.rest))
  }

  function Print(v: Value): Text {
    match v
    case Literal(t) => t
    case Chars(r) => [QUOTE] + r + [QUOTE]
    case EmptyArray(g) => [LBRACKET] + g + [RBRACKET]
    case ArrayOf(es) => [LBRACKET] + PrintElements(es) + [RBRACKET]
    case EmptyObject(g) => [LBRACE] + g + [RBRACE]
    case ObjectOf(ms) => [LBRACE] + PrintMembers(ms) + [RBRACE]
  }

  function PrintPadded(e: Padded): Text {
    e.pre + Print(e.value) + e.post
  }

  function PrintElements(es: Elements): Text {
    PrintPadded(es.e) + if es.LastElement? then [] else [COMMA] + PrintElements(es.rest)
  }

  function PrintKey(m: Member): Text {
    m.pre + ([QUOTE] + m.key + [QUOTE]) + m.mid + [COLON]
  }

  function PrintMembers(ms: Members): Text {
    PrintKey(ms.m) + PrintPadded(ms.m.e) + if ms.LastMember? then [] else [COMMA] + PrintMembers(ms.rest)
  }

  // ------------------------------------------------------------------ tokens

  function CountElements(es: Elements): nat {
    1 + if es.LastElement? then 0 else CountElements(es.rest)
  }

  function CountMembers(ms: Members): nat {
    1 + if ms.LastMember? then 0 else CountMembers(ms.rest)
  }

  /** The number of tokens of a value: one for itself, one more for every key below it. */
  function Size(v: Value): nat {
    match v
    case ArrayOf(es) => 1 + ElementsSize(es)
    case ObjectOf(ms) => 1 + MembersSize(ms)
    case _ => 1
  }

  function ElementsSize(es: Elements): nat {
    Size(es.e.value) + if es.LastElement? then 0 else ElementsSize(es.rest)
  }

  function MembersSize(ms: Members): nat {
    1 + Size(ms.m.e.value) + if ms.LastMember? then 0 else MembersSize(ms.rest)
  }

  /**
   The tokens of a value whose text starts at `pos`, numbered from `idx`, below token `parent`.
   The parent of a member's value is the member's key.
   */
  function Nodes(v: Value, pos: nat, idx: nat, parent: int): (r: seq<Token>)
    ensures |r| == Size(v)
  {
    match v
    case Literal(t) => [Token(Primitive, pos, pos + |t|, 0, parent)]
    case Chars(r) => [Token(Str, pos + 1, pos + 1 + |r|, 0, parent)]
    case EmptyArray(_) => [Token(Array, pos, pos + |Print(v)|, 0, parent)]
    case EmptyObject(_) => [Token(Object, pos, pos + |Print(v)|, 0, parent)]
    case ArrayOf(es) =>
      [Token(Array, pos, pos + |Print(v)|, CountElements(es), parent)] + ElementNodes(es, pos + 1, idx + 1, idx)
    case ObjectOf(ms) =>
      [Token(Object, pos, pos + |Print(v)|, CountMembers(ms), parent)] + MemberNodes(ms, pos + 1, idx + 1, idx)
  }

  function ElementNodes(es: Elements, pos: nat, idx: nat, parent: int): (r: seq<Token>)
    ensures |r| == ElementsSize(es)
  {
    Nodes(es.e.value, pos + |es.e.pre|, idx, parent) +
    if es.LastElement? then []
    else ElementNodes(es.rest, pos + |PrintPadded(es.e)| + 1, idx + Size(es.e.value), parent)
  }

  function KeyToken(m: Member, pos: nat, size: int, parent: int): Token {
    Token(Str, pos + |m.pre| + 1, pos + |m.pre| + 1 + |m.key|, size, parent)
  }

  function MemberNodes(ms: Members, pos: nat, idx: nat, parent: int): (r: seq<Token>)
    ensures |r| == MembersSize(ms)
  {
    var at := pos + |PrintKey(ms.m)|;
    [KeyToken(ms.m, pos, 1, parent)] + Nodes(ms.m.e.value, at + |ms.m.e.pre|, idx + 1, idx) +
    if ms.LastMember? then []
    else MemberNodes(ms.rest, at + |PrintPadded(ms.m.e)| + 1, idx + 1 + Size(ms.m.e.value), parent)
  }
}
