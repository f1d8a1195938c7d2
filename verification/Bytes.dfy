/**
 Bytes, and the character codes that the JSON code and the parsers compare against.

 A text is a sequence of bytes as the C programs see it: no encoding is assumed, and a terminating zero is
 not part of it. Besides the codes this module has the one notion all parsers share, that a text stands
 somewhere in another one, with the few laws that let a proof go from a whole to its parts: the two halves of
 a concatenation, a single character, and a head with two tails.
 */
module Bytes {
  type byte = b: int | 0 <= b < 256

  type Text = seq<byte>

  const TAB: byte := 9
  const LF: byte := 10
  const CR: byte := 13
  const SPACE: byte := 32
  const QUOTE: byte := 34
  const COMMA: byte := 44
  const MINUS: byte := 45
  const SLASH: byte := 47
  const COLON: byte := 58
  const LBRACKET: byte := 91
  const BACKSLASH: byte := 92
  const RBRACKET: byte := 93
  const LOWER_B: byte := 98
  const LOWER_F: byte := 102
  const LOWER_N: byte := 110
  const LOWER_R: byte := 114
  const LOWER_T: byte := 116
  const LOWER_U: byte := 117
  const LBRACE: byte := 123
  const RBRACE: byte := 125

  predicate IsSpace(c: byte) {
    c == TAB || c == LF || c == CR || c == SPACE
  }

  predicate IsDigit(c: byte) {
    48 <= c <= 57
  }

  predicate IsHex(c: byte) {
    IsDigit(c) || 65 <= c <= 70 || 97 <= c <= 102
  }

  /** `part` stands in `whole` at offset `at`. */
  predicate Occurs<T(==)>(whole: seq<T>, at: nat, part: seq<T>) {
    at + |part| <= |whole| && whole[at..at + |part|] == part
  }

  /** The first piece of a concatenation stands where the whole does, the second right after it. */
  lemma OccursSplit<T>(whole: seq<T>, at: nat, left: seq<T>, right: seq<T>)
    requires Occurs(whole, at, left + right)
    ensures Occurs(whole, at, left) && Occurs(whole, at + |left|, right)
  {
    var both := left + right;
    assert whole[at..at + |left|] == both[..|left|];
    assert whole[at + |left|..at + |left| + |right|] == both[|left|..];
  }

  lemma OccursAt<T>(whole: seq<T>, at: nat, part: seq<T>, i: nat)
    requires Occurs(whole, at, part) && i < |part|
    ensures whole[at + i] == part[i]
  {
    assert whole[at..at + |part|][i] == whole[at + i];
  }

  lemma OccursThree<T>(whole: seq<T>, at: nat, a: T, b: seq<T>, c: seq<T>)
    requires Occurs(whole, at, [a] + b + c)
    ensures at < |whole| && whole[at] == a && Occurs(whole, at + 1, b) && Occurs(whole, at + 1 + |b|, c)
  {
    OccursSplit(whole, at, [a] + b, c);
    OccursSplit(whole, at, [a], b);
    OccursAt(whole, at, [a], 0);
  }

  /** A middle part moves from the right to the left. */
  lemma Regroup<T>(a: seq<T>, b: seq<T>, c: seq<T>, right: seq<T>, whole: seq<T>)
    requires whole == a + right && right == b + c
    ensures whole == a + b + c
  {
  }
}
