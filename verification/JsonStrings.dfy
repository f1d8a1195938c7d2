/**
 String literals: the three escaping writers (src/json.c, src/app/core.c and
 clients/geistd_client.h), the two readers (json_strdup and gd_unescape), and what they mean.
 */
module JsonStrings {
  import opened Bytes
  import opened Tokenizer
  import opened JsonTree
  import opened Completeness

  // ------------------------------------------------------------------ UTF-8 (RFC 3629, section 3)

  /** The bytes of a code point, as both readers put them together. */
  function Utf8(cp: nat): (r: Text)
    requires cp < 0x110000
    ensures 1 <= |r| <= 4
    ensures |r| == if cp < 0x80 then 1 else if cp < 0x800 then 2 else if cp < 0x10000 then 3 else 4
  {
    if cp < 0x80 then [cp]
    else if cp < 0x800 then [0xC0 + cp / 64, 0x80 + cp % 64]
    else if cp < 0x10000 then [0xE0 + cp / 4096, 0x80 + cp / 64 % 64, 0x80 + cp % 64]
    else [0xF0 + cp / 262144, 0x80 + cp / 4096 % 64, 0x80 + cp / 64 % 64, 0x80 + cp % 64]
  }

  predicate IsTail(b: byte) {
    0x80 <= b <= 0xBF
  }

  datatype Decoded = Char(cp: nat, length: nat) | Malformed

  /** `b` without its marker bits. */
  function Low(b: byte, marker: int): int {
    b - marker
  }

  /** The RFC's table read backwards: the code point at the front, shortest form only. */
  function Utf8Decode(t: Text): Decoded {
    if t == [] then Malformed
    else if t[0] < 0x80 then Char(t[0], 1)
    else if 0xC2 <= t[0] <= 0xDF && |t| >= 2 && IsTail(t[1]) then Char(Low(t[0], 0xC0) * 64 + Low(t[1], 0x80), 2)
    else if 0xE0 <= t[0] <= 0xEF && |t| >= 3 && IsTail(t[1]) && IsTail(t[2]) && (t[0] == 0xE0 ==> t[1] >= 0xA0) then
      Char(Low(t[0], 0xE0) * 4096 + Low(t[1], 0x80) * 64 + Low(t[2], 0x80), 3)
    else if 0xF0 <= t[0] <= 0xF4 && |t| >= 4 && IsTail(t[1]) && IsTail(t[2]) && IsTail(t[3]) && (t[0] == 0xF0 ==> t[1] >= 0x90)
    then Char(Low(t[0], 0xF0) * 262144 + Low(t[1], 0x80) * 4096 + Low(t[2], 0x80) * 64 + Low(t[3], 0x80), 4)
    else Malformed
  }

  lemma Utf8Two(cp: nat, rest: Text)
    requires 0x80 <= cp < 0x800
    ensures Utf8Decode(Utf8(cp) + rest) == Char(cp, 2)
  {
    var b := Utf8(cp);
    assert Utf8(cp) + rest == [b[0], b[1]] + rest;
  }

  lemma Utf8Four(cp: nat, rest: Text)
    requires 0x10000 <= cp < 0x110000
    ensures Utf8Decode(Utf8(cp) + rest) == Char(cp, 4)
  {
    var b := Utf8(cp);
    assert Utf8(cp) + rest == [b[0], b[1], b[2], b[3]] + rest;
    assert cp == cp / 262144 * 262144 + cp / 4096 % 64 * 4096 + cp / 64 % 64 * 64 + cp % 64;
  }

  lemma Utf8RoundTrip(cp: nat, rest: Text)
    requires cp < 0x110000
    ensures Utf8Decode(Utf8(cp) + rest) == Char(cp, |Utf8(cp)|)
  {
    if cp >= 0x10000 {
      Utf8Four(cp, rest);
    } else if cp >= 0x800 {
    } else if cp >= 0x80 {
      Utf8Two(cp, rest);
    }
  }

  // ------------------------------------------------------------------ what a literal means

  function HexValue(c: byte): (v: nat)
    requires IsHex(c)
    ensures v < 16
  {
    if IsDigit(c) then c - 48 else if c >= 97 then c - 87 else c - 55
  }

  function Hex4(t: Text): (v: nat)
    requires |t| >= 4 && IsHex(t[0]) && IsHex(t[1]) && IsHex(t[2]) && IsHex(t[3])
    ensures v < 0x10000
  {
    HexValue(t[0]) * 4096 + HexValue(t[1]) * 256 + HexValue(t[2]) * 16 + HexValue(t[3])
  }

  predicate IsHigh(u: int) {
    0xD800 <= u <= 0xDBFF
  }

  predicate IsLow(u: int) {
    0xDC00 <= u <= 0xDFFF
  }

  function Pair(high: int, low: int): nat
    requires IsHigh(high) && IsLow(low)
  {
    0x10000 + (high - 0xD800) * 1024 + (low - 0xDC00)
  }

  /** A literal byte by byte, escapes resolved: plain bytes and UTF-16 code units. */
  datatype Piece = Plain(b: byte) | Unit(u: nat)

  function ShortEscape(e: byte): byte {
    if e == LOWER_N then LF else if e == LOWER_T then TAB else if e == LOWER_R then CR
    else if e == LOWER_B then 8 else if e == LOWER_F then 12 else e
  }

  function Pieces(raw: Text): (ps: seq<Piece>)
    requires IsRawString(raw)
    ensures forall p | p in ps && p.Unit? :: p.u < 0x10000
  {
    if raw == [] then []
    else if raw[0] != BACKSLASH then [Plain(raw[0])] + Pieces(raw[1..])
    else if raw[1] == LOWER_U then [Unit(Hex4(raw[2..6]))] + Pieces(raw[6..])
    else [Plain(ShortEscape(raw[1]))] + Pieces(raw[2..])
  }

  predicate StartsWithPair(ps: seq<Piece>) {
    |ps| >= 2 && ps[0].Unit? && IsHigh(ps[0].u) && ps[1].Unit? && IsLow(ps[1].u)
  }

  /** The bytes the pieces stand for: surrogate pairs joined, code units in UTF-8. */
  function Render(ps: seq<Piece>): Text
    requires forall p | p in ps && p.Unit? :: p.u < 0x10000
  {
    if ps == [] then []
    else if StartsWithPair(ps) then Utf8(Pair(ps[0].u, ps[1].u)) + Render(ps[2..])
    else if ps[0].Unit? then Utf8(ps[0].u) + Render(ps[1..])
    else [ps[0].b] + Render(ps[1..])
  }

  /** Some surrogate has no partner. */
  predicate HasLoneSurrogate(ps: seq<Piece>) {
    ps != [] &&
    if StartsWithPair(ps) then HasLoneSurrogate(ps[2..])
    else (ps[0].Unit? && (IsHigh(ps[0].u) || IsLow(ps[0].u))) || HasLoneSurrogate(ps[1..])
  }

  /** The byte string a literal denotes. */
  function Meaning(raw: Text): Text
    requires IsRawString(raw)
  {
    Render(Pieces(raw))
  }

  // ------------------------------------------------------------------ string tokens are raw strings

  /** What the tokenizer takes for a string is a raw string. */
  lemma {:induction false} TokenIsRaw(js: Text, p: nat)
    requires StringEnd(js, p).At?
    ensures IsRawString(js[p..StringEnd(js, p).p])
    decreases |js| - p
  {
    var e := StringEnd(js, p).p;
    if js[p] != QUOTE {
      var raw := js[p..e];
      if js[p] != BACKSLASH || p + 1 >= |js| {
        TokenIsRaw(js, p + 1);
        assert raw[1..] == js[p + 1..e];
      } else if IsShortEscape(js[p + 1]) {
        TokenIsRaw(js, p + 2);
        assert raw[2..] == js[p + 2..e];
      } else {
        HexRunFull(js, p + 2, 4);
        var q := HexRun(js, p + 2, 4).p;
        TokenIsRaw(js, q);
        assert raw[6..] == js[q..e];
      }
    }
  }

  /** A run that a later quote follows read all its digits. */
  lemma {:induction false} HexRunFull(js: Text, p: nat, n: nat)
    requires p <= |js| && HexRun(js, p, n).At? && StringEnd(js, HexRun(js, p, n).p).At?
    ensures HexRun(js, p, n).p == p + n && forall i | p <= i < p + n :: IsHex(js[i])
    decreases n
  {
    if n > 0 {
      HexRunFull(js, p + 1, n - 1);
    }
  }

  // ------------------------------------------------------------------ the writers

  datatype Writer = JsonWriter | AppWriter | TokenizeWriter

  function HexDigit(v: nat): (c: byte)
    requires v < 16
    ensures IsHex(c) && HexValue(c) == v
  {
    if v < 10 then 48 + v else 87 + v
  }

  /** `"\\u%04x"` */
  function UnicodeEscape(c: byte): Text {
    [BACKSLASH, LOWER_U, 48, 48, HexDigit(c / 16), HexDigit(c % 16)]
  }

  function EscapeByte(w: Writer, c: byte): Text {
    if c == QUOTE || c == BACKSLASH then [BACKSLASH, c]
    else if c == LF && w != AppWriter then [BACKSLASH, LOWER_N]
    else if c == CR && w == JsonWriter then [BACKSLASH, LOWER_R]
    else if c == TAB && w == JsonWriter then [BACKSLASH, LOWER_T]
    else if c < 32 then UnicodeEscape(c)
    else [c]
  }

  function Escape(w: Writer, s: Text): Text {
    if s == [] then [] else EscapeByte(w, s[0]) + Escape(w, s[1..])
  }

  lemma {:induction false} EscapeSnoc(w: Writer, s: Text, c: byte)
    ensures Escape(w, s + [c]) == Escape(w, s) + EscapeByte(w, c)
  {
    if s == [] {
      assert Escape(w, [c]) == EscapeByte(w, c) + Escape(w, []);
    } else {
      EscapeSnoc(w, s[1..], c);
      assert (s + [c])[1..] == s[1..] + [c];
    }
  }

  function Quoted(w: Writer, s: Text): Text {
    [QUOTE] + Escape(w, s) + [QUOTE]
  }

  /** The one piece a written byte reads back as. */
  function PieceOf(w: Writer, c: byte): Piece {
    if |EscapeByte(w, c)| == 6 then Unit(c) else Plain(c)
  }

  lemma EscapedUnit(c: byte, rest: Text)
    requires c < 32 && IsRawString(rest)
    ensures IsRawString(UnicodeEscape(c) + rest) && Pieces(UnicodeEscape(c) + rest) == [Unit(c)] + Pieces(rest)
  {
    var raw := UnicodeEscape(c) + rest;
    assert raw[6..] == rest;
    assert raw[2..6] == [48, 48, HexDigit(c / 16), HexDigit(c % 16)];
  }

  lemma EscapedByte(w: Writer, c: byte, rest: Text)
    requires IsRawString(rest)
    ensures var raw := EscapeByte(w, c) + rest; IsRawString(raw) && Pieces(raw) == [PieceOf(w, c)] + Pieces(rest)
  {
    var one := EscapeByte(w, c);
    if |one| == 6 {
      EscapedUnit(c, rest);
    } else if |one| == 2 {
      assert one == [BACKSLASH, one[1]];
    } else {
    }
  }

  /** Every writer's output is a literal that means the bytes written, without surrogates. */
  lemma {:induction false} EscapeMeans(w: Writer, s: Text)
    ensures IsRawString(Escape(w, s))
    ensures Meaning(Escape(w, s)) == s && !HasLoneSurrogate(Pieces(Escape(w, s)))
  {
    if s != [] {
      EscapeMeans(w, s[1..]);
      EscapedByte(w, s[0], Escape(w, s[1..]));
      assert ([PieceOf(w, s[0])] + Pieces(Escape(w, s[1..])))[1..] == Pieces(Escape(w, s[1..]));
    }
  }

  /** A written string inside any text is tokenized to its last byte, and reads back unchanged. */
  lemma WriteThenTokenize(w: Writer, s: Text, js: Text, p: nat)
    requires Occurs(js, p, Quoted(w, s))
    ensures StringEnd(js, p + 1) == At(p + 1 + |Escape(w, s)|)
    ensures IsRawString(js[p + 1..p + 1 + |Escape(w, s)|]) && Meaning(js[p + 1..p + 1 + |Escape(w, s)|]) == s
  {
    var raw := Escape(w, s);
    EscapeMeans(w, s);
    assert Quoted(w, s) == [QUOTE] + (raw + [QUOTE]);
    OccursSplit(js, p, [QUOTE], raw + [QUOTE]);
    RawStringEnd(js, p + 1, raw);
    OccursSplit(js, p + 1, raw, [QUOTE]);
  }

  /** Different byte strings are never written alike. */
  lemma WritersInjective(w: Writer, v: Writer, s: Text, t: Text)
    requires Escape(w, s) == Escape(v, t)
    ensures s == t
  {
    EscapeMeans(w, s);
    EscapeMeans(v, t);
  }
}
