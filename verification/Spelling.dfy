/** Every way to spell a text as a string literal, defined from the code point's side, against what the readers read. */
module Spelling {
  import opened Bytes
  import opened JsonTree
  import opened JsonStrings

  /**
   One character of a literal as somebody may write it: a byte as it is, a short escape by its letter, a code point
   in hexadecimal digits, or half a surrogate pair; `upper` chooses the case of each digit.
   */
  datatype Atom =
    | Raw(b: byte)
    | Short(letter: byte)
    | Scalar(cp: nat, upper: nat -> bool)
    | Lone(unit: nat, upper: nat -> bool)

  predicate IsSurrogate(u: int) {
    0xD800 <= u < 0xE000
  }

  predicate Proper(a: Atom) {
    match a
    case Raw(b) => b != 0 && b != 34 && b != 92
    case Short(letter) => letter in {34, 47, 92, 98, 102, 110, 114, 116}
    case Scalar(cp, _) => cp < 0x110000 && !IsSurrogate(cp)
    case Lone(unit, _) => IsSurrogate(unit)
  }

  /** Two halves in a row are not a pair. */
  predicate Apart(a: Atom, b: Atom) {
    a.Lone? && b.Lone? ==> !(a.unit < 0xDC00 <= b.unit)
  }

  predicate Spelled(atoms: seq<Atom>) {
    && (forall i :: 0 <= i < |atoms| ==> Proper(atoms[i]))
    && (forall i :: 0 <= i < |atoms| - 1 ==> Apart(atoms[i], atoms[i + 1]))
  }

  // ------------------------------------------------------------------ the written form

  /** UTF-16 (section 2.1 of RFC 2781). */
  function Units(cp: nat): (us: seq<nat>)
    requires cp < 0x110000
    ensures forall i :: 0 <= i < |us| ==> us[i] < 0x10000
  {
    if cp < 0x10000 then [cp] else [0xD800 + (cp - 0x10000) / 1024, 0xDC00 + (cp - 0x10000) % 1024]
  }

  function Digit(v: nat, upper: bool): byte
    requires v < 16
  {
    if v < 10 then 48 + v else if upper then 55 + v else 87 + v
  }

  /** A backslash, `u` and four digits. */
  function Hex(u: nat, upper: nat -> bool, from: nat): Text
    requires u < 0x10000
  {
    [92, 117, Digit(u / 4096, upper(from)), Digit(u / 256 % 16, upper(from + 1)),
     Digit(u / 16 % 16, upper(from + 2)), Digit(u % 16, upper(from + 3))]
  }

  function Spell(a: Atom): Text
    requires Proper(a)
  {
    match a
    case Raw(b) => [b]
    case Short(letter) => [92, letter]
    case Scalar(cp, upper) =>
      if cp < 0x10000 then Hex(cp, upper, 0) else Hex(Units(cp)[0], upper, 0) + Hex(Units(cp)[1], upper, 4)
    case Lone(unit, upper) => Hex(unit, upper, 0)
  }

  function SpellAll(atoms: seq<Atom>): Text
    requires Spelled(atoms)
  {
    if atoms == [] then [] else Spell(atoms[0]) + SpellAll(atoms[1..])
  }

  // ------------------------------------------------------------------ what is meant

  /** Backspace, form feed, line feed, carriage return and tab; the others stand for themselves. */
  function Named(letter: byte): byte {
    match letter
    case 98 => 8
    case 102 => 12
    case 110 => 10
    case 114 => 13
    case 116 => 9
    case _ => letter
  }

  function Meant(a: Atom): Text
    requires Proper(a)
  {
    match a
    case Raw(b) => [b]
    case Short(letter) => [Named(letter)]
    case Scalar(cp, _) => Utf8(cp)
    case Lone(unit, _) => Utf8(unit)
  }

  function MeantAll(atoms: seq<Atom>): Text
    requires Spelled(atoms)
  {
    if atoms == [] then [] else Meant(atoms[0]) + MeantAll(atoms[1..])
  }

  // ------------------------------------------------------------------ the proof

  function PiecesOf(a: Atom): (ps: seq<Piece>)
    requires Proper(a)
    ensures forall p | p in ps && p.Unit? :: p.u < 0x10000
  {
    match a
    case Raw(b) => [Plain(b)]
    case Short(letter) => [Plain(Named(letter))]
    case Scalar(cp, _) => if cp < 0x10000 then [Unit(cp)] else [Unit(Units(cp)[0]), Unit(Units(cp)[1])]
    case Lone(unit, _) => [Unit(unit)]
  }

  lemma HexReads(u: nat, upper: nat -> bool, from: nat, rest: Text)
    requires u < 0x10000 && IsRawString(rest)
    ensures var raw := Hex(u, upper, from) + rest; IsRawString(raw) && Pieces(raw) == [Unit(u)] + Pieces(rest)
  {
    var raw := Hex(u, upper, from) + rest;
    assert raw[6..] == rest;
    assert raw[2..6] == Hex(u, upper, from)[2..];
    FourDigits(u, upper, from);
  }

  lemma DigitReads(v: nat, upper: bool)
    requires v < 16
    ensures IsHex(Digit(v, upper)) && HexValue(Digit(v, upper)) == v
  {
  }

  lemma FourDigits(u: nat, upper: nat -> bool, from: nat)
    requires u < 0x10000
    ensures var t := Hex(u, upper, from)[2..]; (forall i :: 0 <= i < 4 ==> IsHex(t[i])) && Hex4(t) == u
  {
    DigitReads(u / 4096, upper(from));
    DigitReads(u / 256 % 16, upper(from + 1));
    DigitReads(u / 16 % 16, upper(from + 2));
    DigitReads(u % 16, upper(from + 3));
    Nibbles(u);
  }

  lemma Nibbles(u: nat)
    requires u < 0x10000
    ensures u == u / 4096 * 4096 + u / 256 % 16 * 256 + u / 16 % 16 * 16 + u % 16
  {
    assert u / 256 == u / 4096 * 16 + u / 256 % 16;
    assert u / 16 == u / 256 * 16 + u / 16 % 16;
  }

  lemma AtomReads(a: Atom, rest: Text)
    requires Proper(a) && IsRawString(rest)
    ensures var raw := Spell(a) + rest; IsRawString(raw) && Pieces(raw) == PiecesOf(a) + Pieces(rest)
  {
    match a
    case Raw(b) =>
    case Short(letter) => ShortReads(letter, rest);
    case Lone(unit, upper) => HexReads(unit, upper, 0, rest);
    case Scalar(cp, upper) =>
      if cp < 0x10000 {
        HexReads(cp, upper, 0, rest);
      } else {
        PairReads(Units(cp)[0], Units(cp)[1], upper, rest);
      }
  }

  lemma ShortReads(letter: byte, rest: Text)
    requires Proper(Short(letter)) && IsRawString(rest)
    ensures var raw := [92, letter] + rest; IsRawString(raw) && Pieces(raw) == [Plain(Named(letter))] + Pieces(rest)
  {
    assert ([92, letter] + rest)[2..] == rest;
  }

  lemma PairReads(high: nat, low: nat, upper: nat -> bool, rest: Text)
    requires high < 0x10000 && low < 0x10000 && IsRawString(rest)
    ensures var raw := Hex(high, upper, 0) + Hex(low, upper, 4) + rest;
      IsRawString(raw) && Pieces(raw) == [Unit(high), Unit(low)] + Pieces(rest)
  {
    HexReads(low, upper, 4, rest);
    HexReads(high, upper, 0, Hex(low, upper, 4) + rest);
    assert Hex(high, upper, 0) + Hex(low, upper, 4) + rest == Hex(high, upper, 0) + (Hex(low, upper, 4) + rest);
  }

  predicate StartsLow(ps: seq<Piece>) {
    ps != [] && ps[0].Unit? && 0xDC00 <= ps[0].u < 0xE000
  }

  lemma AtomRenders(a: Atom, ps: seq<Piece>)
    requires Proper(a) && forall p | p in ps && p.Unit? :: p.u < 0x10000
    requires a.Lone? && a.unit < 0xDC00 ==> !StartsLow(ps)
    ensures Render(PiecesOf(a) + ps) == Meant(a) + Render(ps)
    ensures HasLoneSurrogate(PiecesOf(a) + ps) <==> a.Lone? || HasLoneSurrogate(ps)
  {
    var all := PiecesOf(a) + ps;
    assert all[|PiecesOf(a)|..] == ps;
    if a.Scalar? && a.cp >= 0x10000 {
      var u := a.cp - 0x10000;
      assert u == u / 1024 * 1024 + u % 1024;
    }
  }

  lemma TailSpelled(atoms: seq<Atom>)
    requires Spelled(atoms) && atoms != []
    ensures Spelled(atoms[1..])
  {
    var rest := atoms[1..];
    forall i | 0 <= i < |rest| - 1 ensures Apart(rest[i], rest[i + 1]) {
      assert Apart(atoms[i + 1], atoms[i + 2]);
    }
  }

  /** Only a lone low half is read as one. */
  lemma FirstPiece(atoms: seq<Atom>)
    requires Spelled(atoms) && IsRawString(SpellAll(atoms))
    requires atoms != [] ==> Spelled(atoms[1..]) && IsRawString(SpellAll(atoms[1..]))
    ensures StartsLow(Pieces(SpellAll(atoms))) ==> atoms != [] && atoms[0].Lone? && 0xDC00 <= atoms[0].unit
  {
    if atoms != [] {
      AtomReads(atoms[0], SpellAll(atoms[1..]));
    }
  }

  /**
   Whatever mixture of spellings is chosen, the literal is well formed and means the bytes of its characters:
   code points in UTF-8, pairs of units joined, and a lone half in three bytes. It has a lone surrogate exactly
   when one was written.
   */
  lemma {:induction false} SpellingMeans(atoms: seq<Atom>)
    requires Spelled(atoms)
    ensures var raw := SpellAll(atoms);
      && IsRawString(raw)
      && Meaning(raw) == MeantAll(atoms)
      && (HasLoneSurrogate(Pieces(raw)) <==> exists i :: 0 <= i < |atoms| && atoms[i].Lone?)
    decreases |atoms|
  {
    if atoms != [] {
      var a, rest := atoms[0], atoms[1..];
      TailSpelled(atoms);
      SpellingMeans(rest);
      if rest != [] {
        TailSpelled(rest);
        SpellingMeans(rest[1..]);
        assert Apart(a, rest[0]);
      }
      FirstPiece(rest);
      AtomReads(a, SpellAll(rest));
      AtomRenders(a, Pieces(SpellAll(rest)));
      LoneSomewhere(atoms);
    }
  }

  lemma LoneSomewhere(atoms: seq<Atom>)
    requires atoms != []
    ensures (exists i :: 0 <= i < |atoms| && atoms[i].Lone?) <==>
      atoms[0].Lone? || exists i :: 0 <= i < |atoms[1..]| && atoms[1..][i].Lone?
  {
    forall i | 0 <= i < |atoms[1..]| && atoms[1..][i].Lone? ensures atoms[i + 1].Lone? {
    }
    forall i | 0 < i < |atoms| && atoms[i].Lone? ensures atoms[1..][i - 1].Lone? {
    }
  }

  // ------------------------------------------------------------------ every literal is such a spelling

  function IsUpper(c: byte): bool {
    65 <= c <= 70
  }

  /** The letter case of a literal's first hexadecimal digits, and of those of a second escape. */
  function StyleOf(raw: Text): nat -> bool {
    (k: nat) => if k < 4 then 2 + k < |raw| && IsUpper(raw[2 + k]) else 4 + k < |raw| && IsUpper(raw[4 + k])
  }

  function Unit4(raw: Text): nat
    requires IsRawString(raw) && |raw| >= 2 && raw[0] == BACKSLASH && raw[1] == LOWER_U
  {
    Hex4(raw[2..6])
  }

  predicate StartsWithUnit(raw: Text)
    requires IsRawString(raw)
  {
    |raw| >= 2 && raw[0] == BACKSLASH && raw[1] == LOWER_U
  }

  /** The first character of a literal, and how long it is. */
  function First(raw: Text): (r: (Atom, nat))
    requires IsRawString(raw) && raw != []
    ensures 0 < r.1 <= |raw| && IsRawString(raw[r.1..])
  {
    if raw[0] != BACKSLASH then (Raw(raw[0]), 1)
    else if raw[1] != LOWER_U then (Short(raw[1]), 2)
    else
      var u, rest := Unit4(raw), raw[6..];
      if !IsSurrogate(u) then (Scalar(u, StyleOf(raw)), 6)
      else if u < 0xDC00 && StartsWithUnit(rest) && 0xDC00 <= Unit4(rest) < 0xE000 then
        assert rest[6..] == raw[12..];
        (Scalar(0x10000 + (u - 0xD800) * 1024 + (Unit4(rest) - 0xDC00), StyleOf(raw)), 12)
      else (Lone(u, StyleOf(raw)), 6)
  }

  function Respell(raw: Text): seq<Atom>
    requires IsRawString(raw)
    decreases |raw|
  {
    if raw == [] then [] else [First(raw).0] + Respell(raw[First(raw).1..])
  }

  lemma HexBack(t: Text, upper: nat -> bool, from: nat)
    requires |t| == 6 && t[0] == BACKSLASH && t[1] == LOWER_U && forall i :: 2 <= i < 6 ==> IsHex(t[i]) && upper(from + i - 2) == IsUpper(t[i])
    ensures Hex(Hex4(t[2..]), upper, from) == t
  {
    var a, b, c, d := HexValue(t[2]), HexValue(t[3]), HexValue(t[4]), HexValue(t[5]);
    NibblesBack(a, b, c, d);
    DigitBack(t[2]);
    DigitBack(t[3]);
    DigitBack(t[4]);
    DigitBack(t[5]);
    assert upper(from) == IsUpper(t[2]) && upper(from + 1) == IsUpper(t[3]);
    assert upper(from + 2) == IsUpper(t[4]) && upper(from + 3) == IsUpper(t[5]);
  }

  lemma DigitBack(c: byte)
    requires IsHex(c)
    ensures Digit(HexValue(c), IsUpper(c)) == c
  {
  }

  lemma NibblesBack(a: nat, b: nat, c: nat, d: nat)
    requires a < 16 && b < 16 && c < 16 && d < 16
    ensures var u := a * 4096 + b * 256 + c * 16 + d;
      u / 4096 == a && u / 256 % 16 == b && u / 16 % 16 == c && u % 16 == d
  {
    var u := a * 4096 + b * 256 + c * 16 + d;
    assert u / 16 == a * 256 + b * 16 + c;
    assert u / 256 == a * 16 + b;
  }

  lemma UnitsBack(high: nat, low: nat)
    requires 0xD800 <= high < 0xDC00 <= low < 0xE000
    ensures var cp := 0x10000 + (high - 0xD800) * 1024 + (low - 0xDC00); cp < 0x110000 && Units(cp) == [high, low]
  {
  }

  lemma UnitSpells(raw: Text, from: nat, upper: nat -> bool)
    requires IsRawString(raw) && StartsWithUnit(raw)
    requires forall i :: 2 <= i < 6 ==> upper(from + i - 2) == IsUpper(raw[i])
    ensures Hex(Unit4(raw), upper, from) == raw[..6]
  {
    assert raw[..6][2..] == raw[2..6];
    HexBack(raw[..6], upper, from);
  }

  lemma PairSpells(raw: Text)
    requires IsRawString(raw) && StartsWithUnit(raw) && StartsWithUnit(raw[6..])
    requires 0xD800 <= Unit4(raw) < 0xDC00 <= Unit4(raw[6..]) < 0xE000
    ensures var (a, n) := First(raw); Proper(a) && Spell(a) == raw[..n]
  {
    var rest := raw[6..];
    UnitSpells(raw, 0, StyleOf(raw));
    UnitSpells(rest, 4, StyleOf(raw));
    UnitsBack(Unit4(raw), Unit4(rest));
    assert raw[..12] == raw[..6] + rest[..6];
  }

  lemma SingleSpells(raw: Text)
    requires IsRawString(raw) && StartsWithUnit(raw)
    requires !(0xD800 <= Unit4(raw) < 0xDC00 && StartsWithUnit(raw[6..]) && 0xDC00 <= Unit4(raw[6..]) < 0xE000)
    ensures var (a, n) := First(raw); Proper(a) && Spell(a) == raw[..n]
  {
    UnitSpells(raw, 0, StyleOf(raw));
  }

  lemma FirstSpells(raw: Text)
    requires IsRawString(raw) && raw != []
    ensures var (a, n) := First(raw); Proper(a) && Spell(a) == raw[..n]
  {
    if StartsWithUnit(raw) {
      if 0xD800 <= Unit4(raw) < 0xDC00 && StartsWithUnit(raw[6..]) && 0xDC00 <= Unit4(raw[6..]) < 0xE000 {
        PairSpells(raw);
      } else {
        SingleSpells(raw);
      }
    }
  }

  lemma Joins(a: Atom, atoms: seq<Atom>)
    requires Proper(a) && Spelled(atoms) && (atoms != [] ==> Apart(a, atoms[0]))
    ensures Spelled([a] + atoms) && SpellAll([a] + atoms) == Spell(a) + SpellAll(atoms)
  {
    var all := [a] + atoms;
    forall i | 0 <= i < |all| - 1 ensures Apart(all[i], all[i + 1]) {
      if i > 0 {
        assert Apart(atoms[i - 1], atoms[i]);
      }
    }
    assert all[1..] == atoms;
  }

  /** A low half behind a high one would have been taken with it. */
  lemma FirstsApart(raw: Text)
    requires IsRawString(raw) && raw != [] && raw[First(raw).1..] != []
    ensures Apart(First(raw).0, First(raw[First(raw).1..]).0)
  {
  }

  lemma {:induction false} RespellSpells(raw: Text)
    requires IsRawString(raw)
    ensures Spelled(Respell(raw)) && SpellAll(Respell(raw)) == raw
    decreases |raw|
  {
    if raw != [] {
      var n := First(raw).1;
      FirstSpells(raw);
      RespellSpells(raw[n..]);
      if raw[n..] != [] {
        FirstsApart(raw);
      }
      JoinsTo(raw, n, First(raw).0, Respell(raw[n..]));
    }
  }

  lemma JoinsTo(raw: Text, n: nat, a: Atom, atoms: seq<Atom>)
    requires Proper(a) && Spelled(atoms) && (atoms != [] ==> Apart(a, atoms[0]))
    requires n <= |raw| && Spell(a) == raw[..n] && SpellAll(atoms) == raw[n..]
    ensures Spelled([a] + atoms) && SpellAll([a] + atoms) == raw
  {
    Joins(a, atoms);
    Cut(raw, n);
  }

  lemma Cut(t: Text, n: nat)
    requires n <= |t|
    ensures t[..n] + t[n..] == t
  {
  }

  /** Nothing is left out: every well-formed literal is one of these spellings, so its meaning is theirs. */
  lemma EveryLiteralSpelled(raw: Text)
    requires IsRawString(raw)
    ensures Spelled(Respell(raw)) && SpellAll(Respell(raw)) == raw && Meaning(raw) == MeantAll(Respell(raw))
  {
    RespellSpells(raw);
    SpellingMeans(Respell(raw));
  }
}
