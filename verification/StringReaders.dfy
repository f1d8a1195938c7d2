/**
 json_strdup (src/json.c) and gd_unescape (clients/geistd_client.h), proved to read what the literal means.

 Both walk over the raw characters between the quotes and append bytes to a buffer that never needs to be larger
 than the literal; they differ in what they make of a lone surrogate.
 */
module StringReaders {
  import opened Bytes
  import opened JsonTree
  import opened JsonStrings

  /** The literal goes on with a low surrogate escape, as both readers test it. */
  predicate LowFollows(raw: Text)
    requires IsRawString(raw)
  {
    |raw| >= 6 && raw[0] == BACKSLASH && raw[1] == LOWER_U && IsLow(Hex4(raw[2..6]))
  }

  predicate UnitFirst(raw: Text)
    requires IsRawString(raw)
  {
    raw != [] && raw[0] == BACKSLASH && raw[1] == LOWER_U
  }

  lemma MeaningUnit(raw: Text)
    requires IsRawString(raw) && UnitFirst(raw)
    ensures var u := Hex4(raw[2..6]);
            if IsHigh(u) && LowFollows(raw[6..]) then
              Meaning(raw) == Utf8(Pair(u, Hex4(raw[8..12]))) + Meaning(raw[12..])
            else Meaning(raw) == Utf8(u) + Meaning(raw[6..])
  {
    var u, rest := Hex4(raw[2..6]), raw[6..];
    assert Pieces(raw) == [Unit(u)] + Pieces(rest);
    assert Pieces(raw)[1..] == Pieces(rest);
    if IsHigh(u) && LowFollows(rest) {
      assert rest[2..6] == raw[8..12] && rest[6..] == raw[12..];
      assert Pieces(rest) == [Unit(Hex4(raw[8..12]))] + Pieces(raw[12..]);
      assert Pieces(raw)[2..] == Pieces(raw[12..]);
    }
  }

  lemma LoneUnit(raw: Text)
    requires IsRawString(raw) && UnitFirst(raw)
    ensures var u := Hex4(raw[2..6]);
            HasLoneSurrogate(Pieces(raw)) <==>
            if IsHigh(u) && LowFollows(raw[6..]) then HasLoneSurrogate(Pieces(raw[12..]))
            else IsHigh(u) || IsLow(u) || HasLoneSurrogate(Pieces(raw[6..]))
  {
    var u, rest := Hex4(raw[2..6]), raw[6..];
    assert Pieces(raw) == [Unit(u)] + Pieces(rest);
    assert Pieces(raw)[1..] == Pieces(rest);
    if IsHigh(u) && LowFollows(rest) {
      assert rest[2..6] == raw[8..12] && rest[6..] == raw[12..];
      assert Pieces(rest) == [Unit(Hex4(raw[8..12]))] + Pieces(raw[12..]);
      assert Pieces(raw)[2..] == Pieces(raw[12..]);
    }
  }

  method PutCodePoint(out: array<byte>, at: nat, cp: nat) returns (o: nat)
    requires cp < 0x110000 && at + |Utf8(cp)| <= out.Length
    modifies out
    ensures o == at + |Utf8(cp)|
    ensures out[..o] == old(out[..at]) + Utf8(cp)
  {
    o := at;
    if cp < 0x80 {
      out[o] := cp;
      o := o + 1;
    } else if cp < 0x800 {
      out[o], out[o + 1] := 0xC0 + cp / 64, 0x80 + cp % 64;
      o := o + 2;
    } else if cp < 0x10000 {
      out[o], out[o + 1], out[o + 2] := 0xE0 + cp / 4096, 0x80 + cp / 64 % 64, 0x80 + cp % 64;
      o := o + 3;
    } else {
      out[o], out[o + 1], out[o + 2], out[o + 3] :=
        0xF0 + cp / 262144, 0x80 + cp / 4096 % 64, 0x80 + cp / 64 % 64, 0x80 + cp % 64;
      o := o + 4;
    }
  }

  // ------------------------------------------------------------------ reading position

  /** `written` is the meaning of the first `i` characters of the literal `s`. The argument `k` only delays unfolding. */
  predicate Here(k: int, s: Text, i: nat, written: Text)
    requires IsRawString(s) && i <= |s|
  {
    IsRawString(s[i..]) && written + Meaning(s[i..]) == Meaning(s)
  }

  /** So it is, and it is no longer than they are. */
  ghost predicate Aligned(s: Text, i: nat, written: Text)
    requires IsRawString(s)
  {
    i <= |s| && |written| <= i && forall k: int :: Here(k, s, i, written)
  }

  predicate PairedHere(k: int, s: Text, i: nat)
    requires IsRawString(s) && i <= |s|
  {
    IsRawString(s[i..]) && HasLoneSurrogate(Pieces(s[i..])) == HasLoneSurrogate(Pieces(s))
  }

  /** No lone surrogate stands before position `i`. */
  ghost predicate Paired(s: Text, i: nat)
    requires IsRawString(s)
  {
    i <= |s| && forall k: int :: PairedHere(k, s, i)
  }

  lemma Advance(s: Text, i: nat, written: Text, j: nat, one: Text)
    requires IsRawString(s) && Aligned(s, i, written) && i < j <= |s| && |one| <= j - i && IsRawString(s[j..])
    requires IsRawString(s[i..]) && Meaning(s[i..]) == one + Meaning(s[j..])
    ensures Aligned(s, j, written + one)
  {
    assert Here(0, s, i, written);
    Regroup(written, one, Meaning(s[j..]), Meaning(s[i..]), Meaning(s));
  }

  lemma AdvancePaired(s: Text, i: nat, j: nat)
    requires IsRawString(s) && Paired(s, i) && i < j <= |s| && IsRawString(s[j..])
    requires IsRawString(s[i..]) && HasLoneSurrogate(Pieces(s[i..])) == HasLoneSurrogate(Pieces(s[j..]))
    ensures Paired(s, j)
  {
    assert PairedHere(0, s, i);
  }

  lemma AlignedRaw(s: Text, i: nat, written: Text)
    requires IsRawString(s) && Aligned(s, i, written)
    ensures IsRawString(s[i..])
  {
    assert Here(0, s, i, written);
  }

  lemma PlainAligned(s: Text, i: nat, written: Text)
    requires IsRawString(s) && i < |s| && Aligned(s, i, written) && s[i] != BACKSLASH
    ensures Aligned(s, i + 1, written + [s[i]])
  {
    AlignedRaw(s, i, written);
    assert s[i..][1..] == s[i + 1..];
    Advance(s, i, written, i + 1, [s[i]]);
  }

  lemma PlainPaired(s: Text, i: nat)
    requires IsRawString(s) && i < |s| && Paired(s, i) && s[i] != BACKSLASH
    ensures Paired(s, i + 1)
  {
    assert PairedHere(0, s, i);
    assert s[i..][1..] == s[i + 1..];
    AdvancePaired(s, i, i + 1);
  }

  lemma ShortAligned(s: Text, i: nat, written: Text)
    requires IsRawString(s) && i < |s| && Aligned(s, i, written) && s[i] == BACKSLASH
    ensures i + 1 < |s|
    ensures s[i + 1] != LOWER_U ==> Aligned(s, i + 2, written + [ShortEscape(s[i + 1])])
  {
    AlignedRaw(s, i, written);
    if s[i + 1] != LOWER_U {
      assert s[i..][2..] == s[i + 2..];
      Advance(s, i, written, i + 2, [ShortEscape(s[i + 1])]);
    }
  }

  lemma ShortPaired(s: Text, i: nat)
    requires IsRawString(s) && i + 1 < |s| && Paired(s, i) && s[i] == BACKSLASH && s[i + 1] != LOWER_U
    ensures Paired(s, i + 2)
  {
    assert PairedHere(0, s, i);
    assert s[i..][2..] == s[i + 2..];
    AdvancePaired(s, i, i + 2);
  }

  /** The unit at `i` is a high surrogate whose low half follows, as both readers test it. */
  predicate PairAt(s: Text, i: nat)
    requires i + 6 <= |s| && forall k | i + 2 <= k < i + 6 :: IsHex(s[k])
  {
    IsHigh(Hex4(s[i + 2..i + 6])) && i + 11 < |s| && s[i + 6] == BACKSLASH && s[i + 7] == LOWER_U &&
    (forall k | i + 8 <= k < i + 12 :: IsHex(s[k])) && IsLow(Hex4(s[i + 8..i + 12]))
  }

  /** The readers' tests for a following low surrogate, in place. */
  lemma PairTest(s: Text, i: nat)
    requires i < |s| && IsRawString(s[i..]) && UnitFirst(s[i..])
    ensures i + 6 <= |s| && forall k | i + 2 <= k < i + 6 :: IsHex(s[k])
    ensures IsRawString(s[i + 6..])
    ensures PairAt(s, i) <==> IsHigh(Hex4(s[i + 2..i + 6])) && LowFollows(s[i + 6..])
    ensures i + 11 < |s| && s[i + 6] == BACKSLASH && s[i + 7] == LOWER_U ==> forall k | i + 8 <= k < i + 12 :: IsHex(s[k])
  {
    assert s[i..][6..] == s[i + 6..];
    if i + 11 < |s| {
      assert s[i + 8..i + 12] == s[i + 6..][2..6];
    }
  }

  lemma UnitAligned(s: Text, i: nat, written: Text)
    requires IsRawString(s) && i + 1 < |s| && Aligned(s, i, written) && s[i] == BACKSLASH && s[i + 1] == LOWER_U
    ensures i + 6 <= |s| && forall k | i + 2 <= k < i + 6 :: IsHex(s[k])
    ensures i + 11 < |s| && s[i + 6] == BACKSLASH && s[i + 7] == LOWER_U ==> forall k | i + 8 <= k < i + 12 :: IsHex(s[k])
    ensures var u := Hex4(s[i + 2..i + 6]);
            if PairAt(s, i) then Aligned(s, i + 12, written + Utf8(Pair(u, Hex4(s[i + 8..i + 12]))))
            else Aligned(s, i + 6, written + Utf8(u))
  {
    AlignedRaw(s, i, written);
    PairTest(s, i);
    if PairAt(s, i) {
      PairAligned(s, i, written);
    } else {
      SingleAligned(s, i, written);
    }
  }

  lemma PairAligned(s: Text, i: nat, written: Text)
    requires IsRawString(s) && i + 6 <= |s| && Aligned(s, i, written) && IsRawString(s[i..]) && UnitFirst(s[i..])
    requires (forall k | i + 2 <= k < i + 6 :: IsHex(s[k])) && PairAt(s, i)
    ensures Aligned(s, i + 12, written + Utf8(Pair(Hex4(s[i + 2..i + 6]), Hex4(s[i + 8..i + 12]))))
  {
    UnitMeans(s, i);
    Advance(s, i, written, i + 12, Utf8(Pair(Hex4(s[i + 2..i + 6]), Hex4(s[i + 8..i + 12]))));
  }

  lemma SingleAligned(s: Text, i: nat, written: Text)
    requires IsRawString(s) && i + 6 <= |s| && Aligned(s, i, written) && IsRawString(s[i..]) && UnitFirst(s[i..])
    requires (forall k | i + 2 <= k < i + 6 :: IsHex(s[k])) && !PairAt(s, i)
    ensures Aligned(s, i + 6, written + Utf8(Hex4(s[i + 2..i + 6])))
  {
    UnitMeans(s, i);
    Advance(s, i, written, i + 6, Utf8(Hex4(s[i + 2..i + 6])));
  }

  lemma UnitMeans(s: Text, i: nat)
    requires i + 6 <= |s| && IsRawString(s[i..]) && UnitFirst(s[i..])
    requires forall k | i + 2 <= k < i + 6 :: IsHex(s[k])
    ensures var u := Hex4(s[i + 2..i + 6]);
            if PairAt(s, i) then
              IsRawString(s[i + 12..]) && Meaning(s[i..]) == Utf8(Pair(u, Hex4(s[i + 8..i + 12]))) + Meaning(s[i + 12..])
            else IsRawString(s[i + 6..]) && Meaning(s[i..]) == Utf8(u) + Meaning(s[i + 6..])
  {
    var raw := s[i..];
    PairTest(s, i);
    MeaningUnit(raw);
    assert s[i + 2..i + 6] == raw[2..6] && s[i + 6..] == raw[6..];
    if PairAt(s, i) {
      assert s[i + 8..i + 12] == raw[8..12] && s[i + 12..] == raw[12..];
    }
  }

  lemma UnitPaired(s: Text, i: nat)
    requires IsRawString(s) && i + 6 <= |s| && Paired(s, i) && s[i] == BACKSLASH && s[i + 1] == LOWER_U
    requires forall k | i + 2 <= k < i + 6 :: IsHex(s[k])
    ensures var u := Hex4(s[i + 2..i + 6]);
            if PairAt(s, i) then Paired(s, i + 12)
            else if IsHigh(u) || IsLow(u) then HasLoneSurrogate(Pieces(s)) else Paired(s, i + 6)
  {
    assert PairedHere(0, s, i);
    var raw := s[i..];
    PairTest(s, i);
    LoneUnit(raw);
    assert s[i + 2..i + 6] == raw[2..6] && s[i + 6..] == raw[6..];
    if PairAt(s, i) {
      assert s[i + 12..] == raw[12..];
      AdvancePaired(s, i, i + 12);
    } else if !IsHigh(Hex4(s[i + 2..i + 6])) && !IsLow(Hex4(s[i + 2..i + 6])) {
      AdvancePaired(s, i, i + 6);
    }
  }

  lemma AlignedEnd(s: Text, written: Text)
    requires IsRawString(s) && Aligned(s, |s|, written)
    ensures written == Meaning(s)
  {
    assert Here(0, s, |s|, written);
    assert s[|s|..] == [];
  }

  lemma PairedEnd(s: Text)
    requires IsRawString(s) && Paired(s, |s|)
    ensures !HasLoneSurrogate(Pieces(s))
  {
    assert PairedHere(0, s, |s|);
    assert s[|s|..] == [];
  }

  /** A literal never means more bytes than it has characters. */
  lemma {:induction false} MeaningFits(raw: Text)
    requires IsRawString(raw)
    ensures |Meaning(raw)| <= |raw|
    decreases |raw|
  {
    if raw != [] {
      if raw[0] != BACKSLASH {
        MeaningFits(raw[1..]);
      } else if raw[1] != LOWER_U {
        MeaningFits(raw[2..]);
      } else {
        MeaningUnit(raw);
        MeaningFits(raw[6..]);
        if LowFollows(raw[6..]) {
          MeaningFits(raw[12..]);
        }
      }
    }
  }

  // ------------------------------------------------------------------ the readers

  /** src/json.c:127-195. The buffer has one byte more than the token, and is never overrun. */
  method Strdup(s: Text) returns (out: array<byte>, o: nat)
    requires IsRawString(s)
    ensures fresh(out) && out.Length == |s| + 1 && o <= |s|
    ensures out[..o] == Meaning(s) && out[o] == 0
  {
    var n := |s|;
    out := new byte[n + 1](_ => 0);
    o := 0;
    var i := 0;
    while i < n
      invariant 0 <= i <= n && o <= i && out.Length == n + 1 && fresh(out)
      invariant Aligned(s, i, out[..o])
    {
      ghost var written := out[..o];
      if s[i] != BACKSLASH || i + 1 >= n {
        ShortOrPlain(s, i, out[..o]);
        out[o] := s[i];
        o := o + 1;
        assert out[..o] == written + [s[i]];
      } else {
        ShortAligned(s, i, out[..o]);
        i := i + 1;
        var e := s[i];
        if e == LOWER_U {
          var cp;
          cp, i := JoinUnit(s, i, out[..o]);
          o := PutCodePoint(out, o, cp);
        } else {
          out[o] := ShortEscape(e);
          o := o + 1;
          assert out[..o] == written + [ShortEscape(e)];
        }
      }
      i := i + 1;
    }
    AlignedEnd(s, out[..o]);
    out[o] := 0;
  }

  /** A backslash is never the last character of a raw string. */
  lemma ShortOrPlain(s: Text, i: nat, written: Text)
    requires IsRawString(s) && i < |s| && Aligned(s, i, written) && (s[i] != BACKSLASH || i + 1 >= |s|)
    ensures s[i] != BACKSLASH && Aligned(s, i + 1, written + [s[i]])
  {
    if s[i] == BACKSLASH {
      ShortAligned(s, i, written);
    } else {
      PlainAligned(s, i, written);
    }
  }

  /** The code point of the escape whose `u` is at `at`, with its low surrogate if it has one; `i` is its last digit. */
  method JoinUnit(s: Text, at: nat, ghost written: Text) returns (cp: nat, i: nat)
    requires IsRawString(s) && 1 <= at < |s| && s[at - 1] == BACKSLASH && s[at] == LOWER_U
    requires Aligned(s, at - 1, written)
    ensures cp < 0x110000 && at < i && Aligned(s, i + 1, written + Utf8(cp))
  {
    UnitAligned(s, at - 1, written);
    i := at;
    cp := Hex4(s[i + 1..i + 5]);
    i := i + 4;
    if IsHigh(cp) && i + 6 < |s| && s[i + 1] == BACKSLASH && s[i + 2] == LOWER_U {
      var lo := Hex4(s[i + 3..i + 7]);
      if IsLow(lo) {
        cp := Pair(cp, lo);
        i := i + 6;
      }
    }
  }

  /** clients/geistd_client.h:417-457. Refuses exactly the literals with a lone surrogate. */
  method Unescape(s: Text) returns (ok: bool, out: array<byte>, o: nat)
    requires IsRawString(s)
    ensures fresh(out) && out.Length == |s| + 1
    ensures ok <==> !HasLoneSurrogate(Pieces(s))
    ensures ok ==> o <= |s| && out[..o] == Meaning(s) && out[o] == 0
  {
    var e := |s|;
    out := new byte[e + 1](_ => 0);
    o := 0;
    var i := 0;
    while i < e
      invariant 0 <= i <= e && o <= i && out.Length == e + 1 && fresh(out)
      invariant Aligned(s, i, out[..o])
      invariant Paired(s, i)
    {
      ghost var written := out[..o];
      if s[i] != BACKSLASH || i + 1 >= e {
        ShortOrPlain(s, i, out[..o]);
        PlainPaired(s, i);
        out[o] := s[i];
        o := o + 1;
        assert out[..o] == written + [s[i]];
      } else {
        ShortAligned(s, i, out[..o]);
        i := i + 1;
        if s[i] == LOWER_U {
          var cp;
          cp, i := ReadUnit(s, i, out[..o]);
          if cp < 0 {
            return false, out, o;
          }
          o := PutCodePoint(out, o, cp);
        } else {
          ShortPaired(s, i - 1);
          out[o] := ShortEscape(s[i]);
          o := o + 1;
          assert out[..o] == written + [ShortEscape(s[i])];
        }
      }
      i := i + 1;
    }
    AlignedEnd(s, out[..o]);
    PairedEnd(s);
    out[o] := 0;
    return true, out, o;
  }

  /** As JoinUnit, but -1 for a lone surrogate. */
  method ReadUnit(s: Text, at: nat, ghost written: Text) returns (cp: int, i: nat)
    requires IsRawString(s) && 1 <= at < |s| && s[at - 1] == BACKSLASH && s[at] == LOWER_U
    requires Aligned(s, at - 1, written) && Paired(s, at - 1)
    ensures cp < 0 ==> HasLoneSurrogate(Pieces(s))
    ensures cp >= 0 ==> cp < 0x110000 && at < i && Aligned(s, i + 1, written + Utf8(cp)) && Paired(s, i + 1)
  {
    UnitAligned(s, at - 1, written);
    UnitPaired(s, at - 1);
    i := at;
    cp := Digits(s, i + 1);
    i := i + 4;
    if IsHigh(cp) {
      if i + 6 >= |s| || s[i + 1] != BACKSLASH || s[i + 2] != LOWER_U {
        return -1, i;
      }
      var low := Hex4(s[i + 3..i + 7]);
      if !IsLow(low) {
        return -1, i;
      }
      cp := Pair(cp, low);
      i := i + 6;
    } else if IsLow(cp) {
      return -1, i;
    }
  }

  /** The digit loop of gd_unescape. */
  method Digits(s: Text, at: nat) returns (cp: nat)
    requires at + 4 <= |s| && forall k | at <= k < at + 4 :: IsHex(s[k])
    ensures cp == Hex4(s[at..at + 4])
  {
    cp := 0;
    var k := 0;
    while k < 4
      invariant 0 <= k <= 4
      invariant cp == Horner(s[at..at + k])
    {
      assert s[at..at + k + 1][..k] == s[at..at + k];
      cp := cp * 16 + HexValue(s[at + k]);
      k := k + 1;
    }
    HornerFour(s[at..at + 4]);
  }

  lemma HornerFour(t: Text)
    requires |t| == 4 && forall k | 0 <= k < 4 :: IsHex(t[k])
    ensures Horner(t) == Hex4(t)
  {
    assert t[..3][..2] == t[..2] && t[..2][..1] == t[..1] && t[..1][..0] == [];
    assert Horner(t[..1]) == HexValue(t[0]);
    assert Horner(t[..2]) == HexValue(t[0]) * 16 + HexValue(t[1]);
    assert Horner(t[..3]) == HexValue(t[0]) * 256 + HexValue(t[1]) * 16 + HexValue(t[2]);
  }

  function Horner(t: Text): nat
    requires forall k | 0 <= k < |t| :: IsHex(t[k])
  {
    if t == [] then 0 else Horner(t[..|t| - 1]) * 16 + HexValue(t[|t| - 1])
  }
}
