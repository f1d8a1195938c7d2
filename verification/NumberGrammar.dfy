/**
 The recogniser of primitive tokens against the grammar of RFC 8259.

 Source: src/app/compat.c:7-45. The grammar is section 6 of RFC 8259 (numbers) and section 3 (literal names). The
 tokenizer takes any run of characters that starts like a primitive, so this is where it is judged.
 */
module NumberGrammar {
  import opened Bytes
  import opened Tokenizer
  import JsonTree

  const PLUS: byte := 43
  const DOT: byte := 46
  const ZERO: byte := 48
  const UPPER_E: byte := 69
  const LOWER_E: byte := 101

  const TRUE: Text := [116, 114, 117, 101]
  const FALSE: Text := [102, 97, 108, 115, 101]
  const NULL: Text := [110, 117, 108, 108]

  // ------------------------------------------------------------------ the grammar

  predicate Digits(t: Text) {
    |t| > 0 && forall i :: 0 <= i < |t| ==> IsDigit(t[i])
  }

  /** int = zero / ( digit1-9 *DIGIT ) */
  predicate IsInt(t: Text) {
    t == [ZERO] || (Digits(t) && t[0] != ZERO)
  }

  /** [ frac ], frac = decimal-point 1*DIGIT */
  predicate IsFrac(t: Text) {
    t == [] || (t[0] == DOT && Digits(t[1..]))
  }

  /** [ exp ], exp = e [ minus / plus ] 1*DIGIT */
  predicate IsExp(t: Text) {
    t == [] || ((t[0] == LOWER_E || t[0] == UPPER_E)
                && (Digits(t[1..]) || (|t| > 1 && (t[1] == MINUS || t[1] == PLUS) && Digits(t[2..]))))
  }

  predicate Parts(sign: Text, whole: Text, frac: Text, exp: Text) {
    (sign == [] || sign == [MINUS]) && IsInt(whole) && IsFrac(frac) && IsExp(exp)
  }

  /** number = [ minus ] int [ frac ] [ exp ] */
  ghost predicate IsNumber(t: Text) {
    exists sign: Text, whole: Text, frac: Text, exp: Text ::
      Parts(sign, whole, frac, exp) && t == sign + whole + frac + exp
  }

  ghost predicate IsPrimitive(t: Text) {
    t == TRUE || t == FALSE || t == NULL || IsNumber(t)
  }

  // ------------------------------------------------------------------ the scanner

  /** The end of the digits from `p` on. */
  function DigitsEnd(t: Text, p: nat): (q: nat)
    requires p <= |t|
    ensures p <= q <= |t| && (q < |t| ==> !IsDigit(t[q]))
    ensures forall i :: p <= i < q ==> IsDigit(t[i])
    decreases |t| - p
  {
    if p < |t| && IsDigit(t[p]) then DigitsEnd(t, p + 1) else p
  }

  datatype Pos = Wrong | To(p: nat)

  function ScanInt(t: Text, p: nat): (q: Pos)
    requires p <= |t|
    ensures q.To? ==> p < q.p <= |t|
  {
    if p == |t| then Wrong
    else if t[p] == ZERO then To(p + 1)
    else if !IsDigit(t[p]) then Wrong
    else To(DigitsEnd(t, p))
  }

  /** At least one digit. */
  function ScanDigits(t: Text, p: nat): (q: Pos)
    requires p <= |t|
    ensures q.To? ==> p < q.p <= |t|
  {
    if p == |t| || !IsDigit(t[p]) then Wrong else To(DigitsEnd(t, p))
  }

  function ScanFrac(t: Text, p: nat): (q: Pos)
    requires p <= |t|
    ensures q.To? ==> p <= q.p <= |t|
  {
    if p < |t| && t[p] == DOT then ScanDigits(t, p + 1) else To(p)
  }

  function ScanExp(t: Text, p: nat): (q: Pos)
    requires p <= |t|
    ensures q.To? ==> p <= q.p <= |t|
  {
    if p < |t| && (t[p] == LOWER_E || t[p] == UPPER_E) then
      ScanDigits(t, if p + 1 < |t| && (t[p + 1] == PLUS || t[p + 1] == MINUS) then p + 2 else p + 1)
    else To(p)
  }

  function SignEnd(t: Text): (p: nat)
    ensures p <= |t|
  {
    if |t| > 0 && t[0] == MINUS then 1 else 0
  }

  predicate ScanNumber(t: Text) {
    var i := ScanInt(t, SignEnd(t));
    i.To? &&
    var f := ScanFrac(t, i.p);
    f.To? &&
    ScanExp(t, f.p) == To(|t|)
  }

  // ------------------------------------------------------------------ the scanner is the grammar

  lemma Sound(t: Text)
    requires ScanNumber(t)
    ensures IsNumber(t)
  {
    var s := SignEnd(t);
    var i := ScanInt(t, s).p;
    var f := ScanFrac(t, i).p;
    IntSound(t, s);
    FracSound(t, i);
    ExpSound(t, f);
    Joined(t, s, i, f);
    assert Parts(t[..s], t[s..i], t[i..f], t[f..]);
  }

  lemma Joined(t: Text, s: nat, i: nat, f: nat)
    requires s <= i <= f <= |t|
    ensures t == t[..s] + t[s..i] + t[i..f] + t[f..]
  {
  }

  lemma IntSound(t: Text, s: nat)
    requires s <= |t| && ScanInt(t, s).To?
    ensures IsInt(t[s..ScanInt(t, s).p])
  {
  }

  lemma FracSound(t: Text, i: nat)
    requires i <= |t| && ScanFrac(t, i).To?
    ensures IsFrac(t[i..ScanFrac(t, i).p])
  {
    var f := ScanFrac(t, i).p;
    if i < f {
      assert t[i..f][1..] == t[i + 1..f];
    }
  }

  lemma ExpSound(t: Text, f: nat)
    requires f <= |t| && ScanExp(t, f) == To(|t|)
    ensures IsExp(t[f..])
  {
    if f < |t| {
      if f + 1 < |t| && (t[f + 1] == PLUS || t[f + 1] == MINUS) {
        assert Digits(t[f + 2..]);
        assert t[f..][2..] == t[f + 2..];
      } else {
        assert Digits(t[f + 1..]);
        assert t[f..][1..] == t[f + 1..];
      }
    }
  }

  lemma ExpComplete(t: Text, p: nat, exp: Text)
    requires IsExp(exp) && p <= |t| && t[p..] == exp
    ensures ScanExp(t, p) == To(|t|)
  {
    if exp != [] {
      if Digits(exp[1..]) {
        assert t[p + 1] == exp[1..][0];
      } else {
        assert t[p + 2..] == exp[2..];
      }
    }
  }

  lemma FracComplete(t: Text, p: nat, frac: Text, exp: Text)
    requires IsFrac(frac) && IsExp(exp) && p <= |t| && t[p..] == frac + exp
    ensures ScanFrac(t, p) == To(p + |frac|)
  {
    if frac != [] {
      assert t[p + 1..p + |frac|] == t[p..][1..|frac|] == frac[1..];
      assert exp != [] ==> t[p..][|frac|] == exp[0];
    } else if exp != [] {
      assert t[p..][0] == exp[0];
    }
  }

  lemma IntComplete(t: Text, p: nat, whole: Text, rest: Text)
    requires IsInt(whole) && p <= |t| && t[p..] == whole + rest && (rest != [] ==> !IsDigit(rest[0]))
    ensures ScanInt(t, p) == To(p + |whole|)
  {
    assert t[p] == t[p..][0] == whole[0];
    if whole != [ZERO] {
      assert t[p..p + |whole|] == t[p..][..|whole|] == whole;
      assert rest != [] ==> t[p..][|whole|] == rest[0];
    }
  }

  lemma Complete(sign: Text, whole: Text, frac: Text, exp: Text, t: Text)
    requires Parts(sign, whole, frac, exp) && t == sign + whole + frac + exp
    ensures ScanNumber(t)
  {
    FromSuffixes(t, |sign|, whole, frac, exp);
  }

  lemma FromSuffixes(t: Text, s: nat, whole: Text, frac: Text, exp: Text)
    requires IsInt(whole) && IsFrac(frac) && IsExp(exp) && SignEnd(t) == s
    requires s + |whole| + |frac| <= |t| && t[s..] == whole + (frac + exp)
    requires t[s + |whole|..] == frac + exp && t[s + |whole| + |frac|..] == exp
    ensures ScanNumber(t)
  {
    var i, f := s + |whole|, s + |whole| + |frac|;
    IntComplete(t, s, whole, frac + exp);
    FracComplete(t, i, frac, exp);
    ExpComplete(t, f, exp);
    Chain(t, i, f);
  }

  lemma Chain(t: Text, i: nat, f: nat)
    requires i <= |t| && f <= |t|
    requires ScanInt(t, SignEnd(t)) == To(i) && ScanFrac(t, i) == To(f) && ScanExp(t, f) == To(|t|)
    ensures ScanNumber(t)
  {
  }

  /** The scanner accepts exactly the numbers, of any length. */
  lemma ScansNumbers(t: Text)
    ensures ScanNumber(t) <==> IsNumber(t)
  {
    if ScanNumber(t) {
      Sound(t);
    } else if IsNumber(t) {
      var sign: Text, whole: Text, frac: Text, exp: Text :|
        Parts(sign, whole, frac, exp) && t == sign + whole + frac + exp;
      Complete(sign, whole, frac, exp, t);
    }
  }

  // ------------------------------------------------------------------ the program

  method SkipDigits(t: Text, from: nat) returns (p: nat)
    requires from <= |t|
    ensures p == DigitsEnd(t, from)
  {
    p := from;
    while p < |t| && IsDigit(t[p])
      invariant from <= p <= |t| && DigitsEnd(t, p) == DigitsEnd(t, from)
    {
      p := p + 1;
    }
  }

  method MatchInt(t: Text, from: nat) returns (q: Pos)
    requires from <= |t|
    ensures q == ScanInt(t, from)
  {
    if from == |t| {
      return Wrong;
    }
    if t[from] == ZERO {
      return To(from + 1);
    }
    if t[from] < 49 || t[from] > 57 {
      return Wrong;
    }
    var p := SkipDigits(t, from);
    return To(p);
  }

  method MatchDigits(t: Text, from: nat) returns (q: Pos)
    requires from <= |t|
    ensures q == ScanDigits(t, from)
  {
    if from == |t| || !IsDigit(t[from]) {
      return Wrong;
    }
    var p := SkipDigits(t, from);
    return To(p);
  }

  method MatchFrac(t: Text, from: nat) returns (q: Pos)
    requires from <= |t|
    ensures q == ScanFrac(t, from)
  {
    if from < |t| && t[from] == DOT {
      q := MatchDigits(t, from + 1);
    } else {
      q := To(from);
    }
  }

  method MatchExp(t: Text, from: nat) returns (q: Pos)
    requires from <= |t|
    ensures q == ScanExp(t, from)
  {
    var p := from;
    if p < |t| && (t[p] == LOWER_E || t[p] == UPPER_E) {
      p := p + 1;
      if p < |t| && (t[p] == PLUS || t[p] == MINUS) {
        p := p + 1;
      }
      q := MatchDigits(t, p);
    } else {
      q := To(p);
    }
  }

  /** valid_primitive on the text of a primitive token. */
  method ValidPrimitive(t: Text) returns (valid: bool)
    ensures valid <==> IsPrimitive(t)
  {
    if t == TRUE || t == FALSE || t == NULL {
      return true;
    }
    ScansNumbers(t);
    var p := 0;
    if p < |t| && t[p] == MINUS {
      p := p + 1;
    }
    var q := MatchInt(t, p);
    if q.Wrong? {
      return false;
    }
    q := MatchFrac(t, q.p);
    if q.Wrong? {
      return false;
    }
    q := MatchExp(t, q.p);
    return q == To(|t|);
  }

  /** The characters of a number. */
  predicate Plain(t: Text) {
    forall i :: 0 <= i < |t| ==> IsDigit(t[i]) || t[i] in {MINUS, PLUS, DOT, LOWER_E, UPPER_E}
  }

  lemma PlainParts(frac: Text, exp: Text)
    requires IsFrac(frac) && IsExp(exp)
    ensures Plain(frac) && Plain(exp)
  {
    if frac != [] {
      assert frac == [DOT] + frac[1..];
    }
    if exp != [] {
      if Digits(exp[1..]) {
        assert exp == [exp[0]] + exp[1..];
      } else {
        assert exp == [exp[0], exp[1]] + exp[2..];
      }
    }
  }

  lemma NumberPlain(t: Text)
    requires IsNumber(t)
    ensures Plain(t) && |t| > 0 && (IsDigit(t[0]) || t[0] == MINUS)
  {
    var sign: Text, whole: Text, frac: Text, exp: Text :|
      Parts(sign, whole, frac, exp) && t == sign + whole + frac + exp;
    PlainParts(frac, exp);
    assert Plain(sign) && Plain(whole);
  }

  /** Every literal of the grammar is one the tokenizer takes whole, so the printed trees contain all of them. */
  lemma PrimitivesTokenize(t: Text)
    requires IsPrimitive(t)
    ensures JsonTree.IsPrimitiveText(t)
  {
    if IsNumber(t) {
      NumberPlain(t);
      forall i | 0 <= i < |t| ensures 32 < t[i] < 127 && !IsDelimiter(t[i]) {
      }
    }
  }
}
