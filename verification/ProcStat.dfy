/**
 The parser of a Linux process status line, and its exact tick arithmetic in 64 bits.

 Source: src/app/resources.c:16-61. The process name stands in parentheses and may hold blanks and parentheses
 itself, so the fields are counted from the last closing one; ticks become nanoseconds without a double.
 */
module ProcStat {
  import opened Bytes

  const CLOSE: byte := 41
  const LIMIT := 0x1_0000_0000_0000_0000
  const NANO := 1_000_000_000
  const FIRST := 3
  const LAST := 24

  datatype Option<T> = None | Some(value: T)

  /** The four fields the parser keeps: 14, 15, 22 and 24. */
  datatype Fields = Fields(user: nat, system: nat, start: nat, pages: nat)

  datatype Sample = Sample(identity: int, cpu: int, rss: int)

  // ------------------------------------------------------------------ scanning

  /** strrchr for the closing parenthesis of the name; |t| when there is none. */
  function LastClose(t: Text): (p: nat)
    ensures p <= |t| && (p < |t| ==> t[p] == CLOSE)
    ensures forall i :: (if p < |t| then p + 1 else 0) <= i < |t| ==> t[i] != CLOSE
  {
    if t == [] then 0
    else if t[|t| - 1] == CLOSE then |t| - 1
    else
      var p := LastClose(t[..|t| - 1]);
      if p == |t| - 1 then |t| else p
  }

  function SkipSpaces(t: Text, p: nat): (q: nat)
    requires p <= |t|
    ensures p <= q <= |t| && (q < |t| ==> t[q] != SPACE)
    decreases |t| - p
  {
    if p < |t| && t[p] == SPACE then SkipSpaces(t, p + 1) else p
  }

  predicate Ends(c: byte) {
    c == SPACE || c == LF
  }

  function FieldEnd(t: Text, p: nat): (q: nat)
    requires p <= |t|
    ensures p <= q <= |t| && (q < |t| ==> Ends(t[q]))
    decreases |t| - p
  {
    if p < |t| && !Ends(t[p]) then FieldEnd(t, p + 1) else p
  }

  predicate AllDigits(t: Text) {
    |t| > 0 && forall i :: 0 <= i < |t| ==> IsDigit(t[i])
  }

  function DigitOf(c: byte): nat
    requires IsDigit(c)
  {
    c as int - 48
  }

  function Value(t: Text): nat
    requires forall i :: 0 <= i < |t| ==> IsDigit(t[i])
  {
    if t == [] then 0
    else
      assert IsDigit(t[|t| - 1]);
      10 * Value(t[..|t| - 1]) + DigitOf(t[|t| - 1])
  }

  /** strtoull over the whole field, without overflow. */
  function Number(t: Text): Option<nat> {
    if AllDigits(t) && Value(t) < LIMIT then Some(Value(t)) else None
  }

  predicate Wanted(field: nat) {
    field == 14 || field == 15 || field == 22 || field == 24
  }

  function Keep(f: Fields, field: nat, n: nat): Fields {
    if field == 14 then f.(user := n)
    else if field == 15 then f.(system := n)
    else if field == 22 then f.(start := n)
    else f.(pages := n)
  }

  /** The field loop from `field` on. */
  function Scan(t: Text, p: nat, field: nat, f: Fields): Option<Fields>
    requires p <= |t|
    decreases LAST + 1 - field, |t| - p
  {
    if field > LAST then Some(f)
    else
      var from := SkipSpaces(t, p);
      var end := FieldEnd(t, from);
      if from == end then None
      else if !Wanted(field) then Scan(t, end, field + 1, f)
      else
        match Number(t[from..end])
        case None => None
        case Some(n) => Scan(t, end, field + 1, Keep(f, field, n))
  }

  // ------------------------------------------------------------------ arithmetic

  /** The checked additions and multiplications, in the program's order. */
  function Compute(f: Fields, hz: nat, page: nat): Option<Sample>
    requires hz > 0
  {
    var ticks := f.user + f.system;
    var rss := f.pages * page;
    var seconds := (ticks / hz) * NANO;
    var remainder := (ticks % hz) * NANO;
    var cpu := seconds + remainder / hz;
    if ticks >= LIMIT || rss >= LIMIT || seconds >= LIMIT || remainder >= LIMIT || cpu >= LIMIT then None
    else Some(Sample(f.start, cpu, rss))
  }

  function Finish(f: Option<Fields>, hz: nat, page: nat): Option<Sample>
    requires hz > 0
  {
    if f.None? then None else Compute(f.value, hz, page)
  }

  function Parse(t: Text, hz: nat, page: nat): Option<Sample> {
    var close := LastClose(t);
    if close == |t| || close + 1 >= |t| || t[close + 1] != SPACE || hz == 0 || page == 0 then None
    else Finish(Scan(t, close + 2, FIRST, Fields(0, 0, 0, 0)), hz, page)
  }

  lemma DivideSum(k: nat, m: nat, h: nat)
    requires h > 0
    ensures (k * h + m) / h == k + m / h
  {
    var q, r := m / h, m % h;
    assert m == q * h + r;
    DivideUnique(k * h + m, h, k + q, r);
  }

  lemma Scale(q: nat, h: nat, r: nat, n: nat)
    ensures (q * h + r) * n == (q * n) * h + r * n
  {
    assert q * h * n == q * n * h;
  }

  lemma Monotone(a: nat, b: nat, h: nat)
    requires a <= b
    ensures a * h <= b * h
  {
  }

  lemma DivideUnique(n: nat, h: nat, q: nat, r: nat)
    requires h > 0 && n == q * h + r && r < h
    ensures n / h == q
  {
    var d := n / h;
    assert n == d * h + n % h;
    if q + 1 <= d {
      Monotone(q + 1, d, h);
    }
    if d + 1 <= q {
      Monotone(d + 1, q, h);
    }
  }

  /** Whatever succeeds in 64 bits is exact: whole ticks scaled and floored once. */
  lemma ComputeExact(f: Fields, hz: nat, page: nat)
    requires hz > 0
    ensures Compute(f, hz, page).Some? ==>
      Compute(f, hz, page).value == Sample(f.start, (f.user + f.system) * NANO / hz, f.pages * page)
  {
    SplitTicks(f.user + f.system, hz);
  }

  lemma SplitTicks(ticks: nat, hz: nat)
    requires hz > 0
    ensures ticks * NANO / hz == (ticks / hz) * NANO + (ticks % hz) * NANO / hz
  {
    var q, r := ticks / hz, ticks % hz;
    assert ticks == q * hz + r;
    Scale(q, hz, r, NANO);
    DivideSum(q * NANO, r * NANO, hz);
  }

  /** At every real clock rate nothing else fails than a result that does not fit. */
  lemma ComputeFailsOnlyOnOverflow(f: Fields, hz: nat, page: nat)
    requires 0 < hz && hz * NANO <= LIMIT
    ensures Compute(f, hz, page).None? <==>
      f.user + f.system >= LIMIT || f.pages * page >= LIMIT || (f.user + f.system) * NANO / hz >= LIMIT
  {
    SplitTicks(f.user + f.system, hz);
    var r := (f.user + f.system) % hz;
    assert r * NANO < hz * NANO;
    assert r * NANO / hz >= 0;
  }

  // ------------------------------------------------------------------ the line

  predicate IsField(t: Text) {
    |t| > 0 && forall i :: 0 <= i < |t| ==> !Ends(t[i]) && t[i] != CLOSE
  }

  predicate AreFields(fs: seq<Text>) {
    forall i :: 0 <= i < |fs| ==> IsField(fs[i])
  }

  /** The fields behind the name, one space apart, and the newline. */
  function Body(fs: seq<Text>): Text {
    if fs == [] then [LF] else fs[0] + (if |fs| == 1 then [LF] else [SPACE] + Body(fs[1..]))
  }

  /** A status line: the process id, the name in parentheses, and the fields from the third on. */
  function Line(pid: Text, name: Text, fs: seq<Text>): Text {
    pid + [SPACE, 40] + name + [CLOSE, SPACE] + Body(fs)
  }

  /** The kept fields of the text, if they are numbers. */
  function Kept(fs: seq<Text>, field: nat, f: Fields): Option<Fields>
    decreases LAST + 1 - field, |fs|
  {
    if field > LAST then Some(f)
    else if fs == [] then None
    else if !Wanted(field) then Kept(fs[1..], field + 1, f)
    else
      match Number(fs[0])
      case None => None
      case Some(n) => Kept(fs[1..], field + 1, Keep(f, field, n))
  }

  lemma {:induction false} BodyPlain(fs: seq<Text>, i: nat)
    requires AreFields(fs) && i < |Body(fs)|
    ensures Body(fs)[i] != CLOSE
  {
    if |fs| > 1 && i > |fs[0]| {
      BodyPlain(fs[1..], i - |fs[0]| - 1);
    }
  }

  /** The first field of a body that stands at `p`, and what stands behind it. */
  lemma FieldFound(t: Text, p: nat, fs: seq<Text>)
    requires p <= |t| && AreFields(fs) && fs != [] && t[p..] == Body(fs)
    ensures p + |fs[0]| <= |t| && SkipSpaces(t, p) == p && FieldEnd(t, p) == p + |fs[0]| && t[p..p + |fs[0]|] == fs[0]
    ensures |fs| > 1 ==> SkipSpaces(t, p + |fs[0]|) == p + |fs[0]| + 1 && t[p + |fs[0]| + 1..] == Body(fs[1..])
  {
    var n := |fs[0]|;
    assert forall i :: 0 <= i < n ==> t[p + i] == t[p..][i] == fs[0][i];
    FieldEndIs(t, p, p + n);
    assert t[p..p + n] == t[p..][..n] == fs[0];
    assert t[p + n] == t[p..][n];
    if |fs| > 1 {
      assert t[p + n + 1..] == t[p..][n + 1..] == Body(fs[1..]);
      assert t[p + n + 1] == t[p + n + 1..][0] == fs[1][0];
    }
  }

  lemma {:induction false} FieldEndIs(t: Text, p: nat, q: nat)
    requires p <= q <= |t| && (q < |t| ==> Ends(t[q])) && forall i :: p <= i < q ==> !Ends(t[i])
    requires q < |t|
    ensures FieldEnd(t, p) == q
    decreases q - p
  {
    if p < q {
      FieldEndIs(t, p + 1, q);
    }
  }

  /** The scan of a body keeps the fields that stand there. */
  lemma {:induction false} ScanBody(t: Text, p: nat, field: nat, f: Fields, fs: seq<Text>)
    requires p <= |t| && AreFields(fs) && field <= LAST && field + |fs| > LAST
    requires t[SkipSpaces(t, p)..] == Body(fs)
    ensures Scan(t, p, field, f) == Kept(fs, field, f)
    decreases LAST + 1 - field
  {
    var from := SkipSpaces(t, p);
    FieldFound(t, from, fs);
    var end := from + |fs[0]|;
    if field < LAST {
      if !Wanted(field) {
        ScanBody(t, end, field + 1, f, fs[1..]);
      } else if Number(fs[0]).Some? {
        ScanBody(t, end, field + 1, Keep(f, field, Number(fs[0]).value), fs[1..]);
      }
    }
  }

  /**
   For every process name, with parentheses and spaces in it or not, the parser computes its sample from
   exactly the fields 14, 15, 22 and 24 of the line.
   */
  lemma {:induction false} ReadsItsFields(pid: Text, name: Text, fs: seq<Text>, hz: nat, page: nat)
    requires AreFields(fs) && |fs| >= LAST + 1 - FIRST && hz > 0 && page > 0
    ensures Parse(Line(pid, name, fs), hz, page) == Finish(Kept(fs, FIRST, Fields(0, 0, 0, 0)), hz, page)
  {
    var t := Line(pid, name, fs);
    var close := |pid| + 2 + |name|;
    NameEnds(pid, name, fs);
    BehindName(t, close, fs, hz, page);
  }

  lemma BehindName(t: Text, close: nat, fs: seq<Text>, hz: nat, page: nat)
    requires AreFields(fs) && |fs| >= LAST + 1 - FIRST && hz > 0 && page > 0
    requires LastClose(t) == close && close + 1 < |t| && t[close + 1] == SPACE && t[close + 2..] == Body(fs)
    ensures Parse(t, hz, page) == Finish(Kept(fs, FIRST, Fields(0, 0, 0, 0)), hz, page)
  {
    FieldFound(t, close + 2, fs);
    ScanBody(t, close + 2, FIRST, Fields(0, 0, 0, 0), fs);
  }

  lemma NameEnds(pid: Text, name: Text, fs: seq<Text>)
    requires AreFields(fs)
    ensures var t := Line(pid, name, fs);
      var close := |pid| + 2 + |name|;
      LastClose(t) == close && close + 1 < |t| && t[close + 1] == SPACE && t[close + 2..] == Body(fs)
  {
    var t := Line(pid, name, fs);
    var close := |pid| + 2 + |name|;
    var body := Body(fs);
    assert t == pid + [SPACE, 40] + name + [CLOSE, SPACE] + body;
    assert t[close] == CLOSE && t[close + 1] == SPACE && t[close + 2..] == body;
    forall i | close < i < |t| ensures t[i] != CLOSE {
      if i >= close + 2 {
        assert t[i] == body[i - close - 2];
        BodyPlain(fs, i - close - 2);
      }
    }
  }

  /** Which fields those are. */
  lemma KeptAre(fs: seq<Text>)
    requires |fs| >= LAST + 1 - FIRST
    ensures var k := Kept(fs, FIRST, Fields(0, 0, 0, 0));
      var user, system, start, pages := Number(fs[11]), Number(fs[12]), Number(fs[19]), Number(fs[21]);
      k == if user.Some? && system.Some? && start.Some? && pages.Some?
           then Some(Fields(user.value, system.value, start.value, pages.value)) else None
  {
    var zero := Fields(0, 0, 0, 0);
    Passed(fs, FIRST, 14, zero);
    assert fs[11..][1..] == fs[12..] && fs[12..][1..] == fs[13..];
    if Number(fs[11]).Some? && Number(fs[12]).Some? {
      LateFields(fs, Fields(Number(fs[11]).value, Number(fs[12]).value, 0, 0));
    }
  }

  lemma LateFields(fs: seq<Text>, f: Fields)
    requires |fs| >= LAST + 1 - FIRST
    ensures Kept(fs[13..], 16, f) ==
      if Number(fs[19]).Some? && Number(fs[21]).Some? then Some(f.(start := Number(fs[19]).value, pages := Number(fs[21]).value))
      else None
  {
    Passed(fs[13..], 16, 22, f);
    assert fs[13..][6..] == fs[19..] && fs[19..][1..] == fs[20..] && fs[20..][1..] == fs[21..];
    if Number(fs[19]).Some? {
      var g := f.(start := Number(fs[19]).value);
      assert Kept(fs[19..], 22, f) == Kept(fs[20..], 23, g) == Kept(fs[21..], 24, g);
      if Number(fs[21]).Some? {
        assert Kept(fs[21..][1..], 25, g.(pages := Number(fs[21]).value)).Some?;
      }
    }
  }

  /** Unwanted fields are passed over. */
  lemma {:induction false} Passed(fs: seq<Text>, field: nat, next: nat, f: Fields)
    requires field <= next <= LAST && |fs| >= next - field && forall i :: field <= i < next ==> !Wanted(i)
    ensures Kept(fs, field, f) == Kept(fs[next - field..], next, f)
    decreases next - field
  {
    if field < next {
      Passed(fs[1..], field + 1, next, f);
      assert fs[1..][next - field - 1..] == fs[next - field..];
    } else {
      assert fs[0..] == fs;
    }
  }

  // ------------------------------------------------------------------ numbers and whole lines

  /** A number as it is printed. */
  function Decimal(n: nat): Text {
    if n < 10 then [48 + n] else Decimal(n / 10) + [48 + n % 10]
  }

  lemma {:induction false} DecimalReads(n: nat)
    ensures AllDigits(Decimal(n)) && Value(Decimal(n)) == n
    decreases n
  {
    if n < 10 {
      assert Value([]) == 0 && [48 + n][..0] == [];
    } else {
      DecimalReads(n / 10);
      assert Decimal(n)[..|Decimal(n)| - 1] == Decimal(n / 10);
    }
  }

  /** A printed number is read back when it fits 64 bits; an empty field and one with any other character are none. */
  lemma NumberReads(n: nat, t: Text)
    ensures Number(Decimal(n)) == if n < 0x1_0000_0000_0000_0000 then Some(n) else None
    ensures t == [] || (exists i :: 0 <= i < |t| && !(48 <= t[i] <= 57)) ==> Number(t) == None
  {
    DecimalReads(n);
  }

  /** A text without the name's parenthesis, a clock rate of zero and a page size of zero give no sample ... */
  lemma NoSample(t: Text, hz: nat, page: nat)
    requires hz == 0 || page == 0 || forall i :: 0 <= i < |t| ==> t[i] != 41
    ensures Parse(t, hz, page) == None
  {
  }

  /** ... nor does a line that ends before its last field. */
  lemma ShortLine(pid: Text, name: Text, fs: seq<Text>, hz: nat, page: nat)
    requires AreFields(fs) && |fs| < 22
    ensures Parse(Line(pid, name, fs), hz, page) == None
  {
    NameEnds(pid, name, fs);
    var t := Line(pid, name, fs);
    var from := |pid| + 2 + |name| + 2;
    assert SkipSpaces(t, from) == from by {
      if fs != [] {
        FieldFound(t, from, fs);
      } else {
        assert t[from] == t[from..][0] == LF;
      }
    }
    ScanShort(t, from, FIRST, Fields(0, 0, 0, 0), fs);
  }

  /** Behind the spaces behind a field stands the rest of the line. */
  lemma RestBehind(t: Text, p: nat, fs: seq<Text>)
    requires p <= |t| && AreFields(fs) && fs != [] && t[p..] == Body(fs)
    ensures p + |fs[0]| <= |t| && t[SkipSpaces(t, p + |fs[0]|)..] == Body(fs[1..])
  {
    FieldFound(t, p, fs);
    if |fs| == 1 {
      var end := p + |fs[0]|;
      assert t[end] == t[p..][|fs[0]|] == LF;
      assert t[end..] == t[p..][|fs[0]|..] == Body([]);
    }
  }

  lemma {:induction false} ScanShort(t: Text, p: nat, field: nat, f: Fields, fs: seq<Text>)
    requires p <= |t| && AreFields(fs) && field + |fs| <= LAST && t[SkipSpaces(t, p)..] == Body(fs)
    ensures Scan(t, p, field, f) == None
    decreases |fs|
  {
    var from := SkipSpaces(t, p);
    if fs == [] {
      assert t[from] == t[from..][0] == LF;
    } else {
      FieldFound(t, from, fs);
      RestBehind(t, from, fs);
      var end := from + |fs[0]|;
      if !Wanted(field) {
        ScanShort(t, end, field + 1, f, fs[1..]);
      } else if Number(fs[0]).Some? {
        ScanShort(t, end, field + 1, Keep(f, field, Number(fs[0]).value), fs[1..]);
      }
    }
  }

  /** What the program reads off a status line that prints these four numbers in their places, whatever else it prints. */
  lemma PrintedLine(pid: Text, name: Text, fs: seq<Text>, user: nat, system: nat, start: nat, pages: nat, hz: nat, page: nat)
    requires AreFields(fs) && |fs| >= 22 && 0 < hz && hz * NANO <= LIMIT && 0 < page
    requires fs[11] == Decimal(user) && fs[12] == Decimal(system) && fs[19] == Decimal(start) && fs[21] == Decimal(pages)
    requires user < LIMIT && system < LIMIT && start < LIMIT && pages < LIMIT
    ensures Parse(Line(pid, name, fs), hz, page) ==
      if user + system < LIMIT && pages * page < LIMIT && (user + system) * NANO / hz < LIMIT
      then Some(Sample(start, (user + system) * NANO / hz, pages * page)) else None
  {
    ReadsItsFields(pid, name, fs, hz, page);
    KeptAre(fs);
    NumberReads(user, []);
    NumberReads(system, []);
    NumberReads(start, []);
    NumberReads(pages, []);
    var f := Fields(user, system, start, pages);
    ComputeExact(f, hz, page);
    ComputeFailsOnlyOnOverflow(f, hz, page);
  }

  // ------------------------------------------------------------------ the program

  method FindClose(t: Text) returns (p: nat)
    ensures p == LastClose(t)
  {
    p := |t|;
    while p > 0 && t[p - 1] != CLOSE
      invariant p <= |t| && forall i :: p <= i < |t| ==> t[i] != CLOSE
    {
      p := p - 1;
    }
    if p == 0 {
      return |t|;
    }
    return p - 1;
  }

  method ReadNumber(t: Text) returns (n: Option<nat>)
    ensures n == Number(t)
  {
    if |t| == 0 {
      return None;
    }
    var v, i := 0, 0;
    while i < |t|
      invariant i <= |t| && forall j :: 0 <= j < i ==> IsDigit(t[j])
      invariant v == Value(t[..i])
    {
      if !IsDigit(t[i]) {
        return None;
      }
      assert t[..i + 1][..i] == t[..i];
      v := 10 * v + DigitOf(t[i]);
      i := i + 1;
    }
    assert t[..i] == t;
    return if v < LIMIT then Some(v) else None;
  }

  method Skip(t: Text, from: nat) returns (p: nat)
    requires from <= |t|
    ensures p == SkipSpaces(t, from)
  {
    p := from;
    while p < |t| && t[p] == SPACE
      invariant p <= |t| && SkipSpaces(t, p) == SkipSpaces(t, from)
    {
      p := p + 1;
    }
  }

  method FindEnd(t: Text, from: nat) returns (p: nat)
    requires from <= |t|
    ensures p == FieldEnd(t, from)
  {
    p := from;
    while p < |t| && t[p] != SPACE && t[p] != LF
      invariant p <= |t| && FieldEnd(t, p) == FieldEnd(t, from)
    {
      p := p + 1;
    }
  }

  /** app_process_parse_linux. */
  method ParseLinux(t: Text, hz: nat, page: nat) returns (sample: Option<Sample>)
    ensures sample == Parse(t, hz, page)
  {
    var p: nat := FindClose(t);
    if p == |t| || p + 1 == |t| || t[p + 1] != SPACE || hz == 0 || page == 0 {
      return None;
    }
    p := p + 2;
    var f := Fields(0, 0, 0, 0);
    var field := FIRST;
    ghost var begin := p;
    while field <= LAST
      invariant FIRST <= field <= LAST + 1 && p <= |t|
      invariant Scan(t, p, field, f) == Scan(t, begin, FIRST, Fields(0, 0, 0, 0))
    {
      p := Skip(t, p);
      var end := FindEnd(t, p);
      if p == end {
        return None;
      }
      if field == 14 || field == 15 || field == 22 || field == 24 {
        var n := ReadNumber(t[p..end]);
        if n.None? {
          return None;
        }
        f := Keep(f, field, n.value);
      }
      p := end;
      field := field + 1;
    }
    return Compute(f, hz, page);
  }
}
