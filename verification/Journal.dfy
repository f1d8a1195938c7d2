/**
 The two journal segments on disk: appending, rotation, torn appends and their seal, compaction, reloading,
 and a crash at any point between.

 Source: src/app/performance.c. A record line is an opaque line that the parser inverts; each file
 replacement by rename is atomic.
 */
module Journal {
  import opened Bytes
  import History

  const LINE_CAP := 8192
  const SEGMENT_BYTES := 10 * 1024 * 1024

  datatype Disk = Disk(previous: Text, current: Text)

  /** Ends with its only newline. */
  predicate IsLine(l: Text) {
    l != [] && l[|l| - 1] == LF && forall i :: 0 <= i < |l| - 1 ==> l[i] != LF
  }

  predicate Terminated(t: Text) {
    t == [] || t[|t| - 1] == LF
  }

  // ------------------------------------------------------------------ lines

  function FirstEnd(t: Text, from: nat): (i: nat)
    requires from <= |t|
    ensures from <= i <= |t|
    ensures forall j :: from <= j < i ==> t[j] != LF
    ensures i < |t| ==> t[i] == LF
    decreases |t| - from
  {
    if from == |t| || t[from] == LF then from else FirstEnd(t, from + 1)
  }

  /** The complete lines of a file; an unterminated tail is none. */
  function Lines(t: Text): (ls: seq<Text>)
    decreases |t|
  {
    var i := FirstEnd(t, 0);
    if i == |t| then [] else [t[..i + 1]] + Lines(t[i + 1..])
  }

  function Concat(ls: seq<Text>): Text {
    if ls == [] then [] else ls[0] + Concat(ls[1..])
  }

  predicate AllLines(ls: seq<Text>) {
    forall i :: 0 <= i < |ls| ==> IsLine(ls[i])
  }

  /** Behind a terminated text, lines are counted on their own. */
  lemma {:induction false} LinesAppend(a: Text, b: Text)
    requires Terminated(a)
    ensures Lines(a + b) == Lines(a) + Lines(b)
    decreases |a|
  {
    if a == [] {
      assert a + b == b;
    } else {
      var i := FirstEnd(a, 0);
      assert a[|a| - 1] == LF;
      var head, rest := a[..i + 1], a[i + 1..];
      assert a == head + rest;
      LinesAppend(rest, b);
      LinesBehind(head, rest, b);
    }
  }

  lemma LinesBehind(l: Text, a: Text, b: Text)
    requires IsLine(l) && Lines(a + b) == Lines(a) + Lines(b)
    ensures Lines((l + a) + b) == Lines(l + a) + Lines(b)
  {
    LinesHead(l, a);
    LinesHead(l, a + b);
    Associates(l, a, b);
    Associates([l], Lines(a), Lines(b));
  }

  lemma Associates<T>(a: seq<T>, b: seq<T>, c: seq<T>)
    ensures (a + b) + c == a + (b + c)
  {
  }

  lemma LinesHead(l: Text, t: Text)
    requires IsLine(l)
    ensures Lines(l + t) == [l] + Lines(t)
  {
    FirstEndUnique(l + t, |l| - 1);
    assert (l + t)[..|l|] == l && (l + t)[|l|..] == t;
  }

  lemma FirstEndUnique(t: Text, i: nat)
    requires i < |t| && t[i] == LF && forall j :: 0 <= j < i ==> t[j] != LF
    ensures FirstEnd(t, 0) == i
  {
    var k := FirstEnd(t, 0);
    assert t[i] == LF && k < |t|;
    assert t[k] == LF;
  }

  lemma LinesOne(l: Text)
    requires IsLine(l)
    ensures Lines(l) == [l]
  {
    FirstEndUnique(l, |l| - 1);
    assert l[..|l|] == l && l[|l|..] == [];
  }

  lemma {:induction false} ConcatTerminated(ls: seq<Text>)
    requires AllLines(ls)
    ensures Terminated(Concat(ls))
  {
    if ls != [] {
      ConcatTerminated(ls[1..]);
    }
  }

  /** A file written line by line is read back line by line. */
  lemma {:induction false} LinesConcat(ls: seq<Text>)
    requires AllLines(ls)
    ensures Lines(Concat(ls)) == ls
  {
    if ls != [] {
      LinesConcat(ls[1..]);
      LinesOne(ls[0]);
      LinesAppend(ls[0], Concat(ls[1..]));
    }
  }

  // ------------------------------------------------------------------ the writer's file operations

  /** How far an append comes: nothing opened, a proper part of the line written, all of it, or only the rotation. */
  datatype Append = Unopened | Torn(k: nat) | Stored | RotatedOnly

  function Rotates(d: Disk, line: Text): bool {
    |d.current| + |line| > SEGMENT_BYTES
  }

  /** The segments once the line may be written. */
  function Rotated(d: Disk, line: Text): Disk {
    if Rotates(d, line) then Disk(d.current, []) else d
  }

  function Appended(d: Disk, line: Text, how: Append): Disk {
    match how
    case Unopened => d
    case RotatedOnly => Rotated(d, line)
    case Torn(k) => var e := Rotated(d, line); if k < |line| then e.(current := e.current + line[..k]) else e
    case Stored => var e := Rotated(d, line); e.(current := e.current + line)
  }

  /** At startup a torn tail is sealed with a newline. */
  function Sealed(t: Text): Text {
    if Terminated(t) then t else t + [LF]
  }

  // ------------------------------------------------------------------ compaction

  /** The first record end at or behind `from`. */
  function NextEnd(data: Text, from: nat): (split: nat)
    requires 0 < from <= |data|
    ensures from <= split <= |data|
    ensures split < |data| ==> data[split - 1] == LF
    decreases |data| - from
  {
    if from < |data| && data[from - 1] != LF then NextEnd(data, from + 1) else from
  }

  function SplitAt(data: Text): (split: nat)
    ensures split <= |data|
  {
    if |data| > SEGMENT_BYTES then NextEnd(data, |data| - SEGMENT_BYTES) else 0
  }

  /** Too much for two segments; nothing is written then. */
  predicate TooLong(data: Text) {
    SplitAt(data) > SEGMENT_BYTES
  }

  datatype Reach = Neither | PreviousOnly | Both

  /** A compaction up to the moment of a crash or failure: each replacement happened or did not. */
  function Compacted(d: Disk, data: Text, reach: Reach): Disk {
    if TooLong(data) then d
    else
      match reach
      case Neither => d
      case PreviousOnly => d.(previous := data[..SplitAt(data)])
      case Both => Disk(data[..SplitAt(data)], data[SplitAt(data)..])
  }

  /** In a file of lines, a cut behind a newline separates whole lines. */
  lemma {:induction false} CutAtEnd(ls: seq<Text>, cut: nat) returns (n: nat)
    requires AllLines(ls) && cut <= |Concat(ls)| && (cut == 0 || Concat(ls)[cut - 1] == LF)
    ensures n <= |ls| && Concat(ls)[..cut] == Concat(ls[..n]) && Concat(ls)[cut..] == Concat(ls[n..])
    decreases |ls|
  {
    if cut == 0 {
      assert ls[..0] == [] && ls[0..] == ls;
      n := 0;
    } else {
      var l := ls[0];
      assert cut <= |l| ==> Concat(ls)[cut - 1] == l[cut - 1];
      var m := CutAtEnd(ls[1..], cut - |l|);
      n := m + 1;
      assert ls[..n] == [l] + ls[1..][..m] && ls[n..] == ls[1..][m..];
      assert Concat(ls)[..cut] == l + Concat(ls[1..])[..cut - |l|];
    }
  }

  /** `split` cuts the export between two records, and both parts fit a segment. */
  predicate CutsWhole(ls: seq<Text>, data: Text, split: nat) {
    && split <= |data| && split <= SEGMENT_BYTES && |data| - split <= SEGMENT_BYTES
    && data[..split] + data[split..] == data
    && Lines(data[..split]) + Lines(data[split..]) == ls
    && Terminated(data[..split]) && Terminated(data[split..])
  }

  /** Compaction splits the export only at a record end, and the parts together are the export. */
  lemma SplitWhole(ls: seq<Text>)
    requires AllLines(ls) && !TooLong(Concat(ls))
    ensures CutsWhole(ls, Concat(ls), SplitAt(Concat(ls)))
  {
    SplitBounds(ls);
    Parted(ls, Concat(ls), SplitAt(Concat(ls)));
  }

  lemma Parted(ls: seq<Text>, data: Text, split: nat)
    requires AllLines(ls) && data == Concat(ls) && split <= |data| && (split == 0 || data[split - 1] == LF)
    requires split <= SEGMENT_BYTES && |data| - split <= SEGMENT_BYTES
    ensures CutsWhole(ls, data, split)
  {
    var n := CutAtEnd(ls, split);
    ReadBack(ls, n, data[..split], data[split..]);
    Rejoined(data, split);
  }

  lemma Rejoined(data: Text, split: nat)
    requires split <= |data|
    ensures data[..split] + data[split..] == data
  {
  }

  lemma ReadBack(ls: seq<Text>, n: nat, a: Text, b: Text)
    requires AllLines(ls) && n <= |ls| && a == Concat(ls[..n]) && b == Concat(ls[n..])
    ensures Lines(a) + Lines(b) == ls && Terminated(a) && Terminated(b)
  {
    LinesConcat(ls[..n]);
    LinesConcat(ls[n..]);
    ConcatTerminated(ls[..n]);
    ConcatTerminated(ls[n..]);
  }

  lemma SplitBounds(ls: seq<Text>)
    requires AllLines(ls)
    ensures var split := SplitAt(Concat(ls));
      |Concat(ls)| - split <= SEGMENT_BYTES && (split == 0 || Concat(ls)[split - 1] == LF)
  {
    ConcatTerminated(ls);
  }

  lemma {:induction false} NextEndFirst(data: Text, from: nat, cut: nat)
    requires 0 < from <= |data| && from <= cut < NextEnd(data, from)
    ensures data[cut - 1] != LF
    decreases |data| - from
  {
    if from < cut {
      NextEndFirst(data, from + 1, cut);
    }
  }

  /** The current segment takes as much as fits: no earlier record end would leave a part within the size. */
  lemma SplitLargest(data: Text, cut: nat)
    requires cut < SplitAt(data) && (cut == 0 || data[cut - 1] == LF)
    ensures |data| - cut > SEGMENT_BYTES
  {
    if |data| - cut <= SEGMENT_BYTES {
      NextEndFirst(data, |data| - SEGMENT_BYTES, cut);
    }
  }

  /** The cut is at a record end, and neither part is larger than a segment. */
  predicate PartsFit(data: Text, cut: nat) {
    cut <= |data| && (cut == 0 || data[cut - 1] == LF) && cut <= SEGMENT_BYTES && |data| - cut <= SEGMENT_BYTES
  }

  /** Compaction writes exactly when some record end leaves two parts that fit their segments. */
  lemma CompactsIff(ls: seq<Text>)
    requires AllLines(ls)
    ensures var data := Concat(ls);
      !TooLong(data) <==> exists cut: nat :: PartsFit(data, cut)
  {
    var data := Concat(ls);
    SplitBounds(ls);
    if !TooLong(data) {
      var cut := SplitAt(data);
      assert PartsFit(data, cut);
    }
    if cut: nat :| PartsFit(data, cut) {
      if cut < SplitAt(data) {
        SplitLargest(data, cut);
      }
    }
  }

  // ------------------------------------------------------------------ torn appends

  /** A torn append that is sealed spoils its own line only: the next append is read back. */
  lemma SealProtects(t: Text, torn: Text, k: nat, l: Text)
    requires Terminated(t) && IsLine(torn) && 0 < k < |torn| && IsLine(l)
    ensures Sealed(t + torn[..k]) != t + torn[..k]
    ensures Lines(Sealed(t + torn[..k]) + l) == Lines(t) + [torn[..k] + [LF], l]
  {
    var file := t + torn[..k];
    assert file[|file| - 1] == torn[k - 1];
    var sealed := Sealed(file);
    assert sealed == t + (torn[..k] + [LF]);
    LinesOne(torn[..k] + [LF]);
    LinesAppend(t, torn[..k] + [LF]);
    LinesOne(l);
    LinesAppend(sealed, l);
    assert Lines(t) + [torn[..k] + [LF]] + [l] == Lines(t) + [torn[..k] + [LF], l];
  }

  /** Without the seal the next line is lost as well. */
  lemma UnsealedSpoils(t: Text, torn: Text, k: nat, l: Text)
    requires Terminated(t) && IsLine(torn) && 0 < k < |torn| && IsLine(l)
    ensures Lines(t + torn[..k] + l) == Lines(t) + [torn[..k] + l]
  {
    assert t + torn[..k] + l == t + (torn[..k] + l);
    LinesAppend(t, torn[..k] + l);
    LinesOne(torn[..k] + l);
  }

  // ------------------------------------------------------------------ every reachable disk

  /** A record line that fits the buffer. */
  type Line = l: Text | IsLine(l) && |l| < LINE_CAP witness [LF]

  type AnyLine = l: Text | IsLine(l) witness [LF]

  datatype Event =
    | Append(line: Line, how: Append)
    | Seal
    | Compact(lines: seq<AnyLine>, reach: Reach)
    | Erase(previous: bool, current: bool)

  function Next(d: Disk, e: Event): Disk {
    match e
    case Append(line, how) => Appended(d, line, how)
    case Seal => d.(current := Sealed(d.current))
    case Compact(lines, reach) => Compacted(d, Concat(lines), reach)
    case Erase(previous, current) => Disk(if previous then [] else d.previous, if current then [] else d.current)
  }

  function Run(d: Disk, es: seq<Event>): Disk
    decreases |es|
  {
    if es == [] then d else Run(Next(d, es[0]), es[1..])
  }

  /** A current segment without its last newline leaves room for the seal. */
  predicate Sized(d: Disk) {
    && |d.previous| <= SEGMENT_BYTES && |d.current| <= SEGMENT_BYTES
    && (!Terminated(d.current) ==> |d.current| < SEGMENT_BYTES)
  }

  lemma AppendSized(d: Disk, line: Line, how: Append)
    requires Sized(d)
    ensures Sized(Appended(d, line, how))
  {
  }

  lemma CompactSized(d: Disk, lines: seq<AnyLine>, reach: Reach)
    requires Sized(d)
    ensures Sized(Compacted(d, Concat(lines), reach))
  {
    if !TooLong(Concat(lines)) {
      SplitWhole(lines);
      PartsSized(d, Concat(lines), SplitAt(Concat(lines)));
    }
  }

  lemma PartsSized(d: Disk, data: Text, split: nat)
    requires Sized(d) && split <= |data| && split <= SEGMENT_BYTES && |data| - split <= SEGMENT_BYTES && Terminated(data[split..])
    ensures Sized(d.(previous := data[..split])) && Sized(Disk(data[..split], data[split..]))
  {
  }

  lemma NextSized(d: Disk, e: Event)
    requires Sized(d)
    ensures Sized(Next(d, e))
  {
    match e
    case Append(line, how) => AppendSized(d, line, how);
    case Compact(lines, reach) => CompactSized(d, lines, reach);
    case _ =>
  }

  /** In every reachable disk, torn appends and crashes included, both segments are within their size: none is refused by the loader. */
  lemma {:induction false} RunSized(d: Disk, es: seq<Event>)
    requires Sized(d)
    ensures Sized(Run(d, es))
    decreases |es|
  {
    if es != [] {
      NextSized(d, es[0]);
      RunSized(Next(d, es[0]), es[1..]);
    }
  }

  // ------------------------------------------------------------------ what appending keeps

  /** Whatever an append comes to, what the current segment held is still there: in place, or as the previous one. */
  lemma AppendKeepsCurrent(d: Disk, line: Line, how: Append)
    ensures var t := Appended(d, line, how);
      || t == d
      || (|d.current| + |line| <= SEGMENT_BYTES && t.previous == d.previous && d.current <= t.current <= d.current + line)
      || (|d.current| + |line| > SEGMENT_BYTES && t.previous == d.current && t.current <= line)
    ensures var t := Appended(d, line, how);
      var room := if |d.current| + |line| <= SEGMENT_BYTES then d else Disk(d.current, []);
      match how
      case Unopened => t == d
      case RotatedOnly => t == room
      case Torn(k) => k < |line| ==> t == room.(current := room.current + line[..k])
      case Stored => t == room.(current := room.current + line)
  {
  }

  /** At startup only an unfinished last line gets its newline; a clear empties the files it can remove. */
  lemma SealsAndErases(d: Disk, previous: bool, current: bool)
    ensures var t := Next(d, Seal);
      t.previous == d.previous && t.current == if d.current == [] || d.current[|d.current| - 1] == LF then d.current else d.current + [LF]
    ensures var t := Next(d, Erase(previous, current));
      t.previous == (if previous then [] else d.previous) && t.current == if current then [] else d.current
  {
  }

  function Written(es: seq<Line>): Text {
    if es == [] then [] else es[0] + Written(es[1..])
  }

  function StoredAll(d: Disk, ls: seq<Line>): Disk
    decreases |ls|
  {
    if ls == [] then d else StoredAll(Appended(d, ls[0], Stored), ls[1..])
  }

  /** `t` ends with everything behind `cut` bytes, and a cut leaves a previous segment that was full. */
  predicate Tail(all: Text, t: Disk, cut: nat) {
    && cut <= |all| && all[cut..] == t.previous + t.current
    && (cut > 0 ==> |t.previous| + LINE_CAP > SEGMENT_BYTES)
  }

  /**
   Behind any number of stored records the two segments together are the end of everything written, in order:
   nothing is missing in between, and nothing is dropped unless nearly a whole segment of newer bytes is there.
   */
  lemma {:induction false} NewestKept(d: Disk, ls: seq<Line>) returns (cut: nat)
    ensures Tail(d.previous + d.current + Written(ls), StoredAll(d, ls), cut)
    decreases |ls|
  {
    var all := d.previous + d.current;
    if ls == [] {
      assert all + [] == all && all[0..] == all;
      cut := 0;
    } else {
      var l, e := ls[0], Appended(d, ls[0], Stored);
      var rest := NewestKept(e, ls[1..]);
      var more := Written(ls[1..]);
      var t := StoredAll(e, ls[1..]);
      if Rotates(d, l) {
        assert all + (l + more) == d.previous + (e.previous + e.current + more);
        cut := |d.previous| + rest;
        StillFull(e, ls[1..]);
      } else {
        assert all + (l + more) == e.previous + e.current + more;
        cut := rest;
      }
    }
  }

  /** Until the next rotation the previous segment stays, and a rotation leaves a full one. */
  lemma {:induction false} StillFull(d: Disk, ls: seq<Line>)
    requires |d.previous| + LINE_CAP > SEGMENT_BYTES
    ensures |StoredAll(d, ls).previous| + LINE_CAP > SEGMENT_BYTES
    decreases |ls|
  {
    if ls != [] {
      StillFull(Appended(d, ls[0], Stored), ls[1..]);
    }
  }

  // ------------------------------------------------------------------ reloading

  datatype Parsed = Invalid | Parsed(record: History.Record)

  datatype Format = Format(show: History.Record -> Text, parse: Text -> Parsed)

  /** A parsed record has no epoch and no consent. */
  function Loaded(r: History.Record): History.Record {
    r.(epoch := 0, enabled := false)
  }

  /** The parser inverts the printer. */
  ghost predicate Inverts(f: Format) {
    forall r :: IsLine(f.show(r)) && f.parse(f.show(r)) == Parsed(Loaded(r))
  }

  /** One line of load: too long, invalid and known lines are passed over. */
  function LoadLine(f: Format, records: seq<History.Record>, l: Text, cutoff: int): seq<History.Record> {
    if |l| >= LINE_CAP || f.parse(l).Invalid? || History.Known(records, f.parse(l).record.id) then records
    else History.Retain(records, f.parse(l).record, cutoff)
  }

  function LoadLines(f: Format, records: seq<History.Record>, ls: seq<Text>, cutoff: int): seq<History.Record> {
    if ls == [] then records
    else LoadLine(f, LoadLines(f, records, ls[..|ls| - 1], cutoff), ls[|ls| - 1], cutoff)
  }

  /** Startup: the previous segment, then the current one. */
  function Reload(f: Format, d: Disk, cutoff: int): seq<History.Record> {
    LoadLines(f, LoadLines(f, [], Lines(d.previous), cutoff), Lines(d.current), cutoff)
  }

  lemma {:induction false} LoadAppend(f: Format, records: seq<History.Record>, a: seq<Text>, b: seq<Text>, cutoff: int)
    ensures LoadLines(f, records, a + b, cutoff) == LoadLines(f, LoadLines(f, records, a, cutoff), b, cutoff)
    decreases |b|
  {
    if b == [] {
      assert a + b == a;
    } else {
      var n := |b| - 1;
      assert (a + b)[..|a| + n] == a + b[..n];
      LoadAppend(f, records, a, b[..n], cutoff);
    }
  }

  function Prints(f: Format, rs: seq<History.Record>): (ls: seq<Text>)
    ensures |ls| == |rs|
  {
    seq(|rs|, i requires 0 <= i < |rs| => f.show(rs[i]))
  }

  function AllLoaded(rs: seq<History.Record>): (r: seq<History.Record>)
    ensures |r| == |rs|
  {
    seq(|rs|, i requires 0 <= i < |rs| => Loaded(rs[i]))
  }

  /** The store as perf_export leaves it, with lines that fit. */
  ghost predicate Exported(f: Format, rs: seq<History.Record>, cutoff: int) {
    && |rs| <= History.RECORDS && History.Distinct(rs)
    && forall i :: 0 <= i < |rs| ==> rs[i].time >= cutoff && |f.show(rs[i])| < LINE_CAP
  }

  lemma {:induction false} RecentAgain(rs: seq<History.Record>, cutoff: int)
    ensures History.Recent(History.Recent(rs, cutoff), cutoff) == History.Recent(rs, cutoff)
    decreases |rs|
  {
    if rs != [] {
      RecentAgain(rs[..|rs| - 1], cutoff);
      var kept := History.Recent(rs, cutoff);
      if rs[|rs| - 1].time >= cutoff {
        assert kept[..|kept| - 1] == History.Recent(rs[..|rs| - 1], cutoff);
      }
    }
  }

  lemma LastPrint(f: Format, rs: seq<History.Record>)
    requires rs != []
    ensures Prints(f, rs) == Prints(f, rs[..|rs| - 1]) + [f.show(rs[|rs| - 1])]
    ensures AllLoaded(rs) == AllLoaded(rs[..|rs| - 1]) + [Loaded(rs[|rs| - 1])]
  {
  }

  /** The lines of an export are loaded whenever they are; what has expired by then is gone. */
  lemma {:induction false} LoadPrints(f: Format, rs: seq<History.Record>, cutoff: int, later: int)
    requires Inverts(f) && Exported(f, rs, cutoff)
    ensures LoadLines(f, [], Prints(f, rs), later) == History.Recent(AllLoaded(rs), later)
    decreases |rs|
  {
    if rs != [] {
      var n := |rs| - 1;
      LoadPrints(f, rs[..n], cutoff, later);
      LastPrint(f, rs);
      assert Prints(f, rs)[..n] == Prints(f, rs[..n]);
      LoadLast(f, rs, later);
    }
  }

  /** The printed last record is loaded behind the ones before it. */
  lemma LoadLast(f: Format, rs: seq<History.Record>, later: int)
    requires Inverts(f) && rs != [] && |rs| <= History.RECORDS && History.Distinct(rs)
    requires |f.show(rs[|rs| - 1])| < LINE_CAP
    ensures LoadLine(f, History.Recent(AllLoaded(rs[..|rs| - 1]), later), f.show(rs[|rs| - 1]), later)
            == History.Recent(AllLoaded(rs), later)
  {
    var n := |rs| - 1;
    var before := AllLoaded(rs[..n]);
    History.RecentKeeps(before, later);
    RecentAgain(before, later);
    NotAmong(rs, later);
    LoadPrint(f, History.Recent(before, later), rs[n], later);
    LastPrint(f, rs);
    assert AllLoaded(rs)[..n] == before;
  }

  lemma LoadPrint(f: Format, kept: seq<History.Record>, r: History.Record, later: int)
    requires Inverts(f) && |f.show(r)| < LINE_CAP && |kept| < History.RECORDS
    requires History.Recent(kept, later) == kept && !History.Known(kept, r.id)
    ensures LoadLine(f, kept, f.show(r), later) == if r.time >= later then kept + [Loaded(r)] else kept
  {
    assert f.parse(f.show(r)) == Parsed(Loaded(r));
  }

  lemma NotAmong(rs: seq<History.Record>, cutoff: int)
    requires rs != [] && History.Distinct(rs)
    ensures !History.Known(History.Recent(AllLoaded(rs[..|rs| - 1]), cutoff), rs[|rs| - 1].id)
  {
    var before := AllLoaded(rs[..|rs| - 1]);
    var kept := History.Recent(before, cutoff);
    History.RecentKeeps(before, cutoff);
    forall i | 0 <= i < |kept| ensures kept[i].id != rs[|rs| - 1].id {
      assert kept[i] in before;
    }
  }

  /**
   Reloading after a compaction gives exactly the retained records in their order, but for those that have
   expired since then.
   */
  lemma ReloadExact(f: Format, d: Disk, rs: seq<History.Record>, cutoff: int, later: int)
    requires Inverts(f) && Exported(f, rs, cutoff) && !TooLong(Concat(Prints(f, rs)))
    ensures Reload(f, Compacted(d, Concat(Prints(f, rs)), Both), later) == History.Recent(AllLoaded(rs), later)
  {
    var ls := Prints(f, rs);
    var e := Compacted(d, Concat(ls), Both);
    SplitWhole(ls);
    LoadAppend(f, [], Lines(e.previous), Lines(e.current), later);
    LoadPrints(f, rs, cutoff, later);
  }

  // ------------------------------------------------------------------ what a crash can lose

  /** One of the lines gives a recent record with this id. */
  ghost predicate Gives(f: Format, ls: seq<Text>, cutoff: int, id: nat) {
    exists i :: 0 <= i < |ls| && GivesOne(f, ls[i], cutoff, id)
  }

  predicate GivesOne(f: Format, l: Text, cutoff: int, id: nat) {
    |l| < LINE_CAP && f.parse(l).Parsed? && f.parse(l).record.id == id && f.parse(l).record.time >= cutoff
  }

  /** The ids that the lines give. */
  function Ids(f: Format, ls: seq<Text>, cutoff: int): set<nat> {
    if ls == [] then {} else Ids(f, ls[..|ls| - 1], cutoff) + IdOf(f, ls[|ls| - 1], cutoff)
  }

  function IdOf(f: Format, l: Text, cutoff: int): set<nat> {
    if |l| < LINE_CAP && f.parse(l).Parsed? && f.parse(l).record.time >= cutoff then {f.parse(l).record.id} else {}
  }

  lemma {:induction false} IdsGive(f: Format, ls: seq<Text>, cutoff: int, id: nat)
    ensures id in Ids(f, ls, cutoff) <==> Gives(f, ls, cutoff, id)
    decreases |ls|
  {
    if ls != [] {
      IdsGive(f, ls[..|ls| - 1], cutoff, id);
      GivesSplit(f, ls, cutoff, id);
    }
  }

  lemma GivesSplit(f: Format, ls: seq<Text>, cutoff: int, id: nat)
    requires ls != []
    ensures Gives(f, ls, cutoff, id) <==> Gives(f, ls[..|ls| - 1], cutoff, id) || GivesOne(f, ls[|ls| - 1], cutoff, id)
  {
    var n := |ls| - 1;
    if Gives(f, ls[..n], cutoff, id) {
      var i :| 0 <= i < n && GivesOne(f, ls[..n][i], cutoff, id);
      assert GivesOne(f, ls[i], cutoff, id);
    }
    if Gives(f, ls, cutoff, id) && !GivesOne(f, ls[n], cutoff, id) {
      var i :| 0 <= i < |ls| && GivesOne(f, ls[i], cutoff, id);
      assert ls[..n][i] == ls[i];
    }
  }

  /** The store holds one recent record for each of the ids. */
  ghost predicate Holds(records: seq<History.Record>, ids: set<nat>, cutoff: int) {
    && (forall i :: 0 <= i < |records| ==> records[i].time >= cutoff && records[i].id in ids)
    && (forall id :: id in ids ==> History.Known(records, id))
    && |records| == |ids|
  }

  lemma {:induction false} RecentAll(rs: seq<History.Record>, cutoff: int)
    requires forall i :: 0 <= i < |rs| ==> rs[i].time >= cutoff
    ensures History.Recent(rs, cutoff) == rs
    decreases |rs|
  {
    if rs != [] {
      RecentAll(rs[..|rs| - 1], cutoff);
      assert rs == rs[..|rs| - 1] + [rs[|rs| - 1]];
    }
  }

  lemma HoldsMore(records: seq<History.Record>, r: History.Record, cutoff: int, ids: set<nat>)
    requires Holds(records, ids, cutoff) && r.id !in ids && r.time >= cutoff
    ensures !History.Known(records, r.id) && Holds(records + [r], ids + {r.id}, cutoff)
  {
    var out := records + [r];
    forall id | id in ids + {r.id} ensures History.Known(out, id) {
      if id in ids {
        var i :| 0 <= i < |records| && records[i].id == id;
        assert out[i].id == id;
      } else {
        assert out[|records|].id == id;
      }
    }
  }

  lemma LoadLineHolds(f: Format, records: seq<History.Record>, l: Text, cutoff: int, ids: set<nat>)
    requires Holds(records, ids, cutoff) && |ids + IdOf(f, l, cutoff)| <= History.RECORDS
    ensures Holds(LoadLine(f, records, l, cutoff), ids + IdOf(f, l, cutoff), cutoff)
  {
    RecentAll(records, cutoff);
    var given := IdOf(f, l, cutoff);
    if given <= ids {
      assert ids + given == ids;
      assert given != {} ==> f.parse(l).record.id in ids;
      assert LoadLine(f, records, l, cutoff) == records;
    } else {
      var r := f.parse(l).record;
      assert given == {r.id} && |ids + {r.id}| == |ids| + 1;
      HoldsMore(records, r, cutoff, ids);
      assert LoadLine(f, records, l, cutoff) == records + [r];
    }
  }

  lemma {:induction false} LoadHolds(f: Format, records: seq<History.Record>, ls: seq<Text>, cutoff: int, ids: set<nat>)
    requires Holds(records, ids, cutoff) && |ids + Ids(f, ls, cutoff)| <= History.RECORDS
    ensures Holds(LoadLines(f, records, ls, cutoff), ids + Ids(f, ls, cutoff), cutoff)
    decreases |ls|
  {
    if ls == [] {
      assert ids + {} == ids;
    } else {
      var n := |ls| - 1;
      var before := ids + Ids(f, ls[..n], cutoff);
      assert before + IdOf(f, ls[n], cutoff) == ids + Ids(f, ls, cutoff);
      SubsetSmaller(before, ids + Ids(f, ls, cutoff));
      LoadHolds(f, records, ls[..n], cutoff, ids);
      LoadLineHolds(f, LoadLines(f, records, ls[..n], cutoff), ls[n], cutoff, before);
    }
  }

  lemma SubsetSmaller(a: set<nat>, b: set<nat>)
    requires a <= b
    ensures |a| <= |b|
  {
    assert b == a + (b - a);
  }

  /** The distinct ids of the two segments fit into the store. */
  ghost predicate Fit(f: Format, d: Disk, cutoff: int) {
    |Ids(f, Lines(d.previous), cutoff) + Ids(f, Lines(d.current), cutoff)| <= History.RECORDS
  }

  /** While their distinct ids fit into the store, a restart knows exactly the ids its two segments give. */
  lemma ReloadKnows(f: Format, d: Disk, cutoff: int, id: nat)
    requires Fit(f, d, cutoff)
    ensures History.Known(Reload(f, d, cutoff), id) <==>
      Gives(f, Lines(d.previous), cutoff, id) || Gives(f, Lines(d.current), cutoff, id)
  {
    var first := Ids(f, Lines(d.previous), cutoff);
    assert {} + first == first;
    SubsetSmaller(first, first + Ids(f, Lines(d.current), cutoff));
    LoadHolds(f, [], Lines(d.previous), cutoff, {});
    LoadHolds(f, LoadLines(f, [], Lines(d.previous), cutoff), Lines(d.current), cutoff, first);
    IdsGive(f, Lines(d.previous), cutoff, id);
    IdsGive(f, Lines(d.current), cutoff, id);
  }

  /**
   A crash between the two replacements keeps the old current segment whole: a record survives exactly when it
   is in there or in the older part of the export. A record that only the old previous segment held, and that
   belongs to the newer part, is lost.
   */
  lemma CrashBetween(f: Format, d: Disk, rs: seq<History.Record>, cutoff: int, later: int, id: nat)
    requires Inverts(f) && Exported(f, rs, cutoff) && !TooLong(Concat(Prints(f, rs)))
    requires Fit(f, Compacted(d, Concat(Prints(f, rs)), PreviousOnly), later)
    ensures var data := Concat(Prints(f, rs));
      var e := Compacted(d, data, PreviousOnly);
      && e.current == d.current
      && (History.Known(Reload(f, e, later), id) <==>
            Gives(f, Lines(data[..SplitAt(data)]), later, id) || Gives(f, Lines(d.current), later, id))
  {
    var data := Concat(Prints(f, rs));
    SplitWhole(Prints(f, rs));
    ReloadKnows(f, Compacted(d, data, PreviousOnly), later, id);
  }

  function RecordIds(rs: seq<History.Record>): (ids: set<nat>)
    ensures |ids| <= |rs|
    ensures forall i :: 0 <= i < |rs| ==> rs[i].id in ids
  {
    if rs == [] then {} else RecordIds(rs[..|rs| - 1]) + {rs[|rs| - 1].id}
  }

  lemma PrintGives(f: Format, ls: seq<Text>, rs: seq<History.Record>, cutoff: int, id: nat)
    requires Inverts(f) && ls <= Prints(f, rs) && Gives(f, ls, cutoff, id)
    ensures id in RecordIds(rs)
  {
    var i :| 0 <= i < |ls| && GivesOne(f, ls[i], cutoff, id);
    assert ls[i] == Prints(f, rs)[i] == f.show(rs[i]);
    assert f.parse(f.show(rs[i])) == Parsed(Loaded(rs[i]));
  }

  /** As long as the current segment gives only ids that the store retains, everything fits: full stores too. */
  lemma {:induction false} RetainedFit(f: Format, d: Disk, rs: seq<History.Record>, cutoff: int, later: int)
    requires Inverts(f) && Exported(f, rs, cutoff) && !TooLong(Concat(Prints(f, rs)))
    requires Ids(f, Lines(d.current), later) <= RecordIds(rs)
    ensures Fit(f, Compacted(d, Concat(Prints(f, rs)), PreviousOnly), later)
  {
    var data := Concat(Prints(f, rs));
    var older := Lines(data[..SplitAt(data)]);
    SplitWhole(Prints(f, rs));
    forall id | id in Ids(f, older, later) ensures id in RecordIds(rs) {
      IdsGive(f, older, later, id);
      PrintGives(f, older, rs, later, id);
    }
    SubsetSmaller(Ids(f, older, later) + Ids(f, Lines(d.current), later), RecordIds(rs));
  }

  lemma {:induction false} WithinSelf(rs: seq<History.Record>)
    ensures History.Within(rs, rs)
    decreases |rs|
  {
    if rs != [] {
      WithinSelf(rs[..|rs| - 1]);
    }
  }

  /** Whatever the segments hold, overlapping after a crash or spoilt, a restart has distinct ids within the capacity. */
  lemma {:induction false} LoadDistinct(f: Format, records: seq<History.Record>, ls: seq<Text>, cutoff: int)
    requires |records| <= History.RECORDS && History.Distinct(records)
    ensures var out := LoadLines(f, records, ls, cutoff); |out| <= History.RECORDS && History.Distinct(out)
    decreases |ls|
  {
    if ls != [] {
      var n := |ls| - 1;
      LoadDistinct(f, records, ls[..n], cutoff);
      var before := LoadLines(f, records, ls[..n], cutoff);
      if f.parse(ls[n]).Parsed? {
        WithinSelf(before);
        History.RetainKeeps(before, before, f.parse(ls[n]).record, cutoff);
      }
    }
  }

  lemma ReloadDistinct(f: Format, d: Disk, cutoff: int)
    ensures var out := Reload(f, d, cutoff); |out| <= History.RECORDS && History.Distinct(out)
  {
    LoadDistinct(f, [], Lines(d.previous), cutoff);
    LoadDistinct(f, LoadLines(f, [], Lines(d.previous), cutoff), Lines(d.current), cutoff);
  }

  // ------------------------------------------------------------------ the program

  /** The loop of compact_history that looks for the record end. */
  method FindSplit(data: Text) returns (split: nat)
    ensures split == SplitAt(data)
  {
    split := 0;
    if |data| > SEGMENT_BYTES {
      split := |data| - SEGMENT_BYTES;
      while split < |data| && data[split - 1] != LF
        invariant 0 < split <= |data|
        invariant NextEnd(data, split) == SplitAt(data)
      {
        split := split + 1;
      }
    }
  }

  /** The lines that the buffer of load can take. */
  function Readable(ls: seq<Text>): seq<Text> {
    if ls == [] then []
    else Readable(ls[..|ls| - 1]) + if |ls[|ls| - 1]| < LINE_CAP then [ls[|ls| - 1]] else []
  }

  /** The loop of load: fgets gives pieces of at most LINE_CAP - 1 bytes; an overlong line is dropped to its end. */
  method ReadLines(t: Text) returns (lines: seq<Text>)
    ensures lines == Readable(Lines(t))
  {
    lines := [];
    var pos, dropping := 0, false;
    ghost var start: nat := 0;
    assert t[..0] == [];
    while pos < |t|
      invariant start <= pos <= |t| && Terminated(t[..start]) && (!dropping ==> start == pos)
      invariant dropping ==> (pos - start >= LINE_CAP - 1 || pos == |t|) && forall j :: start <= j < pos ==> t[j] != LF
      invariant lines == Readable(Lines(t[..start]))
    {
      var end, newline := Fgets(t, pos);
      if newline {
        NextLine(t, start, end);
        if !dropping {
          lines := lines + [t[pos..end]];
        }
        dropping := false;
        start := end;
      } else {
        dropping := true;
      }
      pos := end;
    }
    LinesAppend(t[..start], t[start..]);
    assert t == t[..start] + t[start..];
    assert Lines(t) == Lines(t[..start]) + [] == Lines(t[..start]);
  }

  /** fgets: up to the newline, the end of the file or the end of the buffer. */
  method Fgets(t: Text, pos: nat) returns (end: nat, newline: bool)
    requires pos < |t|
    ensures pos < end <= |t| && end - pos <= LINE_CAP - 1
    ensures forall j :: pos <= j < end - 1 ==> t[j] != LF
    ensures newline == (t[end - 1] == LF)
    ensures !newline ==> end - pos == LINE_CAP - 1 || end == |t|
  {
    end, newline := pos, false;
    while !newline && end < |t| && end - pos < LINE_CAP - 1
      invariant pos <= end <= |t| && end - pos <= LINE_CAP - 1
      invariant newline ==> end > pos && t[end - 1] == LF
      invariant forall j :: pos <= j < (if newline then end - 1 else end) ==> t[j] != LF
      decreases |t| - end, !newline
    {
      newline := t[end] == LF;
      end := end + 1;
    }
  }

  /** One more complete line stands before `end`. */
  lemma NextLine(t: Text, start: nat, end: nat)
    requires start < end <= |t| && Terminated(t[..start]) && t[end - 1] == LF
    requires forall j :: start <= j < end - 1 ==> t[j] != LF
    ensures Terminated(t[..end])
    ensures Readable(Lines(t[..end])) == Readable(Lines(t[..start])) + if end - start < LINE_CAP then [t[start..end]] else []
  {
    assert t[..end] == t[..start] + t[start..end];
    LinesAppend(t[..start], t[start..end]);
    LinesOne(t[start..end]);
    var ls := Lines(t[..start]);
    assert (ls + [t[start..end]])[..|ls|] == ls;
  }

  /** The journal's files, held by the owner of p.disk. */
  class Files {
    var previous: Text
    var current: Text

    function Abs(): Disk
      reads this
    {
      Disk(previous, current)
    }

    constructor ()
      ensures Abs() == Disk([], [])
    {
      previous, current := [], [];
    }

    /** append: rotates when the line would not fit, then writes; `written` bytes reach the file. */
    method AppendLine(line: Line, opens: bool, reopens: bool, written: nat) returns (ok: bool)
      requires written <= |line|
      modifies this
      ensures Abs() == Next(old(Abs()), Append(line,
        if !opens then Unopened
        else if Rotates(old(Abs()), line) && !reopens then RotatedOnly
        else if written < |line| then Torn(written) else Stored))
      ensures ok ==> written == |line| && exists before :: current == before + line
    {
      if !opens {
        return false;
      }
      if |current| + |line| > SEGMENT_BYTES {
        previous, current := current, [];
        if !reopens {
          return false;
        }
      }
      ghost var before := current;
      current := current + line[..written];
      assert written == |line| ==> line[..written] == line && current == before + line;
      return written == |line|;
    }

    /** The seal of perf_init. */
    method SealTail()
      modifies `current
      ensures Abs() == Next(old(Abs()), Seal)
    {
      if |current| > 0 && current[|current| - 1] != LF {
        current := current + [LF];
      }
    }

    /** compact_history: previous first, current second; `done` counts the replacements that succeed. */
    method CompactHistory(data: Text, done: nat) returns (ok: bool)
      modifies this
      ensures Abs() == Compacted(old(Abs()), data, if done == 0 then Neither else if done == 1 then PreviousOnly else Both)
      ensures ok == (!TooLong(data) && done >= 2)
    {
      var split := FindSplit(data);
      if split > SEGMENT_BYTES || done == 0 {
        return false;
      }
      previous := data[..split];
      if done == 1 {
        return false;
      }
      current := data[split..];
      return true;
    }
  }
}
