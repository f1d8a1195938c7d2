/**
 The measurement history: a bounded store and a ring queue in memory, one writer thread, and two locks.

 Source: src/app/performance.c. The clock is given by the environment.
 */
module History {

  const RECORDS := 8192
  const QUEUE := 64
  const DAY := 86400

  /** What the protocol needs of a record. */
  datatype Record = Record(id: nat, epoch: nat, time: int, enabled: bool)

  /** The two journal segments. */
  datatype Disk = Disk(previous: seq<Record>, current: seq<Record>)

  /** How far a compaction's two replacements come. */
  datatype Reach = Neither | PreviousOnly | Both

  /** What the holder of p.disk is doing; `flight` is a record taken from the queue and not yet counted. */
  datatype Holder =
    | Free
    | Writer(flight: seq<Record>, stored: bool)
    | WriterCompacts(flight: seq<Record>, stored: bool, data: seq<Record>)
    | Settings
    | SettingsCompacts(data: seq<Record>)
    | Clear(done: bool, wiped: bool)

  /**
   For the statements: everything retained and counted since the last clear, its epoch, whether it erased the
   files, and everything ever begun or loaded, the first `earlier` of them before the last clear.
   */
  datatype Book = Book(
    inserted: seq<Record>, loaded: nat, accepted: nat, clearedAt: nat, erased: bool, seen: seq<Record>, earlier: nat)

  datatype State = State(
    running: bool, started: bool, legacyDeleted: bool, records: seq<Record>, queue: seq<Record>, epoch: nat, enabled: bool, days: nat,
    persisted: nat, dropped: nat, disk: Disk, holder: Holder, book: Book)

  const INIT := State(false, false, false, [], [], 1, true, 90, 0, 0, Disk([], []), Free, Book([], 0, 0, 0, true, [], 0))

  /**
   A step is what one thread does while it holds p.mutex, or one file operation under p.disk; any thread may step
   in between, except that p.disk has one holder.
   */
  datatype Event =
    | ReadSettings(enabled: bool, days: nat, legacyDeleted: bool)
    | Load(record: Record, now: int)
    | Start(ok: bool)
    | Begin(id: nat, time: int)
    | Import(id: nat, time: int)
    | Submit(which: nat, now: int)
    | WriterTakes
    | WriterAppends(stored: bool, rotates: bool)
    | WriterExports(now: int)
    | WriterReplaces(reach: Reach, split: nat)
    | WriterCounts
    | SettingsTake
    | SettingsApply(ok: bool, enabled: bool, days: nat)
    | SettingsExport(now: int)
    | SettingsReplace(reach: Reach, split: nat)
    | SettingsRelease
    | ClearTakes
    | ClearErases(previous: bool, current: bool)
    | ClearResets
    | Export(now: int)

  // ------------------------------------------------------------------ the store

  predicate Known(records: seq<Record>, id: nat) {
    exists i :: 0 <= i < |records| && records[i].id == id
  }

  /** The records that are not older than `cutoff`, in their order. */
  function Recent(records: seq<Record>, cutoff: int): seq<Record> {
    if records == [] then []
    else
      var rest := Recent(records[..|records| - 1], cutoff);
      if records[|records| - 1].time >= cutoff then rest + [records[|records| - 1]] else rest
  }

  function Cutoff(now: int, days: nat): int {
    now - days * DAY
  }

  /** retain: expire, then append a new id; a full store loses its oldest record. */
  function Retain(records: seq<Record>, r: Record, cutoff: int): seq<Record> {
    var kept := Recent(records, cutoff);
    if r.time < cutoff || Known(kept, r.id) then kept
    else if |kept| >= RECORDS then kept[1..] + [r]
    else kept + [r]
  }

  function Retained(s: State, r: Record, cutoff: int): State {
    s.(records := Retain(s.records, r, cutoff), book := s.book.(inserted := s.book.inserted + [r]))
  }

  // ------------------------------------------------------------------ the steps

  function Saw(s: State, r: Record): State {
    s.(book := s.book.(seen := s.book.seen + [r]))
  }

  predicate Accepts(s: State, r: Record, now: int) {
    s.running && r.enabled && s.enabled && r.epoch == s.epoch && r.time >= Cutoff(now, s.days) && !Known(s.records, r.id)
  }

  /** perf_begin: the record takes epoch and consent along. */
  function Begun(s: State, id: nat, time: int): Record {
    Record(id, s.epoch, time, s.enabled)
  }

  /** perf_import: no consent once the older history was deleted. */
  function Imported(s: State, id: nat, time: int): Record {
    Record(id, s.epoch, time, s.enabled && !s.legacyDeleted)
  }

  /** perf_submit: retained, and queued if the writer thread is there and has room. */
  function Submitted(s: State, r: Record, now: int): State {
    if !Accepts(s, r, now) then s
    else
      var u := Retained(s, r, Cutoff(now, s.days));
      var t := u.(book := u.book.(accepted := s.book.accepted + 1));
      if s.started && |s.queue| < QUEUE then t.(queue := s.queue + [r]) else t.(dropped := s.dropped + 1)
  }

  function Appended(d: Disk, r: Record, rotates: bool): Disk {
    if rotates then Disk(d.current, [r]) else d.(current := d.current + [r])
  }

  function Replaced(d: Disk, data: seq<Record>, reach: Reach, split: nat): Disk {
    var at := if split <= |data| then split else |data|;
    match reach
    case Neither => d
    case PreviousOnly => d.(previous := data[..at])
    case Both => Disk(data[..at], data[at..])
  }

  function WriterStep(s: State, e: Event): State {
    match e
    case WriterTakes =>
      if !s.started || !s.holder.Free? then s
      else if s.queue == [] then s.(holder := Writer([], false))
      else s.(queue := s.queue[1..], holder := Writer(s.queue[..1], false))
    case WriterAppends(stored, rotates) =>
      if s.holder.Writer? && |s.holder.flight| == 1 && stored && !s.holder.stored then
        s.(disk := Appended(s.disk, s.holder.flight[0], rotates), holder := Writer(s.holder.flight, true))
      else s
    case WriterExports(now) =>
      if s.holder.Writer? && (s.holder.flight == [] || s.holder.stored) then
        var kept := Recent(s.records, Cutoff(now, s.days));
        s.(records := kept, holder := WriterCompacts(s.holder.flight, s.holder.stored, kept))
      else s
    case WriterReplaces(reach, split) =>
      if s.holder.WriterCompacts? then
        s.(disk := Replaced(s.disk, s.holder.data, reach, split), holder := Writer(s.holder.flight, s.holder.stored))
      else s
    case WriterCounts =>
      if !s.holder.Writer? then s
      else if s.holder.flight == [] then s.(holder := Free)
      else if s.holder.stored then s.(persisted := s.persisted + 1, holder := Free)
      else s.(dropped := s.dropped + 1, holder := Free)
    case _ => s
  }

  function SettingsStep(s: State, e: Event): State {
    match e
    case SettingsTake => if s.running && s.holder.Free? then s.(holder := Settings) else s
    case SettingsApply(ok, enabled, days) =>
      if s.holder.Settings? && (ok || !enabled) then s.(enabled := enabled, days := days, epoch := s.epoch + 1) else s
    case SettingsExport(now) =>
      if s.holder.Settings? then
        var kept := Recent(s.records, Cutoff(now, s.days));
        s.(records := kept, holder := SettingsCompacts(kept))
      else s
    case SettingsReplace(reach, split) =>
      if s.holder.SettingsCompacts? then s.(disk := Replaced(s.disk, s.holder.data, reach, split), holder := Settings) else s
    case SettingsRelease => if s.holder.Settings? then s.(holder := Free) else s
    case _ => s
  }

  function ClearStep(s: State, e: Event): State {
    match e
    case ClearTakes => if s.running && s.holder.Free? then s.(holder := Clear(false, false)) else s
    case ClearErases(previous, current) =>
      if s.holder.Clear? then
        s.(disk := Disk(if previous then [] else s.disk.previous, if current then [] else s.disk.current),
           holder := Clear(true, previous && current))
      else s
    case ClearResets =>
      if s.holder.Clear? && s.holder.done then
        s.(legacyDeleted := true, records := [], queue := [], persisted := 0, dropped := 0, epoch := s.epoch + 1,
           holder := Free, book := Book([], 0, 0, s.epoch + 1, s.holder.wiped, s.book.seen, |s.book.seen|))
      else s
    case _ => s
  }

  /** The start of the program and what any thread does to the memory. */
  function MemoryStep(s: State, e: Event): State {
    match e
    case ReadSettings(enabled, days, legacyDeleted) =>
      if s.running then s else s.(enabled := enabled, days := days, legacyDeleted := legacyDeleted)
    case Load(record, now) =>
      if s.running || Known(s.records, record.id) then s
      else
        var r := record.(epoch := 0);
        var t := Retained(Saw(s, r), r, Cutoff(now, s.days));
        t.(persisted := s.persisted + 1, book := t.book.(loaded := s.book.loaded + 1))
    case Start(ok) => if s.running then s else s.(running := true, started := ok)
    case Begin(id, time) => Saw(s, Begun(s, id, time))
    case Import(id, time) => Saw(s, Imported(s, id, time))
    case Submit(which, now) => if which < |s.book.seen| then Submitted(s, s.book.seen[which], now) else s
    case Export(now) => if s.running then s.(records := Recent(s.records, Cutoff(now, s.days))) else s
    case _ => s
  }

  predicate OfMemory(e: Event) {
    e.ReadSettings? || e.Load? || e.Start? || e.Begin? || e.Import? || e.Submit? || e.Export?
  }

  predicate OfWriter(e: Event) {
    e.WriterTakes? || e.WriterAppends? || e.WriterExports? || e.WriterReplaces? || e.WriterCounts?
  }

  predicate OfClear(e: Event) {
    e.ClearTakes? || e.ClearErases? || e.ClearResets?
  }

  function Next(s: State, e: Event): State {
    if OfMemory(e) then MemoryStep(s, e)
    else if OfWriter(e) then WriterStep(s, e)
    else if OfClear(e) then ClearStep(s, e)
    else SettingsStep(s, e)
  }

  function Run(s: State, es: seq<Event>): State
    decreases |es|
  {
    if es == [] then s else Run(Next(s, es[0]), es[1..])
  }

  // ------------------------------------------------------------------ the store's laws

  ghost predicate Distinct(records: seq<Record>) {
    forall i, j :: 0 <= i < j < |records| ==> records[i].id != records[j].id
  }

  /** `part` is `whole` with some elements left out, in the same order. */
  predicate Within(part: seq<Record>, whole: seq<Record>)
    decreases |whole|
  {
    part == [] || (whole != [] && (
      || Within(part, whole[..|whole| - 1])
      || (part[|part| - 1] == whole[|whole| - 1] && Within(part[..|part| - 1], whole[..|whole| - 1]))))
  }

  lemma {:induction false} WithinTransitive(a: seq<Record>, b: seq<Record>, c: seq<Record>)
    requires Within(a, b) && Within(b, c)
    ensures Within(a, c)
    decreases |b| + |c|
  {
    if a != [] {
      if Within(b, c[..|c| - 1]) {
        WithinTransitive(a, b, c[..|c| - 1]);
      } else if Within(a, b[..|b| - 1]) {
        WithinTransitive(a, b[..|b| - 1], c[..|c| - 1]);
      } else {
        WithinTransitive(a[..|a| - 1], b[..|b| - 1], c[..|c| - 1]);
      }
    }
  }

  lemma WithinAppend(part: seq<Record>, whole: seq<Record>, r: Record)
    requires Within(part, whole)
    ensures Within(part, whole + [r]) && Within(part + [r], whole + [r])
  {
    assert (whole + [r])[..|whole|] == whole && (part + [r])[..|part|] == part;
  }

  lemma {:induction false} WithinTail(part: seq<Record>, whole: seq<Record>)
    requires Within(part, whole) && part != []
    ensures Within(part[1..], whole)
    decreases |whole|
  {
    if Within(part, whole[..|whole| - 1]) {
      WithinTail(part, whole[..|whole| - 1]);
    } else if |part| > 1 {
      WithinTail(part[..|part| - 1], whole[..|whole| - 1]);
      assert part[1..][..|part| - 2] == part[..|part| - 1][1..];
    }
  }

  /** Expiry keeps exactly the recent records, in their order. */
  lemma {:induction false} RecentKeeps(records: seq<Record>, cutoff: int)
    ensures var kept := Recent(records, cutoff);
      && |kept| <= |records| && Within(kept, records)
      && (forall r :: r in kept <==> r in records && r.time >= cutoff)
      && (Distinct(records) ==> Distinct(kept))
    decreases |records|
  {
    if records != [] {
      var n := |records| - 1;
      RecentKeeps(records[..n], cutoff);
      WithinAppend(Recent(records[..n], cutoff), records[..n], records[n]);
      assert records == records[..n] + [records[n]];
      if Distinct(records) {
        assert Distinct(records[..n]);
      }
    }
  }

  /** The store keeps its bound, its distinct ids and its order, and takes a new recent record last. */
  lemma RetainKeeps(records: seq<Record>, inserted: seq<Record>, r: Record, cutoff: int)
    requires |records| <= RECORDS && Distinct(records) && Within(records, inserted)
    ensures var kept := Retain(records, r, cutoff);
      && |kept| <= RECORDS && Distinct(kept) && Within(kept, inserted + [r])
      && (forall q :: q in kept ==> q == r || q in records)
      && (r.time >= cutoff && !Known(records, r.id) ==> kept != [] && kept[|kept| - 1] == r)
  {
    RecentKeeps(records, cutoff);
    var recent := Recent(records, cutoff);
    WithinTransitive(recent, records, inserted);
    WithinAppend(recent, inserted, r);
    if recent != [] {
      WithinTail(recent, inserted);
      WithinAppend(recent[1..], inserted, r);
    }
    if Known(recent, r.id) {
      var i :| 0 <= i < |recent| && recent[i].id == r.id;
      assert recent[i] in records;
    }
  }

  // ------------------------------------------------------------------ invariants

  ghost predicate Since(records: seq<Record>, epoch: nat) {
    forall r :: r in records ==> r.epoch >= epoch
  }

  function Flight(h: Holder): seq<Record> {
    if h.Writer? || h.WriterCompacts? then h.flight else []
  }

  function Data(h: Holder): seq<Record> {
    if h.WriterCompacts? || h.SettingsCompacts? then h.data else []
  }

  ghost predicate Bounded(s: State) {
    |s.records| <= RECORDS && Distinct(s.records) && Within(s.records, s.book.inserted) && |s.queue| <= QUEUE
  }

  /** Nothing begun before the last clear is left. */
  ghost predicate Cleared(s: State) {
    && s.book.clearedAt <= s.epoch
    && Since(s.records, s.book.clearedAt) && Since(s.queue, s.book.clearedAt)
    && Since(Flight(s.holder), s.book.clearedAt) && Since(Data(s.holder), s.book.clearedAt)
    && (s.book.erased ==> Since(s.disk.previous, s.book.clearedAt) && Since(s.disk.current, s.book.clearedAt))
  }

  /** What was begun before the last clear carries an epoch from before it. */
  ghost predicate Tracked(s: State) {
    && s.book.clearedAt <= s.epoch && s.book.earlier <= |s.book.seen|
    && (forall i :: 0 <= i < |s.book.seen| ==> s.book.seen[i].epoch <= s.epoch)
    && (forall i :: 0 <= i < s.book.earlier ==> s.book.seen[i].epoch < s.book.clearedAt)
    && (0 < s.book.clearedAt ==> s.running && s.legacyDeleted)
  }

  predicate Conserved(s: State) {
    && |Flight(s.holder)| <= 1
    && s.book.loaded + s.book.accepted == s.persisted + s.dropped + |s.queue| + |Flight(s.holder)|
  }

  ghost predicate Inv(s: State) {
    Bounded(s) && Cleared(s) && Conserved(s) && (s.holder.Clear? && s.holder.done && s.holder.wiped ==> s.disk == Disk([], []))
      && (!s.running ==> s.book.clearedAt == 0 && s.holder.Free?) && (s.started ==> s.running)
  }

  ghost predicate MayStay(s: State, kept: seq<Record>) {
    |kept| <= RECORDS && Distinct(kept) && Within(kept, s.book.inserted) && Since(kept, s.book.clearedAt)
  }

  lemma ExpiryKeeps(s: State, cutoff: int)
    requires Inv(s)
    ensures MayStay(s, Recent(s.records, cutoff))
  {
    RecentKeeps(s.records, cutoff);
    WithinTransitive(Recent(s.records, cutoff), s.records, s.book.inserted);
  }

  lemma WriterKeeps(s: State, e: Event)
    requires Inv(s)
    ensures Inv(WriterStep(s, e))
  {
    match e
    case WriterTakes => TakeKeeps(s);
    case WriterAppends(stored, rotates) => AppendKeeps(s, stored, rotates);
    case WriterExports(now) =>
      ExpiryKeeps(s, Cutoff(now, s.days));
      ExportKeeps(s, now);
    case WriterReplaces(reach, split) => ReplaceKeeps(s, reach, split);
    case WriterCounts => CountKeeps(s);
    case _ =>
  }

  lemma ExportKeeps(s: State, now: int)
    requires Inv(s) && MayStay(s, Recent(s.records, Cutoff(now, s.days)))
    ensures Inv(WriterStep(s, WriterExports(now)))
  {
  }

  lemma CountKeeps(s: State)
    requires Inv(s)
    ensures Inv(WriterStep(s, WriterCounts))
  {
  }

  lemma AppendKeeps(s: State, stored: bool, rotates: bool)
    requires Inv(s)
    ensures Inv(WriterStep(s, WriterAppends(stored, rotates)))
  {
  }

  lemma TakeKeeps(s: State)
    requires Inv(s)
    ensures Inv(WriterStep(s, WriterTakes))
  {
  }

  lemma ReplaceKeeps(s: State, reach: Reach, split: nat)
    requires Inv(s)
    ensures Inv(WriterStep(s, WriterReplaces(reach, split)))
  {
  }

  lemma SettingsKeep(s: State, e: Event)
    requires Inv(s)
    ensures Inv(SettingsStep(s, e))
  {
    match e
    case SettingsExport(now) => ExpiryKeeps(s, Cutoff(now, s.days));
    case _ =>
  }

  lemma ClearKeeps(s: State, e: Event)
    requires Inv(s)
    ensures Inv(ClearStep(s, e))
  {
  }

  lemma MemoryKeeps(s: State, e: Event)
    requires Inv(s)
    ensures Inv(MemoryStep(s, e))
  {
    match e
    case Load(r, now) => RetainKeeps(s.records, s.book.inserted, r.(epoch := 0), Cutoff(now, s.days));
    case Submit(which, now) =>
      if which < |s.book.seen| {
        RetainKeeps(s.records, s.book.inserted, s.book.seen[which], Cutoff(now, s.days));
      }
    case Export(now) => ExpiryKeeps(s, Cutoff(now, s.days));
    case _ =>
  }

  lemma NextKeeps(s: State, e: Event)
    requires Inv(s)
    ensures Inv(Next(s, e))
  {
    MemoryKeeps(s, e);
    WriterKeeps(s, e);
    ClearKeeps(s, e);
    SettingsKeep(s, e);
  }

  lemma {:induction false} RunKeeps(s: State, es: seq<Event>)
    requires Inv(s)
    ensures Inv(Run(s, es))
    decreases |es|
  {
    if es != [] {
      NextKeeps(s, es[0]);
      RunKeeps(Next(s, es[0]), es[1..]);
    }
  }

  lemma TrackedNext(s: State, e: Event)
    requires Tracked(s) && (s.holder.Clear? ==> s.running)
    ensures var t := Next(s, e);
      Tracked(t) && (t.holder.Clear? ==> t.running) && s.book.earlier <= t.book.earlier && s.book.seen <= t.book.seen
  {
    MemoryTracks(s, e);
    WriterTracks(s, e);
    ClearTracks(s, e);
    SettingsTrack(s, e);
  }

  lemma MemoryTracks(s: State, e: Event)
    requires Tracked(s) && (s.holder.Clear? ==> s.running)
    ensures var t := MemoryStep(s, e);
      Tracked(t) && (t.holder.Clear? ==> t.running) && s.book.earlier <= t.book.earlier && s.book.seen <= t.book.seen
  {
  }

  lemma ClearTracks(s: State, e: Event)
    requires Tracked(s) && (s.holder.Clear? ==> s.running)
    ensures var t := ClearStep(s, e);
      Tracked(t) && (t.holder.Clear? ==> t.running) && s.book.earlier <= t.book.earlier && s.book.seen <= t.book.seen
  {
  }

  /** Nothing tracked changes. */
  ghost predicate Untouched(s: State, t: State) {
    && t.book.clearedAt == s.book.clearedAt && t.book.seen == s.book.seen && t.book.earlier == s.book.earlier
    && t.legacyDeleted == s.legacyDeleted
    && s.epoch <= t.epoch && t.running == s.running && (t.holder.Clear? ==> s.holder.Clear?)
  }

  lemma WriterTracks(s: State, e: Event)
    ensures Untouched(s, WriterStep(s, e))
  {
  }

  lemma SettingsTrack(s: State, e: Event)
    ensures Untouched(s, SettingsStep(s, e))
  {
  }

  lemma {:induction false} TrackedRun(s: State, es: seq<Event>)
    requires Tracked(s) && (s.holder.Clear? ==> s.running)
    ensures var t := Run(s, es);
      Tracked(t) && (t.holder.Clear? ==> t.running) && s.book.earlier <= t.book.earlier && s.book.seen <= t.book.seen
    decreases |es|
  {
    if es != [] {
      TrackedNext(s, es[0]);
      TrackedRun(Next(s, es[0]), es[1..]);
    }
  }

  /** Neither in memory, nor queued, nor being written, nor (if the files were erased) in a segment. */
  ghost predicate Gone(s: State, r: Record) {
    && r !in s.records && r !in s.queue && r !in Flight(s.holder) && r !in Data(s.holder)
    && (s.book.erased ==> r !in s.disk.previous && r !in s.disk.current)
  }

  lemma EarlierGone(s: State, which: nat, now: int)
    requires Inv(s) && Tracked(s) && which < s.book.earlier
    ensures Gone(s, s.book.seen[which]) && Next(s, Submit(which, now)) == s
  {
  }

  /** In every interleaving a record begun, imported or loaded before the last clear is gone, and its submit changes nothing. */
  lemma {:induction false} NothingEarlier(es: seq<Event>, which: nat, now: int)
    ensures var s := Run(INIT, es);
      && s.book.earlier <= |s.book.seen|
      && (which < s.book.earlier ==> Gone(s, s.book.seen[which]) && Next(s, Submit(which, now)) == s)
  {
    RunKeeps(INIT, es);
    TrackedRun(INIT, es);
    if which < Run(INIT, es).book.earlier {
      EarlierGone(Run(INIT, es), which, now);
    }
  }

  /** Whatever was begun up to a clear is gone in every continuation, other clears and settings included. */
  lemma {:induction false} ClearIsFinal(es: seq<Event>, more: seq<Event>, which: nat, now: int)
    requires var s := Run(INIT, es); s.holder.Clear? && s.holder.done && which < |s.book.seen|
    ensures var s := Run(INIT, es);
      var t := Run(Next(s, ClearResets), more);
      s.book.seen <= t.book.seen && Gone(t, s.book.seen[which]) && Next(t, Submit(which, now)) == t
  {
    var s := Run(INIT, es);
    var c := Next(s, ClearResets);
    RunKeeps(INIT, es);
    TrackedRun(INIT, es);
    TrackedNext(s, ClearResets);
    TrackedRun(c, more);
    NextKeeps(s, ClearResets);
    RunKeeps(c, more);
    assert which < c.book.earlier;
    EarlierGone(Run(c, more), which, now);
    assert Run(c, more).book.seen[which] == s.book.seen[which];
  }

  /** Behind a clear the older history can not be imported again, now or later. */
  lemma {:induction false} NothingImported(es: seq<Event>, id: nat, time: int, t: State, now: int)
    requires 0 < Run(INIT, es).book.clearedAt
    ensures Submitted(t, Imported(Run(INIT, es), id, time), now) == t
  {
    TrackedRun(INIT, es);
  }

  /** Since the last clear every record is persisted, dropped, queued or being written, exactly once. */
  lemma {:induction false} Conservation(es: seq<Event>)
    ensures var s := Run(INIT, es);
      s.book.loaded + s.book.accepted == s.persisted + s.dropped + |s.queue| + |Flight(s.holder)|
  {
    RunKeeps(INIT, es);
  }

  /** The store holds at most its capacity of distinct ids, in the order they came in. */
  lemma {:induction false} BoundedStore(es: seq<Event>)
    ensures var s := Run(INIT, es);
      |s.records| <= RECORDS && Distinct(s.records) && Within(s.records, s.book.inserted) && |s.queue| <= QUEUE
  {
    RunKeeps(INIT, es);
  }

  // ------------------------------------------------------------------ what the holders of the files do

  /** One turn of the writer: the oldest queued record goes behind the others on disk and counts, or is dropped. */
  lemma WriterRound(s: State, rotates: bool)
    requires s.started && s.holder.Free? && s.queue != []
    ensures var taken := Next(s, WriterTakes);
      var r, rest := s.queue[0], s.queue[1..];
      && Next(Next(taken, WriterAppends(true, rotates)), WriterCounts) ==
         s.(queue := rest, persisted := s.persisted + 1,
            disk := if rotates then Disk(s.disk.current, [r]) else Disk(s.disk.previous, s.disk.current + [r]))
      && Next(Next(taken, WriterAppends(false, rotates)), WriterCounts) == s.(queue := rest, dropped := s.dropped + 1)
  {
  }

  /** Without a record there is nothing to store; who does not hold the files waits; an export by a user does not. */
  lemma WaitsForFiles(s: State, now: int)
    ensures s.started && s.holder.Free? && s.queue == [] ==> Next(Next(s, WriterTakes), WriterCounts) == s
    ensures !s.holder.Free? ==> Next(s, WriterTakes) == Next(s, SettingsTake) == Next(s, ClearTakes) == s
    ensures !s.started ==> Next(s, WriterTakes) == s
    ensures s.running ==> Next(s, Export(now)) == s.(records := Recent(s.records, now - s.days * 86400))
  {
  }

  /** What a compaction does to the files, as far as it comes: first the older part, then the rest, nothing else. */
  ghost predicate Compacts(s: State, t: State, now: int, reach: Reach, split: nat) {
    var kept := Recent(s.records, now - s.days * 86400);
    && t == s.(records := kept, disk := t.disk)
    && (reach.Neither? ==> t.disk == s.disk)
    && (reach.PreviousOnly? ==> t.disk.current == s.disk.current)
    && (reach.Both? ==> t.disk.previous + t.disk.current == kept)
    && (!reach.Neither? && split <= |kept| ==> t.disk.previous == kept[..split])
  }

  lemma ReplacedParts(d: Disk, data: seq<Record>, reach: Reach, split: nat)
    ensures var t := Replaced(d, data, reach, split);
      && (reach.Neither? ==> t == d)
      && (reach.PreviousOnly? ==> t.current == d.current)
      && (reach.Both? ==> t.previous + t.current == data)
      && (!reach.Neither? && split <= |data| ==> t.previous == data[..split])
  {
  }

  /** The writer compacts behind a record only when that one is stored ... */
  lemma WriterCompaction(s: State, now: int, reach: Reach, split: nat)
    requires s.holder.Writer?
    ensures if s.holder.flight == [] || s.holder.stored
            then Compacts(s, Next(Next(s, WriterExports(now)), WriterReplaces(reach, split)), now, reach, split)
            else Next(s, WriterExports(now)) == s
  {
    ReplacedParts(s.disk, Recent(s.records, Cutoff(now, s.days)), reach, split);
  }

  /** ... and the settings do whenever they hold the files. */
  lemma SettingsCompaction(s: State, now: int, reach: Reach, split: nat)
    requires s.holder.Settings?
    ensures Compacts(s, Next(Next(s, SettingsExport(now)), SettingsReplace(reach, split)), now, reach, split)
  {
    ReplacedParts(s.disk, Recent(s.records, Cutoff(now, s.days)), reach, split);
  }

  /** A settings change takes effect when it is saved, and an opt-out in any case. */
  lemma SettingsRound(s: State, ok: bool, enabled: bool, days: nat)
    requires s.running && s.holder.Free?
    ensures Next(Next(Next(s, SettingsTake), SettingsApply(ok, enabled, days)), SettingsRelease) ==
      if ok || !enabled then s.(enabled := enabled, days := days, epoch := s.epoch + 1) else s
  {
  }

  /** Only behind its attempt on the files a clear empties store, queue and counts, ends the epoch and forbids later imports. */
  lemma ClearRound(s: State, previous: bool, current: bool)
    requires s.running && s.holder.Free?
    ensures var t := Next(Next(Next(s, ClearTakes), ClearErases(previous, current)), ClearResets);
      && t.records == [] && t.queue == [] && t.persisted == t.dropped == 0 && t.epoch == s.epoch + 1 && t.legacyDeleted
      && t.disk.previous == (if previous then [] else s.disk.previous) && t.disk.current == (if current then [] else s.disk.current)
      && t.holder.Free? && t.enabled == s.enabled && t.days == s.days && t.running && t.started == s.started
      && t.book.earlier == |s.book.seen| && (t.book.erased <==> previous && current)
    ensures Next(Next(s, ClearTakes), ClearResets) == Next(s, ClearTakes)
  {
  }

  /** Before it runs the program takes the settings as they are and every record of an id it does not know. */
  lemma Starts(s: State, r: Record, now: int, enabled: bool, days: nat, legacyDeleted: bool, ok: bool)
    requires !s.running && Inv(s)
    ensures Next(s, ReadSettings(enabled, days, legacyDeleted)) == s.(enabled := enabled, days := days, legacyDeleted := legacyDeleted)
    ensures Next(s, Start(ok)) == s.(running := true, started := ok)
    ensures var t := Next(s, Load(r, now));
      if exists q :: q in s.records && q.id == r.id then t == s
      else
        && t.persisted == s.persisted + 1 && t.queue == s.queue && !t.running
        && (r.time >= now - s.days * 86400 ==> t.records != [] && t.records[|t.records| - 1] == Record(r.id, 0, r.time, r.enabled))
  {
    RetainKeeps(s.records, s.book.inserted, r.(epoch := 0), Cutoff(now, s.days));
    KnownMeans(s.records, r.id);
  }

  lemma KnownMeans(records: seq<Record>, id: nat)
    ensures Known(records, id) <==> exists q :: q in records && q.id == id
  {
    if Known(records, id) {
      var i :| 0 <= i < |records| && records[i].id == id;
      assert records[i] in records;
    }
  }

  // ------------------------------------------------------------------ what a submit is promised

  /** The step changes the consent or clears the history. */
  predicate TurnsEpoch(s: State, e: Event) {
    (s.holder.Settings? && e.SettingsApply? && (e.ok || !e.enabled)) || (s.holder.Clear? && s.holder.done && e.ClearResets?)
  }

  predicate SameEpoch(s: State, es: seq<Event>)
    decreases |es|
  {
    es != [] ==> !TurnsEpoch(s, es[0]) && SameEpoch(Next(s, es[0]), es[1..])
  }

  lemma EpochNext(s: State, e: Event)
    requires s.running
    ensures var t := Next(s, e);
      t.running && if TurnsEpoch(s, e) then t.epoch == s.epoch + 1 else t.epoch == s.epoch && t.enabled == s.enabled && t.days == s.days
  {
  }

  lemma {:induction false} EpochRun(s: State, es: seq<Event>)
    requires s.running
    ensures var t := Run(s, es);
      t.running && if SameEpoch(s, es) then t.epoch == s.epoch && t.enabled == s.enabled && t.days == s.days else t.epoch > s.epoch
    decreases |es|
  {
    if es != [] {
      EpochNext(s, es[0]);
      EpochRun(Next(s, es[0]), es[1..]);
    }
  }

  /** The record is taken: the last in the store, and queued for the writer or counted as dropped. */
  ghost predicate TakenIn(u: State, r: Record, t: State) {
    && t.records != [] && t.records[|t.records| - 1] == r
    && (forall q :: q in t.records ==> q == r || q in u.records)
    && t.book.accepted == u.book.accepted + 1
    && (if u.started && |u.queue| < 64 then t.queue == u.queue + [r] && t.dropped == u.dropped
        else t.queue == u.queue && t.dropped == u.dropped + 1)
    && t.persisted == u.persisted && t.disk == u.disk && t.holder == u.holder && t.epoch == u.epoch
  }

  /**
   From begin to submit, with anything in between: the record is taken exactly when recording was on as it began,
   neither the consent was changed nor the history cleared since, it is within the days kept, and its id is new.
   Else the submit changes nothing.
   */
  lemma SubmittedExactly(es: seq<Event>, id: nat, time: int, more: seq<Event>, now: int)
    requires Run(INIT, es).running
    ensures var s := Run(INIT, es);
      var r := Record(id, s.epoch, time, s.enabled);
      var u := Run(Next(s, Begin(id, time)), more);
      var t := Next(u, Submit(|s.book.seen|, now));
      if s.enabled && SameEpoch(Next(s, Begin(id, time)), more) && time >= now - s.days * 86400
         && forall q :: q in u.records ==> q.id != id
      then TakenIn(u, r, t) else t == u
  {
    var s := Run(INIT, es);
    var b := Next(s, Begin(id, time));
    var u := Run(b, more);
    RunKeeps(INIT, es);
    NextKeeps(s, Begin(id, time));
    RunKeeps(b, more);
    TrackedRun(INIT, es);
    TrackedNext(s, Begin(id, time));
    TrackedRun(b, more);
    EpochRun(b, more);
    assert u.book.seen[|s.book.seen|] == Begun(s, id, time);
    SubmitTakes(u, Begun(s, id, time), now);
  }

  lemma SubmitTakes(u: State, r: Record, now: int)
    requires Inv(u) && u.running && (r.epoch == u.epoch ==> r.enabled == u.enabled)
    ensures if r.enabled && r.epoch == u.epoch && r.time >= now - u.days * 86400 && forall q :: q in u.records ==> q.id != r.id
            then TakenIn(u, r, Submitted(u, r, now)) else Submitted(u, r, now) == u
  {
    RetainKeeps(u.records, u.book.inserted, r, Cutoff(now, u.days));
    if Known(u.records, r.id) {
      var i :| 0 <= i < |u.records| && u.records[i].id == r.id;
      assert u.records[i] in u.records;
    }
  }

  // ------------------------------------------------------------------ the program

  /** The n records of a ring from `head` on. */
  function Ring(cells: seq<Record>, head: nat, n: nat): (q: seq<Record>)
    requires |cells| == QUEUE
    ensures |q| == n
  {
    seq(n, i requires 0 <= i < n => cells[(head + i) % QUEUE])
  }

  lemma RingTakes(cells: seq<Record>, head: nat, n: nat, r: Record)
    requires |cells| == QUEUE && head < QUEUE && n < QUEUE
    ensures Ring(cells[(head + n) % QUEUE := r], head, n + 1) == Ring(cells, head, n) + [r]
  {
  }

  lemma RingGives(cells: seq<Record>, head: nat, n: nat)
    requires |cells| == QUEUE && head < QUEUE && 0 < n
    ensures Ring(cells, head, n)[1..] == Ring(cells, (head + 1) % QUEUE, n - 1)
    ensures Ring(cells, head, n)[..1] == [cells[head]]
  {
    var rest := Ring(cells, (head + 1) % QUEUE, n - 1);
    var all := Ring(cells, head, n);
    forall i | 0 <= i < n - 1 ensures rest[i] == all[1..][i] {
      Wraps(head, i);
    }
  }

  lemma Wraps(head: nat, i: nat)
    requires head < QUEUE
    ensures ((head + 1) % QUEUE + i) % QUEUE == (head + (i + 1)) % QUEUE
  {
    if head + 1 == QUEUE {
      assert (QUEUE + i) % QUEUE == i % QUEUE;
    }
  }

  /** What p holds under p.mutex. */
  class Memory {
    const records: array<Record>
    var count: nat
    const ring: array<Record>
    var head: nat
    var queued: nat
    var started: bool
    var legacyDeleted: bool
    var epoch: nat
    var enabled: bool
    var days: nat
    var persisted: nat
    var dropped: nat

    ghost predicate Valid()
      reads this
    {
      records.Length == RECORDS && ring.Length == QUEUE && count <= RECORDS && head < QUEUE && queued <= QUEUE
    }

    ghost function Records(): seq<Record>
      requires Valid()
      reads this, records
    {
      records[..count]
    }

    ghost function Queue(): seq<Record>
      requires Valid()
      reads this, ring
    {
      Ring(ring[..], head, queued)
    }

    /** The memory is what the state of a running history says. */
    ghost predicate Shows(s: State)
      requires Valid()
      reads this, records, ring
    {
      && s.running && started == s.started && legacyDeleted == s.legacyDeleted
      && Records() == s.records && Queue() == s.queue && epoch == s.epoch && enabled == s.enabled && days == s.days
      && persisted == s.persisted && dropped == s.dropped
    }

    method IsKnown(id: nat) returns (known: bool)
      requires Valid()
      ensures known == Known(Records(), id)
    {
      var i := 0;
      while i < count
        invariant i <= count && forall j :: 0 <= j < i ==> records[j].id != id
      {
        if records[i].id == id {
          assert Records()[i].id == id;
          return true;
        }
        i := i + 1;
      }
      return false;
    }

    /** The records that stay move to the front. */
    method Expire(cutoff: int)
      requires Valid()
      modifies `count, records
      ensures Valid() && Records() == Recent(old(Records()), cutoff)
    {
      ghost var was := Records();
      var kept, i := 0, 0;
      while i < count
        modifies records
        invariant kept <= i <= count
        invariant records[..kept] == Recent(was[..i], cutoff)
        invariant forall j :: i <= j < count ==> records[j] == was[j]
      {
        assert was[..i + 1][..i] == was[..i];
        assert records[i] == was[i];
        if records[i].time >= cutoff {
          records[kept] := records[i];
          kept := kept + 1;
        }
        i := i + 1;
      }
      assert was[..i] == was;
      count := kept;
    }

    /** The memmove that drops the oldest record of a full store. */
    method DropOldest()
      requires Valid() && count == RECORDS
      modifies `count, records
      ensures Valid() && count == RECORDS - 1 && Records() == old(Records())[1..]
    {
      ghost var was := Records();
      var i := 0;
      while i + 1 < RECORDS
        modifies records
        invariant i < RECORDS
        invariant forall j :: 0 <= j < i ==> records[j] == was[j + 1]
        invariant forall j :: i <= j < RECORDS ==> records[j] == was[j]
      {
        records[i] := records[i + 1];
        i := i + 1;
      }
      count := count - 1;
    }

    method Push(r: Record)
      requires Valid() && count < RECORDS
      modifies `count, records
      ensures Valid() && Records() == old(Records()) + [r]
    {
      records[count] := r;
      count := count + 1;
    }

    /** retain. */
    method RetainRecord(r: Record, cutoff: int)
      requires Valid()
      modifies `count, records
      ensures Valid() && Records() == Retain(old(Records()), r, cutoff)
    {
      Expire(cutoff);
      if r.time < cutoff {
        return;
      }
      var known := IsKnown(r.id);
      if known {
        return;
      }
      if count == RECORDS {
        DropOldest();
      }
      Push(r);
    }

    /** perf_begin. */
    method BeginRecord(id: nat, time: int, ghost s: State) returns (r: Record)
      requires Valid() && Shows(s)
      ensures Shows(Next(s, Begin(id, time))) && Next(s, Begin(id, time)).book.seen == s.book.seen + [r]
    {
      r := Record(id, epoch, time, enabled);
    }

    /** perf_import, up to its submit. */
    method ImportRecord(id: nat, time: int, ghost s: State) returns (r: Record)
      requires Valid() && Shows(s)
      ensures Shows(Next(s, Import(id, time))) && Next(s, Import(id, time)).book.seen == s.book.seen + [r]
    {
      r := Record(id, epoch, time, enabled && !legacyDeleted);
    }

    /** perf_submit. */
    method SubmitRecord(r: Record, now: int, ghost s: State)
      requires Valid() && Shows(s)
      modifies this, records, ring
      ensures Valid() && Shows(Submitted(s, r, now))
    {
      if !r.enabled || !enabled || r.epoch != epoch || r.time < now - days * DAY {
        return;
      }
      var known := IsKnown(r.id);
      if known {
        return;
      }
      RetainRecord(r, now - days * DAY);
      if started && queued < QUEUE {
        RingTakes(ring[..], head, queued, r);
        ring[(head + queued) % QUEUE] := r;
        queued := queued + 1;
      } else {
        dropped := dropped + 1;
      }
    }

    /** The writer takes the oldest queued record, if there is one. */
    method Take(ghost s: State) returns (flight: seq<Record>)
      requires Valid() && Shows(s) && started && s.holder.Free?
      modifies `head, `queued
      ensures Valid() && Shows(Next(s, WriterTakes)) && flight == Flight(Next(s, WriterTakes).holder)
    {
      if queued == 0 {
        return [];
      }
      RingGives(ring[..], head, queued);
      flight := [ring[head]];
      head := (head + 1) % QUEUE;
      queued := queued - 1;
    }

    /** The end of perf_clear, after the files. */
    method Reset(ghost s: State)
      requires Valid() && Shows(s) && s.holder.Clear? && s.holder.done
      modifies this
      ensures Valid() && Shows(Next(s, ClearResets))
    {
      count, queued, head := 0, 0, 0;
      persisted, dropped := 0, 0;
      epoch := epoch + 1;
      legacyDeleted := true;
    }
  }
}
