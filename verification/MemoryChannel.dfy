/**
 The memory sample: several capture callers behind one flag, and readers that try three times.

 Sources: src/lifecycle.c:130-165 and src/resource_sampler.c:9-24.
 */
module MemoryChannel {
  import opened Seqlock

  /** sampled_ns, allocated_bytes, status, source, unified. */
  const CELLS := 5
  const ATTEMPTS := 3

  type Sample = s: seq<nat> | |s| == CELLS witness [0, 0, 0, 0, 0]

  /** The channel with its cells. */
  type Page = c: Channel | |c.cells| == CELLS witness Channel(0, [0, 0, 0, 0, 0], [])

  /** A caller that holds the flag; `at` counts its accesses: add, five stores, add, clear. */
  datatype Capture = Capture(at: nat, sample: Sample)

  datatype Taken = Taken(number: nat, sample: seq<nat>)

  /** A thread that reads, in its attempt `attempt`, with everything it accepted so far. */
  datatype Client = Client(attempt: nat, reader: Reader, accepted: seq<Taken>)

  datatype State = State(channel: Page, flag: bool, captures: map<nat, Capture>, clients: map<nat, Client>,
                         submitted: seq<Sample>)

  const ZERO: seq<nat> := [0, 0, 0, 0, 0]
  const INIT := State(Channel(0, ZERO, [ZERO]), false, map[], map[], [])

  datatype Event =
    | TestAndSet(thread: nat, sample: Sample)
    | Advance(thread: nat)
    | Start(client: nat)
    | Load(client: nat)

  /** The flag admits one caller; everyone else returns at once. */
  function Enter(s: State, thread: nat, sample: Sample): State {
    if s.flag || thread in s.captures then s
    else s.(flag := true, captures := s.captures[thread := Capture(0, sample)])
  }

  /** The next access of lifecycle_memory_write, or the clearing of the flag. */
  function Write(s: State, thread: nat): State
  {
    if thread !in s.captures then s
    else
      var w := s.captures[thread];
      var next := s.(captures := s.captures[thread := w.(at := w.at + 1)]);
      if w.at == 0 then next.(channel := Bump(s.channel))
      else if w.at <= CELLS then
        next.(channel := Put(s.channel, w.at - 1, w.sample[w.at - 1]))
      else if w.at == CELLS + 1 then next.(channel := Bump(s.channel), submitted := s.submitted + [w.sample])
      else s.(flag := false, captures := s.captures - {thread})
  }

  /** A sampled time, a known status and a known source. */
  predicate Acceptable(sample: seq<nat>) {
    |sample| == CELLS && sample[0] != 0 && sample[2] <= 3 && sample[3] <= 1
  }

  /** The next access of lifecycle_memory_read. */
  function Read(c: Page, r: Client): Client
  {
    if r.attempt >= ATTEMPTS then r
    else if r.reader.Resting? then
      if c.number % 2 == 1 || c.number == 0 then r.(attempt := r.attempt + 1) else r.(reader := Loading(c.number, []))
    else if |r.reader.got| < CELLS then r.(reader := r.reader.(got := r.reader.got + [c.cells[|r.reader.got|]]))
    else if r.reader.number == c.number && Acceptable(r.reader.got) then
      Client(ATTEMPTS, Resting, r.accepted + [Taken(r.reader.number, r.reader.got)])
    else r.(attempt := r.attempt + 1, reader := Resting)
  }

  function Next(s: State, e: Event): State
  {
    match e
    case TestAndSet(thread, sample) => Enter(s, thread, sample)
    case Advance(thread) => Write(s, thread)
    case Start(client) =>
      if client !in s.clients then s.(clients := s.clients[client := Client(0, Resting, [])])
      else if s.clients[client].attempt < ATTEMPTS then s
      else s.(clients := s.clients[client := s.clients[client].(attempt := 0)])
    case Load(client) =>
      if client in s.clients then s.(clients := s.clients[client := Read(s.channel, s.clients[client])]) else s
  }

  // ------------------------------------------------------------------ invariants

  /** The writer's accesses so far show in the channel. */
  ghost predicate Written(c: Channel, w: Capture) {
    && w.at <= CELLS + 2
    && (c.number % 2 == 1 <==> 0 < w.at <= CELLS + 1)
    && (0 < w.at <= CELLS + 1 ==> |c.cells| == CELLS && forall i :: 0 <= i < w.at - 1 ==> c.cells[i] == w.sample[i])
  }

  /** Mutual exclusion by the flag, and every version was submitted by one caller. */
  ghost predicate Writers(s: State) {
    && Sane(s.channel, CELLS)
    && (s.flag <==> s.captures != map[])
    && (forall a, b :: a in s.captures && b in s.captures ==> a == b)
    && (forall a :: a in s.captures ==> Written(s.channel, s.captures[a]))
    && (!s.flag ==> s.channel.number % 2 == 0)
    && s.channel.versions == [ZERO] + s.submitted
  }

  /** What a client accepted are whole versions, in the order of their numbers. */
  ghost predicate Honest(c: Channel, r: Client) {
    && Follows(c, r.reader)
    && (r.reader.Loading? ==> 0 < r.reader.number)
    && (forall i :: 0 <= i < |r.accepted| ==> IsVersion(c, r.accepted[i]))
    && (forall i, j :: 0 <= i < j < |r.accepted| ==> r.accepted[i].number <= r.accepted[j].number)
    && (r.accepted != [] && r.reader.Loading? ==> r.accepted[|r.accepted| - 1].number <= r.reader.number)
  }

  predicate IsVersion(c: Channel, t: Taken) {
    t.number % 2 == 0 && 0 < t.number <= c.number && t.number / 2 < |c.versions| && c.versions[t.number / 2] == t.sample
  }

  ghost predicate Inv(s: State) {
    Writers(s) && forall r :: r in s.clients ==> Honest(s.channel, s.clients[r])
  }

  lemma EnterKeeps(s: State, thread: nat, sample: Sample)
    requires Writers(s)
    ensures Writers(Enter(s, thread, sample)) && Enter(s, thread, sample).channel == s.channel
  {
  }

  /** The channel changes by one access of the flag's holder, and only while the number is odd. */
  ghost predicate Moves(c: Channel, d: Channel) {
    || d == c
    || d == Bump(c)
    || (exists cell: nat, value: nat :: cell < |c.cells| && c.number % 2 == 1 && d == Put(c, cell, value))
  }

  lemma WriteKeeps(s: State, thread: nat)
    requires Writers(s)
    ensures Writers(Write(s, thread)) && Moves(s.channel, Write(s, thread).channel)
    ensures Write(s, thread).clients == s.clients
  {
    if thread in s.captures {
      var w := s.captures[thread];
      var t := Write(s, thread);
      if w.at == 0 {
        BumpKeeps(s.channel, CELLS, Resting);
      } else if w.at <= CELLS {
        PutKeeps(s.channel, CELLS, w.at - 1, w.sample[w.at - 1], Resting);
        assert t.channel == Put(s.channel, w.at - 1, w.sample[w.at - 1]);
      } else if w.at == CELLS + 1 {
        BumpKeeps(s.channel, CELLS, Resting);
        assert s.channel.cells == w.sample;
      } else {
        forall a | a in s.captures ensures a == thread {
        }
        assert t.captures.Keys == {};
      }
    }
  }

  lemma ReaderUnharmed(c: Channel, d: Channel, r: Client)
    requires Sane(c, CELLS) && Honest(c, r) && Moves(c, d)
    ensures Honest(d, r)
  {
    if d == Bump(c) {
      BumpKeeps(c, CELLS, r.reader);
      forall i | 0 <= i < |r.accepted| ensures IsVersion(d, r.accepted[i]) {
        assert IsVersion(c, r.accepted[i]);
      }
    } else if d != c {
      var cell: nat, value: nat :| cell < |c.cells| && c.number % 2 == 1 && d == Put(c, cell, value);
      PutKeeps(c, CELLS, cell, value, r.reader);
      forall i | 0 <= i < |r.accepted| ensures IsVersion(d, r.accepted[i]) {
        assert IsVersion(c, r.accepted[i]);
      }
    }
  }

  lemma ReadKeeps(c: Page, r: Client)
    requires Sane(c, CELLS) && Honest(c, r)
    ensures Honest(c, Read(c, r)) && r.accepted <= Read(c, r).accepted
  {
    if r.attempt < ATTEMPTS && r.reader.Loading? {
      if |r.reader.got| < CELLS {
        LoadKeeps(c, CELLS, r.reader);
      } else if r.reader.number == c.number && Acceptable(r.reader.got) {
        WholeVersion(c, CELLS, r.reader);
        assert IsVersion(c, Taken(r.reader.number, r.reader.got));
      }
    } else if r.attempt < ATTEMPTS && r.accepted != [] {
      assert IsVersion(c, r.accepted[|r.accepted| - 1]);
    }
  }

  lemma AdvanceKeeps(s: State, thread: nat)
    requires Inv(s)
    ensures Inv(Next(s, Advance(thread)))
  {
    var t := Write(s, thread);
    WriteKeeps(s, thread);
    forall r | r in t.clients ensures Honest(t.channel, t.clients[r]) {
      ReaderUnharmed(s.channel, t.channel, s.clients[r]);
    }
  }

  lemma NextKeeps(s: State, e: Event)
    requires Inv(s)
    ensures Inv(Next(s, e))
  {
    match e
    case TestAndSet(thread, sample) => EnterKeeps(s, thread, sample);
    case Advance(thread) => AdvanceKeeps(s, thread);
    case Start(_) =>
    case Load(client) =>
      if client in s.clients {
        ReadKeeps(s.channel, s.clients[client]);
      }
  }

  function Run(s: State, es: seq<Event>): State
    decreases |es|
  {
    if es == [] then s else Run(Next(s, es[0]), es[1..])
  }

  lemma {:induction false} RunKeeps(s: State, es: seq<Event>)
    requires Inv(s)
    ensures Inv(Run(s, es))
    decreases |es|
  {
    if es != [] {
      NextKeeps(s, es[0]);
      RunKeeps(Next(s, es[0]), es[1..]);
    }
  }

  /**
   In every interleaving one caller writes at a time; whatever a reader accepts is one complete submitted
   sample, never a mixture; and a reader never goes back to an older one.
   */
  lemma AcceptedWhole(es: seq<Event>, r: nat, i: nat)
    ensures var s := Run(INIT, es);
      r in s.clients && i < |s.clients[r].accepted| ==>
        var accepted := s.clients[r].accepted;
        && 0 < accepted[i].number / 2 <= |s.submitted|
        && accepted[i].sample == s.submitted[accepted[i].number / 2 - 1]
        && (forall j :: i < j < |accepted| ==> accepted[i].number <= accepted[j].number)
  {
    RunKeeps(INIT, es);
    var s := Run(INIT, es);
    if r in s.clients && i < |s.clients[r].accepted| {
      assert IsVersion(s.channel, s.clients[r].accepted[i]);
    }
  }

  lemma OneWriter(es: seq<Event>, a: nat, b: nat)
    ensures var s := Run(INIT, es); a in s.captures && b in s.captures ==> a == b && s.flag
  {
    RunKeeps(INIT, es);
  }

  function Writes(s: State, thread: nat, n: nat): State
    decreases n
  {
    if n == 0 then s else Write(Writes(s, thread, n - 1), thread)
  }

  /** Behind the first increment and `k` stores. */
  function HalfWritten(s: State, thread: nat, sample: Sample, k: nat): State
    requires k <= CELLS
  {
    s.(flag := true, captures := map[thread := Capture(1 + k, sample)],
       channel := Channel(s.channel.number + 1, sample[..k] + s.channel.cells[k..], s.channel.versions))
  }

  lemma {:induction false} StoresSoFar(s: State, thread: nat, sample: Sample, k: nat)
    requires Writers(s) && !s.flag && k <= CELLS
    ensures Writes(Enter(s, thread, sample), thread, 1 + k) == HalfWritten(s, thread, sample, k)
    decreases k
  {
    var e := Enter(s, thread, sample);
    assert s.captures == map[];
    if k == 0 {
      assert Writes(e, thread, 1) == Write(Writes(e, thread, 0), thread);
      assert sample[..0] + s.channel.cells[0..] == s.channel.cells;
    } else {
      StoresSoFar(s, thread, sample, k - 1);
      StoreOne(s, thread, sample, k);
    }
  }

  lemma StoreOne(s: State, thread: nat, sample: Sample, k: nat)
    requires Writers(s) && 0 < k <= CELLS
    ensures Write(HalfWritten(s, thread, sample, k - 1), thread) == HalfWritten(s, thread, sample, k)
  {
    var h := HalfWritten(s, thread, sample, k - 1);
    assert h.channel.cells[k - 1 := sample[k - 1]] == sample[..k] + s.channel.cells[k..];
  }

  /** A capture that finds the flag clear publishes its sample with eight accesses, and leaves the flag clear. */
  lemma CapturePublishes(s: State, thread: nat, sample: Sample)
    requires Writers(s) && !s.flag
    ensures Writes(Enter(s, thread, sample), thread, 8) ==
      s.(channel := Channel(s.channel.number + 2, sample, s.channel.versions + [sample]), submitted := s.submitted + [sample])
  {
    var e := Enter(s, thread, sample);
    StoresSoFar(s, thread, sample, CELLS);
    var full := HalfWritten(s, thread, sample, CELLS);
    assert full.channel.cells == sample;
    assert Writes(e, thread, 7) == Write(full, thread);
    assert Writes(e, thread, 8) == Write(Write(full, thread), thread);
    assert s.captures == map[] && Write(full, thread).captures - {thread} == map[];
  }

  function Reads(c: Page, r: Client, n: nat): Client
    decreases n
  {
    if n == 0 then r else Reads(c, Read(c, r), n - 1)
  }

  lemma {:induction false} LoadsRest(c: Page, r: Client)
    requires r.attempt < ATTEMPTS && r.reader.Loading? && |r.reader.got| <= CELLS
    requires r.reader.number == c.number && r.reader.got == c.cells[..|r.reader.got|] && Acceptable(c.cells)
    ensures Reads(c, r, CELLS + 1 - |r.reader.got|) == Client(ATTEMPTS, Resting, r.accepted + [Taken(c.number, c.cells)])
    decreases CELLS - |r.reader.got|
  {
    var n := |r.reader.got|;
    if n < CELLS {
      assert c.cells[..n + 1] == c.cells[..n] + [c.cells[n]];
      LoadsRest(c, Read(c, r));
    } else {
      assert c.cells[..n] == c.cells;
      assert Reads(c, r, 1) == Reads(c, Read(c, r), 0);
    }
  }

  /** An attempt during which nobody writes accepts what is there: seven accesses are enough. */
  lemma UndisturbedAccepts(c: Page, r: Client)
    requires c.number % 2 == 0 && c.number != 0 && Acceptable(c.cells)
    requires r.attempt < ATTEMPTS && r.reader.Resting?
    ensures Reads(c, r, CELLS + 2) == Client(ATTEMPTS, Resting, r.accepted + [Taken(c.number, c.cells)])
  {
    var s := Read(c, r);
    assert s == r.(reader := Loading(c.number, []));
    LoadsRest(c, s);
  }

  function LoadsBy(client: nat, n: nat): seq<Event> {
    if n == 0 then [] else [Load(client)] + LoadsBy(client, n - 1)
  }

  lemma {:induction false} LoadsRun(s: State, client: nat, n: nat)
    requires client in s.clients
    ensures Run(s, LoadsBy(client, n)) == s.(clients := s.clients[client := Reads(s.channel, s.clients[client], n)])
    decreases n
  {
    if n == 0 {
      assert s.clients[client := s.clients[client]] == s.clients;
    } else {
      var t := Next(s, Load(client));
      assert LoadsBy(client, n)[1..] == LoadsBy(client, n - 1);
      LoadsRun(t, client, n - 1);
      assert t.clients[client := Reads(t.channel, t.clients[client], n - 1)] == s.clients[client := Reads(s.channel, s.clients[client], n)];
    }
  }

  /** A new or finished reader that starts and is left alone has accepted the current sample behind seven loads. */
  lemma ClientReads(es: seq<Event>, client: nat)
    requires var s := Run(INIT, es);
      && s.channel.number % 2 == 0 && s.channel.number != 0 && Acceptable(s.channel.cells)
      && (client in s.clients ==> s.clients[client].attempt == ATTEMPTS)
      && (client in s.clients ==> s.clients[client].reader.Resting?)
    ensures var s := Run(INIT, es);
      var t := Run(Next(s, Start(client)), LoadsBy(client, 7));
      && t.channel == s.channel && client in t.clients
      && t.clients[client].accepted ==
         (if client in s.clients then s.clients[client].accepted else []) + [Taken(s.channel.number, s.channel.cells)]
  {
    var s := Run(INIT, es);
    var t := Next(s, Start(client));
    LoadsRun(t, client, 7);
    UndisturbedAccepts(s.channel, t.clients[client]);
  }

  // ------------------------------------------------------------------ the program

  /** The shared page, and the sampler that publishes into it. */
  class Shared {
    var number: nat
    const cells: array<nat>
    var writing: bool
    ghost var versions: seq<seq<nat>>

    ghost predicate Valid()
      reads this
    {
      cells.Length == CELLS
    }

    ghost function Abs(): Channel
      requires Valid()
      reads this, cells
    {
      Channel(number, cells[..], versions)
    }

    constructor ()
      ensures Valid() && fresh(cells) && !writing && Abs() == INIT.channel
    {
      number, writing, versions := 0, false, [ZERO];
      cells := new nat[CELLS](_ => 0);
    }

    method FetchAdd()
      requires Valid()
      modifies `number, `versions
      ensures Abs() == Bump(old(Abs()))
    {
      if number % 2 == 1 {
        versions := versions + [cells[..]];
      }
      number := number + 1;
    }

    /** lifecycle_memory_write, uninterrupted: its accesses are those of the transition system, in order. */
    method MemoryWrite(sample: Sample)
      requires Valid() && number % 2 == 0
      modifies `number, `versions, cells
      ensures Valid() && number == old(number) + 2 && cells[..] == sample && versions == old(versions) + [sample]
    {
      FetchAdd();
      var i := 0;
      while i < CELLS
        modifies cells
        invariant i <= CELLS && cells[..i] == sample[..i]
      {
        cells[i] := sample[i];
        i := i + 1;
      }
      assert cells[..] == cells[..i] && sample[..i] == sample;
      FetchAdd();
    }

    /** resource_sampler_capture. */
    method ResourceCapture(sample: Sample) returns (published: bool)
      requires Valid() && (!writing ==> number % 2 == 0)
      modifies this, cells
      ensures Valid() && writing == old(writing) && published == !old(writing)
      ensures if published then cells[..] == sample && versions == old(versions) + [sample] else Abs() == old(Abs())
    {
      if writing {
        return false;
      }
      writing := true;
      MemoryWrite(sample);
      writing := false;
      return true;
    }
  }

  /** The client behind `n` accesses that find the page as `page(0)`, `page(1)` and so on. */
  function Along(page: nat -> Page, n: nat): Client
    decreases n
  {
    if n == 0 then Client(0, Resting, []) else Read(page(n - 1), Along(page, n - 1))
  }

  /** What an attempt that begins with access `at` loads. */
  function Loaded(page: nat -> Page, at: nat): seq<nat> {
    seq(5, i requires 0 <= i < 5 => page(at + 1 + i).cells[i])
  }

  /** An attempt gives up at its first access while a write is going on, or before the first one. */
  predicate GivesUp(page: nat -> Page, at: nat) {
    page(at).number % 2 == 1 || page(at).number == 0
  }

  /** An even number that still stands behind the loads, with a sampled time, a known status and a known source. */
  predicate Succeeds(page: nat -> Page, at: nat) {
    && !GivesUp(page, at) && page(at + 6).number == page(at).number
    && var s := Loaded(page, at); s[0] != 0 && s[2] <= 3 && s[3] <= 1
  }

  /** Where the next attempt begins. */
  function Behind(page: nat -> Page, at: nat): nat {
    if GivesUp(page, at) then at + 1 else at + 7
  }

  datatype Found = At(at: nat) | Nowhere(end: nat)

  /** The first of `n` attempts that succeeds. */
  function FirstSuccess(page: nat -> Page, at: nat, n: nat): Found
    decreases n, page(at).number
  {
    if n == 0 then Nowhere(at) else if Succeeds(page, at) then At(at) else FirstSuccess(page, Behind(page, at), n - 1)
  }

  /** The first of three attempts that succeeds is taken, and only three failures are a failure. */
  predicate Takes(page: nat -> Page, ok: bool, taken: Taken, used: nat) {
    match FirstSuccess(page, 0, 3)
    case At(at) => ok && taken == Taken(page(at).number, Loaded(page, at)) && used == at + 7
    case Nowhere(end) => !ok && used == end
  }

  /** The page stands still at a version that can be accepted. */
  ghost predicate Standing(page: nat -> Page, number: nat, cells: seq<nat>) {
    && (forall n: nat :: page(n).number == number && page(n).cells == cells)
    && number % 2 == 0 && number != 0 && |cells| == 5 && cells[0] != 0 && cells[2] <= 3 && cells[3] <= 1
  }

  /** The loads between the two looks at the number. */
  method LoadCells(page: nat -> Page, from: nat) returns (got: seq<nat>)
    requires 0 < from
    ensures |got| == CELLS && got == Loaded(page, from - 1)
  {
    got := [];
    while |got| < CELLS
      invariant |got| <= CELLS
      invariant forall i :: 0 <= i < |got| ==> got[i] == page(from + i).cells[i]
    {
      got := got + [page(from + |got|).cells[|got|]];
    }
  }

  /** lifecycle_memory_read; its n-th access finds the page as `page(n)`. On a page that stands still it succeeds at once. */
  method MemoryRead(page: nat -> Page) returns (ok: bool, taken: Taken, used: nat)
    ensures Takes(page, ok, taken, used)
    ensures forall number, cells :: Standing(page, number, cells) ==> ok && taken == Taken(number, cells) && used == CELLS + 2
    ensures ok ==>
      && used >= CELLS + 2 && |taken.sample| == CELLS && Acceptable(taken.sample)
      && taken.number == page(used - CELLS - 2).number == page(used - 1).number
      && taken.number % 2 == 0 && taken.number != 0
      && forall i :: 0 <= i < CELLS ==> taken.sample[i] == page(used - CELLS - 1 + i).cells[i]
    ensures used <= ATTEMPTS * (CELLS + 2)
  {
    used := 0;
    var attempt := 0;
    while attempt < ATTEMPTS
      invariant attempt <= ATTEMPTS && used <= attempt * (CELLS + 2)
      invariant FirstSuccess(page, used, 3 - attempt) == FirstSuccess(page, 0, 3)
    {
      ghost var at := used;
      attempt := attempt + 1;
      var number := page(used).number;
      used := used + 1;
      if number % 2 == 1 || number == 0 {
        continue;
      }
      var got := LoadCells(page, used);
      used := used + CELLS;
      var again := page(used).number;
      used := used + 1;
      if number == again && Acceptable(got) {
        TakenWhole(page, at, Taken(number, got));
        assert FirstSuccess(page, 0, 3) == At(at);
        StandingTaken(page);
        return true, Taken(number, got), used;
      }
    }
    StandingTaken(page);
    return false, Taken(0, []), used;
  }

  lemma TakenWhole(page: nat -> Page, at: nat, taken: Taken)
    requires !GivesUp(page, at) && page(at + 6).number == page(at).number && Acceptable(Loaded(page, at))
    requires taken == Taken(page(at).number, Loaded(page, at))
    ensures Succeeds(page, at) && |taken.sample| == CELLS && Acceptable(taken.sample)
    ensures taken.number == page(at).number == page(at + 6).number && taken.number % 2 == 0 && taken.number != 0
    ensures forall i :: 0 <= i < CELLS ==> taken.sample[i] == page(at + 1 + i).cells[i]
  {
  }

  lemma StandingTaken(page: nat -> Page)
    ensures forall number, cells :: Standing(page, number, cells) ==>
      FirstSuccess(page, 0, 3) == At(0) && Loaded(page, 0) == cells && page(0).number == number
  {
    forall number, cells | Standing(page, number, cells)
      ensures FirstSuccess(page, 0, 3) == At(0) && Loaded(page, 0) == cells && page(0).number == number
    {
      assert page(0).cells == cells && page(6).number == number;
      forall i | 0 <= i < 5 ensures Loaded(page, 0)[i] == cells[i] {
        assert page(1 + i).cells == cells;
      }
    }
  }

  // ------------------------------------------------------------------ the transition system reads alike

  lemma {:induction false} LoadsAlong(page: nat -> Page, k: nat, at: nat, n: nat)
    requires k < ATTEMPTS && Along(page, at) == Client(k, Resting, []) && !GivesUp(page, at) && n <= CELLS
    ensures Along(page, at + 1 + n) == Client(k, Loading(page(at).number, Loaded(page, at)[..n]), [])
    decreases n
  {
    if n > 0 {
      LoadsAlong(page, k, at, n - 1);
      assert Loaded(page, at)[..n] == Loaded(page, at)[..n - 1] + [page(at + n).cells[n - 1]];
    }
  }

  lemma AttemptAlong(page: nat -> Page, k: nat, at: nat)
    requires k < ATTEMPTS && Along(page, at) == Client(k, Resting, [])
    ensures if Succeeds(page, at) then Along(page, at + 7) == Client(ATTEMPTS, Resting, [Taken(page(at).number, Loaded(page, at))])
            else Along(page, Behind(page, at)) == Client(k + 1, Resting, [])
  {
    if GivesUp(page, at) {
      assert Along(page, at + 1) == Read(page(at), Along(page, at));
    } else {
      LoadsAlong(page, k, at, CELLS);
      assert Loaded(page, at)[..CELLS] == Loaded(page, at);
      assert Along(page, at + 7) == Read(page(at + 6), Along(page, at + 6));
    }
  }

  predicate EndsAlong(page: nat -> Page, f: Found) {
    match f
    case At(at) => Along(page, at + 7) == Client(ATTEMPTS, Resting, [Taken(page(at).number, Loaded(page, at))])
    case Nowhere(end) => Along(page, end) == Client(ATTEMPTS, Resting, [])
  }

  lemma {:induction false} SearchAlong(page: nat -> Page, k: nat, at: nat)
    requires k <= ATTEMPTS && Along(page, at) == Client(k, Resting, [])
    ensures EndsAlong(page, FirstSuccess(page, at, ATTEMPTS - k))
    decreases ATTEMPTS - k
  {
    if k < ATTEMPTS {
      AttemptAlong(page, k, at);
      var next := Behind(page, at);
      if Succeeds(page, at) {
        assert FirstSuccess(page, at, ATTEMPTS - k) == At(at);
      } else {
        SearchAlong(page, k + 1, next);
        assert FirstSuccess(page, at, ATTEMPTS - k) == FirstSuccess(page, next, ATTEMPTS - (k + 1));
      }
    }
  }

  /** A reader of the transition system takes what the program takes, whatever the writers do in between. */
  lemma ReadsAlike(page: nat -> Page, ok: bool, taken: Taken, used: nat)
    requires Takes(page, ok, taken, used)
    ensures Along(page, used) == Client(ATTEMPTS, Resting, if ok then [taken] else [])
  {
    SearchAlong(page, 0, 0);
  }
}
