/** The load phases (src/lifecycle.c:99-128): one writer that records each phase once, readers that try three times. */
module PhaseChannel {
  // The writer makes the number odd before it stores a time and even again behind it. A reader takes nothing from a page
  // of another generation, nor before the process has entered its number and its start time.

  import opened Seqlock

  const PHASES := 6
  const ATTEMPTS := 3

  datatype Writer = Idle | Writing(at: nat, phase: nat, time: nat)

  datatype Snapshot = Snapshot(number: nat, process: nat, started: nat, phases: seq<nat>)

  /** The channel with its cells. */
  type Phases = c: Channel | |c.cells| == PHASES witness Channel(0, [0, 0, 0, 0, 0, 0], [])

  /** The reader loads the process and the start before the phases. */
  datatype Client = Client(attempt: nat, step: nat, process: nat, started: nat, reader: Reader, accepted: seq<Snapshot>)

  datatype State = State(channel: Phases, process: nat, started: nat, writer: Writer, clients: map<nat, Client>)

  const ZERO: seq<nat> := [0, 0, 0, 0, 0, 0]
  const INIT := State(Channel(0, ZERO, [ZERO]), 0, 0, Idle, map[])

  datatype Event =
    | Inherit(process: nat)
    | StartClock(time: nat)
    | Phase(phase: nat, time: nat)
    | Advance
    | Start(client: nat)
    | Load(client: nat)

  function Write(s: State): State
  {
    if s.writer.Idle? then s
    else if s.writer.at == 0 then s.(channel := Bump(s.channel), writer := s.writer.(at := 1))
    else if s.writer.at == 1 then
      if s.writer.phase < PHASES then s.(channel := Put(s.channel, s.writer.phase, s.writer.time), writer := s.writer.(at := 2)) else s
    else s.(channel := Bump(s.channel), writer := Idle)
  }

  /** The next access of lifecycle_read. */
  function Read(s: State, r: Client): Client
  {
    var c := s.channel;
    if r.attempt >= ATTEMPTS then r
    else if r.reader.Resting? then
      if c.number % 2 == 1 then r.(attempt := r.attempt + 1) else r.(reader := Loading(c.number, []), step := 0)
    else if r.step == 0 then r.(process := s.process, step := 1)
    else if r.step == 1 then r.(started := s.started, step := 2)
    else if |r.reader.got| < PHASES then r.(reader := r.reader.(got := r.reader.got + [c.cells[|r.reader.got|]]))
    else if r.reader.number == c.number && r.process != 0 && r.started != 0 then
      Client(ATTEMPTS, 0, 0, 0, Resting, r.accepted + [Snapshot(r.reader.number, r.process, r.started, r.reader.got)])
    else r.(attempt := r.attempt + 1, reader := Resting)
  }

  function Next(s: State, e: Event): State
  {
    match e
    case Inherit(process) => if s.process == 0 then s.(process := process) else s
    case StartClock(time) => if s.process != 0 && s.started == 0 && s.writer.Idle? then s.(started := time) else s
    case Phase(phase, time) =>
      if s.writer.Idle? && 0 < phase < PHASES && s.channel.cells[phase] == 0 then s.(writer := Writing(0, phase, time)) else s
    case Advance => Write(s)
    case Start(client) =>
      if client !in s.clients then s.(clients := s.clients[client := Client(0, 0, 0, 0, Resting, [])])
      else if s.clients[client].attempt < ATTEMPTS then s
      else s.(clients := s.clients[client := s.clients[client].(attempt := 0)])
    case Load(client) =>
      if client in s.clients then s.(clients := s.clients[client := Read(s, s.clients[client])]) else s
  }

  function Run(s: State, es: seq<Event>): State
    decreases |es|
  {
    if es == [] then s else Run(Next(s, es[0]), es[1..])
  }

  // ------------------------------------------------------------------ invariants

  /** `late` has every phase of `early`, at the same time. */
  predicate Adds(early: seq<nat>, late: seq<nat>) {
    |early| == |late| && forall p :: 0 <= p < |early| && early[p] != 0 ==> late[p] == early[p]
  }

  ghost predicate Grows(c: Channel) {
    forall i, j :: 0 <= i <= j < |c.versions| ==> Adds(c.versions[i], c.versions[j])
  }

  ghost predicate Recorded(s: State) {
    && Sane(s.channel, PHASES) && Grows(s.channel)
    && Adds(s.channel.versions[|s.channel.versions| - 1], s.channel.cells)
    && (s.channel.number % 2 == 1 <==> s.writer.Writing? && 0 < s.writer.at)
    && (s.writer.Writing? ==> s.writer.phase < PHASES && s.writer.at <= 2)
    && (s.writer.Writing? && s.writer.at < 2 ==> s.channel.cells[s.writer.phase] == 0)
  }

  predicate IsVersion(s: State, t: Snapshot) {
    && t.number % 2 == 0 && t.number <= s.channel.number && t.number / 2 < |s.channel.versions|
    && s.channel.versions[t.number / 2] == t.phases
    && t.process == s.process != 0 && t.started == s.started != 0
  }

  ghost predicate Honest(s: State, r: Client) {
    && Follows(s.channel, r.reader)
    && (r.reader.Loading? && r.step > 0 && r.process != 0 ==> r.process == s.process)
    && (r.reader.Loading? && r.step > 1 && r.started != 0 ==> r.started == s.started)
    && (forall i :: 0 <= i < |r.accepted| ==> IsVersion(s, r.accepted[i]))
    && (forall i, j :: 0 <= i < j < |r.accepted| ==> r.accepted[i].number <= r.accepted[j].number)
    && (r.accepted != [] && r.reader.Loading? ==> r.accepted[|r.accepted| - 1].number <= r.reader.number)
  }

  ghost predicate Inv(s: State) {
    Recorded(s) && forall r :: r in s.clients ==> Honest(s, s.clients[r])
  }

  /** The writer's next access, which also keeps the page's other words. */
  lemma WriteKeeps(s: State)
    requires Recorded(s)
    ensures Recorded(Write(s)) && Moves(s, Write(s))
  {
    if s.writer.Writing? {
      if s.writer.at == 1 {
        PutKeeps(s.channel, PHASES, s.writer.phase, s.writer.time, Resting);
      } else {
        BumpKeeps(s.channel, PHASES, Resting);
      }
      if s.writer.at == 2 {
      }
    }
  }

  /** What a step of the writer side may do to the page. */
  ghost predicate Moves(s: State, t: State) {
    && t.clients == s.clients
    && (s.process != 0 ==> t.process == s.process) && (s.started != 0 ==> t.started == s.started)
    && (|| t.channel == s.channel
        || t.channel == Bump(s.channel)
        || (exists cell: nat, value: nat ::
              cell < |s.channel.cells| && s.channel.number % 2 == 1 && t.channel == Put(s.channel, cell, value)))
  }

  lemma ReadKeeps(s: State, r: Client)
    requires Sane(s.channel, PHASES) && Honest(s, r)
    ensures Honest(s, Read(s, r))
  {
    if r.attempt < ATTEMPTS && r.reader.Loading? && r.step > 1 {
      if |r.reader.got| < PHASES {
        LoadKeeps(s.channel, PHASES, r.reader);
      } else if r.reader.number == s.channel.number && r.process != 0 && r.started != 0 {
        WholeVersion(s.channel, PHASES, r.reader);
        assert IsVersion(s, Snapshot(r.reader.number, r.process, r.started, r.reader.got));
      }
    } else if r.attempt < ATTEMPTS && r.reader.Resting? && r.accepted != [] {
      assert IsVersion(s, r.accepted[|r.accepted| - 1]);
    }
  }

  lemma NextKeeps(s: State, e: Event)
    requires Inv(s)
    ensures Inv(Next(s, e))
  {
    var t := Next(s, e);
    match e
    case Load(client) =>
      if client in s.clients {
        ReadKeeps(s, s.clients[client]);
        UnharmedByClients(s, t);
      }
    case Start(client) => UnharmedByClients(s, t);
    case Advance =>
      WriteKeeps(s);
      UnharmedByPage(s, t);
    case _ => UnharmedByPage(s, t);
  }

  /** The writer's side leaves every reader honest. */
  lemma UnharmedByPage(s: State, t: State)
    requires Inv(s) && Moves(s, t) && Recorded(t)
    ensures Inv(t)
  {
    forall r | r in t.clients ensures Honest(t, t.clients[r]) {
      assert Honest(s, s.clients[r]);
    }
  }

  /** The clients' own steps leave the page alone. */
  lemma UnharmedByClients(s: State, t: State)
    requires Inv(s) && t == s.(clients := t.clients)
    requires forall r :: r in t.clients ==> Honest(s, t.clients[r])
    ensures Inv(t)
  {
    forall r | r in t.clients ensures Honest(t, t.clients[r]) {
      assert Honest(s, t.clients[r]);
    }
  }

  lemma {:induction false} RunKeeps(s: State, es: seq<Event>)
    requires Inv(s)
    ensures Inv(Run(s, es))
    decreases |es|
  {
    if es != [] {
      NextKeeps(s, es[0]);
      RunKeeps(Next(s, es[0]), es[1..]);
    }
  }

  /**
   In every interleaving an accepted snapshot is the phases as they were at one moment, with the child's own
   process and start; and a later one only adds phases.
   */
  lemma AcceptedMoment(es: seq<Event>, r: nat, i: nat, j: nat)
    ensures var s := Run(INIT, es);
      r in s.clients && i <= j < |s.clients[r].accepted| ==>
        var early, late := s.clients[r].accepted[i], s.clients[r].accepted[j];
        && IsVersion(s, early) && IsVersion(s, late)
        && early.number <= late.number && Adds(early.phases, late.phases)
  {
    RunKeeps(INIT, es);
    var s := Run(INIT, es);
    if r in s.clients && i <= j < |s.clients[r].accepted| {
      assert IsVersion(s, s.clients[r].accepted[i]) && IsVersion(s, s.clients[r].accepted[j]);
    }
  }

  /** Exactly a phase that is known and new is recorded, with three accesses and under the next even number. */
  lemma PhaseRecorded(es: seq<Event>, phase: nat, time: nat)
    requires Run(INIT, es).writer.Idle?
    ensures var s := Run(INIT, es);
      var t := Write(Write(Write(Next(s, Phase(phase, time)))));
      if 1 <= phase <= 5 && s.channel.cells[phase] == 0 then
        var cells := s.channel.cells[phase := time];
        t == s.(channel := Channel(s.channel.number + 2, cells, s.channel.versions + [cells]))
      else t == s
  {
    RunKeeps(INIT, es);
  }

  function Reads(s: State, r: Client, n: nat): Client
    decreases n
  {
    if n == 0 then r else Reads(s, Read(s, r), n - 1)
  }

  lemma {:induction false} LoadsRest(s: State, r: Client)
    requires r.attempt < ATTEMPTS && r.step == 2 && r.reader.Loading? && |r.reader.got| <= PHASES
    requires r.reader.number == s.channel.number && r.reader.got == s.channel.cells[..|r.reader.got|]
    requires r.process == s.process != 0 && r.started == s.started != 0
    ensures Reads(s, r, PHASES + 1 - |r.reader.got|) ==
      Client(ATTEMPTS, 0, 0, 0, Resting, r.accepted + [Snapshot(s.channel.number, s.process, s.started, s.channel.cells)])
    decreases PHASES - |r.reader.got|
  {
    var n := |r.reader.got|;
    if n < PHASES {
      assert s.channel.cells[..n + 1] == s.channel.cells[..n] + [s.channel.cells[n]];
      LoadsRest(s, Read(s, r));
    } else {
      assert s.channel.cells[..n] == s.channel.cells;
      assert Reads(s, r, 1) == Reads(s, Read(s, r), 0);
    }
  }

  /** An attempt during which nobody writes accepts what is there: ten accesses are enough. */
  lemma UndisturbedAccepts(s: State, r: Client)
    requires s.channel.number % 2 == 0 && s.process != 0 && s.started != 0
    requires r.attempt < ATTEMPTS && r.reader.Resting?
    ensures Reads(s, r, PHASES + 4) ==
      Client(ATTEMPTS, 0, 0, 0, Resting, r.accepted + [Snapshot(s.channel.number, s.process, s.started, s.channel.cells)])
  {
    var a := Read(s, r);
    var b := Read(s, a);
    var c := Read(s, b);
    LoadsRest(s, c);
    assert Reads(s, r, PHASES + 4) == Reads(s, a, PHASES + 3);
    assert Reads(s, a, PHASES + 3) == Reads(s, b, PHASES + 2);
  }

  function LoadsBy(client: nat, n: nat): seq<Event> {
    if n == 0 then [] else [Load(client)] + LoadsBy(client, n - 1)
  }

  lemma {:induction false} LoadsRun(s: State, client: nat, n: nat)
    requires client in s.clients
    ensures Run(s, LoadsBy(client, n)) == s.(clients := s.clients[client := Reads(s, s.clients[client], n)])
    decreases n
  {
    if n == 0 {
      assert s.clients[client := s.clients[client]] == s.clients;
    } else {
      var t := Next(s, Load(client));
      assert t == s.(clients := s.clients[client := Read(s, s.clients[client])]);
      assert LoadsBy(client, n)[1..] == LoadsBy(client, n - 1);
      LoadsRun(t, client, n - 1);
      SamePage(s, t, t.clients[client], n - 1);
      assert t.clients[client := Reads(s, t.clients[client], n - 1)] == s.clients[client := Reads(s, s.clients[client], n)];
    }
  }

  /** Readers see the page only, not each other. */
  lemma {:induction false} SamePage(s: State, t: State, r: Client, n: nat)
    requires t == s.(clients := t.clients)
    ensures Reads(t, r, n) == Reads(s, r, n)
    decreases n
  {
    if n > 0 {
      SamePage(s, t, Read(s, r), n - 1);
    }
  }

  /** A new or finished reader that starts and is left alone has accepted the current phases behind ten loads. */
  lemma ClientReads(es: seq<Event>, client: nat)
    requires var s := Run(INIT, es);
      && s.channel.number % 2 == 0 && s.process != 0 && s.started != 0
      && (client in s.clients ==> s.clients[client].attempt == ATTEMPTS && s.clients[client].reader.Resting?)
    ensures var s := Run(INIT, es);
      var t := Run(Next(s, Start(client)), LoadsBy(client, 10));
      && t.channel == s.channel && client in t.clients
      && t.clients[client].accepted ==
         (if client in s.clients then s.clients[client].accepted else [])
         + [Snapshot(s.channel.number, s.process, s.started, s.channel.cells)]
  {
    var s := Run(INIT, es);
    var t := Next(s, Start(client));
    LoadsRun(t, client, 10);
    UndisturbedAccepts(t, t.clients[client]);
  }

  /** The process and then its start are written once each, and the start only when the process is known. */
  lemma HeaderOnce(s: State, process: nat, time: nat)
    ensures Next(s, Inherit(process)) == if s.process == 0 then s.(process := process) else s
    ensures s.writer.Idle? ==>
      Next(s, StartClock(time)) == if s.process != 0 && s.started == 0 then s.(started := time) else s
  {
  }

  // ------------------------------------------------------------------ the program

  class Page {
    var number: nat
    const phases: array<nat>
    ghost var versions: seq<seq<nat>>

    ghost predicate Valid()
      reads this
    {
      phases.Length == PHASES
    }

    ghost function Abs(): Channel
      requires Valid()
      reads this, phases
    {
      Channel(number, phases[..], versions)
    }

    constructor ()
      ensures Valid() && fresh(phases) && Abs() == INIT.channel
    {
      number, versions := 0, [ZERO];
      phases := new nat[PHASES](_ => 0);
    }

    /** lifecycle_phase, uninterrupted: a phase is recorded once, between two increments. */
    method LifecyclePhase(phase: nat, time: nat)
      requires Valid() && number % 2 == 0
      modifies this, phases
      ensures Valid()
      ensures Abs() ==
        if 0 < phase < PHASES && old(phases[..])[phase] == 0 then Bump(Put(Bump(old(Abs())), phase, time)) else old(Abs())
    {
      if phase == 0 || phase >= PHASES || phases[phase] != 0 {
        return;
      }
      number := number + 1;
      phases[phase] := time;
      versions := versions + [phases[..]];
      number := number + 1;
    }
  }

  /** The client behind `n` accesses that find the page as `page(0)`, `page(1)` and so on. */
  function Along(page: nat -> State, n: nat): Client
    decreases n
  {
    if n == 0 then Client(0, 0, 0, 0, Resting, []) else Read(page(n - 1), Along(page, n - 1))
  }

  /** What an attempt that begins with access `at` loads behind the process and the start. */
  function Loaded(page: nat -> State, at: nat): seq<nat> {
    seq(6, i requires 0 <= i < 6 => page(at + 3 + i).channel.cells[i])
  }

  function Seen(page: nat -> State, at: nat): Snapshot {
    Snapshot(page(at).channel.number, page(at + 1).process, page(at + 2).started, Loaded(page, at))
  }

  /** An attempt gives up at its first access while a phase is being written. */
  predicate GivesUp(page: nat -> State, at: nat) {
    page(at).channel.number % 2 == 1
  }

  /** An even number that still stands behind the loads, of a process that has said who it is and when it started. */
  predicate Succeeds(page: nat -> State, at: nat) {
    !GivesUp(page, at) && page(at + 9).channel.number == page(at).channel.number
    && page(at + 1).process != 0 && page(at + 2).started != 0
  }

  /** Where the next attempt begins. */
  function Behind(page: nat -> State, at: nat): nat {
    if GivesUp(page, at) then at + 1 else at + 10
  }

  datatype Found = At(at: nat) | Nowhere(end: nat)

  /** The first of `n` attempts that succeeds. */
  function FirstSuccess(page: nat -> State, at: nat, n: nat): Found
    decreases n, page(at).process
  {
    if n == 0 then Nowhere(at) else if Succeeds(page, at) then At(at) else FirstSuccess(page, Behind(page, at), n - 1)
  }

  /** The first of three attempts that succeeds is taken, and only three failures are a failure. */
  predicate Takes(page: nat -> State, ok: bool, taken: Snapshot, used: nat) {
    match FirstSuccess(page, 0, 3)
    case At(at) => ok && taken == Seen(page, at) && used == at + 10
    case Nowhere(end) => !ok && used == end
  }

  /** The page stands still, at a version that can be accepted. */
  ghost predicate Standing(page: nat -> State, s: State) {
    (forall n: nat :: page(n) == s) && s.channel.number % 2 == 0 && s.process != 0 && s.started != 0
  }

  function Snap(s: State): Snapshot {
    Snapshot(s.channel.number, s.process, s.started, s.channel.cells)
  }

  /** What is taken was loaded from this access on, under one even number. */
  ghost predicate WholeFrom(page: nat -> State, at: nat, taken: Snapshot) {
    && |taken.phases| == PHASES && taken.number % 2 == 0
    && taken.number == page(at).channel.number == page(at + PHASES + 3).channel.number
    && taken.process == page(at + 1).process != 0 && taken.started == page(at + 2).started != 0
    && forall i :: 0 <= i < PHASES ==> taken.phases[i] == page(at + 3 + i).channel.cells[i]
  }

  lemma TakenWhole(page: nat -> State, at: nat, taken: Snapshot)
    requires Succeeds(page, at) && taken == Seen(page, at)
    ensures WholeFrom(page, at, taken)
  {
  }

  /** The loads of the phases. */
  method LoadPhases(page: nat -> State, from: nat) returns (got: seq<nat>)
    requires 3 <= from
    ensures |got| == PHASES && got == Loaded(page, from - 3)
  {
    got := [];
    while |got| < PHASES
      invariant |got| <= PHASES
      invariant forall i :: 0 <= i < |got| ==> got[i] == page(from + i).channel.cells[i]
    {
      got := got + [page(from + |got|).channel.cells[|got|]];
    }
  }

  /** lifecycle_read; its n-th access finds the page as `page(n)`. On a page that stands still it succeeds at once. */
  method LifecycleRead(page: nat -> State) returns (ok: bool, taken: Snapshot, used: nat)
    ensures Takes(page, ok, taken, used)
    ensures forall s :: Standing(page, s) ==> ok && taken == Snap(s) && used == PHASES + 4
    ensures ok ==> used >= PHASES + 4 && WholeFrom(page, used - PHASES - 4, taken)
    ensures used <= ATTEMPTS * (PHASES + 4)
  {
    used := 0;
    var attempt := 0;
    while attempt < ATTEMPTS
      invariant attempt <= ATTEMPTS && used <= attempt * (PHASES + 4)
      invariant FirstSuccess(page, used, 3 - attempt) == FirstSuccess(page, 0, 3)
    {
      ghost var at := used;
      attempt := attempt + 1;
      var number := page(used).channel.number;
      used := used + 1;
      if number % 2 == 1 {
        continue;
      }
      var process, started := page(used).process, page(used + 1).started;
      used := used + 2;
      var got := LoadPhases(page, used);
      used := used + PHASES;
      var again := page(used).channel.number;
      used := used + 1;
      if number == again && process != 0 && started != 0 {
        taken := Snapshot(number, process, started, got);
        TakenWhole(page, at, taken);
        StandingTaken(page);
        return true, taken, used;
      }
    }
    StandingTaken(page);
    return false, Snapshot(0, 0, 0, []), used;
  }

  lemma StandingTaken(page: nat -> State)
    ensures forall s :: Standing(page, s) ==> FirstSuccess(page, 0, 3) == At(0) && Seen(page, 0) == Snap(s)
  {
    forall s | Standing(page, s) ensures FirstSuccess(page, 0, 3) == At(0) && Seen(page, 0) == Snap(s) {
      assert page(0) == page(1) == page(2) == page(9) == s;
      forall i | 0 <= i < 6 ensures Loaded(page, 0)[i] == s.channel.cells[i] {
        assert page(3 + i) == s;
      }
    }
  }

  // ------------------------------------------------------------------ the transition system reads alike

  /** Between two attempts. */
  predicate Rests(r: Client, k: nat) {
    r.attempt == k && r.reader.Resting? && r.accepted == []
  }

  lemma {:induction false} LoadsAlong(page: nat -> State, k: nat, at: nat, n: nat)
    requires k < ATTEMPTS && Rests(Along(page, at), k) && !GivesUp(page, at) && n <= PHASES
    ensures Along(page, at + 3 + n) ==
      Client(k, 2, page(at + 1).process, page(at + 2).started, Loading(page(at).channel.number, Loaded(page, at)[..n]), [])
    decreases n
  {
    if n > 0 {
      LoadsAlong(page, k, at, n - 1);
      assert Loaded(page, at)[..n] == Loaded(page, at)[..n - 1] + [page(at + 2 + n).channel.cells[n - 1]];
    } else {
      HeadAlong(page, k, at);
    }
  }

  lemma HeadAlong(page: nat -> State, k: nat, at: nat)
    requires k < ATTEMPTS && Rests(Along(page, at), k) && !GivesUp(page, at)
    ensures Along(page, at + 3) == Client(k, 2, page(at + 1).process, page(at + 2).started, Loading(page(at).channel.number, []), [])
  {
    assert Along(page, at + 1) == Read(page(at), Along(page, at));
    assert Along(page, at + 2) == Read(page(at + 1), Along(page, at + 1));
  }

  lemma AttemptAlong(page: nat -> State, k: nat, at: nat)
    requires k < ATTEMPTS && Rests(Along(page, at), k)
    ensures if Succeeds(page, at) then Along(page, at + 10) == Client(ATTEMPTS, 0, 0, 0, Resting, [Seen(page, at)])
            else Rests(Along(page, Behind(page, at)), k + 1)
  {
    if GivesUp(page, at) {
      assert Along(page, at + 1) == Read(page(at), Along(page, at));
    } else {
      LoadsAlong(page, k, at, PHASES);
      assert Loaded(page, at)[..PHASES] == Loaded(page, at);
      assert Along(page, at + 10) == Read(page(at + 9), Along(page, at + 9));
    }
  }

  predicate EndsAlong(page: nat -> State, f: Found) {
    match f
    case At(at) => Along(page, at + 10) == Client(ATTEMPTS, 0, 0, 0, Resting, [Seen(page, at)])
    case Nowhere(end) => Rests(Along(page, end), ATTEMPTS)
  }

  lemma {:induction false} SearchAlong(page: nat -> State, k: nat, at: nat)
    requires k <= ATTEMPTS && Rests(Along(page, at), k)
    ensures EndsAlong(page, FirstSuccess(page, at, ATTEMPTS - k))
    decreases ATTEMPTS - k
  {
    if k < ATTEMPTS {
      AttemptAlong(page, k, at);
      var next := Behind(page, at);
      if Succeeds(page, at) {
        assert FirstSuccess(page, at, ATTEMPTS - k) == At(at);
      } else {
        SearchAlong(page, k + 1, next);
        assert FirstSuccess(page, at, ATTEMPTS - k) == FirstSuccess(page, next, ATTEMPTS - (k + 1));
      }
    }
  }

  /** A reader of the transition system takes what the program takes, whatever the writer does in between. */
  lemma ReadsAlike(page: nat -> State, ok: bool, taken: Snapshot, used: nat)
    requires Takes(page, ok, taken, used)
    ensures Along(page, used).attempt == ATTEMPTS && Along(page, used).accepted == if ok then [taken] else []
  {
    SearchAlong(page, 0, 0);
  }
}
