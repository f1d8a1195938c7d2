/** The supervisor of the one geistd child: every critical section under `app.mutex` is one step. */
module Supervisor {

  // stop_child releases the mutex while it waits, so several threads can be inside it at once.
  // Sources: src/app/child.c, observe.c, routes.c, chat.c, compare.c, jobs.c and status.c.

  /** The turns of the wait loop in stop_child before it sends SIGKILL. */
  const STOP_TURNS := 20

  /** app.child, app.stopping and app.generation, with what the operating system knows of the processes. */
  datatype Child = Child(
    pid: nat, ready: bool, stopping: bool, generation: nat, lastPid: nat,
    // spawned and not yet waited for; of these ended; sent a signal by us; ended unsignalled
    unreaped: set<nat>, dead: set<nat>, signalled: set<nat>, ownDeath: set<nat>,
    // signals sent to a process that was already waited for
    strays: nat)

  /** The monitor thread; `restart` when the GPU fallback may follow the stop. */
  datatype Monitor = Watching | MonitorStops(turn: nat, restart: bool)

  datatype Job = NoJob | Working | JobStops(turn: nat)

  datatype Comparison = NoComparison | Between | SwitchStops(turn: nat) | Measuring | MeasureStops(turn: nat)

  /** The admitted request, with the generation and child it was admitted to. */
  datatype Request = NoRequest | Running(gen: nat, pid: nat) | RequestStops(turn: nat)

  /** A stop, remove or execution request inside stop_child; an execution change restarts the child. */
  datatype Visitor = Visitor(turn: nat, restart: bool)

  datatype State = State(
    child: Child,
    // app.child.generating, app.job.running, app.job.activate, app.compare.running
    generating: bool, jobRunning: bool, jobActivate: bool, compareRunning: bool,
    // where each thread is
    monitor: Monitor, job: Job, comparison: Comparison, request: Request, visitors: map<nat, Visitor>)

  const INIT := State(Child(0, false, false, 0, 0, {}, {}, {}, {}, 0),
                      false, false, false, false,
                      Watching, NoJob, NoComparison, NoRequest, map[])

  datatype Event =
    | Exit(p: nat)
    | PollCancel | PollTimeout(ok: bool) | PollMismatch | PollReady | PollReap(ok: bool) | MonitorWakes(ok: bool)
    | Admit | RequestEnds(failed: bool, ok: bool) | RequestWakes(ok: bool)
    | BeginJob(activate: bool) | JobEnds(start: bool, ok: bool) | JobWakes(ok: bool)
    | BeginComparison | Switch(ok: bool) | SwitchWakes(ok: bool)
    | BeginMeasure | MeasureEnds(failed: bool, ok: bool) | MeasureWakes(ok: bool) | EndComparison
    | ExecutionChange(x: nat, ok: bool) | StopOrRemove(x: nat) | VisitorWakes(x: nat, ok: bool)

  // ------------------------------------------------------------------ stop_child and start_child_mode

  function Signal(c: Child): Child {
    if c.pid == 0 then c
    else c.(signalled := c.signalled + {c.pid}, strays := c.strays + if c.pid in c.unreaped then 0 else 1)
  }

  /** Readiness is revoked and SIGTERM sent before the mutex is released. */
  function Enter(c: Child): Child {
    Signal(c).(ready := false, stopping := true)
  }

  /** waitpid with WNOHANG reports the child, or that there is none. */
  predicate CanReap(c: Child) {
    c.pid == 0 || c.pid !in c.unreaped || c.pid in c.dead
  }

  /** An ended child is waited for, and its id is still kept. */
  function Waited(c: Child): Child {
    if CanReap(c) then c.(unreaped := c.unreaped - {c.pid}, dead := c.dead - {c.pid}) else c
  }

  /** The child is waited for; the end of stop_child. */
  function Leave(c: Child): Child {
    c.(unreaped := c.unreaped - {c.pid}, dead := c.dead - {c.pid}, pid := 0, stopping := false, ready := false)
  }

  /** The wait loop is over, after the sleep that ended turn `turn`. */
  predicate Over(c: Child, turn: nat) {
    turn + 1 >= STOP_TURNS || CanReap(c)
  }

  /** Behind the loop: SIGKILL and a blocking waitpid if the child is still there. */
  function AfterLoop(c: Child): Child {
    if CanReap(c) then Leave(c) else Leave(Signal(c))
  }

  /** What is left of start_child_mode behind its stop_child; `ok` when the spawn succeeds. */
  function Restarted(c: Child, ok: bool): Child {
    if !ok then c
    else c.(pid := c.lastPid + 1, lastPid := c.lastPid + 1, unreaped := c.unreaped + {c.lastPid + 1}, generation := c.generation + 1)
  }

  // ------------------------------------------------------------------ the steps

  predicate Polls(s: State) {
    s.monitor.Watching? && s.child.pid != 0 && !s.child.stopping
  }

  /** poll_child calls stop_child; the GPU fallback may start a child behind it. */
  function PollStop(s: State, restart: bool, ok: bool): State {
    var c := Enter(s.child);
    if CanReap(c) then s.(child := Restarted(Leave(c), restart && ok))
    else s.(child := c, monitor := MonitorStops(0, restart))
  }

  function MonitorStep(s: State, e: Event): State {
    match e
    case PollCancel => if Polls(s) && !s.child.ready then PollStop(s, false, false) else s
    case PollTimeout(ok) =>
      // the program waits for the child before it looks at the clock
      if Polls(s) && !s.child.ready then PollStop(s.(child := Waited(s.child)), true, ok) else s
    case PollMismatch => if Polls(s) && !s.child.ready then PollStop(s, false, false) else s
    case PollReady => if Polls(s) && !s.child.ready then s.(child := s.child.(ready := true)) else s
    case PollReap(ok) => if Polls(s) && CanReap(s.child) then s.(child := Restarted(Leave(s.child), ok)) else s
    case MonitorWakes(ok) =>
      if !s.monitor.MonitorStops? then s
      else if !Over(s.child, s.monitor.turn) then s.(monitor := s.monitor.(turn := s.monitor.turn + 1))
      else s.(child := Restarted(AfterLoop(s.child), s.monitor.restart && ok), monitor := Watching)
    case _ => s
  }

  /** The guard of generate and of completions. */
  predicate Admits(s: State) {
    s.child.ready && !s.compareRunning && !s.generating && !(s.jobRunning && s.jobActivate)
  }

  /** The end of observation_end, with the child it leaves behind. */
  function RequestDone(s: State, c: Child): State {
    s.(child := c, generating := false, request := NoRequest)
  }

  function RequestStep(s: State, e: Event): State {
    match e
    case Admit =>
      if Admits(s) then s.(generating := true, request := Running(s.child.generation, s.child.pid)) else s
    case RequestEnds(failed, ok) =>
      if !s.request.Running? then s
      else if !failed then RequestDone(s, s.child)
      else var c := Enter(s.child);
        if CanReap(c) then RequestDone(s, Restarted(Leave(c), ok))
        else s.(child := c, request := RequestStops(0))
    case RequestWakes(ok) =>
      if !s.request.RequestStops? then s
      else if !Over(s.child, s.request.turn) then s.(request := RequestStops(s.request.turn + 1))
      else RequestDone(s, Restarted(AfterLoop(s.child), ok))
    case _ => s
  }

  /** The guard of select, setup and download; a background download may start while a request runs. */
  predicate TakesJob(s: State, activate: bool) {
    !s.child.stopping && !s.compareRunning && !s.jobRunning && if activate then !s.generating else s.child.pid != 0
  }

  function JobDone(s: State, c: Child): State {
    s.(child := c, jobRunning := false, job := NoJob)
  }

  function JobStep(s: State, e: Event): State {
    match e
    case BeginJob(activate) =>
      if TakesJob(s, activate) then s.(jobRunning := true, jobActivate := activate, job := Working) else s
    case JobEnds(start, ok) =>
      if !s.job.Working? then s
      else if !(start && s.jobActivate) then JobDone(s, s.child)
      else var c := Enter(s.child);
        if CanReap(c) then JobDone(s, Restarted(Leave(c), ok))
        else s.(child := c, job := JobStops(0))
    case JobWakes(ok) =>
      if !s.job.JobStops? then s
      else if !Over(s.child, s.job.turn) then s.(job := JobStops(s.job.turn + 1))
      else JobDone(s, Restarted(AfterLoop(s.child), ok))
    case _ => s
  }

  predicate TakesComparison(s: State) {
    s.child.ready && !s.generating && !s.jobRunning && !s.compareRunning
  }

  function MeasureDone(s: State, c: Child): State {
    s.(child := c, generating := false, comparison := Between)
  }

  function ComparisonStep(s: State, e: Event): State {
    match e
    case BeginComparison =>
      if TakesComparison(s) then s.(compareRunning := true, comparison := Between) else s
    case Switch(ok) =>
      if !s.comparison.Between? then s
      else var c := Enter(s.child);
        if CanReap(c) then s.(child := Restarted(Leave(c), ok)) else s.(child := c, comparison := SwitchStops(0))
    case SwitchWakes(ok) =>
      if !s.comparison.SwitchStops? then s
      else if !Over(s.child, s.comparison.turn) then s.(comparison := SwitchStops(s.comparison.turn + 1))
      else s.(child := Restarted(AfterLoop(s.child), ok), comparison := Between)
    case BeginMeasure =>
      if s.comparison.Between? then s.(generating := true, comparison := Measuring) else s
    case MeasureEnds(failed, ok) =>
      if !s.comparison.Measuring? then s
      else if !failed then MeasureDone(s, s.child)
      else var c := Enter(s.child);
        if CanReap(c) then MeasureDone(s, Restarted(Leave(c), ok)) else s.(child := c, comparison := MeasureStops(0))
    case MeasureWakes(ok) =>
      if !s.comparison.MeasureStops? then s
      else if !Over(s.child, s.comparison.turn) then s.(comparison := MeasureStops(s.comparison.turn + 1))
      else MeasureDone(s, Restarted(AfterLoop(s.child), ok))
    case EndComparison =>
      if s.comparison.Between? then s.(compareRunning := false, comparison := NoComparison) else s
    case _ => s
  }

  /** The guard of an execution change. */
  predicate TakesExecution(s: State) {
    s.child.ready && !s.compareRunning && !s.generating && !s.jobRunning
  }

  /** The guard of an explicit stop and of a removal. */
  predicate TakesStop(s: State) {
    !s.child.stopping && !s.compareRunning && !s.generating && !s.jobRunning
  }

  function VisitorStep(s: State, e: Event): State {
    match e
    case ExecutionChange(x, ok) =>
      if x in s.visitors || !TakesExecution(s) then s
      else var c := Enter(s.child);
        if CanReap(c) then s.(child := Restarted(Leave(c), ok))
        else s.(child := c, visitors := s.visitors[x := Visitor(0, true)])
    case StopOrRemove(x) =>
      if x in s.visitors || !TakesStop(s) then s
      else var c := Enter(s.child);
        if CanReap(c) then s.(child := Leave(c)) else s.(child := c, visitors := s.visitors[x := Visitor(0, false)])
    case VisitorWakes(x, ok) =>
      if x !in s.visitors then s
      else var v := s.visitors[x];
        if !Over(s.child, v.turn) then s.(visitors := s.visitors[x := v.(turn := v.turn + 1)])
        else s.(child := Restarted(AfterLoop(s.child), v.restart && ok), visitors := s.visitors - {x})
    case _ => s
  }

  /** A process ends, by itself or because of a signal. */
  function Ended(c: Child, p: nat): Child {
    if p !in c.unreaped || p in c.dead then c
    else c.(dead := c.dead + {p}, ownDeath := if p in c.signalled then c.ownDeath else c.ownDeath + {p})
  }

  /** One event; an event whose guard does not hold changes nothing. */
  function Next(s: State, e: Event): State {
    match e
    case Exit(p) => s.(child := Ended(s.child, p))
    case PollCancel => MonitorStep(s, e)
    case PollTimeout(_) => MonitorStep(s, e)
    case PollMismatch => MonitorStep(s, e)
    case PollReady => MonitorStep(s, e)
    case PollReap(_) => MonitorStep(s, e)
    case MonitorWakes(_) => MonitorStep(s, e)
    case Admit => RequestStep(s, e)
    case RequestEnds(_, _) => RequestStep(s, e)
    case RequestWakes(_) => RequestStep(s, e)
    case BeginJob(_) => JobStep(s, e)
    case JobEnds(_, _) => JobStep(s, e)
    case JobWakes(_) => JobStep(s, e)
    case ExecutionChange(_, _) => VisitorStep(s, e)
    case StopOrRemove(_) => VisitorStep(s, e)
    case VisitorWakes(_, _) => VisitorStep(s, e)
    case _ => ComparisonStep(s, e)
  }

  /** Any interleaving is a sequence of events. */
  function Exec(s: State, es: seq<Event>): State
    decreases |es|
  {
    if es == [] then s else Exec(Next(s, es[0]), es[1..])
  }

  // ------------------------------------------------------------------ invariants

  /**
   No process is lost: whatever was spawned and not waited for is app.child.pid.
   A ready child is there and nobody is stopping it; only a child being stopped was sent a signal.
   */
  ghost predicate Sound(c: Child) {
    && c.unreaped == (if c.pid == 0 then {} else {c.pid})
    && c.dead <= c.unreaped
    && c.dead <= c.signalled + c.ownDeath
    && c.pid <= c.lastPid
    && (forall p :: p in c.signalled || p in c.ownDeath ==> p <= c.lastPid)
    && (c.ready ==> c.pid != 0 && !c.stopping)
    && (c.pid != 0 && !c.stopping ==> c.pid !in c.signalled)
  }

  /** The flags say what the threads do, and keep activation, comparison and requests apart. */
  ghost predicate Exclusive(s: State) {
    && (s.jobRunning <==> !s.job.NoJob?)
    && (s.job.JobStops? ==> s.jobActivate)
    && (s.compareRunning <==> !s.comparison.NoComparison?)
    && (s.generating <==> !s.request.NoRequest? || s.comparison.Measuring? || s.comparison.MeasureStops?)
    && (s.generating ==> !(s.jobRunning && s.jobActivate))
    && (s.compareRunning ==> !s.jobRunning && s.request.NoRequest?)
    && (s.monitor.MonitorStops? ==> !s.child.ready)
  }

  ghost predicate Inv(s: State) {
    Sound(s.child) && Exclusive(s)
  }

  /** What stop_child, and start_child_mode behind it, do to the child. */
  lemma StopSound(c: Child, ok: bool)
    requires Sound(c)
    ensures Sound(Enter(c)) && !Enter(c).ready
    ensures Sound(Restarted(Leave(Enter(c)), ok)) && !Restarted(Leave(Enter(c)), ok).ready
    ensures Sound(Restarted(Leave(c), ok)) && !Restarted(Leave(c), ok).ready
    ensures Sound(Restarted(AfterLoop(c), ok)) && !Restarted(AfterLoop(c), ok).ready
  {
  }

  /** A child that has ended is waited for and then stopped all the same. */
  lemma TimeoutSound(c: Child, ok: bool)
    requires Sound(c) && c.pid != 0 && CanReap(c)
    ensures var d := Enter(Waited(c));
      && CanReap(d) && d.strays == c.strays + 1
      && Sound(Restarted(Leave(d), ok)) && !Restarted(Leave(d), ok).ready
  {
  }

  lemma PollStopKeeps(s: State, restart: bool, ok: bool)
    requires Inv(s)
    ensures Inv(PollStop(s, restart, ok))
  {
    StopSound(s.child, restart && ok);
  }

  lemma MonitorWakeKeeps(s: State, ok: bool)
    requires Inv(s)
    ensures Inv(MonitorStep(s, MonitorWakes(ok)))
  {
    if s.monitor.MonitorStops? && Over(s.child, s.monitor.turn) {
      var starts := s.monitor.restart && ok;
      StopSound(s.child, starts);
      assert MonitorStep(s, MonitorWakes(ok)).child == Restarted(AfterLoop(s.child), starts);
    }
  }

  lemma MonitorKeeps(s: State, e: Event)
    requires Inv(s)
    ensures Inv(MonitorStep(s, e))
  {
    match e
    case PollCancel => PollStopKeeps(s, false, false);
    case PollTimeout(ok) =>
      if Polls(s) && CanReap(s.child) {
        TimeoutSound(s.child, ok);
      } else {
        PollStopKeeps(s, true, ok);
      }
    case PollMismatch => PollStopKeeps(s, false, false);
    case PollReap(ok) => StopSound(s.child, ok);
    case MonitorWakes(ok) => MonitorWakeKeeps(s, ok);
    case _ =>
  }

  lemma RequestKeeps(s: State, e: Event)
    requires Inv(s)
    ensures Inv(RequestStep(s, e))
  {
    StopSound(s.child, true);
    StopSound(s.child, false);
  }

  lemma JobKeeps(s: State, e: Event)
    requires Inv(s)
    ensures Inv(JobStep(s, e))
  {
    StopSound(s.child, true);
    StopSound(s.child, false);
  }

  lemma ComparisonKeeps(s: State, e: Event)
    requires Inv(s)
    ensures Inv(ComparisonStep(s, e))
  {
    StopSound(s.child, true);
    StopSound(s.child, false);
  }

  lemma VisitorKeeps(s: State, e: Event)
    requires Inv(s)
    ensures Inv(VisitorStep(s, e))
  {
    StopSound(s.child, true);
    StopSound(s.child, false);
  }

  lemma NextKeeps(s: State, e: Event)
    requires Inv(s)
    ensures Inv(Next(s, e))
  {
    MonitorKeeps(s, e);
    RequestKeeps(s, e);
    JobKeeps(s, e);
    ComparisonKeeps(s, e);
    VisitorKeeps(s, e);
  }

  lemma {:induction false} ExecKeeps(s: State, es: seq<Event>)
    requires Inv(s)
    ensures Inv(Exec(s, es))
    decreases |es|
  {
    if es != [] {
      NextKeeps(s, es[0]);
      ExecKeeps(Next(s, es[0]), es[1..]);
    }
  }

  /** In every run: no process is lost, and activation, comparison, request and readiness exclude each other. */
  lemma EveryRun(es: seq<Event>)
    ensures var s := Exec(INIT, es);
      && (forall p :: p in s.child.unreaped ==> p == s.child.pid)
      && (s.child.ready ==> s.child.pid != 0 && !s.child.stopping)
      && !(s.generating && s.jobRunning && s.jobActivate)
      && !(s.compareRunning && s.jobRunning)
  {
    ExecKeeps(INIT, es);
  }

  /** Beside the monitor and the visitors, at most one thread is inside stop_child. */
  lemma OneFlagHolder(es: seq<Event>)
    ensures var s := Exec(INIT, es);
      && !(s.job.JobStops? && s.request.RequestStops?)
      && !(s.job.JobStops? && (s.comparison.SwitchStops? || s.comparison.MeasureStops?))
      && !(s.request.RequestStops? && (s.comparison.SwitchStops? || s.comparison.MeasureStops?))
  {
    ExecKeeps(INIT, es);
  }

  /** A poll whose loading time has run out finds the loading child already ended. */
  predicate FindsEnded(s: State, e: Event) {
    e.PollTimeout? && Polls(s) && !s.child.ready && CanReap(s.child)
  }

  /** The signals of stop_child reach a process that is still owned. */
  lemma StopOwned(c: Child)
    requires Sound(c)
    ensures Enter(c).strays == c.strays && AfterLoop(c).strays == c.strays
  {
  }

  lemma MonitorStrays(s: State, e: Event)
    requires Inv(s)
    ensures MonitorStep(s, e).child.strays == s.child.strays + if FindsEnded(s, e) then 1 else 0
  {
    StopOwned(s.child);
    if FindsEnded(s, e) {
      TimeoutSound(s.child, true);
    }
  }

  lemma OthersStray(s: State, e: Event)
    requires Inv(s)
    ensures RequestStep(s, e).child.strays == JobStep(s, e).child.strays == s.child.strays
    ensures ComparisonStep(s, e).child.strays == VisitorStep(s, e).child.strays == s.child.strays
  {
    StopOwned(s.child);
  }

  /**
   In every run: a step signals a process that was already waited for exactly when a timed-out poll finds the
   loading child already ended. Every other signal goes to the spawned process that was not waited for.
   */
  lemma StraySignalIff(es: seq<Event>, e: Event)
    ensures var s := Exec(INIT, es);
      Next(s, e).child.strays == s.child.strays + if FindsEnded(s, e) then 1 else 0
  {
    ExecKeeps(INIT, es);
    var s := Exec(INIT, es);
    MonitorStrays(s, e);
    OthersStray(s, e);
  }

  /** A child that ends while it loads, and is polled only after its time has run out. */
  const ENDED: seq<Event> := [BeginJob(true), JobEnds(true, true)] + [Exit(1), PollTimeout(true)]

  lemma StraySignal()
    ensures Exec(INIT, ENDED).child.strays == 1
  {
    var a := Quiet(Child(1, false, false, 1, 1, {1}, {}, {}, {}, 0), Watching, map[]);
    ExecConcat(INIT, [BeginJob(true), JobEnds(true, true)], [Exit(1), PollTimeout(true)]);
    ExecTwo(INIT, BeginJob(true), JobEnds(true, true));
    assert Exec(INIT, [BeginJob(true), JobEnds(true, true)]) == a;
    ExecTwo(a, Exit(1), PollTimeout(true));
  }

  /** In terms of the threads: a request is admitted exactly when the child is ready and nobody else owns it. */
  lemma AdmitsIffIdle(es: seq<Event>)
    ensures var s := Exec(INIT, es);
      Admits(s) <==> s.child.ready && s.request.NoRequest? && s.comparison.NoComparison? && (s.job.NoJob? || !s.jobActivate)
  {
    ExecKeeps(INIT, es);
  }

  /** Behind a failed request its child is gone: no new request is admitted before another child is ready. */
  lemma FailedRequestReplaces(es: seq<Event>, e: Event)
    ensures var s, t := Exec(INIT, es), Next(Exec(INIT, es), e);
      (e.RequestWakes? || (e.RequestEnds? && e.failed)) && s.request != NoRequest && t.request.NoRequest? ==>
        && !t.generating && !t.child.ready && !Admits(t)
        && s.child.pid !in t.child.unreaped
        && t.child.pid == (if e.ok then s.child.lastPid + 1 else 0)
        && t.child.generation == s.child.generation + (if e.ok then 1 else 0)
  {
    ExecKeeps(INIT, es);
  }

  // ------------------------------------------------------------------ a request and its generation

  /** No thread that will start a child is inside stop_child. */
  ghost predicate NoRestarter(s: State) {
    forall x :: x in s.visitors ==> !s.visitors[x].restart
  }

  /** The event is not the critical section that ends the request. */
  predicate Before(e: Event) {
    !e.RequestEnds?
  }

  /** While the request runs: its child died by itself, or its child is untouched, or is gone with none started. */
  ghost predicate Held(s: State, gen: nat, pid: nat) {
    && s.request == Running(gen, pid)
    && (pid in s.child.ownDeath || (
      && s.child.generation == gen
      && s.monitor.Watching?
      && NoRestarter(s)
      && (s.child.pid == 0 || (s.child.pid == pid && s.child.ready))))
  }

  lemma HeldNext(s: State, e: Event, gen: nat, pid: nat)
    requires Inv(s) && Held(s, gen, pid) && Before(e)
    ensures Held(Next(s, e), gen, pid)
  {
  }

  lemma {:induction false} HeldExec(s: State, es: seq<Event>, gen: nat, pid: nat)
    requires Inv(s) && Held(s, gen, pid)
    requires forall e :: e in es ==> Before(e)
    ensures Held(Exec(s, es), gen, pid)
    decreases |es|
  {
    if es != [] {
      NextKeeps(s, es[0]);
      HeldNext(s, es[0], gen, pid);
      HeldExec(Next(s, es[0]), es[1..], gen, pid);
    }
  }

  /** From the admission in `s` on, the run `es` starts no other child unless the admitted one died by itself. */
  ghost predicate KeepsGeneration(s: State, es: seq<Event>) {
    (forall e :: e in es ==> Before(e)) ==>
      var t := Exec(Next(s, Admit), es);
      t.child.generation == s.child.generation || s.child.pid in t.child.ownDeath
  }

  /** The visitor `x` wakes `n` times. */
  function Wakes(x: nat, n: nat): (es: seq<Event>)
    ensures forall e :: e in es ==> Before(e)
  {
    if n == 0 then [] else [VisitorWakes(x, true)] + Wakes(x, n - 1)
  }

  /** A restarting visitor that is already inside outlives its wait, kills the admitted child and starts another. */
  lemma {:induction false} RestarterKills(s: State, x: nat, n: nat)
    requires x in s.visitors && s.visitors[x].restart
    requires n == if s.visitors[x].turn + 1 >= STOP_TURNS then 1 else STOP_TURNS - s.visitors[x].turn
    requires !CanReap(s.child)
    ensures var t := Exec(s, Wakes(x, n)).child; t.generation == s.child.generation + 1 && t.ownDeath == s.child.ownDeath
    decreases n
  {
    var es := Wakes(x, n);
    assert es[0] == VisitorWakes(x, true) && es[1..] == Wakes(x, n - 1);
    if n > 1 {
      RestarterKills(Next(s, es[0]), x, n - 1);
    }
  }

  /**
   From admission to observation_end the generation changes only by the child's own death, in every continuation,
   exactly when no execution change is inside stop_child at admission (or the child is already dead).
   */
  lemma GenerationHoldsIff(es: seq<Event>)
    ensures var s := Exec(INIT, es);
      Admits(s) ==>
        ((forall later :: KeepsGeneration(s, later)) <==> NoRestarter(s) || s.child.pid in s.child.ownDeath)
  {
    var s := Exec(INIT, es);
    if !Admits(s) {
      return;
    }
    ExecKeeps(INIT, es);
    var a := Next(s, Admit);
    if NoRestarter(s) || s.child.pid in s.child.ownDeath {
      forall later ensures KeepsGeneration(s, later) {
        if forall e :: e in later ==> Before(e) {
          NextKeeps(s, Admit);
          HeldExec(a, later, s.child.generation, s.child.pid);
        }
      }
    } else {
      var x :| x in s.visitors && s.visitors[x].restart;
      var n := if s.visitors[x].turn + 1 >= STOP_TURNS then 1 else STOP_TURNS - s.visitors[x].turn;
      RestarterKills(a, x, n);
      assert !KeepsGeneration(s, Wakes(x, n));
    }
  }

  lemma {:induction false} ExecConcat(s: State, a: seq<Event>, b: seq<Event>)
    ensures Exec(s, a + b) == Exec(Exec(s, a), b)
    decreases |a|
  {
    if a == [] {
      assert a + b == b;
    } else {
      assert (a + b)[0] == a[0] && (a + b)[1..] == a[1..] + b;
      ExecConcat(Next(s, a[0]), a[1..], b);
    }
  }

  lemma ExecTwo(s: State, d: Event, e: Event)
    ensures Exec(s, [d, e]) == Next(Next(s, d), e)
  {
    var t := Next(Next(s, d), e);
    assert [e][1..] == [] && Exec(t, []) == t;
    assert Exec(Next(s, d), [e]) == Exec(t, [e][1..]);
    assert [d, e][1..] == [e];
  }

  /** A GPU load times out while a selection is verified. */
  const TIMEOUT: seq<Event> := [BeginJob(true), JobEnds(true, true)] + [BeginJob(true), PollTimeout(true)]
  /** The selection starts its own child; the user stops that one too. */
  const RESTOP: seq<Event> := [Exit(1), JobEnds(true, true)] + [StopOrRemove(7), Exit(2)]
  /** The monitor finishes its stop and falls back to the CPU; that child becomes ready. */
  const FALLBACK: seq<Event> := [MonitorWakes(true), PollReady]
  /** An execution change enters; the older stop reaps its child and clears `stopping`. */
  const CHANGE: seq<Event> := [ExecutionChange(8, true), Exit(3)]
  /** A selection starts another child, which becomes ready. */
  const RESELECT: seq<Event> := [VisitorWakes(7, true), BeginJob(true)] + [JobEnds(true, true), PollReady]

  function Quiet(c: Child, m: Monitor, v: map<nat, Visitor>): State {
    State(c, false, false, true, false, m, NoJob, NoComparison, NoRequest, v)
  }

  const STOPPING := Quiet(Child(1, false, true, 1, 1, {1}, {}, {1}, {}, 0), MonitorStops(0, true), map[]).(jobRunning := true, job := Working)
  const RESTARTED := Quiet(Child(2, false, false, 2, 2, {2}, {}, {1}, {}, 0), MonitorStops(0, true), map[])
  const RESTOPPED := Quiet(Child(2, false, true, 2, 2, {2}, {2}, {1, 2}, {}, 0), MonitorStops(0, true), map[7 := Visitor(0, false)])
  const FELLBACK := Quiet(Child(3, true, false, 3, 3, {3}, {}, {1, 2}, {}, 0), Watching, map[7 := Visitor(0, false)])
  const CHANGING := Quiet(Child(3, false, true, 3, 3, {3}, {3}, {1, 2, 3}, {}, 0), Watching,
                          map[7 := Visitor(0, false), 8 := Visitor(0, true)])
  const STALE := Quiet(Child(0, false, false, 3, 3, {}, {}, {1, 2, 3}, {}, 0), Watching, map[8 := Visitor(0, true)])
  const READY := Quiet(Child(4, true, false, 4, 4, {4}, {}, {1, 2, 3}, {}, 0), Watching, map[8 := Visitor(0, true)])

  lemma TimeoutRun()
    ensures Exec(INIT, TIMEOUT) == STOPPING
  {
    var a := Quiet(Child(1, false, false, 1, 1, {1}, {}, {}, {}, 0), Watching, map[]);
    ExecConcat(INIT, [BeginJob(true), JobEnds(true, true)], [BeginJob(true), PollTimeout(true)]);
    ExecTwo(INIT, BeginJob(true), JobEnds(true, true));
    assert Exec(INIT, [BeginJob(true), JobEnds(true, true)]) == a;
    ExecTwo(a, BeginJob(true), PollTimeout(true));
  }

  lemma RestopRun()
    ensures Exec(STOPPING, RESTOP) == RESTOPPED
  {
    ExecConcat(STOPPING, [Exit(1), JobEnds(true, true)], [StopOrRemove(7), Exit(2)]);
    ExecTwo(STOPPING, Exit(1), JobEnds(true, true));
  }

  lemma FallbackRun()
    ensures Exec(RESTOPPED, FALLBACK) == FELLBACK
  {
    ExecTwo(RESTOPPED, MonitorWakes(true), PollReady);
  }

  lemma ChangeRun()
    ensures Exec(FELLBACK, CHANGE) == CHANGING
  {
    ExecTwo(FELLBACK, ExecutionChange(8, true), Exit(3));
  }

  lemma ReselectRun()
    ensures Exec(CHANGING, RESELECT) == READY
  {
    ExecConcat(CHANGING, [VisitorWakes(7, true), BeginJob(true)], [JobEnds(true, true), PollReady]);
    ExecTwo(CHANGING, VisitorWakes(7, true), BeginJob(true));
    StaleStopRun();
  }

  lemma StaleStopRun()
    ensures Next(CHANGING, VisitorWakes(7, true)) == STALE
  {
    assert CHANGING.visitors - {7} == STALE.visitors;
  }

  /** A request can be admitted while an execution change is inside stop_child, and lose its child to it. */
  lemma Overtaken()
    ensures var s := Exec(INIT, TIMEOUT + RESTOP + FALLBACK + CHANGE + RESELECT);
      Admits(s) && !NoRestarter(s) && s.child.pid !in s.child.ownDeath
      && exists later :: !KeepsGeneration(s, later)
  {
    var es := TIMEOUT + RESTOP + FALLBACK + CHANGE + RESELECT;
    TimeoutRun();
    ExecConcat(INIT, TIMEOUT, RESTOP);
    RestopRun();
    ExecConcat(INIT, TIMEOUT + RESTOP, FALLBACK);
    FallbackRun();
    ExecConcat(INIT, TIMEOUT + RESTOP + FALLBACK, CHANGE);
    ChangeRun();
    ExecConcat(INIT, TIMEOUT + RESTOP + FALLBACK + CHANGE, RESELECT);
    ReselectRun();
    assert 8 in READY.visitors && READY.visitors[8].restart;
    GenerationHoldsIff(es);
  }
}
