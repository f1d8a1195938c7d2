/** What the callers of stop_child are owed: which child each of them leaves behind, and when it leaves. */
module Restarts {
  import opened Supervisor

  /** The threads that can be inside stop_child; a visitor is a request for a stop, a removal or an execution change. */
  datatype Who = TheMonitor | TheJob | TheRequest | TheComparison | AVisitor(x: nat)

  /** Sleeping inside stop_child: behind how many sleeps, and whether a child is to be started behind it. */
  datatype Place = Outside | Inside(turn: nat, restart: bool)

  function PlaceOf(s: State, who: Who): Place {
    match who
    case TheMonitor => if s.monitor.MonitorStops? then Inside(s.monitor.turn, s.monitor.restart) else Outside
    case TheJob => if s.job.JobStops? then Inside(s.job.turn, true) else Outside
    case TheRequest => if s.request.RequestStops? then Inside(s.request.turn, true) else Outside
    case TheComparison =>
      if s.comparison.SwitchStops? || s.comparison.MeasureStops? then Inside(s.comparison.turn, true) else Outside
    case AVisitor(x) => if x in s.visitors then Inside(s.visitors[x].turn, s.visitors[x].restart) else Outside
  }

  /** The event is the end of this thread's sleep. */
  predicate Wakes(s: State, who: Who, e: Event) {
    match who
    case TheMonitor => s.monitor.MonitorStops? && e.MonitorWakes?
    case TheJob => s.job.JobStops? && e.JobWakes?
    case TheRequest => s.request.RequestStops? && e.RequestWakes?
    case TheComparison => (s.comparison.SwitchStops? && e.SwitchWakes?) || (s.comparison.MeasureStops? && e.MeasureWakes?)
    case AVisitor(x) => x in s.visitors && e.VisitorWakes? && e.x == x
  }

  /** No request, job or comparison is under way. */
  predicate Idle(s: State) {
    s.request.NoRequest? && s.job.NoJob? && s.comparison.NoComparison?
  }

  /** A loading child that the monitor may look at. */
  predicate Loads(s: State) {
    s.monitor.Watching? && s.child.pid != 0 && !s.child.stopping && !s.child.ready
  }

  /** The event brings this thread to call stop_child. */
  predicate Calls(s: State, who: Who, e: Event) {
    match who
    case TheMonitor => Loads(s) && (e.PollCancel? || e.PollTimeout? || e.PollMismatch?)
    case TheJob => s.job.Working? && s.jobActivate && e.JobEnds? && e.start
    case TheRequest => s.request.Running? && e.RequestEnds? && e.failed
    case TheComparison => (s.comparison.Between? && e.Switch?) || (s.comparison.Measuring? && e.MeasureEnds? && e.failed)
    case AVisitor(x) =>
      x !in s.visitors && Idle(s) &&
      ((e.ExecutionChange? && e.x == x && s.child.ready) || (e.StopOrRemove? && e.x == x && !s.child.stopping))
  }

  /** Behind a cancelled load, a wrong processor and an explicit stop no child is started. */
  predicate Restarting(e: Event) {
    !e.PollCancel? && !e.PollMismatch? && !e.StopOrRemove?
  }

  predicate Succeeds(e: Event) {
    match e
    case PollTimeout(ok) => ok
    case JobEnds(_, ok) => ok
    case RequestEnds(_, ok) => ok
    case Switch(ok) => ok
    case MeasureEnds(_, ok) => ok
    case ExecutionChange(_, ok) => ok
    case MonitorWakes(ok) => ok
    case JobWakes(ok) => ok
    case RequestWakes(ok) => ok
    case SwitchWakes(ok) => ok
    case MeasureWakes(ok) => ok
    case VisitorWakes(_, ok) => ok
    case _ => false
  }

  /** The process has ended, or there is none. */
  predicate Gone(c: Child) {
    c.pid == 0 || c.pid in c.dead
  }

  /** The old child is reaped; another one was started, loads and counts a generation, or none is there. */
  ghost predicate Replaced(c: Child, d: Child, started: bool) {
    && !d.ready && !d.stopping && d.dead == {}
    && (if started then d.pid == d.lastPid == c.lastPid + 1 && d.unreaped == {d.pid} && d.generation == c.generation + 1
        else d.pid == 0 && d.lastPid == c.lastPid && d.unreaped == {} && d.generation == c.generation)
    && c.pid !in d.unreaped
  }

  /** Readiness is revoked and the child was sent a signal; it is the same one. */
  ghost predicate Told(c: Child, d: Child) {
    d == c.(ready := false, stopping := true, signalled := c.signalled + {c.pid})
  }

  /** The thread has done what it called stop_child for, and has given back what it owned. */
  predicate Finished(t: State, who: Who, e: Event) {
    match who
    case TheMonitor => t.monitor.Watching?
    case TheJob => t.job.NoJob? && !t.jobRunning
    case TheRequest => t.request.NoRequest? && !t.generating
    case TheComparison => t.comparison.Between? && t.compareRunning && (e.MeasureEnds? || e.MeasureWakes? ==> !t.generating)
    case AVisitor(x) => x !in t.visitors
  }

  /** The step this thread owes when it calls stop_child ... */
  ghost predicate Called(s: State, who: Who, e: Event, t: State) {
    if Gone(s.child) then
      PlaceOf(t, who).Outside? && Finished(t, who, e) && Replaced(s.child, t.child, Restarting(e) && Succeeds(e))
    else PlaceOf(t, who) == Inside(0, Restarting(e)) && Told(s.child, t.child)
  }

  /** ... and when it wakes there. */
  ghost predicate Woken(s: State, who: Who, e: Event, t: State) {
    var place := PlaceOf(s, who);
    place.Inside? &&
    if Gone(s.child) || place.turn + 1 >= 20 then
      PlaceOf(t, who).Outside? && Finished(t, who, e) && Replaced(s.child, t.child, place.restart && Succeeds(e))
    else PlaceOf(t, who) == Inside(place.turn + 1, place.restart) && t.child == s.child
  }

  ghost predicate Owed(s: State, who: Who, e: Event, t: State) {
    if Calls(s, who, e) then Called(s, who, e, t)
    else if Wakes(s, who, e) then Woken(s, who, e, t)
    else PlaceOf(t, who) == PlaceOf(s, who)
  }

  // ------------------------------------------------------------------ the child

  /** What stop_child and start_child do to the child. */
  lemma ChildCalled(c: Child, ok: bool)
    requires Sound(c)
    ensures CanReap(Enter(c)) == CanReap(c) == Gone(c)
    ensures if Gone(c) then Replaced(c, Restarted(Leave(Enter(c)), ok), ok) else Told(c, Enter(c))
  {
  }

  lemma ChildWoken(c: Child, turn: nat, ok: bool)
    requires Sound(c)
    ensures Over(c, turn) <==> Gone(c) || turn + 1 >= 20
    ensures Replaced(c, Restarted(AfterLoop(c), ok), ok)
  {
  }

  lemma ChildTimedOut(c: Child, ok: bool)
    requires Sound(c) && c.pid != 0
    ensures CanReap(Enter(Waited(c))) == Gone(c)
    ensures if Gone(c) then Replaced(c, Restarted(Leave(Enter(Waited(c))), ok), ok) else Waited(c) == c
  {
  }

  // ------------------------------------------------------------------ each thread

  lemma MonitorCalls(s: State, e: Event)
    requires Inv(s) && Calls(s, TheMonitor, e)
    ensures Called(s, TheMonitor, e, MonitorStep(s, e))
  {
    ChildTimedOut(s.child, Succeeds(e));
    ChildCalled(s.child, Succeeds(e));
  }

  lemma MonitorWakesUp(s: State, e: Event)
    requires Inv(s) && Wakes(s, TheMonitor, e)
    ensures Woken(s, TheMonitor, e, MonitorStep(s, e))
  {
    ChildWoken(s.child, s.monitor.turn, s.monitor.restart && Succeeds(e));
  }

  lemma JobCalls(s: State, e: Event)
    requires Inv(s) && Calls(s, TheJob, e)
    ensures Called(s, TheJob, e, JobStep(s, e))
  {
    ChildCalled(s.child, Succeeds(e));
  }

  lemma JobWakesUp(s: State, e: Event)
    requires Inv(s) && Wakes(s, TheJob, e)
    ensures Woken(s, TheJob, e, JobStep(s, e))
  {
    ChildWoken(s.child, s.job.turn, Succeeds(e));
  }

  lemma RequestCalls(s: State, e: Event)
    requires Inv(s) && Calls(s, TheRequest, e)
    ensures Called(s, TheRequest, e, RequestStep(s, e))
  {
    ChildCalled(s.child, Succeeds(e));
  }

  lemma RequestWakesUp(s: State, e: Event)
    requires Inv(s) && Wakes(s, TheRequest, e)
    ensures Woken(s, TheRequest, e, RequestStep(s, e))
  {
    ChildWoken(s.child, s.request.turn, Succeeds(e));
  }

  lemma ComparisonCalls(s: State, e: Event)
    requires Inv(s) && Calls(s, TheComparison, e)
    ensures Called(s, TheComparison, e, ComparisonStep(s, e))
  {
    ChildCalled(s.child, Succeeds(e));
  }

  lemma ComparisonWakesUp(s: State, e: Event)
    requires Inv(s) && Wakes(s, TheComparison, e)
    ensures Woken(s, TheComparison, e, ComparisonStep(s, e))
  {
    ChildWoken(s.child, s.comparison.turn, Succeeds(e));
  }

  lemma VisitorCalls(s: State, x: nat, e: Event)
    requires Inv(s) && Calls(s, AVisitor(x), e)
    ensures Called(s, AVisitor(x), e, VisitorStep(s, e))
  {
    ChildCalled(s.child, Restarting(e) && Succeeds(e));
  }

  lemma VisitorWakesUp(s: State, x: nat, e: Event)
    requires Inv(s) && Wakes(s, AVisitor(x), e)
    ensures Woken(s, AVisitor(x), e, VisitorStep(s, e))
  {
    ChildWoken(s.child, s.visitors[x].turn, s.visitors[x].restart && Succeeds(e));
  }

  // A step moves its own thread and no other.

  lemma MonitorFrame(s: State, e: Event)
    ensures var t := MonitorStep(s, e); t.job == s.job && t.request == s.request && t.comparison == s.comparison && t.visitors == s.visitors
  {
  }

  lemma JobFrame(s: State, e: Event)
    ensures var t := JobStep(s, e); t.monitor == s.monitor && t.request == s.request && t.comparison == s.comparison && t.visitors == s.visitors
  {
  }

  lemma RequestFrame(s: State, e: Event)
    ensures var t := RequestStep(s, e); t.monitor == s.monitor && t.job == s.job && t.comparison == s.comparison && t.visitors == s.visitors
  {
  }

  lemma ComparisonFrame(s: State, e: Event)
    ensures var t := ComparisonStep(s, e); t.monitor == s.monitor && t.job == s.job && t.request == s.request && t.visitors == s.visitors
  {
    match e
    case Switch(_) =>
    case SwitchWakes(_) =>
    case MeasureEnds(_, _) =>
    case MeasureWakes(_) =>
    case _ =>
  }

  lemma VisitorFrame(s: State, e: Event)
    ensures var t := VisitorStep(s, e); t.monitor == s.monitor && t.job == s.job && t.request == s.request && t.comparison == s.comparison
  {
  }

  lemma MonitorStays(s: State, e: Event)
    requires Inv(s) && !Calls(s, TheMonitor, e) && !Wakes(s, TheMonitor, e)
    ensures PlaceOf(MonitorStep(s, e), TheMonitor) == PlaceOf(s, TheMonitor)
  {
  }

  lemma JobStays(s: State, e: Event)
    requires Inv(s) && !Calls(s, TheJob, e) && !Wakes(s, TheJob, e)
    ensures PlaceOf(JobStep(s, e), TheJob) == PlaceOf(s, TheJob)
  {
  }

  lemma RequestStays(s: State, e: Event)
    requires Inv(s) && !Calls(s, TheRequest, e) && !Wakes(s, TheRequest, e)
    ensures PlaceOf(RequestStep(s, e), TheRequest) == PlaceOf(s, TheRequest)
  {
  }

  lemma ComparisonStays(s: State, e: Event)
    requires Inv(s) && !Calls(s, TheComparison, e) && !Wakes(s, TheComparison, e)
    ensures PlaceOf(ComparisonStep(s, e), TheComparison) == PlaceOf(s, TheComparison)
  {
  }

  lemma VisitorStays(s: State, x: nat, e: Event)
    requires Inv(s) && !Calls(s, AVisitor(x), e) && !Wakes(s, AVisitor(x), e)
    ensures PlaceOf(VisitorStep(s, e), AVisitor(x)) == PlaceOf(s, AVisitor(x))
  {
  }

  // ------------------------------------------------------------------ which step an event is

  predicate OfMonitor(e: Event) {
    e.PollCancel? || e.PollTimeout? || e.PollMismatch? || e.PollReady? || e.PollReap? || e.MonitorWakes?
  }

  predicate OfRequest(e: Event) {
    e.Admit? || e.RequestEnds? || e.RequestWakes?
  }

  predicate OfJob(e: Event) {
    e.BeginJob? || e.JobEnds? || e.JobWakes?
  }

  predicate OfVisitor(e: Event) {
    e.ExecutionChange? || e.StopOrRemove? || e.VisitorWakes?
  }

  lemma StepOf(s: State, e: Event)
    ensures Next(s, e) ==
      if e.Exit? then s.(child := Ended(s.child, e.p))
      else if OfMonitor(e) then MonitorStep(s, e)
      else if OfRequest(e) then RequestStep(s, e)
      else if OfJob(e) then JobStep(s, e)
      else if OfVisitor(e) then VisitorStep(s, e)
      else ComparisonStep(s, e)
  {
  }

  lemma MonitorOwed(s: State, e: Event)
    requires Inv(s)
    ensures Owed(s, TheMonitor, e, Next(s, e))
  {
    StepOf(s, e);
    if Calls(s, TheMonitor, e) {
      MonitorCalls(s, e);
    } else if Wakes(s, TheMonitor, e) {
      MonitorWakesUp(s, e);
    } else {
      MonitorStays(s, e);
      Frames(s, e);
    }
  }

  lemma JobOwed(s: State, e: Event)
    requires Inv(s)
    ensures Owed(s, TheJob, e, Next(s, e))
  {
    StepOf(s, e);
    if Calls(s, TheJob, e) {
      JobCalls(s, e);
    } else if Wakes(s, TheJob, e) {
      JobWakesUp(s, e);
    } else {
      JobStays(s, e);
      Frames(s, e);
    }
  }

  lemma RequestOwed(s: State, e: Event)
    requires Inv(s)
    ensures Owed(s, TheRequest, e, Next(s, e))
  {
    StepOf(s, e);
    if Calls(s, TheRequest, e) {
      RequestCalls(s, e);
    } else if Wakes(s, TheRequest, e) {
      RequestWakesUp(s, e);
    } else {
      RequestStays(s, e);
      Frames(s, e);
    }
  }

  lemma ComparisonOwed(s: State, e: Event)
    requires Inv(s)
    ensures Owed(s, TheComparison, e, Next(s, e))
  {
    StepOf(s, e);
    if Calls(s, TheComparison, e) {
      ComparisonCalls(s, e);
    } else if Wakes(s, TheComparison, e) {
      ComparisonWakesUp(s, e);
    } else {
      ComparisonStays(s, e);
      Frames(s, e);
    }
  }

  lemma VisitorOwed(s: State, x: nat, e: Event)
    requires Inv(s)
    ensures Owed(s, AVisitor(x), e, Next(s, e))
  {
    StepOf(s, e);
    if Calls(s, AVisitor(x), e) {
      VisitorCalls(s, x, e);
    } else if Wakes(s, AVisitor(x), e) {
      VisitorWakesUp(s, x, e);
    } else {
      VisitorStays(s, x, e);
      Frames(s, e);
    }
  }

  lemma Frames(s: State, e: Event)
    ensures var t := Next(s, e);
      && (!OfMonitor(e) ==> t.monitor == s.monitor)
      && (!OfJob(e) ==> t.job == s.job)
      && (!OfRequest(e) ==> t.request == s.request)
      && (!OfVisitor(e) ==> t.visitors == s.visitors)
      && (OfMonitor(e) || OfJob(e) || OfRequest(e) || OfVisitor(e) || e.Exit? ==> t.comparison == s.comparison)
  {
    StepOf(s, e);
    MonitorFrame(s, e);
    JobFrame(s, e);
    RequestFrame(s, e);
    ComparisonFrame(s, e);
    VisitorFrame(s, e);
  }

  // ------------------------------------------------------------------ in every run

  lemma StepOwed(s: State, who: Who, e: Event)
    requires Inv(s)
    ensures Owed(s, who, e, Next(s, e))
  {
    match who
    case TheMonitor => MonitorOwed(s, e);
    case TheJob => JobOwed(s, e);
    case TheRequest => RequestOwed(s, e);
    case TheComparison => ComparisonOwed(s, e);
    case AVisitor(x) => VisitorOwed(s, x, e);
  }

  /**
   In every interleaving, for every thread and every event: a thread that calls stop_child leaves at once when the
   child has ended, and else sleeps; it leaves when it wakes and the child has ended, or behind its twentieth sleep;
   it leaves the old child reaped and, where one is to be started and the start succeeds, the next one loading under
   the next generation, and gives back what it owned. Nothing else moves it.
   */
  lemma EveryCallerServed(es: seq<Event>, who: Who, e: Event)
    ensures var s := Exec(INIT, es); Owed(s, who, e, Next(s, e))
  {
    ExecKeeps(INIT, es);
    StepOwed(Exec(INIT, es), who, e);
  }

  /** The thread has left stop_child somewhere in the run. */
  ghost predicate Leaves(s: State, who: Who, es: seq<Event>) {
    exists i :: 0 <= i <= |es| && PlaceOf(Exec(s, es[..i]), who).Outside?
  }

  /** How often the thread wakes in the run. */
  function WakesIn(s: State, who: Who, es: seq<Event>): nat
    decreases |es|
  {
    if es == [] then 0 else (if Wakes(s, who, es[0]) then 1 else 0) + WakesIn(Next(s, es[0]), who, es[1..])
  }

  /** Whoever is inside leaves behind at most twenty wakes, whatever happens in between. */
  lemma {:induction false} EveryCallerLeaves(s: State, who: Who, es: seq<Event>)
    requires Inv(s)
    requires PlaceOf(s, who).Inside? && PlaceOf(s, who).turn + WakesIn(s, who, es) >= 20 && WakesIn(s, who, es) > 0
    ensures Leaves(s, who, es)
    decreases |es|
  {
    var t, rest := Next(s, es[0]), es[1..];
    StepOwed(s, who, es[0]);
    NextKeeps(s, es[0]);
    if PlaceOf(t, who).Outside? {
      assert es[..1] == [es[0]] && Exec(s, [es[0]]) == Exec(t, [es[0]][1..]);
      assert PlaceOf(Exec(s, es[..1]), who).Outside?;
    } else {
      EveryCallerLeaves(t, who, rest);
      var i :| 0 <= i <= |rest| && PlaceOf(Exec(t, rest[..i]), who).Outside?;
      assert es[..i + 1][0] == es[0] && es[..i + 1][1..] == rest[..i];
      assert PlaceOf(Exec(s, es[..i + 1]), who).Outside?;
    }
  }

  /** Still inside in every state of the run. */
  predicate Stays(s: State, who: Who, es: seq<Event>)
    decreases |es|
  {
    PlaceOf(s, who).Inside? && (es != [] ==> Stays(Next(s, es[0]), who, es[1..]))
  }

  lemma {:induction false} PromiseKept(s: State, who: Who, es: seq<Event>)
    requires Inv(s) && Stays(s, who, es)
    ensures Inv(Exec(s, es)) && PlaceOf(Exec(s, es), who).Inside?
    ensures PlaceOf(Exec(s, es), who).restart == PlaceOf(s, who).restart
    decreases |es|
  {
    if es != [] {
      StepOwed(s, who, es[0]);
      NextKeeps(s, es[0]);
      PromiseKept(Next(s, es[0]), who, es[1..]);
    }
  }

  /**
   A whole stop, with anything in between: the thread calls, sleeps through any run, and at the wake that lets it
   out it has replaced the child exactly as its call asked for.
   */
  lemma WholeStop(es: seq<Event>, who: Who, call: Event, between: seq<Event>, wake: Event)
    requires var s := Exec(INIT, es);
      Calls(s, who, call) && Stays(Next(s, call), who, between)
    requires var u := Exec(Next(Exec(INIT, es), call), between);
      Wakes(u, who, wake) && PlaceOf(Next(u, wake), who).Outside?
    ensures var u := Exec(Next(Exec(INIT, es), call), between);
      Replaced(u.child, Next(u, wake).child, Restarting(call) && Succeeds(wake)) && Finished(Next(u, wake), who, wake)
  {
    var s := Exec(INIT, es);
    var t := Next(s, call);
    ExecKeeps(INIT, es);
    StepOwed(s, who, call);
    NextKeeps(s, call);
    PromiseKept(t, who, between);
    StepOwed(Exec(t, between), who, wake);
  }

  // ------------------------------------------------------------------ what is admitted

  lemma RequestBegins(s: State)
    requires Inv(s)
    ensures Next(s, Admit) ==
      if s.child.ready && s.request.NoRequest? && s.comparison.NoComparison? && (s.job.NoJob? || !s.jobActivate)
      then s.(generating := true, request := Running(s.child.generation, s.child.pid)) else s
  {
    StepOf(s, Admit);
  }

  lemma JobBegins(s: State)
    requires Inv(s)
    ensures Next(s, BeginJob(true)) ==
      if !s.child.stopping && Idle(s) then s.(jobRunning := true, jobActivate := true, job := Working) else s
    ensures Next(s, BeginJob(false)) ==
      if !s.child.stopping && s.job.NoJob? && s.comparison.NoComparison? && s.child.pid != 0
      then s.(jobRunning := true, jobActivate := false, job := Working) else s
  {
    StepOf(s, BeginJob(true));
    StepOf(s, BeginJob(false));
  }

  lemma ComparisonBegins(s: State)
    requires Inv(s)
    ensures Next(s, BeginComparison) ==
      if s.child.ready && Idle(s) then s.(compareRunning := true, comparison := Between) else s
    ensures Next(s, BeginMeasure) ==
      if s.comparison.Between? then s.(generating := true, comparison := Measuring) else s
  {
    StepOf(s, BeginComparison);
    StepOf(s, BeginMeasure);
  }

  /**
   In terms of the threads: when a request, a job and a comparison begin and what they then own. An event that is
   refused changes nothing.
   */
  lemma Begins(es: seq<Event>)
    ensures var s := Exec(INIT, es);
      && Next(s, Admit) ==
         (if s.child.ready && s.request.NoRequest? && s.comparison.NoComparison? && (s.job.NoJob? || !s.jobActivate)
          then s.(generating := true, request := Running(s.child.generation, s.child.pid)) else s)
      && Next(s, BeginComparison) ==
         (if s.child.ready && Idle(s) then s.(compareRunning := true, comparison := Between) else s)
      && Next(s, BeginJob(true)) ==
         (if !s.child.stopping && Idle(s) then s.(jobRunning := true, jobActivate := true, job := Working) else s)
      && Next(s, BeginJob(false)) ==
         (if !s.child.stopping && s.job.NoJob? && s.comparison.NoComparison? && s.child.pid != 0
          then s.(jobRunning := true, jobActivate := false, job := Working) else s)
      && Next(s, BeginMeasure) ==
         (if s.comparison.Between? then s.(generating := true, comparison := Measuring) else s)
  {
    ExecKeeps(INIT, es);
    RequestBegins(Exec(INIT, es));
    JobBegins(Exec(INIT, es));
    ComparisonBegins(Exec(INIT, es));
  }

  /** The steps that end without stopping the child. */
  lemma Ends(s: State, ok: bool)
    ensures Next(s, RequestEnds(false, ok)) == (if s.request.Running? then s.(generating := false, request := NoRequest) else s)
    ensures Next(s, JobEnds(false, ok)) == (if s.job.Working? then s.(jobRunning := false, job := NoJob) else s)
    ensures Next(s, MeasureEnds(false, ok)) == (if s.comparison.Measuring? then s.(generating := false, comparison := Between) else s)
    ensures Next(s, EndComparison) == (if s.comparison.Between? then s.(compareRunning := false, comparison := NoComparison) else s)
  {
  }

  /** What the monitor finds: a loading child that answers is ready, an ended one is reaped and perhaps replaced. */
  lemma MonitorFinds(s: State, ok: bool)
    requires Inv(s)
    ensures Next(s, PollReady) == (if Loads(s) then s.(child := s.child.(ready := true)) else s)
    ensures var t := Next(s, PollReap(ok));
      if s.monitor.Watching? && s.child.pid != 0 && !s.child.stopping && Gone(s.child) then
        Replaced(s.child, t.child, ok) && t == s.(child := t.child)
      else t == s
  {
    ChildReaped(s.child, ok);
  }

  lemma ChildReaped(c: Child, ok: bool)
    requires Sound(c)
    ensures CanReap(c) == Gone(c) && Replaced(c, Restarted(Leave(c), ok), ok)
  {
  }

  /** The child's end is seen whoever stops it, and is its own exactly when it had not been signalled. */
  lemma Exits(es: seq<Event>)
    ensures var s := Exec(INIT, es);
      var t := Next(s, Exit(s.child.pid));
      && t == s.(child := t.child) && Gone(t.child) && t.child.pid == s.child.pid
      && (!Gone(s.child) ==> (s.child.pid in t.child.ownDeath <==> s.child.pid in s.child.ownDeath || s.child.pid !in s.child.signalled))
  {
    ExecKeeps(INIT, es);
  }
}
