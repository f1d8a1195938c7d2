/**
 The bounded trace of one activity: contiguous phases, a strictly counted sequence and one terminal event.

 Source: src/app/activity.c:34-83. Times are exact numbers, not doubles. An event is refused when its id or
 generation is not the activity's, or when the activity has ended.
 */
module Activity {

  const PHASES := 16
  const LAST_STAGE := 18

  datatype Phase = Phase(stage: nat, start: real, duration: real)

  /** An empty outcome means that the activity has not ended. */
  datatype Trace = Trace(id: nat, generation: nat, sequence: nat, progress: nat, started: real, eventAt: real, ended: real,
                         stage: nat, outcome: string, phases: seq<Phase>)

  type Outcome = s: string | s != "" witness "failed"

  datatype Event =
    | Step(id: nat, generation: nat, stage: nat, now: real)
    | Progress(progress: nat, now: real)
    | End(outcome: Outcome, now: real)

  function Begin(id: nat, generation: nat, stage: nat, now: real): Trace {
    Trace(id, generation, 1, 0, now, now, 0.0, stage, "", [Phase(stage, now, 0.0)])
  }

  predicate Accepts(a: Trace, e: Event) {
    && a.id != 0 && a.outcome == "" && e.now >= a.eventAt
    && (e.Step? ==> a.id == e.id && a.generation == e.generation && 0 < e.stage <= LAST_STAGE && a.stage != e.stage
                    && |a.phases| < PHASES)
    && (e.Progress? ==> e.progress > a.progress)
  }

  /** The running phase gets its duration. */
  function Closed(phases: seq<Phase>, now: real): seq<Phase> {
    if phases == [] then []
    else phases[|phases| - 1 := phases[|phases| - 1].(duration := now - phases[|phases| - 1].start)]
  }

  function Next(a: Trace, e: Event): Trace {
    if !Accepts(a, e) then a
    else
      match e
      case Step(_, _, stage, now) =>
        a.(phases := Closed(a.phases, now) + [Phase(stage, now, 0.0)], stage := stage, eventAt := now, sequence := a.sequence + 1)
      case Progress(progress, now) => a.(progress := progress, eventAt := now, sequence := a.sequence + 1)
      case End(outcome, now) =>
        a.(ended := now, eventAt := now, sequence := a.sequence + 1, phases := Closed(a.phases, now), outcome := outcome)
  }

  function Run(a: Trace, es: seq<Event>): Trace
    decreases |es|
  {
    if es == [] then a else Run(Next(a, es[0]), es[1..])
  }

  /** The events that changed the trace. */
  function Accepted(a: Trace, es: seq<Event>): nat
    decreases |es|
  {
    if es == [] then 0 else (if Accepts(a, es[0]) then 1 else 0) + Accepted(Next(a, es[0]), es[1..])
  }

  // ------------------------------------------------------------------ invariants

  ghost predicate Contiguous(phases: seq<Phase>) {
    forall i :: 0 <= i < |phases| - 1 ==>
      phases[i].start + phases[i].duration == phases[i + 1].start && phases[i].stage != phases[i + 1].stage
      && phases[i].duration >= 0.0
  }

  ghost predicate Good(a: Trace) {
    && 0 < |a.phases| <= PHASES && Contiguous(a.phases)
    && a.phases[0].start == a.started
    && a.phases[|a.phases| - 1].stage == a.stage
    && a.started <= a.phases[|a.phases| - 1].start <= a.eventAt
    && (a.outcome != "" ==> a.ended == a.eventAt && a.phases[|a.phases| - 1].duration == a.ended - a.phases[|a.phases| - 1].start)
  }

  lemma NextKeeps(a: Trace, e: Event)
    requires Good(a)
    ensures Good(Next(a, e)) && Next(a, e).eventAt >= a.eventAt && Next(a, e).started == a.started
  {
    var b := Next(a, e);
    var n := |a.phases| - 1;
    forall i | 0 <= i < |b.phases| - 1
      ensures b.phases[i].start + b.phases[i].duration == b.phases[i + 1].start && b.phases[i].stage != b.phases[i + 1].stage
      ensures b.phases[i].duration >= 0.0
    {
      if i < n {
        assert a.phases[i].start + a.phases[i].duration == a.phases[i + 1].start;
      }
    }
  }

  lemma {:induction false} RunKeeps(a: Trace, es: seq<Event>)
    requires Good(a)
    ensures var b := Run(a, es);
      Good(b) && b.eventAt >= a.eventAt && b.started == a.started && b.sequence == a.sequence + Accepted(a, es)
    decreases |es|
  {
    if es != [] {
      NextKeeps(a, es[0]);
      RunKeeps(Next(a, es[0]), es[1..]);
    }
  }

  /** A running activity, and a moment that is not before its last event. */
  predicate Open(a: Trace, now: real) {
    a.id != 0 && a.outcome == "" && a.eventAt <= now
  }

  /** The event was counted, at this moment. */
  predicate Counted(a: Trace, t: Trace, now: real) {
    t.sequence == a.sequence + 1 && t.eventAt == now && t.id == a.id && t.generation == a.generation && t.started == a.started
  }

  /**
   Which events count and what they leave: a step of the same activity and generation to another known stage while a
   phase is free ends the running phase and begins the next, progress only grows, and an end closes the last phase.
   Every other event changes nothing.
   */
  lemma EventExact(a: Trace, id: nat, generation: nat, stage: nat, progress: nat, outcome: Outcome, now: real)
    requires Good(a)
    ensures var t := Next(a, Step(id, generation, stage, now));
      var n := |a.phases|;
      if Open(a, now) && id == a.id && generation == a.generation && 1 <= stage <= 18 && stage != a.stage && n < 16 then
        && Counted(a, t, now) && t.stage == stage && t.outcome == "" && t.progress == a.progress
        && t.phases[..n - 1] == a.phases[..n - 1] && |t.phases| == n + 1
        && t.phases[n - 1] == Phase(a.stage, a.phases[n - 1].start, now - a.phases[n - 1].start)
        && t.phases[n] == Phase(stage, now, 0.0)
      else t == a
    ensures var t := Next(a, Progress(progress, now));
      if Open(a, now) && progress > a.progress then
        Counted(a, t, now) && t.progress == progress && t.phases == a.phases && t.stage == a.stage && t.outcome == ""
      else t == a
    ensures var t := Next(a, End(outcome, now));
      var n := |a.phases|;
      if Open(a, now) then
        && Counted(a, t, now) && t.ended == now && t.outcome == outcome && t.stage == a.stage && t.progress == a.progress
        && t.phases[..n - 1] == a.phases[..n - 1] && |t.phases| == n
        && t.phases[n - 1] == Phase(a.stage, a.phases[n - 1].start, now - a.phases[n - 1].start)
      else t == a
  {
  }

  /** The sum of the durations. */
  function Total(phases: seq<Phase>): real {
    if phases == [] then 0.0 else Total(phases[..|phases| - 1]) + phases[|phases| - 1].duration
  }

  lemma {:induction false} TotalTelescopes(phases: seq<Phase>, n: nat)
    requires n < |phases| && Contiguous(phases)
    ensures Total(phases[..n]) == phases[n].start - phases[0].start
    decreases n
  {
    if n > 0 {
      TotalTelescopes(phases, n - 1);
      assert phases[..n][..n - 1] == phases[..n - 1];
      assert phases[n - 1].start + phases[n - 1].duration == phases[n].start;
    } else {
      assert phases[..0] == [];
    }
  }

  lemma {:induction false} EndIsFinal(a: Trace, es: seq<Event>)
    requires a.outcome != ""
    ensures Run(a, es) == a && Accepted(a, es) == 0
    decreases |es|
  {
    if es != [] {
      EndIsFinal(a, es[1..]);
    }
  }

  /**
   In every run: at most sixteen contiguous phases from the start, neighbours in different stages, time never
   running back, the sequence one more than the accepted events, and no change behind the one terminal event.
   */
  lemma EveryRun(id: nat, generation: nat, stage: nat, now: real, es: seq<Event>, more: seq<Event>)
    ensures var a := Run(Begin(id, generation, stage, now), es);
      && 0 < |a.phases| <= PHASES && Contiguous(a.phases) && a.phases[0].start == a.started == now
      && a.eventAt >= now
      && a.sequence == 1 + Accepted(Begin(id, generation, stage, now), es)
      && (a.outcome != "" ==> Run(a, more) == a && a.ended == a.eventAt)
  {
    var a := Run(Begin(id, generation, stage, now), es);
    RunKeeps(Begin(id, generation, stage, now), es);
    if a.outcome != "" {
      EndIsFinal(a, more);
    }
  }

  /** The durations of an ended activity add up to its whole time. */
  lemma DurationsAddUp(id: nat, generation: nat, stage: nat, now: real, es: seq<Event>)
    ensures var a := Run(Begin(id, generation, stage, now), es);
      a.outcome != "" ==> Total(a.phases) == a.ended - a.started
  {
    var a := Run(Begin(id, generation, stage, now), es);
    RunKeeps(Begin(id, generation, stage, now), es);
    TotalTelescopes(a.phases, |a.phases| - 1);
  }

  // ------------------------------------------------------------------ the program

  class Entry {
    var id: nat
    var generation: nat
    var sequence: nat
    var progress: nat
    var started: real
    var eventAt: real
    var ended: real
    var stage: nat
    var outcome: string
    var phases: nat
    const phase: array<Phase>

    ghost predicate Valid()
      reads this
    {
      phase.Length == PHASES && 0 < phases <= PHASES
    }

    ghost function Abs(): Trace
      requires Valid()
      reads this, phase
    {
      Trace(id, generation, sequence, progress, started, eventAt, ended, stage, outcome, phase[..phases])
    }

    /** activity_begin. */
    constructor (id: nat, generation: nat, stage: nat, now: real)
      ensures Valid() && fresh(phase) && Abs() == Begin(id, generation, stage, now)
    {
      this.id, this.generation, this.stage := id, generation, stage;
      sequence, progress, started, eventAt, ended, outcome := 1, 0, now, now, 0.0, "";
      phases := 1;
      phase := new Phase[PHASES](_ => Phase(stage, now, 0.0));
    }

    method ActivityStep(id: nat, generation: nat, stage: nat, now: real) returns (ok: bool)
      requires Valid()
      modifies this, phase
      ensures Valid() && ok == Accepts(old(Abs()), Step(id, generation, stage, now))
      ensures Abs() == Next(old(Abs()), Step(id, generation, stage, now))
    {
      if this.id == 0 || this.id != id || this.generation != generation || outcome != "" || stage == 0
         || stage > LAST_STAGE || this.stage == stage || now < eventAt {
        return false;
      }
      if phases >= PHASES {
        return false;
      }
      phase[phases - 1] := phase[phases - 1].(duration := now - phase[phases - 1].start);
      phase[phases] := Phase(stage, now, 0.0);
      phases := phases + 1;
      this.stage := stage;
      eventAt := now;
      sequence := sequence + 1;
      return true;
    }

    method ActivityProgress(progress: nat, now: real)
      requires Valid()
      modifies this
      ensures Valid() && Abs() == Next(old(Abs()), Progress(progress, now))
    {
      if id == 0 || outcome != "" || progress <= this.progress || now < eventAt {
        return;
      }
      this.progress := progress;
      eventAt := now;
      sequence := sequence + 1;
    }

    method ActivityEnd(outcome: Outcome, now: real) returns (ok: bool)
      requires Valid()
      modifies this, phase
      ensures Valid() && ok == Accepts(old(Abs()), End(outcome, now)) && Abs() == Next(old(Abs()), End(outcome, now))
    {
      if id == 0 || this.outcome != "" || now < eventAt {
        return false;
      }
      ended := now;
      eventAt := now;
      sequence := sequence + 1;
      phase[phases - 1] := phase[phases - 1].(duration := now - phase[phases - 1].start);
      this.outcome := outcome;
      return true;
    }
  }
}
