/**
 The supervisor as the program writes it: the fields of `app`, changed under its mutex.
 A method is one critical section; where stop_child releases the mutex to sleep, the section ends,
 and the thread goes on in the method that takes the mutex again.
 */
module SupervisorApp {
  import opened Supervisor

  class App {
    // app.child, app.stopping, app.generation, app.job, app.compare
    var pid: nat
    var ready: bool
    var generating: bool
    var stopping: bool
    var generation: nat
    var jobRunning: bool
    var jobActivate: bool
    var compareRunning: bool
    // the processes, as waitpid and kill find them
    var lastPid: nat
    var unreaped: set<nat>
    var dead: set<nat>
    var signalled: set<nat>
    var ownDeath: set<nat>
    ghost var strays: nat
    // where each thread goes on
    var monitor: Monitor
    var job: Job
    var comparison: Comparison
    var request: Request
    var visitors: map<nat, Visitor>

    ghost function Process(): Child
      reads this
    {
      Child(pid, ready, stopping, generation, lastPid, unreaped, dead, signalled, ownDeath, strays)
    }

    ghost function Abs(): State
      reads this
    {
      State(Process(), generating, jobRunning, jobActivate, compareRunning, monitor, job, comparison, request, visitors)
    }

    constructor ()
      ensures Abs() == INIT
    {
      pid, ready, generating, stopping, generation := 0, false, false, false, 0;
      jobRunning, jobActivate, compareRunning := false, false, false;
      lastPid, unreaped, dead, signalled, ownDeath, strays := 0, {}, {}, {}, {}, 0;
      monitor, job, comparison, request, visitors := Watching, NoJob, NoComparison, NoRequest, map[];
    }

    /** waitpid without blocking: the process is gone once it was reported. */
    method Wait() returns (reaped: bool)
      modifies `unreaped, `dead
      ensures reaped == CanReap(old(Process())) && Process() == Waited(old(Process()))
    {
      reaped := pid == 0 || pid !in unreaped || pid in dead;
      if reaped {
        unreaped := unreaped - {pid};
        dead := dead - {pid};
      }
    }

    method Kill()
      modifies `signalled, `strays
      ensures Process() == Signal(old(Process()))
    {
      if pid != 0 {
        signalled := signalled + {pid};
        strays := strays + if pid in unreaped then 0 else 1;
      }
    }

    /** stop_child until its first sleep; `left` when it returns instead. */
    method StopChild() returns (left: bool)
      modifies this
      ensures left == CanReap(Enter(old(Process())))
      ensures Process() == if left then Leave(Enter(old(Process()))) else Enter(old(Process()))
      ensures Abs() == old(Abs()).(child := Process())
    {
      ready := false;
      stopping := true;
      if pid == 0 {
        Cleanup();
        return true;
      }
      Kill();
      left := Wait();
      if left {
        Cleanup();
      }
    }

    /** The label `cleanup`, with the child gone. */
    method Cleanup()
      modifies `pid, `stopping, `ready, `unreaped, `dead
      ensures Process() == Leave(old(Process()))
    {
      unreaped, dead := unreaped - {pid}, dead - {pid};
      pid := 0;
      stopping := false;
      ready := false;
    }

    /** stop_child after the sleep that ended `turn`; `left` when it returns instead of sleeping again. */
    method Resume(turn: nat) returns (left: bool)
      modifies this
      ensures left == Over(old(Process()), turn)
      ensures Process() == if left then AfterLoop(old(Process())) else old(Process())
      ensures Abs() == old(Abs()).(child := Process())
    {
      left := false;
      if turn + 1 < STOP_TURNS {
        left := Wait();
        if !left {
          return;
        }
      } else {
        var reaped := Wait();
        left := true;
        if !reaped {
          Kill();
        }
      }
      Cleanup();
    }

    /** start_child_mode behind its stop_child, given whether everything up to the spawn succeeds. */
    method Spawn(ok: bool)
      modifies `pid, `lastPid, `unreaped, `generation
      ensures Process() == Restarted(old(Process()), ok)
    {
      if ok {
        lastPid := lastPid + 1;
        pid := lastPid;
        unreaped := unreaped + {pid};
        generation := generation + 1;
      }
    }

    /** start_child until the first sleep of its stop_child; `left` when it has come to its end. */
    method Start(ok: bool) returns (left: bool)
      modifies this
      ensures left == CanReap(Enter(old(Process())))
      ensures Process() == if left then Restarted(Leave(Enter(old(Process()))), ok) else Enter(old(Process()))
      ensures Abs() == old(Abs()).(child := Process())
    {
      left := StopChild();
      if left {
        Spawn(ok);
      }
    }

    /** start_child after the sleep that ended `turn`. */
    method StartResumes(turn: nat, ok: bool) returns (left: bool)
      modifies this
      ensures left == Over(old(Process()), turn)
      ensures Process() == if left then Restarted(AfterLoop(old(Process())), ok) else old(Process())
      ensures Abs() == old(Abs()).(child := Process())
    {
      left := Resume(turn);
      if left {
        Spawn(ok);
      }
    }

    /** The monitor stops the child, and may start another behind it. */
    method StopPolled(restart: bool, ok: bool)
      modifies this
      ensures Abs() == PollStop(old(Abs()), restart, ok)
    {
      var left := Start(restart && ok);
      if !left {
        monitor := MonitorStops(0, restart);
      }
    }

    /** poll_child behind its wait for a child that has not ended in time: the first answer of a new one. */
    method Probe(answered: bool, matches: bool)
      requires Polls(Abs()) && !CanReap(Process())
      modifies this
      ensures var s := old(Abs());
        Abs() == if !answered then s else if matches then Next(s, PollReady) else Next(s, PollMismatch)
    {
      if !ready && answered {
        if matches {
          ready := true;
        } else {
          StopPolled(false, false);
        }
      }
    }

    /** poll_child behind the wait for a child that has ended: the GPU fallback may start another. */
    method Reaped(ok: bool)
      modifies this
      ensures Process() == Restarted(old(Process()).(pid := 0, ready := false), ok)
      ensures Abs() == old(Abs()).(child := Process())
    {
      pid := 0;
      ready := false;
      Spawn(ok);
    }

    /** poll_child behind its cancel test: it waits for the child first, and looks at the clock then. */
    method WaitAndProbe(timedOut: bool, answered: bool, matches: bool, ok: bool)
      requires Polls(Abs())
      modifies this
      ensures var s := old(Abs());
        Abs() == if timedOut && !s.child.ready then Next(s, PollTimeout(ok))
                 else if CanReap(s.child) then Next(s, PollReap(ok))
                 else if !answered then s
                 else if matches then Next(s, PollReady)
                 else Next(s, PollMismatch)
    {
      var reaped := Wait();
      if timedOut && !ready {
        StopPolled(true, ok);
      } else if reaped {
        Reaped(ok);
      } else {
        Probe(answered, matches);
      }
    }

    /** poll_child: cancelled, timed out and the reported identity come from outside. */
    method PollChild(cancelled: bool, timedOut: bool, answered: bool, matches: bool, ok: bool)
      requires monitor.Watching?
      modifies this
      ensures var s := old(Abs());
        Abs() == if cancelled && !s.child.ready then Next(s, PollCancel)
                 else if timedOut && !s.child.ready then Next(s, PollTimeout(ok))
                 else if CanReap(s.child) then Next(s, PollReap(ok))
                 else if !answered then s
                 else if matches then Next(s, PollReady)
                 else Next(s, PollMismatch)
    {
      if pid == 0 || stopping {
        return;
      }
      if cancelled && !ready {
        StopPolled(false, false);
      } else {
        WaitAndProbe(timedOut, answered, matches, ok);
      }
    }

    /** poll_child after a sleep inside stop_child. */
    method PollResumes(ok: bool)
      requires monitor.MonitorStops?
      modifies this
      ensures Abs() == Next(old(Abs()), MonitorWakes(ok))
    {
      var left := StartResumes(monitor.turn, monitor.restart && ok);
      if left {
        monitor := Watching;
      } else {
        monitor := MonitorStops(monitor.turn + 1, monitor.restart);
      }
    }

    /**
     The critical section in front of a request; `fits` when the program is not closing, and the model and the
     consent are the ones the request needs.
     */
    method Begin(fits: bool) returns (admitted: bool)
      modifies `generating, `request
      ensures admitted == (fits && Admits(old(Abs())))
      ensures Abs() == if fits then Next(old(Abs()), Admit) else old(Abs())
    {
      if !fits || !ready || compareRunning || generating || (jobRunning && jobActivate) {
        return false;
      }
      generating := true;
      request := Running(generation, pid);
      return true;
    }

    /** The second critical section of observation_end; `failed` for outcomes 498, 499, 502 and 504. */
    method ObservationEnd(failed: bool, ok: bool)
      requires request.Running?
      modifies this
      ensures Abs() == Next(old(Abs()), RequestEnds(failed, ok))
    {
      if failed {
        var left := Start(ok);
        if !left {
          request := RequestStops(0);
          return;
        }
      }
      generating := false;
      request := NoRequest;
    }

    method ObservationResumes(ok: bool)
      requires request.RequestStops?
      modifies this
      ensures Abs() == Next(old(Abs()), RequestWakes(ok))
    {
      var left := StartResumes(request.turn, ok);
      if left {
        generating := false;
        request := NoRequest;
      } else {
        request := RequestStops(request.turn + 1);
      }
    }

    /** The last critical section of model_job. */
    method EndJob(start: bool, ok: bool)
      requires job.Working?
      modifies this
      ensures Abs() == Next(old(Abs()), JobEnds(start, ok))
    {
      if start && jobActivate {
        var left := Start(ok);
        if !left {
          job := JobStops(0);
          return;
        }
      }
      jobRunning := false;
      job := NoJob;
    }

    /**
     select, setup and download; without `activate` another model's download beside a running child. `eligible`
     when catalog, receipt, resources and format leave a job to start, and its thread starts.
     */
    method TakeJob(activate: bool, eligible: bool) returns (taken: bool)
      modifies `jobRunning, `jobActivate, `job
      ensures taken == (eligible && TakesJob(old(Abs()), activate))
      ensures Abs() == if eligible then Next(old(Abs()), BeginJob(activate)) else old(Abs())
    {
      if !eligible || stopping || compareRunning || jobRunning || (activate && generating) || (!activate && pid == 0) {
        return false;
      }
      jobRunning, jobActivate, job := true, activate, Working;
      return true;
    }

    /** A change of the execution mode by request `x`; the running processor is kept, an unsupported one refused. */
    method ChangeExecution(x: nat, supported: bool, same: bool, ok: bool) returns (taken: bool)
      requires x !in visitors
      modifies this
      ensures taken == (TakesExecution(old(Abs())) && supported)
      ensures Abs() == if supported && !same then Next(old(Abs()), ExecutionChange(x, ok)) else old(Abs())
    {
      if !ready || compareRunning || generating || jobRunning {
        return false;
      }
      if !supported {
        return false;
      }
      if same {
        return true;
      }
      var left := Start(ok);
      if !left {
        visitors := visitors[x := Visitor(0, true)];
      }
      return true;
    }

    /** The explicit stop, and a removal, by request `x`. */
    method StopModel(x: nat) returns (taken: bool)
      requires x !in visitors
      modifies this
      ensures taken == TakesStop(old(Abs()))
      ensures Abs() == Next(old(Abs()), StopOrRemove(x))
    {
      if stopping || compareRunning || generating || jobRunning {
        return false;
      }
      var left := StopChild();
      if !left {
        visitors := visitors[x := Visitor(0, false)];
      }
      return true;
    }

    method JobResumes(ok: bool)
      requires job.JobStops?
      modifies this
      ensures Abs() == Next(old(Abs()), JobWakes(ok))
    {
      var left := StartResumes(job.turn, ok);
      if left {
        jobRunning := false;
        job := NoJob;
      } else {
        job := JobStops(job.turn + 1);
      }
    }

    method VisitorResumes(x: nat, ok: bool)
      requires x in visitors
      modifies this
      ensures Abs() == Next(old(Abs()), VisitorWakes(x, ok))
    {
      var v := visitors[x];
      var left := StartResumes(v.turn, v.restart && ok);
      if left {
        visitors := visitors - {x};
      } else {
        visitors := visitors[x := Visitor(v.turn + 1, v.restart)];
      }
    }

    /** comparison_start; `known` when the catalog has the running model, and the thread starts. */
    method TakeComparison(known: bool) returns (taken: bool)
      modifies `compareRunning, `comparison
      ensures taken == (known && TakesComparison(old(Abs())))
      ensures Abs() == if known then Next(old(Abs()), BeginComparison) else old(Abs())
    {
      if !known || !ready || generating || jobRunning || compareRunning {
        return false;
      }
      compareRunning, comparison := true, Between;
      return true;
    }

    /** The comparison changes the processor, or restores the user's choice. */
    method SwitchProcessor(ok: bool)
      requires comparison.Between?
      modifies this
      ensures Abs() == Next(old(Abs()), Switch(ok))
    {
      var left := Start(ok);
      if !left {
        comparison := SwitchStops(0);
      }
    }

    method SwitchResumes(ok: bool)
      requires comparison.SwitchStops?
      modifies this
      ensures Abs() == Next(old(Abs()), SwitchWakes(ok))
    {
      var left := StartResumes(comparison.turn, ok);
      if left {
        comparison := Between;
      } else {
        comparison := SwitchStops(comparison.turn + 1);
      }
    }

    /** The measured request of a comparison. */
    method Measure()
      requires comparison.Between?
      modifies `generating, `comparison
      ensures Abs() == Next(old(Abs()), BeginMeasure)
    {
      generating, comparison := true, Measuring;
    }

    /** The second critical section of observation_end for a measured request. */
    method MeasureEnd(failed: bool, ok: bool)
      requires comparison.Measuring?
      modifies this
      ensures Abs() == Next(old(Abs()), MeasureEnds(failed, ok))
    {
      if failed {
        var left := Start(ok);
        if !left {
          comparison := MeasureStops(0);
          return;
        }
      }
      generating := false;
      comparison := Between;
    }

    method MeasureResumes(ok: bool)
      requires comparison.MeasureStops?
      modifies this
      ensures Abs() == Next(old(Abs()), MeasureWakes(ok))
    {
      var left := StartResumes(comparison.turn, ok);
      if left {
        generating := false;
        comparison := Between;
      } else {
        comparison := MeasureStops(comparison.turn + 1);
      }
    }

    /** The last critical section of comparison_main. */
    method FinishComparison()
      requires comparison.Between?
      modifies `compareRunning, `comparison
      ensures Abs() == Next(old(Abs()), EndComparison)
    {
      compareRunning, comparison := false, NoComparison;
    }
  }
}
