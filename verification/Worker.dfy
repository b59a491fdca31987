/** The background worker's loop over its control channel (src/ingest/worker.rs). */
module Worker {

  datatype Command = Kick | Shutdown

  /** Outcome of one `run_once`: a job done, nothing to do, or an error. */
  datatype RunResult = DidJob | Idle | Failed

  datatype Event =
    | TookKick
    | SawShutdown
    | Ran(result: RunResult)
    | BeganWait
    | TimedOut

  // What a trace must look like

  predicate AnswersKick(event: Event) {
    event.Ran? || event == SawShutdown
  }

  /** What follows a kick is another kick, a run, or the end. */
  ghost predicate NoLostWakeup(trace: seq<Event>) {
    forall i :: 0 <= i < |trace| - 1 && trace[i] == TookKick ==> trace[i + 1] == TookKick || AnswersKick(trace[i + 1])
  }

  ghost predicate KicksBetween(trace: seq<Event>, i: nat, j: nat) {
    forall k :: i <= k < j && k < |trace| ==> trace[k] == TookKick
  }

  /** So every kick but those that end the trace is answered by a run, or by shutdown, before anything else happens. */
  lemma {:induction false} KickIsAnswered(trace: seq<Event>, i: nat) returns (j: nat)
    requires NoLostWakeup(trace) && i < |trace| && trace[i] == TookKick
    ensures i < j <= |trace| && KicksBetween(trace, i, j)
    ensures j < |trace| ==> AnswersKick(trace[j])
    decreases |trace| - i
  {
    j := i + 1;
    if j < |trace| && trace[j] == TookKick {
      j := KickIsAnswered(trace, i + 1);
    }
  }

  /** Once shutdown is seen nothing more happens. */
  ghost predicate ShutdownIsLast(trace: seq<Event>) {
    forall i :: 0 <= i < |trace| && trace[i] == SawShutdown ==> i == |trace| - 1
  }

  /** The worker waits only right after a run that found nothing to do. */
  ghost predicate WaitsWhenIdle(trace: seq<Event>) {
    forall i :: 0 <= i < |trace| && trace[i] == BeganWait ==> i > 0 && trace[i - 1].Ran? && trace[i - 1].result != DidJob
  }

  ghost predicate Running(trace: seq<Event>) {
    && NoLostWakeup(trace) && WaitsWhenIdle(trace)
    && forall i :: 0 <= i < |trace| ==> trace[i] != SawShutdown
  }

  function Runs(trace: seq<Event>): nat {
    if trace == [] then 0 else Runs(trace[..|trace| - 1]) + if trace[|trace| - 1].Ran? then 1 else 0
  }

  lemma {:induction false} RunsLast(trace: seq<Event>, event: Event)
    ensures Runs(trace + [event]) == Runs(trace) + if event.Ran? then 1 else 0
  {
    assert (trace + [event])[..|trace|] == trace;
  }

  /** A kick or a run may come next. */
  lemma {:induction false} Proceed(trace: seq<Event>, event: Event)
    requires Running(trace) && (event == TookKick || event.Ran?)
    ensures Running(trace + [event])
  {
  }

  lemma {:induction false} WaitAfterRun(trace: seq<Event>)
    requires Running(trace) && trace != [] && trace[|trace| - 1].Ran? && trace[|trace| - 1].result != DidJob
    ensures Running(trace + [BeganWait])
    ensures Running(trace + [BeganWait] + [TimedOut])
  {
  }

  lemma {:induction false} StopNow(trace: seq<Event>)
    requires Running(trace)
    ensures NoLostWakeup(trace + [SawShutdown]) && WaitsWhenIdle(trace + [SawShutdown])
    ensures ShutdownIsLast(trace + [SawShutdown])
  {
  }

  // The channel

  datatype Received = GotKick | GotStop | Nothing

  /** The channel and its senders: `future` is what they have yet to send. */
  class Control {
    var queue: seq<Command>
    var future: seq<Command>
    var closed: bool
    ghost var trace: seq<Event>

    constructor (future: seq<Command>)
      ensures queue == [] && this.future == future && !closed && trace == []
    {
      queue, closed := [], false;
      this.future, trace := future, [];
    }

    /** Commands not yet taken, in order. */
    function Pending(): seq<Command>
      reads this
    {
      queue + future
    }

    /** Any number of commands arrives; when all are sent the last sender may go. */
    method Arrive()
      modifies this`queue, this`future, this`closed
      ensures Pending() == old(Pending()) && |queue| >= old(|queue|)
    {
      var n: nat :| n <= |future|;
      assert queue + future == (queue + future[..n]) + future[n..];
      queue, future := queue + future[..n], future[n..];
      if future == [] {
        var gone: bool := *;
        closed := closed || gone;
      }
    }

    /** The first command, or the news that no sender is left, or nothing yet. */
    method Take() returns (r: Received)
      modifies this
      ensures r == Nothing ==> queue == [] && !closed && Pending() == old(Pending()) && trace == old(trace)
      ensures r == GotKick ==> old(Pending()) == [Kick] + Pending() && trace == old(trace) + [TookKick]
      ensures r == GotStop ==> trace == old(trace) + [SawShutdown]
      ensures r == GotStop ==> (closed && Pending() == old(Pending())) || old(Pending()) == [Shutdown] + Pending()
    {
      Arrive();
      if queue != [] {
        var command := queue[0];
        assert queue + future == [command] + (queue[1..] + future);
        queue := queue[1..];
        if command == Kick {
          trace := trace + [TookKick];
          return GotKick;
        }
        trace := trace + [SawShutdown];
        return GotStop;
      }
      if closed {
        trace := trace + [SawShutdown];
        return GotStop;
      }
      return Nothing;
    }

    /** `shutdown_requested`: drains kicks up to the first shutdown, and is finite since senders are. */
    method ShutdownRequested() returns (stop: bool)
      requires Running(trace)
      modifies this
      ensures !stop ==> Running(trace) && queue == [] && !closed
      ensures stop ==> Stopped(trace)
      ensures Runs(trace) == Runs(old(trace)) && old(trace) <= trace
    {
      while true
        invariant Running(trace) && Runs(trace) == Runs(old(trace)) && old(trace) <= trace
        decreases |Pending()|
      {
        ghost var before := trace;
        var received := Take();
        match received {
          case GotKick =>
            Proceed(before, TookKick);
            RunsLast(before, TookKick);
          case GotStop =>
            StopNow(before);
            RunsLast(before, SawShutdown);
            return true;
          case Nothing => return false;
        }
      }
    }

    /** `wait_for_next_iteration`: a command that is there ends the wait at once. */
    method WaitForNextIteration() returns (received: Received)
      requires Running(trace) && trace != [] && trace[|trace| - 1].Ran? && trace[|trace| - 1].result != DidJob
      modifies this
      ensures received == GotStop <==> Stopped(trace)
      ensures received != GotStop ==> Running(trace)
      ensures received == Nothing ==> queue == []
      ensures Runs(trace) == Runs(old(trace)) && old(trace) <= trace
    {
      WaitAfterRun(trace);
      RunsLast(trace, BeganWait);
      trace := trace + [BeganWait];
      ghost var before := trace;
      received := Take();
      match received {
        case GotKick =>
          Proceed(before, TookKick);
          RunsLast(before, TookKick);
        case GotStop =>
          StopNow(before);
          RunsLast(before, SawShutdown);
        case Nothing =>
          RunsLast(before, TimedOut);
          trace := trace + [TimedOut];
      }
    }

    ghost method Record(result: RunResult)
      requires Running(trace)
      modifies this`trace
      ensures Running(trace) && trace == old(trace) + [Ran(result)] && Runs(trace) == Runs(old(trace)) + 1
    {
      Proceed(trace, Ran(result));
      RunsLast(trace, Ran(result));
      trace := trace + [Ran(result)];
    }
  }

  ghost predicate Stopped(trace: seq<Event>) {
    && trace != [] && trace[|trace| - 1] == SawShutdown
    && NoLostWakeup(trace) && WaitsWhenIdle(trace) && ShutdownIsLast(trace)
  }

  /**
   `run_until_shutdown`, for as many iterations as `results` has outcomes of `run_once`: it stops
   early exactly when shutdown was seen, and no kick it took goes without a later run.
   */
  method RunUntilShutdown(control: Control, results: seq<RunResult>) returns (stopped: bool)
    requires Running(control.trace)
    modifies control
    ensures NoLostWakeup(control.trace) && WaitsWhenIdle(control.trace) && ShutdownIsLast(control.trace)
    ensures stopped <==> Stopped(control.trace)
    ensures !stopped ==> Runs(control.trace) == Runs(old(control.trace)) + |results|
  {
    for i := 0 to |results|
      invariant Running(control.trace) && Runs(control.trace) == Runs(old(control.trace)) + i
    {
      var shutdown := control.ShutdownRequested();
      if shutdown {
        return true;
      }
      control.Record(results[i]);
      if results[i] != DidJob {
        var received := control.WaitForNextIteration();
        if received == GotStop {
          return true;
        }
      }
    }
    return false;
  }
}
