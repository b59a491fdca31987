/**
 Runs under a rule for events, composed from smaller ones: the form in which the counterexamples are
 built.  A rule says which answers the outside may give and which executors may start.
 */
module ExecutorReach {
  import opened Executor
  import opened ExecutorPaths

  type Rule = (Sys, Event) -> bool

  function Anything(): Rule {
    (sys: Sys, event: Event) => true
  }

  ghost predicate RunAllowed(rule: Rule, sys: Sys, events: seq<Event>, target: nat)
    decreases |events|
  {
    events == [] || (rule(sys, events[0]) && RunAllowed(rule, SysNext(sys, events[0], target), events[1..], target))
  }

  /** Some run under the rule leads from one system to the other. */
  ghost predicate Can(rule: Rule, sys: Sys, sys': Sys, target: nat) {
    exists events :: RunAllowed(rule, sys, events, target) && SysRun(sys, events, target) == sys'
  }

  lemma {:induction false} CanStay(rule: Rule, sys: Sys, target: nat)
    ensures Can(rule, sys, sys, target)
  {
    assert RunAllowed(rule, sys, [], target) && SysRun(sys, [], target) == sys;
  }

  lemma {:induction false} CanStep(rule: Rule, sys: Sys, event: Event, sys': Sys, target: nat)
    requires rule(sys, event) && Can(rule, SysNext(sys, event, target), sys', target)
    ensures Can(rule, sys, sys', target)
  {
    var next := SysNext(sys, event, target);
    var events: seq<Event> :| RunAllowed(rule, next, events, target) && SysRun(next, events, target) == sys';
    var all := [event] + events;
    assert all[1..] == events;
    assert RunAllowed(rule, sys, all, target) && SysRun(sys, all, target) == sys';
  }

  /** One event. */
  lemma {:induction false} CanDo(rule: Rule, sys: Sys, event: Event, target: nat)
    requires rule(sys, event)
    ensures Can(rule, sys, SysNext(sys, event, target), target)
  {
    CanStay(rule, SysNext(sys, event, target), target);
    CanStep(rule, sys, event, SysNext(sys, event, target), target);
  }

  lemma {:induction false} CanThen(rule: Rule, s1: Sys, s2: Sys, s3: Sys, target: nat)
    requires Can(rule, s1, s2, target) && Can(rule, s2, s3, target)
    ensures Can(rule, s1, s3, target)
  {
    var events: seq<Event> :| RunAllowed(rule, s1, events, target) && SysRun(s1, events, target) == s2;
    AfterEvents(rule, s1, events, s3, target);
  }

  lemma {:induction false} AfterEvents(rule: Rule, sys: Sys, events: seq<Event>, sys': Sys, target: nat)
    requires RunAllowed(rule, sys, events, target) && Can(rule, SysRun(sys, events, target), sys', target)
    ensures Can(rule, sys, sys', target)
    decreases |events|
  {
    if events != [] {
      AfterEvents(rule, SysNext(sys, events[0], target), events[1..], sys', target);
      CanStep(rule, sys, events[0], sys', target);
    }
  }

  // Steps of one executor

  /** The rule lets an executor at `p` be given this input, whatever the others are doing. */
  ghost predicate Admits(rule: Rule, pid: nat, p: Proc, input: Input) {
    forall sys: Sys :: pid in sys.procs && sys.procs[pid] == p ==> rule(sys, Act(pid, input))
  }

  /** All that the outside answers about the job is admitted. */
  ghost predicate AdmitsAll(rule: Rule, pid: nat, outside: Outside, jobKey: string) {
    forall p: Proc :: p.at == Idle || p.jobKey == jobKey ==> Admits(rule, pid, p, At(outside, p.at))
  }

  /** From its claim on an executor keeps its job. */
  lemma {:induction false} PathKeepsJob(path: seq<State>, outside: Outside, target: nat)
    requires IsPath(path, outside, target) && path[0].p.at != Idle
    ensures path[|path| - 1].p.jobKey == path[0].p.jobKey
    decreases |path|
  {
    if |path| > 1 {
      PathStep(path, 0, outside, target);
      StepKeepsName(path[0].db, path[0].p, At(outside, path[0].p.at), target);
      TailIsPath(path, outside, target);
      PathKeepsJob(path[1..], outside, target);
    }
  }

  lemma {:induction false} PathCan(rule: Rule, sys: Sys, pid: nat, path: seq<State>, outside: Outside, target: nat)
    requires pid in sys.procs && IsPath(path, outside, target) && path[0] == State(sys.db, sys.procs[pid])
    requires AdmitsAll(rule, pid, outside, path[|path| - 1].p.jobKey)
    ensures Can(rule, sys, Sys(path[|path| - 1].db, sys.procs[pid := path[|path| - 1].p]), target)
    decreases |path|
  {
    var last := path[|path| - 1];
    if |path| == 1 {
      CanStay(rule, sys, target);
      assert sys.procs[pid := sys.procs[pid]] == sys.procs;
    } else {
      var p := sys.procs[pid];
      var input := At(outside, p.at);
      var next := SysNext(sys, Act(pid, input), target);
      StepIsEvent(sys, pid, input, target);
      PathStep(path, 0, outside, target);
      TailIsPath(path, outside, target);
      PathCan(rule, next, pid, path[1..], outside, target);
      assert next.procs[pid := last.p] == sys.procs[pid := last.p];
      if p.at != Idle {
        PathKeepsJob(path, outside, target);
      }
      assert Admits(rule, pid, p, input);
      CanStep(rule, sys, Act(pid, input), Sys(last.db, sys.procs[pid := last.p]), target);
    }
  }

  /** Steps of one executor, about one job, are a run in which the others stand still. */
  lemma {:induction false} LeadsCan(rule: Rule, sys: Sys, pid: nat, s': State, outside: Outside, target: nat)
    requires pid in sys.procs && Leads(State(sys.db, sys.procs[pid]), s', outside, target)
    requires AdmitsAll(rule, pid, outside, s'.p.jobKey)
    ensures Can(rule, sys, Sys(s'.db, sys.procs[pid := s'.p]), target)
  {
    var path: seq<State> :| IsPath(path, outside, target)
      && path[0] == State(sys.db, sys.procs[pid]) && path[|path| - 1] == s';
    PathCan(rule, sys, pid, path, outside, target);
  }
}
