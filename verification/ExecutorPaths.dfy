/**
 Stretches of steps of one executor while the others stand still: the form in which the runs of
 one executor, as a method or as a process, enter the runs of the whole system.
 */
module ExecutorPaths {
  import opened Database
  import opened Jobs
  import opened StoreRuns
  import opened Executor

  /** What the outside answers at each point of the run; the clock of a warning is read once. */
  type Outside = Point -> Input

  function At(outside: Outside, at: Point): Input {
    outside(match at case WarnWrite(i, _) => WarnRead(i) case _ => at)
  }

  datatype State = State(db: Db, p: Proc)

  ghost function StepWith(s: State, input: Input, target: nat): State {
    State(StepDb(s.db, OpOf(s.p, input, target)), ProcNext(s.db, s.p, input, target))
  }

  ghost predicate IsStep(s: State, s': State, outside: Outside, target: nat) {
    s' == StepWith(s, At(outside, s.p.at), target)
  }

  ghost predicate IsPath(path: seq<State>, outside: Outside, target: nat) {
    path != [] && forall i {:trigger IsStep(path[i], path[i + 1], outside, target)} ::
      0 <= i < |path| - 1 ==> IsStep(path[i], path[i + 1], outside, target)
  }

  /** The process gets from one state to the other by its own steps. */
  ghost predicate Leads(s: State, s': State, outside: Outside, target: nat) {
    exists path :: IsPath(path, outside, target) && path[0] == s && path[|path| - 1] == s'
  }

  lemma {:induction false} JoinPaths(p: seq<State>, q: seq<State>, outside: Outside, target: nat)
    requires IsPath(p, outside, target) && IsPath(q, outside, target) && p[|p| - 1] == q[0]
    ensures IsPath(p + q[1..], outside, target)
  {
    var path := p + q[1..];
    forall i | 0 <= i < |path| - 1 ensures IsStep(path[i], path[i + 1], outside, target) {
      if i < |p| - 1 {
        assert IsStep(p[i], p[i + 1], outside, target);
      } else {
        var j := i - (|p| - 1);
        assert path[i] == q[j] && path[i + 1] == q[j + 1];
        assert IsStep(q[j], q[j + 1], outside, target);
      }
    }
  }

  lemma {:induction false} ThenLeads(s: State, s1: State, s2: State, outside: Outside, target: nat)
    requires Leads(s, s1, outside, target) && Leads(s1, s2, outside, target)
    ensures Leads(s, s2, outside, target)
  {
    var p: seq<State> :| IsPath(p, outside, target) && p[0] == s && p[|p| - 1] == s1;
    var q: seq<State> :| IsPath(q, outside, target) && q[0] == s1 && q[|q| - 1] == s2;
    JoinPaths(p, q, outside, target);
    var path := p + q[1..];
    assert path[0] == s && path[|path| - 1] == s2;
  }

  lemma {:induction false} StaysThere(s: State, outside: Outside, target: nat)
    ensures Leads(s, s, outside, target)
  {
    assert IsPath([s], outside, target);
  }

  lemma {:induction false} StepLeads(s: State, s': State, outside: Outside, target: nat)
    requires s' == StepWith(s, At(outside, s.p.at), target)
    ensures Leads(s, s', outside, target)
  {
    var path := [s, s'];
    assert IsStep(path[0], path[1], outside, target);
    assert IsPath(path, outside, target) && path[|path| - 1] == s';
  }

  lemma {:induction false} PathStep(path: seq<State>, i: nat, outside: Outside, target: nat)
    requires IsPath(path, outside, target) && i < |path| - 1
    ensures path[i + 1] == StepWith(path[i], At(outside, path[i].p.at), target)
  {
    assert IsStep(path[i], path[i + 1], outside, target);
  }

  lemma {:induction false} TailIsPath(path: seq<State>, outside: Outside, target: nat)
    requires IsPath(path, outside, target) && |path| > 1
    ensures IsPath(path[1..], outside, target)
  {
    var tail := path[1..];
    forall i | 0 <= i < |tail| - 1 ensures IsStep(tail[i], tail[i + 1], outside, target) {
      PathStep(path, i + 1, outside, target);
    }
  }

  // As events of the system

  lemma {:induction false} StepIsEvent(sys: Sys, pid: nat, input: Input, target: nat)
    requires pid in sys.procs
    ensures
      var s' := StepWith(State(sys.db, sys.procs[pid]), input, target);
      SysNext(sys, Act(pid, input), target) == Sys(s'.db, sys.procs[pid := s'.p])
  {
  }

  lemma {:induction false} StepKeepsIt(s: State, input: Input, target: nat)
    requires DbOk(s.db)
    ensures DbOk(StepWith(s, input, target).db)
  {
    var op := OpOf(s.p, input, target);
    if op.Some? {
      StepKeepsDb(s.db, op.value);
    }
  }

  lemma {:induction false} PathKeepsDb(path: seq<State>, s: State, outside: Outside, target: nat, i: nat)
    requires IsPath(path, outside, target) && path[0] == s && DbOk(s.db) && i < |path|
    ensures DbOk(path[i].db)
  {
    if i > 0 {
      PathKeepsDb(path, s, outside, target, i - 1);
      PathStep(path, i - 1, outside, target);
      StepKeepsIt(path[i - 1], At(outside, path[i - 1].p.at), target);
    }
  }

  lemma {:induction false} LeadsKeepsDb(s: State, s': State, outside: Outside, target: nat)
    requires Leads(s, s', outside, target) && DbOk(s.db)
    ensures DbOk(s'.db)
  {
    var path: seq<State> :| IsPath(path, outside, target) && path[0] == s && path[|path| - 1] == s';
    PathKeepsDb(path, s, outside, target, |path| - 1);
  }

  /** The executor holds its job. */
  ghost predicate Holds(db: Db, p: Proc) {
    p.jobKey in db.jobs && HeldBy(db.jobs[p.jobKey], p.owner)
  }

  /** It holds its job, or has issued the statement that finishes it. */
  ghost predicate HoldsOrFinished(s: State) {
    s.p.at != Idle && (Holds(s.db, s.p) || s.p.at.FinishLast? || s.p.at.Done?)
  }

  lemma {:induction false} UpdateStepHolds(db: Db, key: string, owner: string, update: JobUpdate, now: int)
    requires key in db.jobs && HeldBy(db.jobs[key], owner) && !update.Finishes()
    ensures
      var db' := Next(db, UpdateJob(key, owner, update, now));
      key in db'.jobs && HeldBy(db'.jobs[key], owner)
  {
  }

  /** Off the claim and the finish, a statement leaves the job with its holder. */
  lemma {:induction false} StatementHolds(db: Db, p: Proc, input: Input, target: nat)
    requires p.at != Idle && !p.at.FinishWrite? && Holds(db, p)
    ensures Holds(StepDb(db, OpOf(p, input, target)), p)
  {
    var op := OpOf(p, input, target);
    if op.Some? {
      if TouchesJobs(op.value) {
        UpdateStepHolds(db, p.jobKey, p.owner, op.value.update, op.value.now);
      } else {
        TableStepsKeepJobs(db, op.value);
      }
    }
  }

  lemma {:induction false} WorkKeepsName(p: Proc, mark: nat, input: Input, target: nat)
    ensures
      var p' := AfterMark(p, mark, input, target);
      p'.owner == p.owner && p'.jobKey == p.jobKey && p'.at != Idle
  {
  }

  lemma {:induction false} StepKeepsName(db: Db, p: Proc, input: Input, target: nat)
    requires p.at != Idle
    ensures
      var p' := ProcNext(db, p, input, target);
      && p'.owner == p.owner && p'.jobKey == p.jobKey && p'.at != Idle
      && (p.at.FinishWrite? ==> p'.at.FinishLast?) && (p.at.FinishLast? || p.at.Done? ==> p'.at.Done?)
  {
    if p.at.Marked? {
      WorkKeepsName(p, p.at.mark, input, target);
    }
  }

  lemma {:induction false} StepHolds(s: State, input: Input, target: nat)
    requires HoldsOrFinished(s)
    ensures HoldsOrFinished(StepWith(s, input, target))
  {
    StepKeepsName(s.db, s.p, input, target);
    if Holds(s.db, s.p) && !s.p.at.FinishWrite? {
      StatementHolds(s.db, s.p, input, target);
    }
  }

  lemma {:induction false} PathHolds(path: seq<State>, outside: Outside, target: nat, i: nat)
    requires IsPath(path, outside, target) && HoldsOrFinished(path[0]) && i < |path|
    ensures HoldsOrFinished(path[i])
  {
    if i > 0 {
      PathHolds(path, outside, target, i - 1);
      PathStep(path, i - 1, outside, target);
      StepHolds(path[i - 1], At(outside, path[i - 1].p.at), target);
    }
  }

  /** By its own steps alone an executor never loses the job it holds before it finishes it. */
  lemma {:induction false} LeadsHolds(s: State, s': State, outside: Outside, target: nat)
    requires Leads(s, s', outside, target) && HoldsOrFinished(s)
    ensures HoldsOrFinished(s')
  {
    var path: seq<State> :| IsPath(path, outside, target) && path[0] == s && path[|path| - 1] == s';
    PathHolds(path, outside, target, |path| - 1);
  }
}
