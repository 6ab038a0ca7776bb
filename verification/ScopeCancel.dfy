/**
 When a scope's context is cancelled and when it is not, and that every task runs: what tasks may count
 on while they run.
 */
module ScopeCancel {
  import opened LoadTypes
  import opened ScopeRun

  /** Out of the main group: past its function and past the first thing that comes after it. */
  predicate HasLeft(pc: Pc) {
    pc.LeftMain? || pc.ErrorSet? || pc.Reported? || pc.Finished?
  }

  /** No main task is in the main group, and none is being added to it. */
  ghost predicate AllMainLeft(s: Scope) {
    forall t | t in s.tasks :: (s.tasks[t].isMain ==> HasLeft(s.tasks[t].pc)) && !s.tasks[t].pc.InSpawn?
  }

  /** It was so at the end of this run or of one of its beginnings. */
  ghost predicate OnceAllLeft(first: TaskId, steps: seq<Step>)
    requires Exec(first, steps).Some?
  {
    AllMainLeft(Exec(first, steps).value) || (steps != [] && OnceAllLeft(first, steps[..|steps| - 1]))
  }

  /** A task called Cancel or reported an error, or the context the scope was given was cancelled. */
  ghost predicate Provoked(steps: seq<Step>) {
    ParentCancelled in steps || exists t :: CancelCtx(t) in steps || ReportCtx(t) in steps
  }

  lemma EmptyGroup(s: Scope)
    requires CountsOk(s) && s.mainCount == 0
    ensures AllMainLeft(s)
  {
    forall t | t in s.tasks ensures (s.tasks[t].isMain ==> HasLeft(s.tasks[t].pc)) && !s.tasks[t].pc.InSpawn? {
      assert t !in MainTasks(s) && t !in Spawning(s);
    }
  }

  /** What the main group's counter and Run's place say of the past. */
  ghost predicate PastOk(s: Scope, onceAllLeft: bool, provoked: bool) {
    && (s.mainDrained || !s.run.WaitsForMain? ==> onceAllLeft)
    && (s.mainCount == 0 ==> s.mainDrained)
    && (s.cancelled ==> provoked || onceAllLeft)
  }

  lemma StepPast(s: Scope, l: Step, onceAllLeft: bool, provoked: bool)
    requires CountsOk(s) && Enabled(s, l) && PastOk(s, onceAllLeft, provoked)
    ensures CountsOk(Next(s, l))
    ensures PastOk(Next(s, l), AllMainLeft(Next(s, l)) || onceAllLeft,
                   provoked || l.ParentCancelled? || l.CancelCtx? || l.ReportCtx?)
  {
    StepCounts(s, l);
    if Next(s, l).mainCount == 0 {
      EmptyGroup(Next(s, l));
    }
    MainCounts(s, l);
  }

  lemma MainCounts(s: Scope, l: Step)
    requires CountsOk(s) && Enabled(s, l)
    ensures Next(s, l).mainCount == 0 && s.mainCount != 0 ==> Next(s, l).mainDrained
    ensures Next(s, l).mainDrained ==> s.mainDrained || Next(s, l).mainCount == 0
    ensures s.mainDrained ==> Next(s, l).mainDrained
  {
  }

  lemma MoreProvoked(steps: seq<Step>, l: Step)
    requires Provoked(steps) || l.ParentCancelled? || l.CancelCtx? || l.ReportCtx?
    ensures Provoked(steps + [l])
  {
    assert l in steps + [l];
    if t :| CancelCtx(t) in steps || ReportCtx(t) in steps {
      assert CancelCtx(t) in steps + [l] || ReportCtx(t) in steps + [l];
    }
  }

  lemma {:induction false} ExecPast(first: TaskId, steps: seq<Step>)
    requires Exec(first, steps).Some?
    ensures CountsOk(Exec(first, steps).value)
    ensures PastOk(Exec(first, steps).value, OnceAllLeft(first, steps), Provoked(steps))
  {
    if steps == [] {
      InitInv(first);
    } else {
      var before, l := steps[..|steps| - 1], steps[|steps| - 1];
      ExecPast(first, before);
      StepPast(Exec(first, before).value, l, OnceAllLeft(first, before), Provoked(before));
      assert steps == before + [l];
      if Provoked(before) || l.ParentCancelled? || l.CancelCtx? || l.ReportCtx? {
        MoreProvoked(before, l);
      }
    }
  }

  /**
   No early cancel: in every run, if the context is cancelled then a task reported an error or called
   Cancel, or the given context was cancelled, or at some point every main task had left the main group.
   */
  lemma NoEarlyCancel(first: TaskId, steps: seq<Step>)
    requires Exec(first, steps).Some? && Exec(first, steps).value.cancelled
    ensures Provoked(steps) || OnceAllLeft(first, steps)
  {
    ExecPast(first, steps);
  }

  /** So is Run: it does not get past waiting for the main group before every main task had left it. */
  lemma RunWaitsForMain(first: TaskId, steps: seq<Step>)
    requires Exec(first, steps).Some? && !Exec(first, steps).value.run.WaitsForMain?
    ensures OnceAllLeft(first, steps)
  {
    ExecPast(first, steps);
  }

  // ---------- What cancels the context ----------

  predicate Provokes(l: Step) {
    l.ParentCancelled? || l.CancelCtx? || l.ReportCtx?
  }

  lemma ProvokedNext(steps: seq<Step>)
    requires steps != []
    ensures Provoked(steps) <==> Provoked(steps[..|steps| - 1]) || Provokes(steps[|steps| - 1])
  {
    var before, l := steps[..|steps| - 1], steps[|steps| - 1];
    assert steps == before + [l];
    if Provoked(before) || Provokes(l) {
      MoreProvoked(before, l);
    }
  }

  /** Run has seen the end of the main group, and cancelled. */
  predicate PastMain(s: Scope) {
    s.run.WaitsForAll? || s.run.Done?
  }

  lemma StepCancels(s: Scope, l: Step)
    requires Enabled(s, l) && (PastMain(s) ==> s.cancelled)
    ensures Next(s, l).cancelled <==> s.cancelled || Provokes(l) || PastMain(Next(s, l))
    ensures PastMain(s) ==> PastMain(Next(s, l))
  {
  }

  /** Exactly these cancel the context, and it stays cancelled: what provokes it, and Run past the main group. */
  lemma {:induction false} CancelledExactly(first: TaskId, steps: seq<Step>)
    requires Exec(first, steps).Some?
    ensures Exec(first, steps).value.cancelled <==> Provoked(steps) || PastMain(Exec(first, steps).value)
  {
    if steps != [] {
      CancelledExactly(first, steps[..|steps| - 1]);
      ProvokedNext(steps);
      StepCancels(Exec(first, steps[..|steps| - 1]).value, steps[|steps| - 1]);
    }
  }

  /** The task is inside a call of Cancel, or the context is cancelled. */
  predicate CancelSeen(s: Scope, t: TaskId) {
    t in s.tasks && (s.tasks[t].pc.InCancel? || s.cancelled)
  }

  lemma StepSees(s: Scope, l: Step, t: TaskId)
    requires Enabled(s, l) && ((l.CancelErr? && l.t == t) || CancelSeen(s, t))
    ensures CancelSeen(Next(s, l), t)
  {
  }

  /** A call of Cancel with an error that has ended has cancelled the context. */
  lemma {:induction false} CancelCancels(first: TaskId, steps: seq<Step>, t: TaskId, e: Error)
    requires Exec(first, steps).Some? && CancelErr(t, e) in steps
    ensures CancelSeen(Exec(first, steps).value, t)
  {
    var before, l := steps[..|steps| - 1], steps[|steps| - 1];
    assert steps == before + [l];
    if CancelErr(t, e) in before {
      CancelCancels(first, before, t, e);
    }
    StepSees(Exec(first, before).value, l, t);
  }

  // ---------- Every task runs ----------

  /** The task's function has returned, at some step of the run. */
  ghost predicate Returns(steps: seq<Step>, t: TaskId) {
    exists r :: Return(t, r) in steps
  }

  ghost predicate EndsAfterReturn(s: Scope, steps: seq<Step>) {
    forall t | t in s.tasks && (s.tasks[t].pc.Returned? || HasLeft(s.tasks[t].pc)) :: Returns(steps, t)
  }

  lemma StepReturns(s: Scope, l: Step, steps: seq<Step>)
    requires Enabled(s, l) && EndsAfterReturn(s, steps)
    ensures EndsAfterReturn(Next(s, l), steps + [l])
  {
    var s' := Next(s, l);
    forall t | t in s'.tasks && (s'.tasks[t].pc.Returned? || HasLeft(s'.tasks[t].pc)) ensures Returns(steps + [l], t) {
      if l.Return? && l.t == t {
        assert Return(t, l.result) in steps + [l];
      } else {
        var r :| Return(t, r) in steps;
        assert Return(t, r) in steps + [l];
      }
    }
  }

  lemma {:induction false} ExecReturns(first: TaskId, steps: seq<Step>)
    requires Exec(first, steps).Some?
    ensures EndsAfterReturn(Exec(first, steps).value, steps)
  {
    if steps != [] {
      var before, l := steps[..|steps| - 1], steps[|steps| - 1];
      ExecReturns(first, before);
      StepReturns(Exec(first, before).value, l, before);
      assert steps == before + [l];
    }
  }

  /** Every task that was spawned, even after the cancel, has run to its return when Run returns. */
  lemma EveryTaskRuns(first: TaskId, steps: seq<Step>, t: TaskId)
    requires Exec(first, steps).Some? && Exec(first, steps).value.run.Done? && t in Exec(first, steps).value.tasks
    ensures Returns(steps, t)
  {
    RunWaitsForEveryTask(first, steps);
    ExecReturns(first, steps);
  }

  // ---------- Run returns once its tasks have ----------

  /** With every task finished, Run has not returned only because it has a step to take. */
  lemma RunCanReturn(first: TaskId, steps: seq<Step>)
    requires Exec(first, steps).Some?
    requires var s := Exec(first, steps).value; forall t | t in s.tasks :: s.tasks[t].pc.Finished?
    ensures var s := Exec(first, steps).value;
            s.run.Done? || Enabled(s, RunSeesMainDone) || Enabled(s, RunCancels) || Enabled(s, RunSeesAllDone)
  {
    ExecPast(first, steps);
    var s := Exec(first, steps).value;
    assert Unfinished(s) == {} && MainTasks(s) == {} && Spawning(s) == {};
  }
}
