/**
 Structured concurrency: scope.Run with main and background tasks that may spawn further
 tasks of either kind at any time. Every interleaving of the tasks' small steps is a run.
 */
module ScopeRun {
  import opened LoadTypes
  import opened SetSize

  type TaskId = nat
  type Error = nat

  /**
   Where a task's goroutine is. A main task first counts itself out of the main group, and
   only then, in the code it shares with background tasks, reports its error: to the
   write-once error field, then to the context. Last it leaves the group of all tasks.
   */
  datatype Pc =
    | Running
    | InSpawn                     // inside Spawn: main.Add(1) done, all.Add(1) not yet
    | InCancel                    // inside its own call of Cancel: errOnce done, cancel() not yet
    | Returned(err: Option<Error>)
    | LeftMain(err: Option<Error>)
    | ErrorSet                    // errOnce done, cancel() not yet
    | Reported
    | Finished

  datatype Task = Task(isMain: bool, pc: Pc)

  /** Where the goroutine that called Run is. */
  datatype RunPc = WaitsForMain | WillCancel | WaitsForAll | Done(result: Option<Error>)

  /** `mainDrained`: the main group's counter has been 0, which lets its waiter go even if it grows again. */
  datatype Scope = Scope(
    allCount: int, mainCount: int, mainDrained: bool, cancelled: bool, err: Option<Error>,
    tasks: map<TaskId, Task>, run: RunPc)

  /** Run has spawned the first main task. */
  function Init(first: TaskId): Scope {
    Scope(1, 1, false, false, None, map[first := Task(true, Running)], WaitsForMain)
  }

  datatype Step =
    | SpawnBg(parent: TaskId, child: TaskId)
    | SpawnAddMain(parent: TaskId)
    | SpawnAddAll(parent: TaskId, child: TaskId)
    | CancelErr(t: TaskId, e: Error)               // a running task calls Cancel(e): errOnce.Do
    | CancelCtx(t: TaskId)                         // the rest of that call, or all of Cancel(nil)
    | Return(t: TaskId, result: Option<Error>)
    | LeaveMain(t: TaskId)
    | Report(t: TaskId)
    | ReportCtx(t: TaskId)
    | Finish(t: TaskId)
    | ParentCancelled
    | RunSeesMainDone
    | RunCancels
    | RunSeesAllDone

  predicate At(s: Scope, t: TaskId, pc: Pc) {
    t in s.tasks && s.tasks[t].pc == pc
  }

  predicate Enabled(s: Scope, l: Step) {
    match l
    case SpawnBg(p, c) => At(s, p, Running) && c !in s.tasks
    case SpawnAddMain(p) => At(s, p, Running)
    case SpawnAddAll(p, c) => At(s, p, InSpawn) && c !in s.tasks
    case CancelErr(t, _) => At(s, t, Running)
    case CancelCtx(t) => At(s, t, InCancel) || At(s, t, Running)
    case Return(t, _) => At(s, t, Running)
    case LeaveMain(t) => t in s.tasks && s.tasks[t].pc.Returned?
    case Report(t) => t in s.tasks && s.tasks[t].pc.LeftMain? && s.tasks[t].pc.err.Some?
    case ReportCtx(t) => At(s, t, ErrorSet)
    case Finish(t) => At(s, t, Reported) || At(s, t, LeftMain(None))
    case ParentCancelled => true
    case RunSeesMainDone => s.run.WaitsForMain? && s.mainDrained
    case RunCancels => s.run.WillCancel?
    case RunSeesAllDone => s.run.WaitsForAll? && s.allCount == 0
  }

  function Move(s: Scope, t: TaskId, pc: Pc): Scope
    requires t in s.tasks
  {
    s.(tasks := s.tasks[t := s.tasks[t].(pc := pc)])
  }

  /** errOnce.Do: the first error stays. */
  function SetOnce(s: Scope, e: Error): Scope {
    s.(err := if s.err == None then Some(e) else s.err)
  }

  function Next(s: Scope, l: Step): Scope
    requires Enabled(s, l)
  {
    match l
    case SpawnBg(_, c) => s.(allCount := s.allCount + 1, tasks := s.tasks[c := Task(false, Running)])
    case SpawnAddMain(p) => Move(s, p, InSpawn).(mainCount := s.mainCount + 1)
    case SpawnAddAll(p, c) =>
      var s' := Move(s, p, Running);
      s'.(allCount := s.allCount + 1, tasks := s'.tasks[c := Task(true, Running)])
    case CancelErr(t, e) => SetOnce(Move(s, t, InCancel), e)
    case CancelCtx(t) => Move(s, t, Running).(cancelled := true)
    case Return(t, r) => Move(s, t, Returned(r))
    case LeaveMain(t) =>
      var n := s.mainCount - if s.tasks[t].isMain then 1 else 0;
      Move(s, t, LeftMain(s.tasks[t].pc.err)).(mainCount := n, mainDrained := s.mainDrained || (s.tasks[t].isMain && n == 0))
    case Report(t) => SetOnce(Move(s, t, ErrorSet), s.tasks[t].pc.err.value)
    case ReportCtx(t) => Move(s, t, Reported).(cancelled := true)
    case Finish(t) => Move(s, t, Finished).(allCount := s.allCount - 1)
    case ParentCancelled => s.(cancelled := true)
    case RunSeesMainDone => s.(run := WillCancel)
    case RunCancels => s.(run := WaitsForAll, cancelled := true)
    case RunSeesAllDone => s.(run := Done(s.err))
  }

  function Exec(first: TaskId, steps: seq<Step>): Option<Scope> {
    if steps == [] then Some(Init(first))
    else
      var before := Exec(first, steps[..|steps| - 1]);
      if before.Some? && Enabled(before.value, steps[|steps| - 1])
      then Some(Next(before.value, steps[|steps| - 1])) else None
  }

  /** The errors that reached the error field, set or not, in the order they did. */
  function ErrorsOf(s: Scope, l: Step): seq<Error>
    requires Enabled(s, l)
  {
    match l
    case CancelErr(_, e) => [e]
    case Report(t) => [s.tasks[t].pc.err.value]
    case _ => []
  }

  function Reached(first: TaskId, steps: seq<Step>): seq<Error>
    requires Exec(first, steps).Some?
  {
    if steps == [] then []
    else Reached(first, steps[..|steps| - 1]) + ErrorsOf(Exec(first, steps[..|steps| - 1]).value, steps[|steps| - 1])
  }

  // ---------- The counters ----------

  ghost function Unfinished(s: Scope): set<TaskId> {
    set t | t in s.tasks && !s.tasks[t].pc.Finished?
  }

  predicate CountsAsMain(t: Task) {
    t.isMain && !t.pc.LeftMain? && !t.pc.ErrorSet? && !t.pc.Reported? && !t.pc.Finished?
  }

  ghost function MainTasks(s: Scope): set<TaskId> {
    set t | t in s.tasks && CountsAsMain(s.tasks[t])
  }

  /** The tasks inside Spawn, each of which has counted a main task that does not exist yet. */
  ghost function Spawning(s: Scope): set<TaskId> {
    set t | t in s.tasks && s.tasks[t].pc.InSpawn?
  }

  ghost predicate CountsOk(s: Scope) {
    s.allCount == |Unfinished(s)| && s.mainCount == |MainTasks(s)| + |Spawning(s)|
  }

  lemma MoveCounts(s: Scope, t: TaskId, pc: Pc)
    requires t in s.tasks
    ensures var s' := Move(s, t, pc);
            && |Unfinished(s')| == |Unfinished(s)| - One(!s.tasks[t].pc.Finished?) + One(!pc.Finished?)
            && |MainTasks(s')| == |MainTasks(s)| - One(CountsAsMain(s.tasks[t])) + One(CountsAsMain(s.tasks[t].(pc := pc)))
            && |Spawning(s')| == |Spawning(s)| - One(s.tasks[t].pc.InSpawn?) + One(pc.InSpawn?)
  {
    var s' := Move(s, t, pc);
    Recount(Unfinished(s), Unfinished(s'), t);
    Recount(MainTasks(s), MainTasks(s'), t);
    Recount(Spawning(s), Spawning(s'), t);
  }

  lemma AddCounts(s: Scope, c: TaskId, isMain: bool)
    requires c !in s.tasks
    ensures var s' := s.(tasks := s.tasks[c := Task(isMain, Running)]);
            && |Unfinished(s')| == |Unfinished(s)| + 1
            && |MainTasks(s')| == |MainTasks(s)| + One(isMain)
            && |Spawning(s')| == |Spawning(s)|
  {
    var s' := s.(tasks := s.tasks[c := Task(isMain, Running)]);
    Recount(Unfinished(s), Unfinished(s'), c);
    Recount(MainTasks(s), MainTasks(s'), c);
    Recount(Spawning(s), Spawning(s'), c);
  }

  /** The counts only depend on the tasks. */
  lemma SameTasks(s: Scope, s': Scope)
    requires s'.tasks == s.tasks
    ensures Unfinished(s') == Unfinished(s) && MainTasks(s') == MainTasks(s) && Spawning(s') == Spawning(s)
  {
  }

  lemma SpawnCounts(s: Scope, l: Step)
    requires CountsOk(s) && Enabled(s, l) && (l.SpawnBg? || l.SpawnAddAll?)
    ensures CountsOk(Next(s, l))
  {
    match l
    case SpawnBg(_, c) =>
      AddCounts(s, c, false);
      SameTasks(s.(tasks := s.tasks[c := Task(false, Running)]), Next(s, l));
    case SpawnAddAll(p, c) =>
      MoveCounts(s, p, Running);
      var s' := Move(s, p, Running);
      AddCounts(s', c, true);
      SameTasks(s'.(tasks := s'.tasks[c := Task(true, Running)]), Next(s, l));
  }

  /** Steps inside a task's function, and the end of a report: no task comes, goes or leaves the main group. */
  lemma InnerCounts(s: Scope, l: Step)
    requires CountsOk(s) && Enabled(s, l) && (l.CancelErr? || l.CancelCtx? || l.Return? || l.ReportCtx?)
    ensures CountsOk(Next(s, l))
  {
    match l
    case CancelErr(t, _) => StepMove(s, l, t, InCancel);
    case CancelCtx(t) => StepMove(s, l, t, Running);
    case Return(t, r) => StepMove(s, l, t, Returned(r));
    case ReportCtx(t) => StepMove(s, l, t, Reported);
  }

  /** The steps that count a main task, take one out of the main group, or end a task. */
  lemma EndCounts(s: Scope, l: Step)
    requires CountsOk(s) && Enabled(s, l) && (l.SpawnAddMain? || l.LeaveMain? || l.Report? || l.Finish?)
    ensures CountsOk(Next(s, l))
  {
    match l
    case SpawnAddMain(p) => StepMove(s, l, p, InSpawn);
    case LeaveMain(t) => StepMove(s, l, t, LeftMain(s.tasks[t].pc.err));
    case Report(t) => StepMove(s, l, t, ErrorSet);
    case Finish(t) => StepMove(s, l, t, Finished);
  }

  lemma StepCounts(s: Scope, l: Step)
    requires CountsOk(s) && Enabled(s, l)
    ensures CountsOk(Next(s, l))
  {
    if l.SpawnBg? || l.SpawnAddAll? {
      SpawnCounts(s, l);
    } else if l.CancelErr? || l.CancelCtx? || l.Return? || l.ReportCtx? {
      InnerCounts(s, l);
    } else if l.SpawnAddMain? || l.LeaveMain? || l.Report? || l.Finish? {
      EndCounts(s, l);
    } else {
      SameTasks(s, Next(s, l));
    }
  }

  lemma StepMove(s: Scope, l: Step, t: TaskId, pc: Pc)
    requires Enabled(s, l) && t in s.tasks && Next(s, l).tasks == Move(s, t, pc).tasks
    ensures var s' := Next(s, l);
            && |Unfinished(s')| == |Unfinished(s)| - One(!s.tasks[t].pc.Finished?) + One(!pc.Finished?)
            && |MainTasks(s')| == |MainTasks(s)| - One(CountsAsMain(s.tasks[t])) + One(CountsAsMain(s.tasks[t].(pc := pc)))
            && |Spawning(s')| == |Spawning(s)| - One(s.tasks[t].pc.InSpawn?) + One(pc.InSpawn?)
  {
    MoveCounts(s, t, pc);
    SameTasks(Move(s, t, pc), Next(s, l));
  }

  /** Once Run returned, no task is left: a task is needed to spawn one. */
  ghost predicate RunOk(s: Scope) {
    && (s.run.WaitsForAll? || s.run.Done? ==> s.cancelled)
    && (s.run.Done? ==> Unfinished(s) == {} && s.run.result == s.err)
  }

  lemma StepRun(s: Scope, l: Step)
    requires CountsOk(s) && RunOk(s) && Enabled(s, l)
    ensures RunOk(Next(s, l))
  {
    assert forall t | t in s.tasks && !s.tasks[t].pc.Finished? :: t in Unfinished(s);
  }

  // ---------- What becomes of an error ----------

  /** How far the error a task returned has come. */
  ghost predicate OnItsWay(pc: Pc, e: Error, reached: seq<Error>, cancelled: bool) {
    match pc
    case Returned(r) => r == Some(e)
    case LeftMain(r) => r == Some(e)
    case ErrorSet => e in reached
    case Reported => e in reached && cancelled
    case Finished => e in reached && cancelled
    case _ => false
  }

  ghost predicate FailuresTracked(s: Scope, steps: seq<Step>, reached: seq<Error>) {
    && (forall t, e | Return(t, Some(e)) in steps :: t in s.tasks && OnItsWay(s.tasks[t].pc, e, reached, s.cancelled))
    && (forall t, e | CancelErr(t, e) in steps :: e in reached)
  }

  ghost predicate FromAFailure(e: Error, steps: seq<Step>) {
    exists t :: Return(t, Some(e)) in steps || CancelErr(t, e) in steps
  }

  /** Nothing reaches the error field but what a task returned or handed to Cancel. */
  ghost predicate SourcesTracked(s: Scope, steps: seq<Step>, reached: seq<Error>) {
    && (forall e | e in reached :: FromAFailure(e, steps))
    && (forall t | t in s.tasks && (s.tasks[t].pc.Returned? || s.tasks[t].pc.LeftMain?) && s.tasks[t].pc.err.Some? ::
          FromAFailure(s.tasks[t].pc.err.value, steps))
  }

  /** Where the error a task returned is after a step. */
  lemma StillOnItsWay(s: Scope, l: Step, t: TaskId, e: Error, reached: seq<Error>)
    requires Enabled(s, l) && t in s.tasks && OnItsWay(s.tasks[t].pc, e, reached, s.cancelled)
    ensures t in Next(s, l).tasks && OnItsWay(Next(s, l).tasks[t].pc, e, reached + ErrorsOf(s, l), Next(s, l).cancelled)
  {
    assert forall x | x in reached :: x in reached + ErrorsOf(s, l);
    if l.Report? && l.t == t {
      assert (reached + ErrorsOf(s, l))[|reached|] == e;
    }
  }

  lemma StepFailures(s: Scope, steps: seq<Step>, reached: seq<Error>, l: Step)
    requires FailuresTracked(s, steps, reached) && Enabled(s, l)
    ensures FailuresTracked(Next(s, l), steps + [l], reached + ErrorsOf(s, l))
  {
    forall t, e | Return(t, Some(e)) in steps + [l]
      ensures t in Next(s, l).tasks
              && OnItsWay(Next(s, l).tasks[t].pc, e, reached + ErrorsOf(s, l), Next(s, l).cancelled)
    {
      if Return(t, Some(e)) in steps {
        StillOnItsWay(s, l, t, e, reached);
      } else {
        assert l == Return(t, Some(e));
      }
    }
    forall t, e | CancelErr(t, e) in steps + [l] ensures e in reached + ErrorsOf(s, l) {
      if CancelErr(t, e) !in steps {
        assert (reached + ErrorsOf(s, l))[|reached|] == e;
      }
    }
  }

  lemma StepSources(s: Scope, steps: seq<Step>, reached: seq<Error>, l: Step)
    requires SourcesTracked(s, steps, reached) && Enabled(s, l)
    ensures SourcesTracked(Next(s, l), steps + [l], reached + ErrorsOf(s, l))
  {
    forall e | FromAFailure(e, steps) ensures FromAFailure(e, steps + [l]) {
      var t :| Return(t, Some(e)) in steps || CancelErr(t, e) in steps;
      assert Return(t, Some(e)) in steps + [l] || CancelErr(t, e) in steps + [l];
    }
    if l.CancelErr? {
      assert CancelErr(l.t, l.e) in steps + [l];
    }
    if l.Return? && l.result.Some? {
      assert Return(l.t, Some(l.result.value)) in steps + [l];
    }
  }

  ghost predicate ScopeInv(s: Scope, steps: seq<Step>, reached: seq<Error>) {
    && CountsOk(s) && RunOk(s) && FailuresTracked(s, steps, reached) && SourcesTracked(s, steps, reached)
    && s.err == if reached == [] then None else Some(reached[0])
  }

  lemma StepInv(s: Scope, steps: seq<Step>, reached: seq<Error>, l: Step)
    requires ScopeInv(s, steps, reached) && Enabled(s, l)
    ensures ScopeInv(Next(s, l), steps + [l], reached + ErrorsOf(s, l))
  {
    StepCounts(s, l);
    StepRun(s, l);
    StepFailures(s, steps, reached, l);
    StepSources(s, steps, reached, l);
  }

  lemma InitInv(first: TaskId)
    ensures ScopeInv(Init(first), [], [])
  {
    var s := Init(first);
    assert Unfinished(s) == {first} && MainTasks(s) == {first} && Spawning(s) == {};
  }

  lemma ExecStep(first: TaskId, before: seq<Step>, l: Step)
    requires Exec(first, before + [l]).Some? && Exec(first, before).Some?
    requires ScopeInv(Exec(first, before).value, before, Reached(first, before))
    ensures ScopeInv(Exec(first, before + [l]).value, before + [l], Reached(first, before + [l]))
  {
    assert (before + [l])[..|before + [l]| - 1] == before;
    StepInv(Exec(first, before).value, before, Reached(first, before), l);
  }

  lemma {:induction false} ExecInv(first: TaskId, steps: seq<Step>)
    requires Exec(first, steps).Some?
    ensures ScopeInv(Exec(first, steps).value, steps, Reached(first, steps))
  {
    if steps == [] {
      InitInv(first);
    } else {
      var before, l := steps[..|steps| - 1], steps[|steps| - 1];
      assert steps == before + [l];
      ExecInv(first, before);
      ExecStep(first, before, l);
    }
  }

  // ---------- What Run promises ----------

  /** Run returns only when every task ever spawned has finished, and none can start afterwards. */
  lemma RunWaitsForEveryTask(first: TaskId, steps: seq<Step>)
    requires Exec(first, steps).Some? && Exec(first, steps).value.run.Done?
    ensures var s := Exec(first, steps).value;
            s.cancelled && forall t | t in s.tasks :: s.tasks[t].pc.Finished?
  {
    ExecInv(first, steps);
    var s := Exec(first, steps).value;
    assert forall t | t in s.tasks && !s.tasks[t].pc.Finished? :: t in Unfinished(s);
  }

  /**
   Run returns nil exactly when no task returned an error and none handed one to Cancel;
   otherwise it returns the first error to reach the error field.
   */
  lemma RunResult(first: TaskId, steps: seq<Step>)
    requires Exec(first, steps).Some? && Exec(first, steps).value.run.Done?
    ensures var result, reached := Exec(first, steps).value.run.result, Reached(first, steps);
            && (result == None <==> forall e :: !FromAFailure(e, steps))
            && (result.Some? ==> reached != [] && result.value == reached[0])
            && (forall e :: FromAFailure(e, steps) <==> e in reached)
  {
    ExecInv(first, steps);
    RunWaitsForEveryTask(first, steps);
    var s, reached := Exec(first, steps).value, Reached(first, steps);
    forall e ensures FromAFailure(e, steps) <==> e in reached {
      if FromAFailure(e, steps) {
        var t :| Return(t, Some(e)) in steps || CancelErr(t, e) in steps;
        assert Return(t, Some(e)) in steps ==> OnItsWay(s.tasks[t].pc, e, reached, s.cancelled);
      }
    }
    if reached != [] {
      assert reached[0] in reached;
    }
  }

  /** At any time: the context of a scope with a finished task that failed is cancelled. */
  lemma FailureCancels(first: TaskId, steps: seq<Step>, t: TaskId, e: Error)
    requires Exec(first, steps).Some? && Return(t, Some(e)) in steps
    ensures t in Exec(first, steps).value.tasks
    ensures Exec(first, steps).value.tasks[t].pc.Finished? ==> Exec(first, steps).value.cancelled
  {
    ExecInv(first, steps);
  }

  // ---------- The documented result: the first error any task returned ----------

  function FirstFailure(steps: seq<Step>): Option<Error> {
    if steps == [] then None
    else
      var before, l := FirstFailure(steps[..|steps| - 1]), steps[|steps| - 1];
      if before.Some? then before
      else if l.Return? then l.result
      else if l.CancelErr? then Some(l.e)
      else None
  }

  lemma {:induction false} FirstFailureIsOne(steps: seq<Step>)
    ensures FirstFailure(steps).Some? ==> FromAFailure(FirstFailure(steps).value, steps)
    ensures FirstFailure(steps) == None ==> forall e :: !FromAFailure(e, steps)
  {
    if steps != [] {
      var before, l := steps[..|steps| - 1], steps[|steps| - 1];
      FirstFailureIsOne(before);
      assert steps == before + [l];
      if FirstFailure(before).Some? {
        var t :| Return(t, FirstFailure(before)) in before || CancelErr(t, FirstFailure(before).value) in before;
        assert Return(t, FirstFailure(before)) in steps || CancelErr(t, FirstFailure(before).value) in steps;
      } else {
        forall e | FromAFailure(e, steps) ensures FirstFailure(steps).Some? {
          var t :| Return(t, Some(e)) in steps || CancelErr(t, e) in steps;
          assert l == Return(t, Some(e)) || l == CancelErr(t, e) || FromAFailure(e, before);
        }
        if FirstFailure(steps).Some? {
          assert l in steps;
        }
      }
    }
  }

  /** One of the tasks' ways to fail: `t` returns `e`, or hands it to Cancel. */
  datatype Failure = Failure(t: TaskId, e: Error)

  ghost predicate FailsOnlyBy(steps: seq<Step>, failures: set<Failure>) {
    && (forall t, e | Return(t, Some(e)) in steps :: Failure(t, e) in failures)
    && (forall t, e | CancelErr(t, e) in steps :: Failure(t, e) in failures)
  }

  /** For tasks that can fail in these ways only, Run always returns the first error any of them returned. */
  ghost predicate ReturnsFirstFailure(failures: set<Failure>) {
    forall first, steps | Exec(first, steps).Some? && Exec(first, steps).value.run.Done? && FailsOnlyBy(steps, failures) ::
      Exec(first, steps).value.run.result == FirstFailure(steps)
  }

  lemma Extend(first: TaskId, steps: seq<Step>, l: Step)
    requires Exec(first, steps).Some? && Enabled(Exec(first, steps).value, l)
    ensures Exec(first, steps + [l]) == Some(Next(Exec(first, steps).value, l))
    ensures FirstFailure(steps + [l]) == if FirstFailure(steps).Some? || !(l.Return? || l.CancelErr?) then FirstFailure(steps)
                                         else if l.Return? then l.result else Some(l.e)
  {
    assert (steps + [l])[..|steps + [l]| - 1] == steps;
  }

  // ---------- A run in which only one task fails ----------

  /** The first failure of task t is the scope's error, or t is on its way to report it; no other task has one. */
  ghost predicate OneReports(s: Scope, t: TaskId, failure: Option<Error>) {
    && (failure == None ==> s.err == None)
    && (s.err == failure
        || (s.err == None && t in s.tasks && (s.tasks[t].pc == Returned(failure) || s.tasks[t].pc == LeftMain(failure))))
    && (forall u | u in s.tasks && (s.tasks[u].pc.Returned? || s.tasks[u].pc.LeftMain?) && s.tasks[u].pc.err.Some? ::
          u == t && failure.Some?)
  }

  /** Whose failure the step is, if it is one. */
  predicate FailsBy(l: Step, t: TaskId) {
    && (l.Return? && l.result.Some? ==> l.t == t)
    && (l.CancelErr? ==> l.t == t)
  }

  lemma StepOneReports(s: Scope, l: Step, t: TaskId, failure: Option<Error>)
    requires OneReports(s, t, failure) && Enabled(s, l) && FailsBy(l, t)
    ensures OneReports(Next(s, l), t, if failure.Some? || !(l.Return? || l.CancelErr?) then failure
                                      else if l.Return? then l.result else Some(l.e))
  {
    if l.Return? || l.CancelErr? {
      FailureReports(s, l, t, failure);
    } else if l.LeaveMain? || l.Report? {
      OnTheWayReports(s, l, t, failure);
    } else {
      RestReports(s, l, t, failure);
    }
  }

  lemma FailureReports(s: Scope, l: Step, t: TaskId, failure: Option<Error>)
    requires OneReports(s, t, failure) && Enabled(s, l) && FailsBy(l, t) && (l.Return? || l.CancelErr?)
    ensures OneReports(Next(s, l), t, if failure.Some? then failure else if l.Return? then l.result else Some(l.e))
  {
  }

  lemma OnTheWayReports(s: Scope, l: Step, t: TaskId, failure: Option<Error>)
    requires OneReports(s, t, failure) && Enabled(s, l) && (l.LeaveMain? || l.Report?)
    ensures OneReports(Next(s, l), t, failure)
  {
  }

  lemma RestReports(s: Scope, l: Step, t: TaskId, failure: Option<Error>)
    requires OneReports(s, t, failure) && Enabled(s, l) && !(l.Return? || l.CancelErr? || l.LeaveMain? || l.Report?)
    ensures OneReports(Next(s, l), t, failure)
  {
  }

  lemma {:induction false} OneTaskFails(first: TaskId, steps: seq<Step>, t: TaskId)
    requires Exec(first, steps).Some? && forall l | l in steps :: FailsBy(l, t)
    ensures OneReports(Exec(first, steps).value, t, FirstFailure(steps))
  {
    if steps != [] {
      var before, l := steps[..|steps| - 1], steps[|steps| - 1];
      OneTaskFails(first, before, t);
      StepOneReports(Exec(first, before).value, l, t, FirstFailure(before));
    }
  }

  /** Then Run returns that task's first failure, whatever else it fails with later. */
  lemma OneTaskResult(first: TaskId, steps: seq<Step>, t: TaskId)
    requires Exec(first, steps).Some? && Exec(first, steps).value.run.Done? && forall l | l in steps :: FailsBy(l, t)
    ensures Exec(first, steps).value.run.result == FirstFailure(steps)
  {
    OneTaskFails(first, steps, t);
    RunWaitsForEveryTask(first, steps);
    ExecInv(first, steps);
  }

  // ---------- A run in which a later failure overtakes an earlier one ----------

  /** A scope with the main task `a` and the background task `b`. */
  function Two(a: TaskId, b: TaskId, pcA: Pc, pcB: Pc, counts: (int, int), cancelled: bool,
               err: Option<Error>, run: RunPc): Scope {
    Scope(counts.0, counts.1, counts.1 == 0, cancelled, err, map[a := Task(true, pcA), b := Task(false, pcB)], run)
  }

  lemma MoveTwo(s: Scope, a: TaskId, b: TaskId, pcA: Pc, pcB: Pc, pc: Pc)
    requires a != b && s.tasks == map[a := Task(true, pcA), b := Task(false, pcB)]
    ensures Move(s, a, pc).tasks == map[a := Task(true, pc), b := Task(false, pcB)]
    ensures Move(s, b, pc).tasks == map[a := Task(true, pcA), b := Task(false, pc)]
  {
  }

  /** x fails first, y second, and there is no other failure. */
  ghost predicate Only(steps: seq<Step>, x: Failure, y: Failure) {
    FirstFailure(steps) == Some(x.e) && FailsOnlyBy(steps, {x, y})
  }

  /** Task x.t fails and leaves the main group. */
  lemma MainFails(x: Failure, y: Failure) returns (steps: seq<Step>)
    requires x.t != y.t
    ensures Exec(x.t, steps) == Some(Two(x.t, y.t, LeftMain(Some(x.e)), Running, (2, 0), false, None, WaitsForMain))
    ensures Only(steps, x, y)
  {
    Extend(x.t, [], SpawnBg(x.t, y.t));
    steps := [] + [SpawnBg(x.t, y.t)];
    assert Exec(x.t, steps) == Some(Two(x.t, y.t, Running, Running, (2, 1), false, None, WaitsForMain));
    Extend(x.t, steps, Return(x.t, Some(x.e)));
    MoveTwo(Exec(x.t, steps).value, x.t, y.t, Running, Running, Returned(Some(x.e)));
    steps := steps + [Return(x.t, Some(x.e))];
    Extend(x.t, steps, LeaveMain(x.t));
    MoveTwo(Exec(x.t, steps).value, x.t, y.t, Returned(Some(x.e)), Running, LeftMain(Some(x.e)));
    steps := steps + [LeaveMain(x.t)];
  }

  /** Run sees that and cancels. */
  lemma RunCancelsAll(x: Failure, y: Failure) returns (steps: seq<Step>)
    requires x.t != y.t
    ensures Exec(x.t, steps) == Some(Two(x.t, y.t, LeftMain(Some(x.e)), Running, (2, 0), true, None, WaitsForAll))
    ensures Only(steps, x, y)
  {
    steps := MainFails(x, y);
    Extend(x.t, steps, RunSeesMainDone);
    steps := steps + [RunSeesMainDone];
    Extend(x.t, steps, RunCancels);
    steps := steps + [RunCancels];
  }

  /** The background task, woken by that, fails and reports it before task x.t reports its own. */
  lemma BackgroundOvertakes(x: Failure, y: Failure) returns (steps: seq<Step>)
    requires x.t != y.t
    ensures Exec(x.t, steps) == Some(Two(x.t, y.t, LeftMain(Some(x.e)), ErrorSet, (2, 0), true, Some(y.e), WaitsForAll))
    ensures Only(steps, x, y)
  {
    steps := RunCancelsAll(x, y);
    Extend(x.t, steps, Return(y.t, Some(y.e)));
    MoveTwo(Exec(x.t, steps).value, x.t, y.t, LeftMain(Some(x.e)), Running, Returned(Some(y.e)));
    steps := steps + [Return(y.t, Some(y.e))];
    Extend(x.t, steps, LeaveMain(y.t));
    MoveTwo(Exec(x.t, steps).value, x.t, y.t, LeftMain(Some(x.e)), Returned(Some(y.e)), LeftMain(Some(y.e)));
    steps := steps + [LeaveMain(y.t)];
    Extend(x.t, steps, Report(y.t));
    MoveTwo(Exec(x.t, steps).value, x.t, y.t, LeftMain(Some(x.e)), LeftMain(Some(y.e)), ErrorSet);
    steps := steps + [Report(y.t)];
  }

  lemma BothReport(x: Failure, y: Failure) returns (steps: seq<Step>)
    requires x.t != y.t
    ensures Exec(x.t, steps) == Some(Two(x.t, y.t, Reported, Reported, (2, 0), true, Some(y.e), WaitsForAll))
    ensures Only(steps, x, y)
  {
    steps := BackgroundOvertakes(x, y);
    Extend(x.t, steps, ReportCtx(y.t));
    MoveTwo(Exec(x.t, steps).value, x.t, y.t, LeftMain(Some(x.e)), ErrorSet, Reported);
    steps := steps + [ReportCtx(y.t)];
    Extend(x.t, steps, Report(x.t));
    MoveTwo(Exec(x.t, steps).value, x.t, y.t, LeftMain(Some(x.e)), Reported, ErrorSet);
    steps := steps + [Report(x.t)];
    Extend(x.t, steps, ReportCtx(x.t));
    MoveTwo(Exec(x.t, steps).value, x.t, y.t, ErrorSet, Reported, Reported);
    steps := steps + [ReportCtx(x.t)];
  }

  lemma BothFinish(x: Failure, y: Failure) returns (steps: seq<Step>)
    requires x.t != y.t
    ensures Exec(x.t, steps) == Some(Two(x.t, y.t, Finished, Finished, (0, 0), true, Some(y.e), WaitsForAll))
    ensures Only(steps, x, y)
  {
    steps := BothReport(x, y);
    Extend(x.t, steps, Finish(x.t));
    MoveTwo(Exec(x.t, steps).value, x.t, y.t, Reported, Reported, Finished);
    steps := steps + [Finish(x.t)];
    Extend(x.t, steps, Finish(y.t));
    MoveTwo(Exec(x.t, steps).value, x.t, y.t, Finished, Reported, Finished);
    steps := steps + [Finish(y.t)];
  }

  /** Any failure of one task can be overtaken by any later failure of another. */
  lemma Overtaken(x: Failure, y: Failure) returns (steps: seq<Step>)
    requires x.t != y.t
    ensures Exec(x.t, steps).Some? && Exec(x.t, steps).value.run == Done(Some(y.e))
    ensures Only(steps, x, y)
  {
    steps := BothFinish(x, y);
    Extend(x.t, steps, RunSeesAllDone);
    steps := steps + [RunSeesAllDone];
  }

  // ---------- When the documented result is the result ----------

  /** Different tasks that can fail fail with the same error. */
  ghost predicate Agree(failures: set<Failure>) {
    forall x, y | x in failures && y in failures && x.t != y.t :: x.e == y.e
  }

  lemma AgreeSplit(failures: set<Failure>, x: Failure)
    requires Agree(failures) && x in failures
    ensures (forall y | y in failures :: y.t == x.t) || (forall y | y in failures :: y.e == x.e)
  {
    if y :| y in failures && y.t != x.t {
      forall z | z in failures ensures z.e == x.e {
        assert z.t != x.t || z.t != y.t;
      }
    }
  }

  lemma SameErrorResult(first: TaskId, steps: seq<Step>, e: Error)
    requires Exec(first, steps).Some? && Exec(first, steps).value.run.Done?
    requires forall x | FromAFailure(x, steps) :: x == e
    ensures Exec(first, steps).value.run.result == FirstFailure(steps)
  {
    RunResult(first, steps);
    FirstFailureIsOne(steps);
    var reached := Reached(first, steps);
    if reached != [] {
      assert reached[0] in reached;
    }
  }

  /** Run keeps its documented promise for exactly the ways to fail in which different tasks share one error. */
  lemma FirstFailurePromise(failures: set<Failure>)
    ensures ReturnsFirstFailure(failures) <==> Agree(failures)
  {
    if Agree(failures) {
      forall first, steps | Exec(first, steps).Some? && Exec(first, steps).value.run.Done? && FailsOnlyBy(steps, failures)
        ensures Exec(first, steps).value.run.result == FirstFailure(steps)
      {
        if x :| x in failures {
          AgreeSplit(failures, x);
          if forall y | y in failures :: y.t == x.t {
            OneTaskResult(first, steps, x.t);
          } else {
            SameErrorResult(first, steps, x.e);
          }
        } else {
          SameErrorResult(first, steps, 0);
        }
      }
    } else {
      var x, y :| x in failures && y in failures && x.t != y.t && x.e != y.e;
      var steps := Overtaken(x, y);
      assert FailsOnlyBy(steps, failures);
      assert Exec(x.t, steps).value.run.result != FirstFailure(steps);
    }
  }
}
