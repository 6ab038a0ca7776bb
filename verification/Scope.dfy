/**
 The scope as the object it is: two wait groups, a write-once error and a cancel flag. Each
 method, run on its own, takes the steps of module ScopeRun that its callers' interleavings mix.
 */
module Scopes {
  import opened LoadTypes
  import opened ScopeRun

  /** The steps of a task whose function has returned, taken one after the other. */
  lemma FinishSteps(s: Scope, isMain: bool, e: Option<Error>, t: TaskId)
    requires t in s.tasks && s.tasks[t] == Task(isMain, Returned(e))
    ensures var left := Next(s, LeaveMain(t));
            var told := if e.Some? then Next(Next(left, Report(t)), ReportCtx(t)) else left;
            Next(told, Finish(t)) ==
            Scope(s.allCount - 1, if isMain then s.mainCount - 1 else s.mainCount,
                  s.mainDrained || (isMain && s.mainCount == 1), s.cancelled || e.Some?,
                  if s.err == None then e else s.err, s.tasks[t := Task(isMain, Finished)], s.run)
  {
    var left := s.tasks[t := Task(isMain, LeftMain(e))];
    assert left[t := Task(isMain, Finished)] == s.tasks[t := Task(isMain, Finished)];
    var told := left[t := Task(isMain, ErrorSet)];
    told := told[t := Task(isMain, Reported)];
    assert told[t := Task(isMain, Finished)] == s.tasks[t := Task(isMain, Finished)];
  }

  class WaitGroup {
    var count: int
    var drained: bool             // some Done brought the count to 0

    constructor ()
      ensures count == 0 && !drained
    {
      count, drained := 0, false;
    }

    method Add()
      modifies this
      ensures count == old(count) + 1 && drained == old(drained)
    {
      count := count + 1;
    }

    method Done()
      modifies this
      ensures count == old(count) - 1 && drained == (old(drained) || count == 0)
    {
      count := count - 1;
      drained := drained || count == 0;
    }
  }

  class ScopeObject {
    const all: WaitGroup
    const main: WaitGroup
    var err: Option<Error>        // errOnce has run exactly when there is an error
    var cancelled: bool

    ghost predicate Valid()
      reads this
    {
      all != main
    }

    ghost function State(tasks: map<TaskId, Task>, run: RunPc): Scope
      reads this, all, main
    {
      Scope(all.count, main.count, main.drained, cancelled, err, tasks, run)
    }

    constructor ()
      ensures Valid() && fresh(all) && fresh(main)
      ensures State(map[], WaitsForMain) == Scope(0, 0, false, false, None, map[], WaitsForMain)
    {
      all := new WaitGroup();
      main := new WaitGroup();
      err, cancelled := None, false;
    }

    method SpawnBg(ghost parent: TaskId, ghost child: TaskId, ghost tasks: map<TaskId, Task>, ghost run: RunPc)
      requires Valid() && Enabled(State(tasks, run), ScopeRun.SpawnBg(parent, child))
      modifies all
      ensures State(tasks[child := Task(false, Running)], run) == Next(old(State(tasks, run)), ScopeRun.SpawnBg(parent, child))
    {
      all.Add();
    }

    method Spawn(ghost parent: TaskId, ghost child: TaskId, ghost tasks: map<TaskId, Task>, ghost run: RunPc)
      requires Valid() && Enabled(State(tasks, run), SpawnAddMain(parent)) && child !in tasks
      modifies all, main
      ensures Enabled(Next(old(State(tasks, run)), SpawnAddMain(parent)), SpawnAddAll(parent, child))
      ensures State(tasks[child := Task(true, Running)], run) ==
              Next(Next(old(State(tasks, run)), SpawnAddMain(parent)), SpawnAddAll(parent, child))
    {
      main.Add();
      all.Add();
      assert tasks[parent := tasks[parent].(pc := InSpawn)][parent := tasks[parent]] == tasks;
    }

    /** Called by a task while it runs. */
    method Cancel(e: Option<Error>, ghost t: TaskId, ghost tasks: map<TaskId, Task>, ghost run: RunPc)
      requires Valid() && At(State(tasks, run), t, Running)
      modifies this`err, this`cancelled
      ensures e == None ==> State(tasks, run) == Next(old(State(tasks, run)), CancelCtx(t))
      ensures e.Some? ==> State(tasks, run) == Next(Next(old(State(tasks, run)), CancelErr(t, e.value)), CancelCtx(t))
    {
      if e.Some? && err == None {
        err := e;
      }
      cancelled := true;
      assert tasks[t := tasks[t].(pc := InCancel)][t := tasks[t]] == tasks && tasks[t := tasks[t]] == tasks;
    }

    /** What runs once the task's function has returned: a main task leaves the main group before its error is reported. */
    method Finish(isMain: bool, e: Option<Error>, ghost t: TaskId, ghost tasks: map<TaskId, Task>, ghost run: RunPc)
      requires Valid() && t in tasks && tasks[t] == Task(isMain, Returned(e))
      modifies this`err, this`cancelled, all, main
      ensures var left := Next(old(State(tasks, run)), LeaveMain(t));
              var told := if e.Some? then Next(Next(left, Report(t)), ReportCtx(t)) else left;
              State(tasks[t := Task(isMain, Finished)], run) == Next(told, ScopeRun.Finish(t))
    {
      ghost var was := State(tasks, run);
      if isMain {
        main.Done();
      }
      if e.Some? {
        if err == None {
          err := e;
        }
        cancelled := true;
      }
      all.Done();
      FinishSteps(was, isMain, e, t);
    }
  }
}
