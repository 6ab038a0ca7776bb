/**
 Flush on infinite runs: if everyone who can act does so eventually, and a nonce lookup that is tried
 again and again succeeds eventually, then without pushes the queue becomes and stays empty.
 */
module FairFlush {
  import opened LoadTypes
  import opened SendProtocol
  import opened FlushProgress
  import QueueSpec

  ghost predicate StepAt(states: nat -> Sys, steps: nat -> Step, i: nat) {
    Enabled(states(i), steps(i)) && states(i + 1) == Next(states(i), steps(i))
  }

  /** An infinite run, by its states and the steps between them. */
  ghost predicate IsRun(states: nat -> Sys, steps: nat -> Step) {
    forall i: nat :: StepAt(states, steps, i)
  }

  /** Nobody pushes, and no task gives up. */
  ghost predicate Quiet(steps: nat -> Step) {
    forall i: nat :: !steps(i).Generate? && !steps(i).Abort?
  }

  ghost predicate NoneAborted(s: Sys) {
    forall id | id in s.tasks :: !s.tasks[id].phase.Aborted?
  }

  /** The step takes the task on: a lookup that fails does not. */
  predicate ActsFor(l: Step, id: nat) {
    (l.SendRpc? || l.Register? || l.Settle? || (l.ReadNonce? && l.ok)) && l.id == id
  }

  ghost predicate EventuallyActs(steps: nat -> Step, i: nat, id: nat) {
    exists j: nat :: j >= i && ActsFor(steps(j), id)
  }

  ghost predicate EventuallyDispatches(steps: nat -> Step, i: nat) {
    exists j: nat :: j >= i && steps(j).Dispatch?
  }

  /** A loop that can pop pops eventually, and a task that has not given up acts eventually. */
  ghost predicate Fair(states: nat -> Sys, steps: nat -> Step) {
    && (forall i: nat | QueueSpec.CanPop(states(i).q) :: EventuallyDispatches(steps, i))
    && (forall i: nat, id | id in states(i).tasks && !states(i).tasks[id].phase.Aborted? :: EventuallyActs(steps, i, id))
  }

  ghost predicate EventuallyProduces(steps: nat -> Step, i: nat) {
    exists j: nat :: j >= i && Productive(steps(j))
  }

  /** While transactions are stored, a productive step comes. */
  lemma ProducesEventually(states: nat -> Sys, steps: nat -> Step, i: nat)
    requires Fair(states, steps) && SysInv(states(i)) && NoneAborted(states(i)) && states(i).q.txs != map[]
    ensures EventuallyProduces(steps, i)
  {
    var s := states(i);
    var k :| k in s.q.txs;
    if QueueSpec.Outstanding(s.q, k.addr) {
      assert Held(s.tasks, k.addr);
      var id :| id in s.tasks && Sender(s.tasks[id]) == k.addr;
      assert EventuallyActs(steps, i, id);
      var j: nat :| j >= i && ActsFor(steps(j), id);
      assert Productive(steps(j));
    } else {
      assert k.addr in s.q.ready;
      QueueSpec.ReadyCanPop(s.q);
      assert EventuallyDispatches(steps, i);
      var j: nat :| j >= i && steps(j).Dispatch?;
      assert Productive(steps(j));
    }
  }

  /** What a reachable state is in which no task gave up. */
  ghost predicate Sound(s: Sys) {
    SysInv(s) && NoneAborted(s) && Work(s) >= 0
  }

  /** A step keeps that, never grows the work, shrinks it if it is productive, and keeps an empty queue empty. */
  lemma SoundStep(s: Sys, l: Step)
    requires Sound(s) && Enabled(s, l) && !l.Generate? && !l.Abort?
    ensures Sound(Next(s, l)) && Work(Next(s, l)) <= Work(s) - if Productive(l) then 1 else 0
    ensures s.q.txs == map[] ==> Next(s, l).q.txs == map[]
  {
    StepInv(s, l);
    StepWork(s, l);
    WorkBound(Next(s, l));
    StepKeeps(s, l);
  }

  lemma StepKeeps(s: Sys, l: Step)
    requires SysInv(s) && NoneAborted(s) && Enabled(s, l) && !l.Generate? && !l.Abort?
    ensures NoneAborted(Next(s, l))
    ensures s.q.txs == map[] ==> Next(s, l).q.txs == map[]
  {
    if l.Settle? {
      SettleShrinks(s, l.id);
    }
  }

  /** From i to j the work does not grow, and an empty queue stays empty. */
  lemma {:induction false} Along(states: nat -> Sys, steps: nat -> Step, i: nat, j: nat)
    requires IsRun(states, steps) && Quiet(steps) && i <= j && Sound(states(i))
    ensures Sound(states(j)) && Work(states(j)) <= Work(states(i))
    ensures states(i).q.txs == map[] ==> states(j).q.txs == map[]
    decreases j - i
  {
    if i < j {
      assert StepAt(states, steps, i);
      SoundStep(states(i), steps(i));
      Along(states, steps, i + 1, j);
    }
  }

  /** Such a state with at most `budget` units of work left. */
  ghost predicate Within(s: Sys, budget: nat) {
    Sound(s) && Work(s) <= budget
  }

  lemma ProductiveStep(s: Sys, l: Step, budget: nat)
    requires Within(s, budget) && Enabled(s, l) && Productive(l) && !l.Abort?
    ensures budget > 0 && Within(Next(s, l), budget - 1)
  {
    SoundStep(s, l);
  }

  ghost predicate Flushed(s: Sys) {
    Sound(s) && s.q.txs == map[]
  }

  lemma {:induction false} FlushFrom(states: nat -> Sys, steps: nat -> Step, i: nat, budget: nat) returns (n: nat)
    requires IsRun(states, steps) && Quiet(steps) && Fair(states, steps) && Within(states(i), budget)
    ensures n >= i && Flushed(states(n))
    decreases budget
  {
    if Flushed(states(i)) {
      n := i;
    } else {
      var j := NextProductive(states, steps, i, budget);
      n := FlushFrom(states, steps, j, budget - 1);
    }
  }

  /** The state after the next productive step. */
  lemma NextProductive(states: nat -> Sys, steps: nat -> Step, i: nat, budget: nat) returns (j: nat)
    requires IsRun(states, steps) && Quiet(steps) && Fair(states, steps) && Within(states(i), budget)
    requires !Flushed(states(i))
    ensures j > i && budget > 0 && Within(states(j), budget - 1)
  {
    ProducesEventually(states, steps, i);
    var k := Witness(steps, i);
    StillWithin(states, steps, i, k, budget);
    j := k + 1;
    TakeProductive(states, steps, k, j, budget);
  }

  lemma Witness(steps: nat -> Step, i: nat) returns (k: nat)
    requires EventuallyProduces(steps, i)
    ensures k >= i && Productive(steps(k))
  {
    k :| k >= i && Productive(steps(k));
  }

  lemma StillWithin(states: nat -> Sys, steps: nat -> Step, i: nat, k: nat, budget: nat)
    requires IsRun(states, steps) && Quiet(steps) && i <= k && Within(states(i), budget)
    ensures Within(states(k), budget) && StepAt(states, steps, k) && !steps(k).Abort?
  {
    Along(states, steps, i, k);
  }

  lemma TakeProductive(states: nat -> Sys, steps: nat -> Step, k: nat, j: nat, budget: nat)
    requires StepAt(states, steps, k) && j == k + 1 && Within(states(k), budget)
    requires Productive(steps(k)) && !steps(k).Abort?
    ensures budget > 0 && Within(states(j), budget - 1)
  {
    ProductiveStep(states(k), steps(k), budget);
  }

  ghost predicate EmptyFrom(states: nat -> Sys, n: nat) {
    forall m: nat | m >= n :: states(m).q.txs == map[]
  }

  /** In every fair run without pushes, from any reachable state in which no task gave up, Flush's wait ends for good. */
  lemma FairRunFlushes(capacity: int, chain: map<Address, Uint64>, before: seq<Step>, states: nat -> Sys, steps: nat -> Step)
    requires Exec(Init(capacity, chain), before) == Some(states(0)) && NoneAborted(states(0))
    requires IsRun(states, steps) && Quiet(steps) && Fair(states, steps)
    ensures exists n: nat :: EmptyFrom(states, n)
  {
    QueueSpec.InitInv(capacity);
    ExecInv(Init(capacity, chain), before);
    WorkBound(states(0));
    var n := FlushFrom(states, steps, 0, Work(states(0)));
    forall m: nat | m >= n ensures states(m).q.txs == map[] {
      assert Flushed(states(n));
      Along(states, steps, n, m);
    }
    assert EmptyFrom(states, n);
  }
}
