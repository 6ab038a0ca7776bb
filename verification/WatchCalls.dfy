/**
 What becomes of every call to the queue under the watch: none is lost, each takes effect at once and
 as a whole, and one that can go on does.
 */
module WatchCalls {
  import opened LoadTypes
  import opened QueueSpec
  import opened Watch
  import QueueFifo

  // ---------- A call that was made is answered, or still waits ----------

  /** How far a goroutine's current call has come, by what it did so far. */
  datatype Stage =
    | Idle                        // no call, or the last one returned
    | Waiting(call: Call)         // its predicate has not been seen true yet
    | GivingUp                    // its context was done while it slept
    | Running                     // its predicate was seen true

  function StageOf(capacity: int, steps: seq<Step>, t: Tid): Stage
    requires Exec(capacity, steps).Some?
  {
    if steps == [] then Idle
    else
      var before, l := steps[..|steps| - 1], steps[|steps| - 1];
      var stage := StageOf(capacity, before, t);
      if l.t != t then stage
      else if l.Enter? then Waiting(l.call)
      else if l.Test? && stage.Waiting? && Guard(stage.call, Exec(capacity, before).value.q) then Running
      else if l.Expire? then GivingUp
      else if l.Release? then Idle
      else stage
  }

  /** Where a goroutine is at each stage: in particular one that waits wants the lock, tests, or sleeps. */
  predicate Fits(th: Thread, stage: Stage) {
    match stage
    case Idle => th.Outside?
    case Waiting(c) => (th.Wants? || th.Holds? || th.Asleep?) && th.call == c
    case GivingUp => th.WantsToQuit? || th.HoldsToQuit?
    case Running => th.InBody?
  }

  /**
   In every run a call stays with its goroutine until its predicate was seen true under the lock or its
   context was done; no wake-up, or anything else, makes it go away.
   */
  lemma {:induction false} CallsAreKept(capacity: int, steps: seq<Step>, t: Tid)
    requires Exec(capacity, steps).Some?
    ensures Fits(At(Exec(capacity, steps).value, t), StageOf(capacity, steps, t))
  {
    if steps != [] {
      CallsAreKept(capacity, steps[..|steps| - 1], t);
      StepKept(Exec(capacity, steps[..|steps| - 1]).value, steps[|steps| - 1], t);
    }
  }

  /** A step of another goroutine leaves t where it is. */
  lemma StepKept(m: Monitor, l: Step, t: Tid)
    requires Enabled(m, l)
    ensures l.t != t ==> At(Next(m, l), t) == At(m, t)
  {
  }

  /** A goroutine leaves a method only by giving up the lock: with its whole section done, or its context done. */
  lemma LeavesByRelease(m: Monitor, l: Step, t: Tid)
    requires Enabled(m, l) && !At(m, t).Outside? && At(Next(m, l), t).Outside?
    ensures l == Release(t) && (At(m, t) == InBody([]) || At(m, t).HoldsToQuit?)
  {
    StepKept(m, l, t);
  }

  // ---------- Calls take effect one at a time ----------

  /** The calls whose predicate was seen true, in the order in which it was. */
  function Passed(capacity: int, steps: seq<Step>): seq<Call>
    requires Exec(capacity, steps).Some?
  {
    if steps == [] then []
    else
      var before, l := steps[..|steps| - 1], steps[|steps| - 1];
      var m := Exec(capacity, before).value;
      Passed(capacity, before) + if l.Test? && Guard(At(m, l.t).call, m.q) then [At(m, l.t).call] else []
  }

  /** The calls one after the other, each as a whole. */
  function OneByOne(capacity: int, calls: seq<Call>): QState {
    if calls == [] then QueueSpec.Init(capacity)
    else Effect(calls[|calls| - 1], OneByOne(capacity, calls[..|calls| - 1]))
  }

  /** Each call finds its predicate true. */
  ghost predicate AllGuarded(capacity: int, calls: seq<Call>) {
    calls != [] ==>
      Guard(calls[|calls| - 1], OneByOne(capacity, calls[..|calls| - 1])) && AllGuarded(capacity, calls[..|calls| - 1])
  }

  lemma Snoc(capacity: int, calls: seq<Call>, c: Call)
    ensures OneByOne(capacity, calls + [c]) == Effect(c, OneByOne(capacity, calls))
    ensures AllGuarded(capacity, calls + [c]) <==> Guard(c, OneByOne(capacity, calls)) && AllGuarded(capacity, calls)
  {
    assert (calls + [c])[..|calls|] == calls;
  }

  /** What the running section will leave changes only when a call passes its test, and then by that call's effect. */
  lemma StepFinal(m: Monitor, l: Step)
    requires LockOk(m) && Enabled(m, l)
    ensures Final(Todo(Next(m, l)), Next(m, l).q) ==
            if l.Test? && Guard(At(m, l.t).call, m.q) then Effect(At(m, l.t).call, m.q) else Final(Todo(m), m.q)
    ensures l.Test? ==> Final(Todo(m), m.q) == m.q
  {
    TodoAfter(m, l);
    match l
    case Test(t) => BodyEnd(At(m, t).call, m.q);
    case Partial(t, q) => WriteHidesState(Todo(m), m.q, q);
    case _ =>
  }

  /**
   In every interleaving the queue, once the running section is done, is what the calls that passed make of
   it one by one, in the order in which they passed, each from a state in which its predicate holds.
   */
  lemma {:induction false} OneAtATime(capacity: int, steps: seq<Step>)
    requires Exec(capacity, steps).Some?
    ensures var m := Exec(capacity, steps).value;
            && Final(Todo(m), m.q) == OneByOne(capacity, Passed(capacity, steps))
            && AllGuarded(capacity, Passed(capacity, steps))
  {
    if steps != [] {
      var before, l := steps[..|steps| - 1], steps[|steps| - 1];
      OneAtATime(capacity, before);
      LockHolds(capacity, before);
      PassOne(capacity, Exec(capacity, before).value, l, Passed(capacity, before));
    }
  }

  lemma LockHolds(capacity: int, steps: seq<Step>)
    requires Exec(capacity, steps).Some?
    ensures LockOk(Exec(capacity, steps).value)
  {
    ExecInv(capacity, steps);
  }

  lemma PassOne(capacity: int, m: Monitor, l: Step, passed: seq<Call>)
    requires LockOk(m) && Enabled(m, l) && Final(Todo(m), m.q) == OneByOne(capacity, passed) && AllGuarded(capacity, passed)
    ensures var passed' := passed + if l.Test? && Guard(At(m, l.t).call, m.q) then [At(m, l.t).call] else [];
            && Final(Todo(Next(m, l)), Next(m, l).q) == OneByOne(capacity, passed')
            && AllGuarded(capacity, passed')
  {
    StepFinal(m, l);
    if l.Test? && Guard(At(m, l.t).call, m.q) {
      Snoc(capacity, passed, At(m, l.t).call);
    } else {
      assert passed + [] == passed;
    }
  }

  /** In particular, whenever nobody has the lock, that is the queue. */
  lemma FreeMeansWhole(capacity: int, steps: seq<Step>)
    requires Exec(capacity, steps).Some? && Exec(capacity, steps).value.lock == None
    ensures Exec(capacity, steps).value.q == OneByOne(capacity, Passed(capacity, steps))
  {
    OneAtATime(capacity, steps);
  }

  function OpsOf(calls: seq<Call>): seq<QueueFifo.Op> {
    if calls == [] then []
    else
      OpsOf(calls[..|calls| - 1]) +
      match calls[|calls| - 1]
      case CallPush(tx) => [QueueFifo.OpPush(tx)]
      case CallPopReady => [QueueFifo.OpPop]
      case CallPopSent(a) => [QueueFifo.OpSent(a)]
      case CallReset(a, n) => [QueueFifo.OpReset(a, n)]
      case CallWaitUntilEmpty => []
  }

  /** So whatever holds of the queue after every sequence of operations holds of it under every interleaving. */
  lemma {:induction false} OneByOneIsARun(capacity: int, calls: seq<Call>)
    ensures OneByOne(capacity, calls) == QueueFifo.Run(capacity, OpsOf(calls))
  {
    if calls != [] {
      var before, ops := OpsOf(calls[..|calls| - 1]), OpsOf(calls);
      OneByOneIsARun(capacity, calls[..|calls| - 1]);
      if ops != before {
        assert ops[..|ops| - 1] == before;
      }
    }
  }

  // ---------- What sleeping means ----------

  lemma {:induction false} CapacityStays(capacity: int, calls: seq<Call>)
    ensures OneByOne(capacity, calls).capacity == capacity
  {
    if calls != [] {
      CapacityStays(capacity, calls[..|calls| - 1]);
    }
  }

  /**
   Whoever sleeps, with the lock free and no wake-up on its way, has a reason: a Push that the queue is full,
   a PopReady that every account with a stored transaction has one out, a Flush that something is stored.
   PopSent and Reset never sleep.
   */
  lemma SleepersReason(capacity: int, steps: seq<Step>, t: Tid, a: Address)
    requires Exec(capacity, steps).Some? && Exec(capacity, steps).value.lock == None
    requires At(Exec(capacity, steps).value, t).Asleep? && !Enabled(Exec(capacity, steps).value, Wake(t))
    ensures var m := Exec(capacity, steps).value;
            match At(m, t).call
            case CallPush(_) => |m.q.txs| >= capacity
            case CallPopReady => a in m.q.byAddr && m.q.byAddr[a].firstNonce < m.q.byAddr[a].nextNonce ==> Outstanding(m.q, a)
            case CallWaitUntilEmpty => m.q.txs != map[]
            case CallPopSent(_) => false
            case CallReset(_, _) => false
  {
    NoLostWakeup(capacity, steps, t);
    FreeMeansWhole(capacity, steps);
    CapacityStays(capacity, Passed(capacity, steps));
    var q := Exec(capacity, steps).value.q;
    assert q.ready == [] ==> a !in q.ready;
  }

  // ---------- A call that can go on does ----------

  lemma Extend(capacity: int, steps: seq<Step>, l: Step)
    requires Exec(capacity, steps).Some? && Enabled(Exec(capacity, steps).value, l)
    ensures Exec(capacity, steps + [l]) == Some(Next(Exec(capacity, steps).value, l))
  {
    assert (steps + [l])[..|steps + [l]| - 1] == steps;
  }

  /** The steps are t's own, and take the run from one state to the other. */
  ghost predicate Takes(capacity: int, steps: seq<Step>, longer: seq<Step>, t: Tid) {
    steps <= longer && forall i | |steps| <= i < |longer| :: longer[i].t == t
  }

  /** The rest of a section, up to its end. */
  lemma {:induction false} RunBody(capacity: int, steps: seq<Step>, t: Tid) returns (longer: seq<Step>)
    requires Exec(capacity, steps).Some? && At(Exec(capacity, steps).value, t).InBody?
    ensures Takes(capacity, steps, longer, t) && Exec(capacity, longer).Some?
    ensures var m, m' := Exec(capacity, steps).value, Exec(capacity, longer).value;
            At(m', t) == InBody([]) && m'.q == Final(At(m, t).body, m.q)
    decreases |At(Exec(capacity, steps).value, t).body|
  {
    var m := Exec(capacity, steps).value;
    if At(m, t).body == [] {
      longer := steps;
    } else {
      Extend(capacity, steps, Act(t));
      var more := steps + [Act(t)];
      longer := RunBody(capacity, more, t);
    }
  }

  /** With the lock free, a goroutine that wants it and whose predicate is true runs its section and leaves. */
  lemma WanterCompletes(capacity: int, steps: seq<Step>, t: Tid) returns (longer: seq<Step>)
    requires Exec(capacity, steps).Some? && Exec(capacity, steps).value.lock == None
    requires At(Exec(capacity, steps).value, t).Wants?
    requires var m := Exec(capacity, steps).value; Guard(At(m, t).call, m.q) && !Wraps(At(m, t).call, m.q)
    ensures Takes(capacity, steps, longer, t) && Exec(capacity, longer).Some?
    ensures var m, m' := Exec(capacity, steps).value, Exec(capacity, longer).value;
            m'.lock == None && At(m', t).Outside? && m'.q == Effect(At(m, t).call, m.q)
  {
    var m := Exec(capacity, steps).value;
    var c := At(m, t).call;
    BodyEnd(c, m.q);
    Extend(capacity, steps, Acquire(t));
    var held := steps + [Acquire(t)];
    Extend(capacity, held, Test(t));
    var inside := held + [Test(t)];
    assert At(Exec(capacity, inside).value, t) == InBody(Body(c, m.q));
    var done := RunBody(capacity, inside, t);
    Extend(capacity, done, Release(t));
    longer := done + [Release(t)];
  }

  /** A sleeper whose predicate is true, on an old epoch, wakes, runs its section and leaves with its effect done. */
  lemma WokenCompletes(capacity: int, steps: seq<Step>, t: Tid) returns (longer: seq<Step>)
    requires Exec(capacity, steps).Some? && Exec(capacity, steps).value.lock == None
    requires At(Exec(capacity, steps).value, t).Asleep? && Enabled(Exec(capacity, steps).value, Wake(t))
    requires var m := Exec(capacity, steps).value; Guard(At(m, t).call, m.q) && !Wraps(At(m, t).call, m.q)
    ensures Takes(capacity, steps, longer, t) && Exec(capacity, longer).Some?
    ensures var m, m' := Exec(capacity, steps).value, Exec(capacity, longer).value;
            m'.lock == None && At(m', t).Outside? && m'.q == Effect(At(m, t).call, m.q)
  {
    Extend(capacity, steps, Wake(t));
    var woken := steps + [Wake(t)];
    longer := WanterCompletes(capacity, woken, t);
  }

  /** A sleeper whose context is done retakes the lock and leaves the queue as it is. */
  lemma ExpiredQuits(capacity: int, steps: seq<Step>, t: Tid) returns (longer: seq<Step>)
    requires Exec(capacity, steps).Some? && Exec(capacity, steps).value.lock == None
    requires At(Exec(capacity, steps).value, t).Asleep?
    ensures Takes(capacity, steps, longer, t) && Exec(capacity, longer).Some?
    ensures var m, m' := Exec(capacity, steps).value, Exec(capacity, longer).value;
            m'.lock == None && At(m', t).Outside? && m'.q == m.q
  {
    Extend(capacity, steps, Expire(t));
    longer := steps + [Expire(t)];
    Extend(capacity, longer, Acquire(t));
    longer := longer + [Acquire(t)];
    Extend(capacity, longer, Release(t));
    longer := longer + [Release(t)];
  }
}
