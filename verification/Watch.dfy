/**
 The watch as a monitor: a lock, and an `updated` channel that Updated closes and replaces.
 Any number of goroutines call the queue's methods; every interleaving of taking the lock,
 testing the predicate, falling asleep, signalling, mutating, waking and giving up is a run.
 */
module Watch {
  import opened LoadTypes
  import opened QueueSpec

  type Tid = nat

  datatype Call =
    | CallPush(tx: Tx)
    | CallPopReady
    | CallPopSent(addr: Address)
    | CallReset(addr: Address, nonce: Uint64)
    | CallWaitUntilEmpty

  /** The predicate the call hands to WaitUntil. PopSent and Reset do not wait. */
  predicate Guard(c: Call, q: QState) {
    match c
    case CallPush(_) => HasRoom(q)
    case CallPopReady => q.ready != []
    case CallWaitUntilEmpty => |q.txs| == 0
    case CallPopSent(_) => true
    case CallReset(_, _) => true
  }

  /** The rest of a critical section: signals, and the state its assignments arrive at. */
  datatype Action = Signal | Write(q: QState)

  /** What a call does once its predicate holds, in the order the source does it. */
  function Body(c: Call, q: QState): seq<Action> {
    match c
    case CallPush(tx) =>
      if !Accepts(q, tx) then [] else if IsHead(q, tx) then [Write(Push(q, tx)), Signal] else [Write(Push(q, tx))]
    case CallPopReady => if CanPop(q) then [Write(PopReady(q)), Signal] else []
    case CallPopSent(a) => if Outstanding(q, a) then [Signal, Write(PopSent(q, a))] else []
    case CallReset(a, n) => if Resets(q, a) then [Signal, Write(Reset(q, a, n))] else []
    case CallWaitUntilEmpty => []
  }

  /** The queue's state when the holder of the lock will have run `body`. */
  function Final(body: seq<Action>, q: QState): QState {
    if body == [] then q
    else Final(body[1..], if body[0].Write? then body[0].q else q)
  }

  datatype Thread =
    | Outside                            // not in any method of the queue
    | Wants(call: Call)                  // blocked on the lock, will test its predicate next
    | Holds(call: Call)                  // has the lock, about to test its predicate
    | InBody(body: seq<Action>)          // has the lock, predicate seen true
    | Asleep(call: Call, epoch: nat)     // lock released, blocked on that epoch's channel
    | WantsToQuit                        // context done while asleep: retaking the lock
    | HoldsToQuit                        // has the lock, about to return the context's error

  datatype Monitor = Monitor(lock: Option<Tid>, epoch: nat, q: QState, threads: map<Tid, Thread>)

  function Init(capacity: int): Monitor {
    Monitor(None, 0, QueueSpec.Init(capacity), map[])
  }

  function At(m: Monitor, t: Tid): Thread {
    if t in m.threads then m.threads[t] else Outside
  }

  datatype Step =
    | Enter(t: Tid, call: Call)
    | Acquire(t: Tid)
    | Test(t: Tid)
    | Act(t: Tid)
    | Partial(t: Tid, q: QState)         // any intermediate state of the assignments still to do
    | Release(t: Tid)
    | Wake(t: Tid)
    | Expire(t: Tid)

  predicate Wraps(c: Call, q: QState) {
    c.CallPush? && Accepts(q, c.tx) && c.tx.nonce == MAX_UINT64
  }

  predicate Writes(body: seq<Action>) {
    exists i | 0 <= i < |body| :: body[i].Write?
  }

  /** A run ends before it accepts nonce 2^64-1, which the queue cannot represent; see QueueSpec.PushInv. */
  predicate Enabled(m: Monitor, s: Step) {
    var th := At(m, s.t);
    match s
    case Enter(_, c) => th.Outside?
    case Acquire(_) => m.lock == None && (th.Wants? || th.WantsToQuit?)
    case Test(_) => th.Holds? && !Wraps(th.call, m.q)
    case Act(_) => th.InBody? && th.body != []
    case Partial(_, _) => th.InBody? && Writes(th.body)
    case Release(_) => th.HoldsToQuit? || (th.InBody? && th.body == [])
    case Wake(_) => th.Asleep? && th.epoch < m.epoch
    case Expire(_) => th.Asleep?
  }

  function Set(m: Monitor, t: Tid, th: Thread): Monitor {
    m.(threads := m.threads[t := th])
  }

  function Next(m: Monitor, s: Step): Monitor
    requires Enabled(m, s)
  {
    var th := At(m, s.t);
    match s
    case Enter(t, c) => Set(m, t, Wants(c))
    case Acquire(t) => Set(m.(lock := Some(t)), t, if th.Wants? then Holds(th.call) else HoldsToQuit)
    case Test(t) =>
      if Guard(th.call, m.q) then Set(m, t, InBody(Body(th.call, m.q)))
      else Set(m.(lock := None), t, Asleep(th.call, m.epoch))
    case Act(t) =>
      var m' := Set(m, t, InBody(th.body[1..]));
      if th.body[0].Signal? then m'.(epoch := m.epoch + 1) else m'.(q := th.body[0].q)
    case Partial(_, q) => m.(q := q)
    case Release(t) => Set(m.(lock := None), t, Outside)
    case Wake(t) => Set(m, t, Wants(th.call))
    case Expire(t) => Set(m, t, WantsToQuit)
  }

  /** The state after the steps, if each was enabled when it was taken. */
  function Exec(capacity: int, steps: seq<Step>): Option<Monitor> {
    if steps == [] then Some(Init(capacity))
    else
      var before := Exec(capacity, steps[..|steps| - 1]);
      if before.Some? && Enabled(before.value, steps[|steps| - 1])
      then Some(Next(before.value, steps[|steps| - 1])) else None
  }

  // ---------- Mutual exclusion and the wake-up invariant ----------

  predicate HasLock(th: Thread) {
    th.Holds? || th.InBody? || th.HoldsToQuit?
  }

  ghost predicate LockOk(m: Monitor) {
    forall t: Tid :: HasLock(At(m, t)) <==> m.lock == Some(t)
  }

  ghost predicate EpochsOk(m: Monitor) {
    forall t | t in m.threads && m.threads[t].Asleep? :: m.threads[t].epoch <= m.epoch
  }

  /** What the holder of the lock has still to do. */
  function Todo(m: Monitor): seq<Action> {
    if m.lock.Some? && At(m, m.lock.value).InBody? then At(m, m.lock.value).body else []
  }

  /** Every sleeper on the current channel whose predicate the running section will make true gets a signal. */
  ghost predicate Promised(m: Monitor) {
    forall t | t in m.threads && m.threads[t].Asleep? && m.threads[t].epoch == m.epoch ::
      Guard(m.threads[t].call, Final(Todo(m), m.q)) ==> Signal in Todo(m)
  }

  ghost predicate MonitorInv(m: Monitor) {
    LockOk(m) && EpochsOk(m) && QueueSpec.Inv(Final(Todo(m), m.q)) && Promised(m)
  }

  // ---------- Which critical section can end which wait ----------

  /** The exact condition under which running `c` makes the predicate of `waiter`, false before, true. */
  predicate Frees(c: Call, q: QState, waiter: Call) {
    match (c, waiter)
    case (CallPush(tx), CallPopReady) => Accepts(q, tx) && IsHead(q, tx)
    case (CallPopSent(a), CallPush(_)) => Outstanding(q, a)
    case (CallPopSent(a), CallPopReady) => Outstanding(q, a) && q.byAddr[a].firstNonce + 1 < q.byAddr[a].nextNonce
    case (CallPopSent(a), CallWaitUntilEmpty) => Outstanding(q, a) && |q.txs| == 1
    case (CallReset(a, _), CallPush(_)) => Outstanding(q, a)
    case (CallReset(a, _), CallWaitUntilEmpty) =>
      Outstanding(q, a) && |q.txs| == q.byAddr[a].nextNonce - q.byAddr[a].firstNonce
    case _ => false
  }

  /** In particular the signal PopReady sends frees nobody, and Push can free only PopReady. */
  lemma FreesExactly(c: Call, q: QState, waiter: Call)
    requires QueueSpec.Inv(q) && Guard(c, q) && !Guard(waiter, q)
    ensures Guard(waiter, Final(Body(c, q), q)) <==> Frees(c, q, waiter)
  {
    BodyEnd(c, q);
    match c
    case CallPush(tx) => PushFrees(tx, q, waiter);
    case CallPopReady => ReadyCanPop(q);
    case CallPopSent(a) => PopSentFrees(a, q, waiter);
    case CallReset(a, n) => ResetFrees(a, n, q, waiter);
    case CallWaitUntilEmpty =>
  }

  lemma PushFrees(tx: Tx, q: QState, waiter: Call)
    requires KeysMatch(q) && AccountsOk(q) && !Guard(waiter, q)
    ensures Guard(waiter, Push(q, tx)) <==> Frees(CallPush(tx), q, waiter)
  {
    SizeAfterPush(q, tx);
  }

  lemma PopSentFrees(a: Address, q: QState, waiter: Call)
    requires KeysMatch(q) && AccountsOk(q) && (|q.txs| == 0 || |q.txs| <= q.capacity) && !Guard(waiter, q)
    ensures Guard(waiter, PopSent(q, a)) <==> Frees(CallPopSent(a), q, waiter)
  {
    SizeAfterPopSent(q, a);
    if Outstanding(q, a) {
      assert Key(a, q.byAddr[a].firstNonce) in q.txs;
    }
  }

  lemma ResetFrees(a: Address, nonce: Uint64, q: QState, waiter: Call)
    requires KeysMatch(q) && AccountsOk(q) && (|q.txs| == 0 || |q.txs| <= q.capacity) && !Guard(waiter, q)
    ensures Guard(waiter, Reset(q, a, nonce)) <==> Frees(CallReset(a, nonce), q, waiter)
  {
    SizeAfterReset(q, a, nonce);
    if Outstanding(q, a) {
      assert Key(a, q.byAddr[a].firstNonce) in q.txs;
    }
  }

  function Effect(c: Call, q: QState): QState {
    match c
    case CallPush(tx) => Push(q, tx)
    case CallPopReady => if CanPop(q) then PopReady(q) else q
    case CallPopSent(a) => PopSent(q, a)
    case CallReset(a, n) => Reset(q, a, n)
    case CallWaitUntilEmpty => q
  }

  lemma BodyEnd(c: Call, q: QState)
    ensures Final(Body(c, q), q) == Effect(c, q)
  {
    match c
    case CallPush(tx) => SignalLast(Push(q, tx), q); WriteOnly(Push(q, tx), q);
    case CallPopReady => if CanPop(q) { SignalLast(PopReady(q), q); }
    case CallPopSent(a) => SignalFirst(PopSent(q, a), q);
    case CallReset(a, n) => SignalFirst(Reset(q, a, n), q);
    case CallWaitUntilEmpty =>
  }

  lemma EffectInv(c: Call, q: QState)
    requires QueueSpec.Inv(q)
    ensures QueueSpec.Inv(Effect(c, q)) <==> !Wraps(c, q)
  {
    match c
    case CallPush(tx) => PushInv(q, tx);
    case CallPopReady => if CanPop(q) { PopReadyInv(q); }
    case CallPopSent(a) => PopSentInv(q, a);
    case CallReset(a, n) => ResetInv(q, a, n);
    case CallWaitUntilEmpty =>
  }

  /**
   A method that makes some waiter's predicate true signals in the same critical section. It keeps
   the queue's invariant unless it accepts nonce 2^64-1.
   */
  lemma BodySignals(c: Call, q: QState, waiter: Call)
    requires QueueSpec.Inv(q) && Guard(c, q)
    ensures QueueSpec.Inv(Final(Body(c, q), q)) <==> !Wraps(c, q)
    ensures !Guard(waiter, q) && Guard(waiter, Final(Body(c, q), q)) ==> Signal in Body(c, q)
  {
    BodyEnd(c, q);
    EffectInv(c, q);
    if !Guard(waiter, q) {
      FreesExactly(c, q, waiter);
      FreesSignals(c, q, waiter);
    }
  }

  lemma FreesSignals(c: Call, q: QState, waiter: Call)
    ensures Frees(c, q, waiter) ==> Signal in Body(c, q)
  {
    match c
    case CallPush(tx) => SignalLast(Push(q, tx), q);
    case CallPopSent(a) => SignalFirst(PopSent(q, a), q);
    case CallReset(a, n) => SignalFirst(Reset(q, a, n), q);
    case _ =>
  }

  lemma SignalLast(q': QState, q: QState)
    ensures Final([Write(q'), Signal], q) == q' && Signal in [Write(q'), Signal]
  {
    assert [Write(q'), Signal][1..] == [Signal];
    assert Final([Signal], q') == Final([Signal][1..], q') == q';
    assert [Write(q'), Signal][1] == Signal;
  }

  lemma SignalFirst(q': QState, q: QState)
    ensures Final([Signal, Write(q')], q) == q' && Signal in [Signal, Write(q')]
  {
    assert [Signal, Write(q')][1..] == [Write(q')];
    assert Final([Write(q')], q) == Final([Write(q')][1..], q') == q';
  }

  /** Whether the call signals, and so wakes the sleepers. */
  predicate Signals(c: Call, q: QState) {
    Signal in Body(c, q)
  }

  lemma SignalsIff(c: Call, q: QState)
    ensures Signals(c, q) <==>
            match c
            case CallPush(tx) => Accepts(q, tx) && IsHead(q, tx)
            case CallPopReady => CanPop(q)
            case CallPopSent(a) => Outstanding(q, a)
            case CallReset(a, _) => Resets(q, a)
            case CallWaitUntilEmpty => false
  {
    match c
    case CallPush(tx) => SignalLast(Push(q, tx), q);
    case CallPopReady => if CanPop(q) { SignalLast(PopReady(q), q); }
    case CallPopSent(a) => SignalFirst(PopSent(q, a), q);
    case CallReset(a, n) => SignalFirst(Reset(q, a, n), q);
    case CallWaitUntilEmpty =>
  }

  lemma WriteOnly(q': QState, q: QState)
    ensures Final([Write(q')], q) == q'
  {
    assert [Write(q')][1..] == [];
    assert Final([Write(q')], q) == Final([Write(q')][1..], q');
  }

  lemma {:induction false} WriteHidesState(body: seq<Action>, q: QState, q': QState)
    requires Writes(body)
    ensures Final(body, q) == Final(body, q')
  {
    if !body[0].Write? {
      var i :| 0 <= i < |body| && body[i].Write?;
      assert body[1..][i - 1].Write?;
      WriteHidesState(body[1..], q, q');
    }
  }

  lemma StepKeepsLock(m: Monitor, s: Step)
    requires LockOk(m) && EpochsOk(m) && Enabled(m, s)
    ensures LockOk(Next(m, s)) && EpochsOk(Next(m, s))
  {
    assert HasLock(At(m, s.t)) <==> m.lock == Some(s.t);
    forall t: Tid ensures HasLock(At(Next(m, s), t)) <==> Next(m, s).lock == Some(t) {
      assert HasLock(At(m, t)) <==> m.lock == Some(t);
    }
  }

  /** Todo only changes at the hands of the thread that has the lock. */
  lemma TodoAfter(m: Monitor, s: Step)
    requires LockOk(m) && Enabled(m, s)
    ensures Todo(Next(m, s)) ==
            match s
            case Test(t) => if Guard(At(m, t).call, m.q) then Body(At(m, t).call, m.q) else []
            case Act(_) => Todo(m)[1..]
            case _ => Todo(m)
    ensures s.Test? || s.Acquire? || s.Release? ==> Todo(m) == []
    ensures s.Act? || s.Partial? ==> Todo(m) == At(m, s.t).body
  {
    assert HasLock(At(m, s.t)) <==> m.lock == Some(s.t);
    if m.lock.Some? {
      assert HasLock(At(m, m.lock.value));
    }
  }

  lemma StepKeepsPromise(m: Monitor, s: Step)
    requires MonitorInv(m) && Enabled(m, s) && LockOk(Next(m, s)) && EpochsOk(Next(m, s))
    ensures QueueSpec.Inv(Final(Todo(Next(m, s)), Next(m, s).q)) && Promised(Next(m, s))
  {
    var m' := Next(m, s);
    TodoAfter(m, s);
    match s
    case Test(t) =>
      var c := At(m, t).call;
      forall w: Call ensures Guard(c, m.q) && !Guard(w, m.q) && Guard(w, Final(Todo(m'), m'.q)) ==> Signal in Todo(m') {
        if Guard(c, m.q) {
          BodySignals(c, m.q, w);
        }
      }
      BodySignalsInv(c, m.q);
    case Act(t) =>
      var body := Todo(m);
      if body[0].Write? {
        assert Signal in body ==> Signal in body[1..];
      }
    case Partial(t, q) => WriteHidesState(Todo(m), m.q, q);
    case _ =>
  }

  lemma BodySignalsInv(c: Call, q: QState)
    requires QueueSpec.Inv(q) && !Wraps(c, q)
    ensures Guard(c, q) ==> QueueSpec.Inv(Final(Body(c, q), q))
  {
    if Guard(c, q) {
      BodySignals(c, q, c);
    }
  }

  lemma {:induction false} ExecInv(capacity: int, steps: seq<Step>)
    requires Exec(capacity, steps).Some?
    ensures MonitorInv(Exec(capacity, steps).value)
  {
    if steps == [] {
      QueueSpec.InitInv(capacity);
    } else {
      var before := steps[..|steps| - 1];
      ExecInv(capacity, before);
      var m := Exec(capacity, before).value;
      StepKeepsLock(m, steps[|steps| - 1]);
      StepKeepsPromise(m, steps[|steps| - 1]);
    }
  }

  /**
   No lost wake-up. Whenever nobody holds the lock, the queue's invariant holds, and a
   goroutine asleep on the current channel waits for something that is still false: one
   whose predicate is true has had its channel closed and can wake.
   */
  lemma NoLostWakeup(capacity: int, steps: seq<Step>, t: Tid)
    requires Exec(capacity, steps).Some? && Exec(capacity, steps).value.lock == None
    ensures var m := Exec(capacity, steps).value;
            QueueSpec.Inv(m.q)
            && (At(m, t).Asleep? && Guard(At(m, t).call, m.q) ==> Enabled(m, Wake(t)))
  {
    ExecInv(capacity, steps);
  }

  /** At most one goroutine is between taking and releasing the lock. */
  lemma MutualExclusion(capacity: int, steps: seq<Step>, t: Tid, u: Tid)
    requires Exec(capacity, steps).Some?
    ensures var m := Exec(capacity, steps).value;
            HasLock(At(m, t)) && HasLock(At(m, u)) ==> t == u
  {
    ExecInv(capacity, steps);
  }
}
