/**
 The send protocol: the loop that hands out ready transactions, the tasks that sign, send
 and settle them, the generator that pushes, and a chain that accepts a transaction exactly
 when its nonce is the sender's pending nonce and may fail any call, before or after it took
 effect. Runs are arbitrary interleavings of these steps.
 */
module SendProtocol {
  import opened LoadTypes
  import opened QueueSpec

  /** Where a spawned task is: between PopReady and the PopSent or Reset that ends it. */
  datatype Phase =
    | Sending                     // handed out, not yet sent
    | Registering                 // sent: will hand the transaction to the inclusion tracker
    | Settling                    // will call PopSent
    | NeedsNonce                  // send failed: asking the chain for the nonce, again and again
    | HasNonce(nonce: Uint64)     // will call Reset
    | Aborted                     // returned an error (context done): the scope is being cancelled

  datatype Task = Task(tx: Tx, phase: Phase)

  datatype Sys = Sys(q: QState, tasks: map<nat, Task>, chain: map<Address, Uint64>)

  datatype Fault = NoFault | BeforeEffect | AfterEffect

  datatype Step =
    | Generate(tx: Tx)
    | Dispatch(id: nat)
    | SendRpc(id: nat, fault: Fault)
    | Register(id: nat)
    | ReadNonce(id: nat, ok: bool)
    | Settle(id: nat)
    | Abort(id: nat)
    | External(addr: Address, nonce: Uint64)

  function Init(capacity: int, chain: map<Address, Uint64>): Sys {
    Sys(QueueSpec.Init(capacity), map[], chain)
  }

  function ChainNonce(s: Sys, a: Address): Uint64 {
    if a in s.chain then s.chain[a] else 0
  }

  function Sender(t: Task): Address {
    t.tx.sender.address
  }

  /** The one push the queue cannot represent; see QueueSpec.PushInv. */
  predicate Wraps(q: QState, tx: Tx) {
    Accepts(q, tx) && tx.nonce == MAX_UINT64
  }

  predicate Enabled(s: Sys, l: Step) {
    match l
    case Generate(tx) => HasRoom(s.q) && !Wraps(s.q, tx)
    case Dispatch(id) => id !in s.tasks && CanPop(s.q)
    case SendRpc(id, _) => id in s.tasks && s.tasks[id].phase.Sending?
    case Register(id) => id in s.tasks && s.tasks[id].phase.Registering?
    case ReadNonce(id, _) => id in s.tasks && s.tasks[id].phase.NeedsNonce?
    case Settle(id) => id in s.tasks && (s.tasks[id].phase.Settling? || s.tasks[id].phase.HasNonce?)
    case Abort(id) => id in s.tasks && (s.tasks[id].phase.Sending? || s.tasks[id].phase.NeedsNonce?)
    case External(_, _) => true
  }

  predicate Matches(s: Sys, t: Task) {
    t.tx.nonce == ChainNonce(s, Sender(t))
  }

  function AfterSend(s: Sys, t: Task, fault: Fault): Phase {
    if Matches(s, t) && fault.NoFault? then Registering else if !t.tx.sender.tracked then Settling else NeedsNonce
  }

  function Advance(s: Sys, id: nat, phase: Phase): Sys
    requires id in s.tasks
  {
    s.(tasks := s.tasks[id := s.tasks[id].(phase := phase)])
  }

  function Next(s: Sys, l: Step): Sys
    requires Enabled(s, l)
  {
    match l
    case Generate(tx) => s.(q := Push(s.q, tx))
    case Dispatch(id) => s.(q := PopReady(s.q), tasks := s.tasks[id := Task(HeadTx(s.q, s.q.ready[0]), Sending)])
    case SendRpc(id, fault) =>
      var t := s.tasks[id];
      var s' := Advance(s, id, AfterSend(s, t, fault));
      if Matches(s, t) && !fault.BeforeEffect? then s'.(chain := s.chain[Sender(t) := WrapAdd(t.tx.nonce, 1)]) else s'
    case Register(id) => Advance(s, id, Settling)
    case ReadNonce(id, ok) => if ok then Advance(s, id, HasNonce(ChainNonce(s, Sender(s.tasks[id])))) else s
    case Settle(id) =>
      var t := s.tasks[id];
      s.(q := if t.phase.HasNonce? then Reset(s.q, Sender(t), t.phase.nonce) else PopSent(s.q, Sender(t)),
         tasks := s.tasks - {id})
    case Abort(id) => Advance(s, id, Aborted)
    case External(a, n) => s.(chain := s.chain[a := n])
  }

  function Exec(s: Sys, steps: seq<Step>): Option<Sys> {
    if steps == [] then Some(s)
    else
      var before := Exec(s, steps[..|steps| - 1]);
      if before.Some? && Enabled(before.value, steps[|steps| - 1])
      then Some(Next(before.value, steps[|steps| - 1])) else None
  }

  // ---------- Tasks are exactly the outstanding hand-outs ----------

  predicate Stored(q: QState, tx: Tx) {
    var k := Key(tx.sender.address, tx.nonce);
    k in q.txs && q.txs[k] == tx
  }

  /** Every task holds the head of its account, and no two tasks hold the same account. */
  ghost predicate TasksHoldHeads(q: QState, tasks: map<nat, Task>) {
    && (forall i | i in tasks :: Outstanding(q, Sender(tasks[i])))
    && (forall i | i in tasks :: Stored(q, tasks[i].tx) && tasks[i].tx.nonce == q.byAddr[Sender(tasks[i])].firstNonce)
    && (forall i, j | i in tasks && j in tasks && i != j :: Sender(tasks[i]) != Sender(tasks[j]))
  }

  ghost predicate Held(tasks: map<nat, Task>, a: Address) {
    exists i :: i in tasks && Sender(tasks[i]) == a
  }

  ghost predicate OutstandingHeld(q: QState, tasks: map<nat, Task>) {
    forall a :: Outstanding(q, a) ==> Held(tasks, a)
  }

  ghost predicate SysInv(s: Sys) {
    && QueueSpec.Inv(s.q)
    && TasksHoldHeads(s.q, s.tasks)
    && OutstandingHeld(s.q, s.tasks)
    && forall i | i in s.tasks && (s.tasks[i].phase.NeedsNonce? || s.tasks[i].phase.HasNonce?) :: s.tasks[i].tx.sender.tracked
  }

  /** The queue's part of the invariant survives a step that leaves the queue and the senders alone. */
  lemma AdvanceInv(s: Sys, id: nat, phase: Phase)
    requires SysInv(s) && id in s.tasks
    requires phase.NeedsNonce? || phase.HasNonce? ==> s.tasks[id].tx.sender.tracked
    ensures SysInv(Advance(s, id, phase))
  {
    var s' := Advance(s, id, phase);
    forall a | Outstanding(s'.q, a) ensures Held(s'.tasks, a) {
      assert Held(s.tasks, a);
      var i :| i in s.tasks && Sender(s.tasks[i]) == a;
      assert i in s'.tasks && Sender(s'.tasks[i]) == a;
    }
  }

  lemma GenerateInv(s: Sys, tx: Tx)
    requires SysInv(s) && Enabled(s, Generate(tx))
    ensures SysInv(Next(s, Generate(tx)))
  {
    PushInv(s.q, tx);
    PushKeepsHeads(s.q, tx);
  }

  /** Push neither settles nor hands out anything, and keeps every account's head. */
  lemma PushKeepsHeads(q: QState, tx: Tx)
    requires QueueSpec.Inv(q) && !Wraps(q, tx)
    ensures forall a :: Outstanding(Push(q, tx), a) <==> Outstanding(q, a)
    ensures forall a | a in q.byAddr :: a in Push(q, tx).byAddr && Push(q, tx).byAddr[a].firstNonce == q.byAddr[a].firstNonce
    ensures forall k | k in q.txs :: k in Push(q, tx).txs && Push(q, tx).txs[k] == q.txs[k]
  {
  }

  /** The account whose transaction PopReady hands out was ready, so nothing of it was out. */
  lemma DispatchFresh(s: Sys, id: nat)
    requires SysInv(s) && Enabled(s, Dispatch(id))
    ensures !Held(s.tasks, s.q.ready[0]) && Sender(Next(s, Dispatch(id)).tasks[id]) == s.q.ready[0]
    ensures Outstanding(PopReady(s.q), s.q.ready[0])
    ensures forall b | b != s.q.ready[0] :: Outstanding(PopReady(s.q), b) <==> Outstanding(s.q, b)
  {
    PopReadyInv(s.q);
  }

  lemma DispatchInv(s: Sys, id: nat)
    requires SysInv(s) && Enabled(s, Dispatch(id))
    ensures SysInv(Next(s, Dispatch(id)))
    ensures Sender(Next(s, Dispatch(id)).tasks[id]) == s.q.ready[0]
    ensures !Held(s.tasks, s.q.ready[0])
  {
    PopReadyInv(s.q);
    DispatchFresh(s, id);
    DispatchHeads(s, id);
    var s', a := Next(s, Dispatch(id)), s.q.ready[0];
    forall b | Outstanding(s'.q, b) ensures Held(s'.tasks, b) {
      if b == a {
        assert id in s'.tasks;
      } else {
        assert Held(s.tasks, b);
        var i :| i in s.tasks && Sender(s.tasks[i]) == b;
        assert i in s'.tasks && Sender(s'.tasks[i]) == b;
      }
    }
  }

  lemma DispatchHeads(s: Sys, id: nat)
    requires SysInv(s) && Enabled(s, Dispatch(id)) && !Held(s.tasks, s.q.ready[0])
    requires Outstanding(PopReady(s.q), s.q.ready[0])
    ensures TasksHoldHeads(Next(s, Dispatch(id)).q, Next(s, Dispatch(id)).tasks)
  {
    var a := s.q.ready[0];
    assert Stored(s.q, HeadTx(s.q, a)) && HeadTx(s.q, a).nonce == s.q.byAddr[a].firstNonce by {
      assert Key(a, s.q.byAddr[a].firstNonce) in s.q.txs;
    }
    assert forall i | i in s.tasks :: Sender(s.tasks[i]) != a;
  }

  /** What PopSent and Reset of one account leave alone. */
  ghost predicate OthersKept(q: QState, q': QState, a: Address) {
    && (forall b | b != a :: Outstanding(q', b) <==> Outstanding(q, b))
    && (forall b | b != a && b in q.byAddr :: b in q'.byAddr && q'.byAddr[b].firstNonce == q.byAddr[b].firstNonce)
    && (forall k | k in q.txs && k.addr != a :: k in q'.txs && q'.txs[k] == q.txs[k])
  }

  lemma PopSentKeepsOthers(q: QState, a: Address)
    ensures OthersKept(q, PopSent(q, a), a)
  {
  }

  lemma ResetKeepsOthers(q: QState, a: Address, nonce: Uint64)
    ensures OthersKept(q, Reset(q, a, nonce), a)
  {
  }

  lemma RemoveTask(s: Sys, id: nat, q': QState)
    requires SysInv(s) && id in s.tasks && QueueSpec.Inv(q')
    requires OthersKept(s.q, q', Sender(s.tasks[id])) && !Outstanding(q', Sender(s.tasks[id]))
    ensures SysInv(s.(q := q', tasks := s.tasks - {id}))
    ensures !Held(s.tasks - {id}, Sender(s.tasks[id]))
  {
    var tasks' := s.tasks - {id};
    forall a | Outstanding(q', a) ensures Held(tasks', a) {
      assert Outstanding(s.q, a) && Held(s.tasks, a);
      var i :| i in s.tasks && Sender(s.tasks[i]) == a;
      assert i in tasks' && Sender(tasks'[i]) == a;
    }
  }

  lemma SettleInv(s: Sys, id: nat)
    requires SysInv(s) && Enabled(s, Settle(id))
    ensures SysInv(Next(s, Settle(id)))
    ensures !Held(Next(s, Settle(id)).tasks, Sender(s.tasks[id]))
  {
    var t := s.tasks[id];
    if t.phase.HasNonce? {
      ResetInv(s.q, Sender(t), t.phase.nonce);
      ResetKeepsOthers(s.q, Sender(t), t.phase.nonce);
      RemoveTask(s, id, Reset(s.q, Sender(t), t.phase.nonce));
    } else {
      PopSentInv(s.q, Sender(t));
      PopSentKeepsOthers(s.q, Sender(t));
      RemoveTask(s, id, PopSent(s.q, Sender(t)));
    }
  }

  lemma StepInv(s: Sys, l: Step)
    requires SysInv(s) && Enabled(s, l)
    ensures SysInv(Next(s, l))
  {
    match l
    case Generate(tx) => GenerateInv(s, tx);
    case Dispatch(id) => DispatchInv(s, id);
    case SendRpc(id, fault) => AdvanceInv(s, id, AfterSend(s, s.tasks[id], fault));
    case Register(id) => AdvanceInv(s, id, Settling);
    case ReadNonce(id, ok) => AdvanceInv(s, id, HasNonce(ChainNonce(s, Sender(s.tasks[id]))));
    case Settle(id) => SettleInv(s, id);
    case Abort(id) => AdvanceInv(s, id, Aborted);
    case External(_, _) =>
  }

  lemma {:induction false} ExecInv(s: Sys, steps: seq<Step>)
    requires SysInv(s) && Exec(s, steps).Some?
    ensures SysInv(Exec(s, steps).value)
  {
    if steps != [] {
      ExecInv(s, steps[..|steps| - 1]);
      StepInv(Exec(s, steps[..|steps| - 1]).value, steps[|steps| - 1]);
    }
  }

  /**
   In every run, the accounts with an outstanding transaction are exactly those some task
   holds, each by one task, which holds the account's oldest transaction.
   */
  lemma OneTaskPerAccount(capacity: int, chain: map<Address, Uint64>, steps: seq<Step>, a: Address)
    requires Exec(Init(capacity, chain), steps).Some?
    ensures var s := Exec(Init(capacity, chain), steps).value;
            && QueueSpec.Inv(s.q)
            && (Outstanding(s.q, a) <==> Held(s.tasks, a))
            && (forall i, j | i in s.tasks && j in s.tasks && Sender(s.tasks[i]) == Sender(s.tasks[j]) :: i == j)
            && (forall i | i in s.tasks && Sender(s.tasks[i]) == a ::
                  Outstanding(s.q, a) && Key(a, s.q.byAddr[a].firstNonce) in s.q.txs && s.tasks[i].tx == HeadTx(s.q, a))
  {
    QueueSpec.InitInv(capacity);
    ExecInv(Init(capacity, chain), steps);
  }
}
