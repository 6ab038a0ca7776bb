/**
 Flush: once nothing more is pushed, the send protocol empties the queue. Every step that does
 not fail uses up some of 4 units of work per stored transaction, and while transactions are
 stored and no task gave up, some such step can be taken.
 */
module FlushProgress {
  import opened LoadTypes
  import opened QueueSpec
  import opened SendProtocol
  import MapSum

  /** How far a task is on its way from PopReady (1) to PopSent or Reset (3). */
  function Done(t: Task): int {
    match t.phase
    case Sending => 1
    case Registering => 2
    case NeedsNonce => 2
    case HasNonce(_) => 3
    case Settling => 3
    case Aborted => 3
  }

  function Dones(tasks: map<nat, Task>): map<nat, int> {
    map i | i in tasks :: Done(tasks[i])
  }

  ghost function Work(s: Sys): int {
    4 * |s.q.txs| - MapSum.Sum(Dones(s.tasks))
  }

  /** A step that does something: all but failed nonce reads, giving up, and outside changes. */
  predicate Productive(l: Step) {
    l.Dispatch? || l.SendRpc? || l.Register? || l.Settle? || (l.ReadNonce? && l.ok)
  }

  lemma AdvanceWork(s: Sys, id: nat, phase: Phase)
    requires id in s.tasks
    ensures Work(Advance(s, id, phase)) == Work(s) + Done(s.tasks[id]) - Done(s.tasks[id].(phase := phase))
  {
    var t := s.tasks[id].(phase := phase);
    MapSum.Update(Dones(s.tasks), id, Done(t));
    assert Dones(s.tasks[id := t]) == Dones(s.tasks)[id := Done(t)];
  }

  lemma DispatchWork(s: Sys, id: nat)
    requires Enabled(s, Dispatch(id))
    ensures Work(Next(s, Dispatch(id))) == Work(s) - 1
  {
    var t := Task(HeadTx(s.q, s.q.ready[0]), Sending);
    MapSum.Update(Dones(s.tasks), id, 1);
    assert Dones(s.tasks[id := t]) == Dones(s.tasks)[id := 1];
  }

  lemma DonesWithout(tasks: map<nat, Task>, id: nat)
    requires id in tasks
    ensures MapSum.Sum(Dones(tasks)) == Done(tasks[id]) + MapSum.Sum(Dones(tasks - {id}))
  {
    MapSum.Remove(Dones(tasks), id);
    assert Dones(tasks) - {id} == Dones(tasks - {id});
  }

  lemma SettleShrinks(s: Sys, id: nat)
    requires SysInv(s) && Enabled(s, Settle(id))
    ensures |Next(s, Settle(id)).q.txs| < |s.q.txs|
  {
    var t := s.tasks[id];
    assert Outstanding(s.q, Sender(t));
    if t.phase.HasNonce? {
      SizeAfterReset(s.q, Sender(t), t.phase.nonce);
    } else {
      SizeAfterPopSent(s.q, Sender(t));
    }
  }

  lemma SettleWork(s: Sys, id: nat)
    requires Enabled(s, Settle(id)) && |Next(s, Settle(id)).q.txs| < |s.q.txs|
    ensures Work(Next(s, Settle(id))) < Work(s)
  {
    DonesWithout(s.tasks, id);
  }

  /** The steps of a task that leave the queue alone: each moves it forward, or not at all. */
  lemma TaskWork(s: Sys, l: Step)
    requires Enabled(s, l) && (l.SendRpc? || l.Register? || l.ReadNonce? || l.Abort?)
    ensures Work(Next(s, l)) <= Work(s) - if Productive(l) then 1 else 0
  {
    match l
    case SendRpc(id, fault) => AdvanceWork(s, id, AfterSend(s, s.tasks[id], fault));
    case Register(id) => AdvanceWork(s, id, Settling);
    case ReadNonce(id, ok) => AdvanceWork(s, id, HasNonce(ChainNonce(s, Sender(s.tasks[id]))));
    case Abort(id) => AdvanceWork(s, id, Aborted);
  }

  lemma StepWork(s: Sys, l: Step)
    requires SysInv(s) && Enabled(s, l) && !l.Generate?
    ensures Work(Next(s, l)) <= Work(s) - if Productive(l) then 1 else 0
  {
    match l
    case Dispatch(id) => DispatchWork(s, id);
    case Settle(id) => SettleShrinks(s, id); SettleWork(s, id);
    case External(_, _) =>
    case _ => TaskWork(s, l);
  }

  function HeldKey(t: Task): Key {
    Key(Sender(t), t.tx.nonce)
  }

  /** Each task holds a stored transaction of its own: at most 3 units are done per stored transaction. */
  lemma {:induction false} DoneBound(tasks: map<nat, Task>, keys: set<Key>)
    requires forall i | i in tasks :: HeldKey(tasks[i]) in keys
    requires forall i, j | i in tasks && j in tasks && i != j :: HeldKey(tasks[i]) != HeldKey(tasks[j])
    ensures 0 <= MapSum.Sum(Dones(tasks)) <= 3 * |keys|
    decreases |tasks|
  {
    if tasks != map[] {
      var i :| i in tasks;
      var rest := tasks - {i};
      DoneBound(rest, keys - {HeldKey(tasks[i])});
      DonesWithout(tasks, i);
    }
  }

  lemma WorkBound(s: Sys)
    requires TasksHoldHeads(s.q, s.tasks)
    ensures 0 <= Work(s) <= 4 * |s.q.txs|
  {
    DoneBound(s.tasks, s.q.txs.Keys);
  }

  function ProductiveSteps(steps: seq<Step>): nat {
    if steps == [] then 0
    else ProductiveSteps(steps[..|steps| - 1]) + if Productive(steps[|steps| - 1]) then 1 else 0
  }

  lemma {:induction false} RunWork(s: Sys, steps: seq<Step>)
    requires SysInv(s) && Exec(s, steps).Some? && forall l | l in steps :: !l.Generate?
    ensures SysInv(Exec(s, steps).value)
    ensures Work(Exec(s, steps).value) + ProductiveSteps(steps) <= Work(s)
  {
    if steps != [] {
      var before := steps[..|steps| - 1];
      RunWork(s, before);
      StepInv(Exec(s, before).value, steps[|steps| - 1]);
      StepWork(Exec(s, before).value, steps[|steps| - 1]);
    }
  }

  /** While transactions are stored and no task gave up, some productive step can be taken. */
  lemma NeverStuck(s: Sys)
    requires SysInv(s) && s.q.txs != map[] && forall i | i in s.tasks :: !s.tasks[i].phase.Aborted?
    ensures exists l :: Enabled(s, l) && Productive(l)
  {
    var k :| k in s.q.txs;
    if Outstanding(s.q, k.addr) {
      assert Held(s.tasks, k.addr);
      var i :| i in s.tasks && Sender(s.tasks[i]) == k.addr;
      var l := if s.tasks[i].phase.Sending? then SendRpc(i, NoFault)
               else if s.tasks[i].phase.Registering? then Register(i)
               else if s.tasks[i].phase.NeedsNonce? then ReadNonce(i, true) else Settle(i);
      assert Enabled(s, l) && Productive(l);
    } else {
      assert k.addr in s.q.ready;
      ReadyCanPop(s.q);
      var id := FreshId(s.tasks);
      assert Enabled(s, Dispatch(id)) && Productive(Dispatch(id));
    }
  }

  lemma {:induction false} FreshId(tasks: map<nat, Task>) returns (id: nat)
    ensures forall i | i in tasks :: i < id
    decreases |tasks|
  {
    if tasks == map[] {
      id := 0;
    } else {
      var i :| i in tasks;
      var rest := FreshId(tasks - {i});
      id := if i < rest then rest else i + 1;
      assert forall j | j in tasks :: j == i || j in tasks - {i};
    }
  }

  /**
   A run in which nothing is pushed takes at most 4 productive steps per transaction stored at
   its start; if it ends where no productive step is left, and no task gave up, the queue is empty.
   */
  lemma FlushTerminates(capacity: int, chain: map<Address, Uint64>, before: seq<Step>, steps: seq<Step>)
    requires Exec(SendProtocol.Init(capacity, chain), before).Some?
    requires Exec(Exec(SendProtocol.Init(capacity, chain), before).value, steps).Some?
    requires forall l | l in steps :: !l.Generate?
    ensures var s := Exec(SendProtocol.Init(capacity, chain), before).value;
            var s' := Exec(s, steps).value;
            && ProductiveSteps(steps) <= 4 * |s.q.txs|
            && ((forall i | i in s'.tasks :: !s'.tasks[i].phase.Aborted?) && (forall l | Productive(l) :: !Enabled(s', l))
                ==> s'.q.txs == map[])
  {
    QueueSpec.InitInv(capacity);
    ExecInv(SendProtocol.Init(capacity, chain), before);
    var s := Exec(SendProtocol.Init(capacity, chain), before).value;
    RunWork(s, steps);
    var s' := Exec(s, steps).value;
    WorkBound(s);
    WorkBound(s');
    if s'.q.txs != map[] && forall i | i in s'.tasks :: !s'.tasks[i].phase.Aborted? {
      NeverStuck(s');
    }
  }
}
