/**
 Self-stabilising nonces. For an account whose key only this process uses, and which is
 tracked, a send whose nonce is not the chain's pending nonce can happen once at the start
 and once for every change of the nonce from outside; nothing the chain's calls do when they
 fail, before or after taking effect, adds to that.
 */
module NonceSync {
  import opened LoadTypes
  import opened QueueSpec
  import opened SendProtocol

  /** The nonce of the account's next hand-out; a tracked account the queue does not know starts at 0. */
  function QueueNonce(q: QState, a: Address): Uint64 {
    if a in q.byAddr then q.byAddr[a].firstNonce else 0
  }

  /** What the task will leave the queue believing agrees with the chain. */
  predicate TaskInSync(t: Task, chainNonce: Uint64) {
    match t.phase
    case Sending => t.tx.nonce == chainNonce
    case Registering => t.tx.nonce + 1 == chainNonce
    case Settling => t.tx.nonce + 1 == chainNonce
    case NeedsNonce => true
    case HasNonce(n) => n == chainNonce
    case Aborted => true
  }

  ghost predicate InSync(s: Sys, a: Address) {
    && (forall i | i in s.tasks && Sender(s.tasks[i]) == a :: TaskInSync(s.tasks[i], ChainNonce(s, a)))
    && (Held(s.tasks, a) || QueueNonce(s.q, a) == ChainNonce(s, a))
  }

  ghost predicate Tracked(s: Sys, a: Address) {
    && (a in s.q.byAddr ==> s.q.byAddr[a].track)
    && (forall k | k in s.q.txs && k.addr == a :: s.q.txs[k].sender.tracked)
  }

  ghost predicate OffersTracked(l: Step, a: Address) {
    l.Generate? && l.tx.sender.address == a ==> l.tx.sender.tracked
  }

  ghost function Gap(s: Sys, a: Address): nat {
    if InSync(s, a) then 0 else 1
  }

  /** The step sends a transaction of the account with a nonce the chain does not expect. */
  function Missed(s: Sys, l: Step, a: Address): nat
    requires Enabled(s, l)
  {
    if l.SendRpc? && Sender(s.tasks[l.id]) == a && !Matches(s, s.tasks[l.id]) then 1 else 0
  }

  function Moved(l: Step, a: Address): nat {
    if l.External? && l.addr == a then 1 else 0
  }

  lemma GenerateSync(s: Sys, tx: Tx, a: Address)
    requires SysInv(s) && Tracked(s, a) && Enabled(s, Generate(tx)) && OffersTracked(Generate(tx), a)
    ensures Tracked(Next(s, Generate(tx)), a)
    ensures InSync(s, a) ==> InSync(Next(s, Generate(tx)), a)
  {
    PushKeepsHeads(s.q, tx);
  }

  lemma DispatchSync(s: Sys, id: nat, a: Address)
    requires SysInv(s) && Tracked(s, a) && Enabled(s, Dispatch(id))
    ensures InSync(s, a) ==> InSync(Next(s, Dispatch(id)), a)
  {
    var s' := Next(s, Dispatch(id));
    DispatchInv(s, id);
    HeldAfter(s, id, s'.tasks[id], a);
    if InSync(s, a) {
      if a == s.q.ready[0] {
        HeadInSync(s, a);
      } else {
        assert QueueNonce(s'.q, a) == QueueNonce(s.q, a);
      }
    }
  }

  /** The next hand-out of an account nobody holds carries the chain's nonce. */
  lemma HeadInSync(s: Sys, a: Address)
    requires SysInv(s) && QueueSpec.CanPop(s.q) && a == s.q.ready[0] && !Held(s.tasks, a) && InSync(s, a)
    ensures HeadTx(s.q, a).nonce == ChainNonce(s, a)
  {
    assert Key(a, s.q.byAddr[a].firstNonce) in s.q.txs;
  }

  /** Replacing or adding one task changes who is held only for that task's account. */
  lemma HeldAfter(s: Sys, id: nat, t: Task, a: Address)
    requires id in s.tasks ==> Sender(s.tasks[id]) == Sender(t)
    ensures Held(s.tasks[id := t], a) <==> Held(s.tasks, a) || Sender(t) == a
  {
    var tasks' := s.tasks[id := t];
    if Held(s.tasks, a) {
      var i :| i in s.tasks && Sender(s.tasks[i]) == a;
      assert i in tasks' && Sender(tasks'[i]) == a;
    }
    if Sender(t) == a {
      assert id in tasks' && Sender(tasks'[id]) == a;
    }
  }

  /** A step of one task: afterwards the account is in sync if the task is, whoever holds it. */
  lemma TaskStepSync(s: Sys, s': Sys, id: nat, phase: Phase, a: Address)
    requires SysInv(s) && id in s.tasks && s'.q == s.q && s'.tasks == Advance(s, id, phase).tasks
    requires Sender(s.tasks[id]) != a ==> ChainNonce(s', a) == ChainNonce(s, a)
    ensures Sender(s.tasks[id]) == a ==> (InSync(s', a) <==> TaskInSync(s'.tasks[id], ChainNonce(s', a)))
    ensures Sender(s.tasks[id]) == a ==> (InSync(s, a) <==> TaskInSync(s.tasks[id], ChainNonce(s, a)))
    ensures Sender(s.tasks[id]) != a && InSync(s, a) ==> InSync(s', a)
  {
    HeldAfter(s, id, s'.tasks[id], a);
    assert Held(s.tasks, Sender(s.tasks[id]));
  }

  lemma SendSync(s: Sys, id: nat, fault: Fault, a: Address)
    requires SysInv(s) && Tracked(s, a) && Enabled(s, SendRpc(id, fault))
    ensures Missed(s, SendRpc(id, fault), a) + Gap(Next(s, SendRpc(id, fault)), a) <= Gap(s, a)
  {
    var t := s.tasks[id];
    var s' := Next(s, SendRpc(id, fault));
    TaskStepSync(s, s', id, AfterSend(s, t, fault), a);
    if Sender(t) == a {
      assert Stored(s.q, t.tx) && t.tx.nonce < s.q.byAddr[a].nextNonce;
    }
  }

  lemma SettleTracked(s: Sys, id: nat, a: Address)
    requires Tracked(s, a) && Enabled(s, Settle(id))
    ensures Tracked(Next(s, Settle(id)), a)
  {
  }

  /** PopSent moves a tracked account's next hand-out on by one, and Reset sets it. */
  lemma SettledNonce(q: QState, a: Address, nonce: Uint64)
    requires Outstanding(q, a) && q.byAddr[a].track && q.byAddr[a].firstNonce < q.byAddr[a].nextNonce
    ensures QueueNonce(PopSent(q, a), a) == q.byAddr[a].firstNonce + 1
    ensures QueueNonce(Reset(q, a, nonce), a) == nonce
  {
  }

  lemma SettleOwnSync(s: Sys, id: nat, a: Address)
    requires SysInv(s) && Tracked(s, a) && Enabled(s, Settle(id)) && Sender(s.tasks[id]) == a && InSync(s, a)
    ensures InSync(Next(s, Settle(id)), a)
  {
    var t := s.tasks[id];
    assert TaskInSync(t, ChainNonce(s, a));
    assert Outstanding(s.q, a) && t.tx.nonce == s.q.byAddr[a].firstNonce;
    SettledNonce(s.q, a, if t.phase.HasNonce? then t.phase.nonce else 0);
  }

  /** Settling one account leaves every other account's next hand-out and its tasks as they were. */
  lemma SettleOtherSync(s: Sys, id: nat, a: Address)
    requires Enabled(s, Settle(id)) && Sender(s.tasks[id]) != a && InSync(s, a)
    ensures InSync(Next(s, Settle(id)), a)
  {
    var s' := Next(s, Settle(id));
    if Held(s.tasks, a) {
      var i :| i in s.tasks && Sender(s.tasks[i]) == a;
      assert i in s'.tasks && Sender(s'.tasks[i]) == a;
    }
  }

  lemma SettleSync(s: Sys, id: nat, a: Address)
    requires SysInv(s) && Tracked(s, a) && Enabled(s, Settle(id))
    ensures InSync(s, a) ==> InSync(Next(s, Settle(id)), a)
  {
    if InSync(s, a) {
      if Sender(s.tasks[id]) == a {
        SettleOwnSync(s, id, a);
      } else {
        SettleOtherSync(s, id, a);
      }
    }
  }

  lemma StepTracked(s: Sys, l: Step, a: Address)
    requires SysInv(s) && Tracked(s, a) && Enabled(s, l) && OffersTracked(l, a)
    ensures Tracked(Next(s, l), a)
  {
    match l
    case Generate(tx) => GenerateSync(s, tx, a);
    case Settle(id) => SettleTracked(s, id, a);
    case _ =>
  }

  /** The steps of a task after its send, up to PopSent or Reset. */
  lemma TaskSync(s: Sys, l: Step, a: Address)
    requires SysInv(s) && Enabled(s, l) && (l.Register? || l.ReadNonce? || l.Abort?)
    ensures InSync(s, a) ==> InSync(Next(s, l), a)
  {
    match l
    case Register(id) => TaskStepSync(s, Next(s, l), id, Settling, a);
    case ReadNonce(id, ok) =>
      if ok {
        TaskStepSync(s, Next(s, l), id, HasNonce(ChainNonce(s, Sender(s.tasks[id]))), a);
      }
    case Abort(id) => TaskStepSync(s, Next(s, l), id, Aborted, a);
  }

  /** A change of some account's nonce from outside leaves the others as they are. */
  lemma ExternalSync(s: Sys, b: Address, n: Uint64, a: Address)
    requires a != b
    ensures InSync(s, a) ==> InSync(Next(s, External(b, n)), a)
  {
  }

  /** The potential argument: each step's misses are paid for by closing the gap, or by an outside change. */
  lemma StepSync(s: Sys, l: Step, a: Address)
    requires SysInv(s) && Tracked(s, a) && Enabled(s, l) && OffersTracked(l, a)
    ensures Missed(s, l, a) + Gap(Next(s, l), a) <= Gap(s, a) + Moved(l, a)
  {
    match l
    case Generate(tx) => GenerateSync(s, tx, a);
    case Dispatch(id) => DispatchSync(s, id, a);
    case SendRpc(id, fault) => SendSync(s, id, fault, a);
    case Settle(id) => SettleSync(s, id, a);
    case External(b, n) => if a != b { ExternalSync(s, b, n, a); }
    case _ => TaskSync(s, l, a);
  }

  // ---------- Whole runs ----------

  function Misses(s: Sys, steps: seq<Step>, a: Address): nat
    requires Exec(s, steps).Some?
  {
    if steps == [] then 0
    else
      var before := steps[..|steps| - 1];
      Misses(s, before, a) + Missed(Exec(s, before).value, steps[|steps| - 1], a)
  }

  function Moves(steps: seq<Step>, a: Address): nat {
    if steps == [] then 0 else Moves(steps[..|steps| - 1], a) + Moved(steps[|steps| - 1], a)
  }

  lemma {:induction false} RunSync(s: Sys, steps: seq<Step>, a: Address)
    requires SysInv(s) && Tracked(s, a) && Exec(s, steps).Some?
    requires forall l | l in steps :: OffersTracked(l, a)
    ensures SysInv(Exec(s, steps).value) && Tracked(Exec(s, steps).value, a)
    ensures Misses(s, steps, a) + Gap(Exec(s, steps).value, a) <= Gap(s, a) + Moves(steps, a)
  {
    if steps != [] {
      var before := steps[..|steps| - 1];
      RunSync(s, before, a);
      var m := Exec(s, before).value;
      StepInv(m, steps[|steps| - 1]);
      StepTracked(m, steps[|steps| - 1], a);
      StepSync(m, steps[|steps| - 1], a);
    }
  }

  /**
   The bound over every run from the start: one miss if the chain's nonce was not 0, which is
   what the queue assumes of an account it has not seen, plus one per outside change.
   */
  lemma SelfStabilising(capacity: int, chain: map<Address, Uint64>, steps: seq<Step>, a: Address)
    requires Exec(SendProtocol.Init(capacity, chain), steps).Some?
    requires forall l | l in steps :: OffersTracked(l, a)
    ensures var s0 := SendProtocol.Init(capacity, chain);
            Misses(s0, steps, a) <= Moves(steps, a) + if ChainNonce(s0, a) == 0 then 0 else 1
  {
    var s0 := SendProtocol.Init(capacity, chain);
    QueueSpec.InitInv(capacity);
    RunSync(s0, steps, a);
    assert !Held(s0.tasks, a);
  }

  lemma ReadCloses(s: Sys, id: nat, a: Address)
    requires SysInv(s) && Tracked(s, a) && Enabled(s, ReadNonce(id, true)) && Sender(s.tasks[id]) == a
    ensures SysInv(Next(s, ReadNonce(id, true))) && Tracked(Next(s, ReadNonce(id, true)), a)
    ensures InSync(Next(s, ReadNonce(id, true)), a)
  {
    StepInv(s, ReadNonce(id, true));
    StepTracked(s, ReadNonce(id, true), a);
    TaskStepSync(s, Next(s, ReadNonce(id, true)), id, HasNonce(ChainNonce(s, a)), a);
  }

  lemma AfterRead(s: Sys, id: nat, after: seq<Step>, a: Address)
    requires SysInv(s) && Tracked(s, a) && Enabled(s, ReadNonce(id, true)) && Sender(s.tasks[id]) == a
    requires Exec(Next(s, ReadNonce(id, true)), after).Some? && Moves(after, a) == 0
    requires forall l | l in after :: OffersTracked(l, a)
    ensures var s1 := Next(s, ReadNonce(id, true));
            Misses(s1, after, a) == 0 && InSync(Exec(s1, after).value, a)
  {
    ReadCloses(s, id, a);
    RunSync(Next(s, ReadNonce(id, true)), after, a);
  }

  /**
   After a task of the account has read the chain's nonce, and for as long as nobody outside
   changes it, every send carries the nonce the chain expects, and whenever no task holds the
   account its next hand-out is the chain's pending nonce.
   */
  lemma InSyncAfterRead(capacity: int, chain: map<Address, Uint64>, before: seq<Step>, id: nat, after: seq<Step>, a: Address)
    requires Exec(SendProtocol.Init(capacity, chain), before).Some?
    requires var s := Exec(SendProtocol.Init(capacity, chain), before).value;
             && Enabled(s, ReadNonce(id, true)) && Sender(s.tasks[id]) == a
             && Exec(Next(s, ReadNonce(id, true)), after).Some?
    requires forall l | l in before || l in after :: OffersTracked(l, a)
    requires Moves(after, a) == 0
    ensures var s1 := Next(Exec(SendProtocol.Init(capacity, chain), before).value, ReadNonce(id, true));
            var s2 := Exec(s1, after).value;
            Misses(s1, after, a) == 0 && (Held(s2.tasks, a) || QueueNonce(s2.q, a) == ChainNonce(s2, a))
  {
    QueueSpec.InitInv(capacity);
    RunSync(SendProtocol.Init(capacity, chain), before, a);
    var s := Exec(SendProtocol.Init(capacity, chain), before).value;
    AfterRead(s, id, after, a);
  }

  lemma Extend(s: Sys, steps: seq<Step>, l: Step, a: Address)
    requires Exec(s, steps).Some? && Enabled(Exec(s, steps).value, l)
    ensures Exec(s, steps + [l]) == Some(Next(Exec(s, steps).value, l))
    ensures Misses(s, steps + [l], a) == Misses(s, steps, a) + Missed(Exec(s, steps).value, l, a)
    ensures Moves(steps + [l], a) == Moves(steps, a) + Moved(l, a)
  {
    assert (steps + [l])[..|steps + [l]| - 1] == steps;
  }

  /** The states of one round of an untracked account whose chain nonce is 5: pushed with nonce 0, handed out, refused. */
  function Pushed(tx: Tx): Sys {
    var a := tx.sender.address;
    Sys(QState(1, map[Key(a, 0) := tx], map[a := AccState(0, 1, true, false)], [a]), map[], map[a := 5])
  }

  function InFlight(tx: Tx, phase: Phase): Sys {
    var a := tx.sender.address;
    Sys(QState(1, map[Key(a, 0) := tx], map[a := AccState(0, 1, false, false)], []), map[0 := Task(tx, phase)], map[a := 5])
  }

  function AheadChain(acc: Account): Sys {
    SendProtocol.Init(1, map[acc.address := 5])
  }

  lemma RoundStarts(tx: Tx)
    requires !tx.sender.tracked && tx.nonce == 0
    ensures var s0 := AheadChain(tx.sender);
            && Enabled(s0, Generate(tx)) && Next(s0, Generate(tx)) == Pushed(tx)
            && Enabled(Pushed(tx), Dispatch(0)) && Next(Pushed(tx), Dispatch(0)) == InFlight(tx, Sending)
  {
    assert PopReady(Pushed(tx).q).ready == [];
  }

  lemma RoundEnds(tx: Tx)
    requires !tx.sender.tracked && tx.nonce == 0
    ensures var s2, s3 := InFlight(tx, Sending), InFlight(tx, Settling);
            && Enabled(s2, SendRpc(0, NoFault)) && Next(s2, SendRpc(0, NoFault)) == s3
            && Missed(s2, SendRpc(0, NoFault), tx.sender.address) == 1
            && Enabled(s3, Settle(0)) && Next(s3, Settle(0)) == AheadChain(tx.sender)
  {
    var s4 := Next(InFlight(tx, Settling), Settle(0));
    assert s4.q.txs == map[] && s4.q.byAddr == map[] && s4.tasks == map[];
  }

  /** Every transaction pushed for the account's address is sent as that account, tracked or not. */
  ghost predicate SentAs(steps: seq<Step>, acc: Account) {
    forall l | l in steps && l.Generate? && l.tx.sender.address == acc.address :: l.tx.sender == acc
  }

  lemma FirstHalf(steps: seq<Step>, tx: Tx) returns (longer: seq<Step>)
    requires !tx.sender.tracked && tx.nonce == 0 && Exec(AheadChain(tx.sender), steps) == Some(AheadChain(tx.sender))
    requires SentAs(steps, tx.sender)
    ensures Exec(AheadChain(tx.sender), longer) == Some(InFlight(tx, Sending)) && SentAs(longer, tx.sender)
    ensures Misses(AheadChain(tx.sender), longer, tx.sender.address) == Misses(AheadChain(tx.sender), steps, tx.sender.address)
    ensures Moves(longer, tx.sender.address) == Moves(steps, tx.sender.address)
  {
    var s0, a := AheadChain(tx.sender), tx.sender.address;
    RoundStarts(tx);
    Extend(s0, steps, Generate(tx), a);
    longer := steps + [Generate(tx)];
    Extend(s0, longer, Dispatch(0), a);
    longer := longer + [Dispatch(0)];
  }

  /** One round more: a miss more, back in the same state. */
  lemma Round(steps: seq<Step>, tx: Tx) returns (longer: seq<Step>)
    requires !tx.sender.tracked && tx.nonce == 0 && Exec(AheadChain(tx.sender), steps) == Some(AheadChain(tx.sender))
    requires SentAs(steps, tx.sender)
    ensures Exec(AheadChain(tx.sender), longer) == Some(AheadChain(tx.sender)) && SentAs(longer, tx.sender)
    ensures Misses(AheadChain(tx.sender), longer, tx.sender.address)
            == Misses(AheadChain(tx.sender), steps, tx.sender.address) + 1
    ensures Moves(longer, tx.sender.address) == Moves(steps, tx.sender.address)
  {
    var s0, a := AheadChain(tx.sender), tx.sender.address;
    longer := FirstHalf(steps, tx);
    RoundEnds(tx);
    Extend(s0, longer, SendRpc(0, NoFault), a);
    longer := longer + [SendRpc(0, NoFault)];
    Extend(s0, longer, Settle(0), a);
    longer := longer + [Settle(0)];
  }

  /**
   Tracking is needed: an account that is not tracked is never resynchronised, and can miss
   any number of times with no outside change.
   */
  lemma {:induction false} UntrackedMissesUnbounded(acc: Account, misses: nat) returns (steps: seq<Step>)
    requires !acc.tracked
    ensures var s0 := AheadChain(acc);
            && Exec(s0, steps) == Some(s0) && SentAs(steps, acc)
            && Misses(s0, steps, acc.address) == misses && Moves(steps, acc.address) == 0
  {
    if misses == 0 {
      steps := [];
    } else {
      steps := UntrackedMissesUnbounded(acc, misses - 1);
      steps := Round(steps, Tx(0, acc, 0, 21000));
    }
  }

  /** The bound on misses, over every capacity, chain and run that sends the address's transactions as the account. */
  ghost predicate Stabilises(acc: Account) {
    forall capacity, chain, steps | Exec(SendProtocol.Init(capacity, chain), steps).Some? && SentAs(steps, acc) ::
      Misses(SendProtocol.Init(capacity, chain), steps, acc.address) <= Moves(steps, acc.address) + 1
  }

  /** The bound holds for exactly the tracked accounts. */
  lemma StabilisesIff(acc: Account)
    ensures Stabilises(acc) <==> acc.tracked
  {
    if acc.tracked {
      forall capacity, chain, steps | Exec(SendProtocol.Init(capacity, chain), steps).Some? && SentAs(steps, acc)
        ensures Misses(SendProtocol.Init(capacity, chain), steps, acc.address) <= Moves(steps, acc.address) + 1
      {
        SelfStabilising(capacity, chain, steps, acc.address);
      }
    } else {
      var steps := UntrackedMissesUnbounded(acc, 2);
      assert Misses(SendProtocol.Init(1, map[acc.address := 5]), steps, acc.address) == 2;
    }
  }
}
