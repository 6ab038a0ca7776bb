/**
 The sender as the object it is: the queue, the client, and the body of the task that its loop
 spawns for each ready transaction. Run on its own, a task takes steps of module SendProtocol,
 whose runs interleave any number of them.
 */
module ShardedSenders {
  import opened LoadTypes
  import opened SendProtocol
  import QueueSpec
  import opened TxsQueues

  /** The chain behind the client's two calls. */
  class EthClient {
    var nonces: map<Address, Uint64>

    constructor (nonces: map<Address, Uint64>)
      ensures this.nonces == nonces
    {
      this.nonces := nonces;
    }

    function Pending(addr: Address): Uint64
      reads this
    {
      if addr in nonces then nonces[addr] else 0
    }

    method Send(tx: Tx, fault: Fault) returns (ok: bool)
      modifies this
      ensures ok <==> old(Pending(tx.sender.address)) == tx.nonce && fault.NoFault?
      ensures nonces == if old(Pending(tx.sender.address)) == tx.nonce && !fault.BeforeEffect?
                        then old(nonces)[tx.sender.address := WrapAdd(tx.nonce, 1)] else old(nonces)
    {
      var matches := Pending(tx.sender.address) == tx.nonce;
      if matches && !fault.BeforeEffect? {
        nonces := nonces[tx.sender.address := WrapAdd(tx.nonce, 1)];
      }
      ok := matches && fault.NoFault?;
    }
  }

  /** The machine's state when the object's tasks are `tasks`. */
  ghost function SysOf(sender: ShardedSender, tasks: map<nat, Task>): Sys
    reads sender, sender.queue, sender.queue.ready, sender.client
    requires sender.queue.Valid()
  {
    Sys(sender.queue.State(), tasks, sender.client.nonces)
  }

  /** A lookup that fails n times. */
  function Retries(id: nat, n: nat): seq<Step> {
    if n == 0 then [] else Retries(id, n - 1) + [ReadNonce(id, false)]
  }

  /** A step of the one task, whose only send ends as `fault` says. */
  predicate OwnStep(l: Step, id: nat, fault: Fault) {
    l == SendRpc(id, fault) || l == Register(id) || (l.ReadNonce? && l.id == id) || l == Settle(id) || l == Abort(id)
  }

  lemma {:induction false} RetriesAreOwn(id: nat, n: nat, fault: Fault)
    ensures Register(id) !in Retries(id, n) && forall l | l in Retries(id, n) :: OwnStep(l, id, fault)
  {
    if n > 0 {
      RetriesAreOwn(id, n - 1, fault);
    }
  }

  lemma Took(s: Sys, steps: seq<Step>, l: Step)
    requires Exec(s, steps).Some? && Enabled(Exec(s, steps).value, l)
    ensures Exec(s, steps + [l]) == Some(Next(Exec(s, steps).value, l))
  {
    assert (steps + [l])[..|steps + [l]| - 1] == steps;
  }

  lemma {:induction false} RetriesStay(s: Sys, steps: seq<Step>, id: nat, n: nat)
    requires Exec(s, steps).Some? && Enabled(Exec(s, steps).value, ReadNonce(id, false))
    ensures Exec(s, steps + Retries(id, n)) == Exec(s, steps)
  {
    if n == 0 {
      assert steps + [] == steps;
    } else {
      RetriesStay(s, steps, id, n - 1);
      Took(s, steps + Retries(id, n - 1), ReadNonce(id, false));
      assert steps + Retries(id, n) == steps + Retries(id, n - 1) + [ReadNonce(id, false)];
    }
  }

  /** A sent transaction is registered and settled by PopSent. */
  lemma SentRun(s: Sys, id: nat, fault: Fault) returns (steps: seq<Step>)
    requires Enabled(s, SendRpc(id, fault)) && AfterSend(s, s.tasks[id], fault).Registering?
    ensures Exec(s, steps) ==
            Some(Sys(QueueSpec.PopSent(s.q, Sender(s.tasks[id])), s.tasks - {id}, Next(s, SendRpc(id, fault)).chain))
    ensures Register(id) in steps && forall l | l in steps :: OwnStep(l, id, fault)
  {
    Took(s, [], SendRpc(id, fault));
    steps := [] + [SendRpc(id, fault)];
    Took(s, steps, Register(id));
    steps := steps + [Register(id)];
    assert Exec(s, steps).value.tasks == s.tasks[id := Task(s.tasks[id].tx, Settling)];
    Took(s, steps, Settle(id));
    assert s.tasks[id := Task(s.tasks[id].tx, Settling)] - {id} == s.tasks - {id};
    steps := steps + [Settle(id)];
  }

  /** An untracked account's failed send is given up: settled by PopSent, and not registered. */
  lemma GivenUpRun(s: Sys, id: nat, fault: Fault) returns (steps: seq<Step>)
    requires Enabled(s, SendRpc(id, fault)) && AfterSend(s, s.tasks[id], fault).Settling?
    ensures Exec(s, steps) ==
            Some(Sys(QueueSpec.PopSent(s.q, Sender(s.tasks[id])), s.tasks - {id}, Next(s, SendRpc(id, fault)).chain))
    ensures Register(id) !in steps && forall l | l in steps :: OwnStep(l, id, fault)
  {
    Took(s, [], SendRpc(id, fault));
    steps := [] + [SendRpc(id, fault)];
    Took(s, steps, Settle(id));
    assert Next(s, SendRpc(id, fault)).tasks - {id} == s.tasks - {id};
    steps := steps + [Settle(id)];
  }

  /** A refused send, then lookups that fail: the task is still asking. */
  lemma AskingRun(s: Sys, id: nat, fault: Fault, failed: nat) returns (steps: seq<Step>)
    requires Enabled(s, SendRpc(id, fault)) && AfterSend(s, s.tasks[id], fault).NeedsNonce?
    ensures Exec(s, steps) == Some(Next(s, SendRpc(id, fault)))
    ensures Register(id) !in steps && forall l | l in steps :: OwnStep(l, id, fault)
  {
    Took(s, [], SendRpc(id, fault));
    RetriesStay(s, [] + [SendRpc(id, fault)], id, failed);
    RetriesAreOwn(id, failed, fault);
    steps := [] + [SendRpc(id, fault)] + Retries(id, failed);
  }

  /** A refused send of a tracked account: after the lookup that succeeds, the account is reset to its answer. */
  lemma ResyncedRun(s: Sys, id: nat, fault: Fault, failed: nat) returns (steps: seq<Step>)
    requires Enabled(s, SendRpc(id, fault)) && AfterSend(s, s.tasks[id], fault).NeedsNonce?
    ensures var m, a := Next(s, SendRpc(id, fault)), Sender(s.tasks[id]);
            Exec(s, steps) == Some(Sys(QueueSpec.Reset(s.q, a, ChainNonce(m, a)), s.tasks - {id}, m.chain))
    ensures Register(id) !in steps && forall l | l in steps :: OwnStep(l, id, fault)
  {
    steps := AskingRun(s, id, fault, failed);
    Took(s, steps, ReadNonce(id, true));
    steps := steps + [ReadNonce(id, true)];
    Took(s, steps, Settle(id));
    assert Exec(s, steps).value.tasks - {id} == s.tasks - {id};
    steps := steps + [Settle(id)];
  }

  lemma GaveUpRun(s: Sys, id: nat, fault: Fault, failed: nat) returns (steps: seq<Step>)
    requires Enabled(s, SendRpc(id, fault)) && AfterSend(s, s.tasks[id], fault).NeedsNonce?
    ensures Exec(s, steps) == Some(Sys(s.q, s.tasks[id := Task(s.tasks[id].tx, Aborted)], Next(s, SendRpc(id, fault)).chain))
    ensures Register(id) !in steps && forall l | l in steps :: OwnStep(l, id, fault)
  {
    steps := AskingRun(s, id, fault, failed);
    Took(s, steps, Abort(id));
    assert Exec(s, steps + [Abort(id)]).value.tasks == s.tasks[id := Task(s.tasks[id].tx, Aborted)];
    steps := steps + [Abort(id)];
  }

  class ShardedSender {
    const queue: TxsQueue
    const client: EthClient
    var registered: seq<Tx>       // what the inclusion tracker was given, if there is one

    constructor (queue: TxsQueue, client: EthClient)
      ensures this.queue == queue && this.client == client && registered == []
    {
      this.queue, this.client, registered := queue, client, [];
    }

    /** `answers`: which lookups succeed, until the context is done; a lookup that fails is tried again. */
    method GetNonce(addr: Address, answers: seq<bool>) returns (r: Option<Uint64>, ghost failed: nat)
      ensures r == if exists i :: 0 <= i < |answers| && answers[i] then Some(client.Pending(addr)) else None
      ensures failed <= |answers| && forall i | 0 <= i < failed :: !answers[i]
    {
      var i := 0;
      while i < |answers|
        invariant 0 <= i <= |answers| && forall j | 0 <= j < i :: !answers[j]
      {
        if answers[i] {
          return Some(client.Pending(addr)), i;
        }
        i := i + 1;
      }
      return None, i;
    }

    /** The loop's iteration up to Spawn: it sleeps, or hands a ready transaction to a new task. */
    method Dispatch(ghost id: nat, ghost tasks: map<nat, Task>) returns (r: Turn<Tx>)
      requires queue.Valid() && QueueSpec.Inv(queue.State()) && id !in tasks
      modifies queue, queue.ready, queue.ctrl
      ensures queue.Valid()
      ensures r.Sleeps? <==> !Enabled(old(SysOf(this, tasks)), SendProtocol.Dispatch(id))
      ensures r.Sleeps? ==> SysOf(this, tasks) == old(SysOf(this, tasks))
      ensures r.Done? ==> SysOf(this, tasks[id := Task(r.value, Sending)]) ==
                          Next(old(SysOf(this, tasks)), SendProtocol.Dispatch(id))
    {
      r := queue.PopReady();
    }

    /**
     What the spawned task does, from a task that holds the transaction to a task that is gone,
     or that returned an error. `signs`: whether signing succeeds.
     */
    method SendTask(tx: Tx, signs: bool, fault: Fault, answers: seq<bool>, ghost id: nat, ghost tasks: map<nat, Task>)
      returns (ok: bool, ghost steps: seq<Step>)
      requires queue.Valid() && id in tasks && tasks[id] == Task(tx, Sending)
      modifies this, queue, queue.ready, queue.ctrl, client
      ensures queue.Valid()
      ensures ok <==> && signs
                      && (|| !tx.sender.tracked
                          || (old(client.Pending(tx.sender.address)) == tx.nonce && fault.NoFault?)
                          || exists i :: 0 <= i < |answers| && answers[i])
      ensures Exec(old(SysOf(this, tasks)), steps) ==
              Some(SysOf(this, if ok then tasks - {id} else tasks[id := Task(tx, Aborted)]))
      ensures forall l | l in steps :: OwnStep(l, id, fault)
      ensures registered == old(registered)
                            + if signs && old(client.Pending(tx.sender.address)) == tx.nonce && fault == NoFault then [tx] else []
      ensures registered == old(registered) + if Register(id) in steps then [tx] else []
    {
      ghost var s := SysOf(this, tasks);
      var addr := tx.sender.address;
      if !signs {
        Took(s, [], Abort(id));
        return false, [] + [Abort(id)];
      }
      var sent := client.Send(tx, fault);
      if !sent {
        if !tx.sender.tracked {
          queue.PopSent(addr);
          steps := GivenUpRun(s, id, fault);
          return true, steps;
        }
        ghost var failed;
        var nonce;
        nonce, failed := GetNonce(addr, answers);
        if nonce == None {
          steps := GaveUpRun(s, id, fault, failed);
          return false, steps;
        }
        queue.Reset(addr, nonce.value);
        steps := ResyncedRun(s, id, fault, failed);
        return true, steps;
      }
      registered := registered + [tx];
      queue.PopSent(addr);
      steps := SentRun(s, id, fault);
      return true, steps;
    }
  }
}
