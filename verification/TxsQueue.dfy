/**
 TxsQueue as the object it is: maps and a ready queue changed in place under the watch's
 lock. Every method is one critical section, from taking the lock to releasing it or to
 falling asleep in WaitUntil; the waiting itself is the subject of module Watch.
 */
module TxsQueues {
  import opened LoadTypes
  import opened QueueSpec
  import Watch

  /** The queue of account addresses: a map from consecutive positions to values. */
  class Queue<T> {
    var first: nat
    var next: nat
    var q: map<nat, T>

    ghost predicate Valid()
      reads this
    {
      first <= next && forall k :: k in q <==> first <= k < next
    }

    ghost function Contents(): seq<T>
      reads this
      requires Valid()
    {
      seq(next - first, i requires 0 <= i < next - first && first + i in q reads this => q[first + i])
    }

    constructor ()
      ensures Valid() && Contents() == []
    {
      first, next, q := 0, 0, map[];
    }

    method Len() returns (n: nat)
      requires Valid()
      ensures n == |Contents()|
    {
      n := next - first;
    }

    method Push(v: T)
      requires Valid()
      modifies this
      ensures Valid() && Contents() == old(Contents()) + [v]
    {
      q := q[next := v];
      next := next + 1;
    }

    /** Pop panics on an empty queue. */
    method Pop() returns (v: T)
      requires Valid() && Contents() != []
      modifies this
      ensures Valid() && [v] + Contents() == old(Contents())
    {
      v := q[first];
      q := q - {first};
      first := first + 1;
    }
  }

  /** The epoch stands for the channel that sleepers wait on: Updated closes it and makes the next one. */
  class WatchCtrl {
    var epoch: nat

    constructor ()
      ensures epoch == 0
    {
      epoch := 0;
    }

    method Updated()
      modifies this
      ensures epoch == old(epoch) + 1
    {
      epoch := epoch + 1;
    }
  }

  /** How a critical section that may have to wait ends: asleep on an epoch's channel, or done. */
  datatype Turn<+T> = Sleeps(epoch: nat) | Done(value: T)

  class TxsQueue {
    const capacity: int
    var txs: map<Key, Tx>
    var byAddr: map<Address, AccState>
    const ready: Queue<Address>
    const ctrl: WatchCtrl

    ghost function State(): QState
      reads this, ready
      requires ready.Valid()
    {
      QState(capacity, txs, byAddr, ready.Contents())
    }

    ghost predicate Valid()
      reads this, ready
    {
      ready.Valid()
    }

    constructor (capacity: int)
      ensures Valid() && State() == QueueSpec.Init(capacity)
      ensures fresh(ready) && fresh(ctrl)
    {
      this.capacity := capacity;
      txs, byAddr := map[], map[];
      ready := new Queue();
      ctrl := new WatchCtrl();
    }

    method PopSent(addr: Address)
      requires Valid()
      modifies this, ready, ctrl
      ensures Valid() && State() == QueueSpec.PopSent(old(State()), addr)
      ensures ctrl.epoch == old(ctrl.epoch) + if old(QueueSpec.Outstanding(State(), addr)) then 1 else 0
      ensures ctrl.epoch > old(ctrl.epoch) <==> Watch.Signals(Watch.CallPopSent(addr), old(State()))
    {
      ghost var was := State();
      Watch.SignalsIff(Watch.CallPopSent(addr), was);
      if addr !in byAddr || byAddr[addr].ready || byAddr[addr].firstNonce == byAddr[addr].nextNonce {
        return;
      }
      var st := byAddr[addr];
      ctrl.Updated();
      txs := txs - {Key(addr, st.firstNonce)};
      st := st.(firstNonce := WrapAdd(st.firstNonce, 1));
      byAddr := byAddr[addr := st];
      if st.firstNonce < st.nextNonce {
        byAddr := byAddr[addr := st.(ready := true)];
        ready.Push(addr);
      } else if !st.track {
        byAddr := byAddr - {addr};
      }
      assert State() == QueueSpec.PopSent(was, addr);
    }

    method Reset(addr: Address, nonce: Uint64)
      requires Valid()
      modifies this, ctrl
      ensures Valid() && State() == QueueSpec.Reset(old(State()), addr, nonce)
      ensures ctrl.epoch == old(ctrl.epoch) + if old(QueueSpec.Resets(State(), addr)) then 1 else 0
      ensures ctrl.epoch > old(ctrl.epoch) <==> Watch.Signals(Watch.CallReset(addr, nonce), old(State()))
    {
      ghost var was := State();
      Watch.SignalsIff(Watch.CallReset(addr, nonce), was);
      if addr !in byAddr || byAddr[addr].ready {
        return;
      }
      ctrl.Updated();
      ghost var st := byAddr[addr];
      while byAddr[addr].firstNonce < byAddr[addr].nextNonce
        invariant addr in byAddr && st.firstNonce <= byAddr[addr].firstNonce
        invariant byAddr[addr].firstNonce == st.firstNonce || byAddr[addr].firstNonce <= st.nextNonce
        invariant byAddr == was.byAddr[addr := st.(firstNonce := byAddr[addr].firstNonce)]
        invariant txs == was.txs - QueueSpec.Span(addr, st.firstNonce, byAddr[addr].firstNonce)
        invariant ready.Valid() && ready.Contents() == was.ready
        invariant ctrl.epoch == old(ctrl.epoch) + 1
        decreases byAddr[addr].nextNonce - byAddr[addr].firstNonce
      {
        var cur := byAddr[addr];
        txs := txs - {Key(addr, cur.firstNonce)};
        byAddr := byAddr[addr := cur.(firstNonce := WrapAdd(cur.firstNonce, 1))];
        assert QueueSpec.Span(addr, st.firstNonce, cur.firstNonce + 1)
            == QueueSpec.Span(addr, st.firstNonce, cur.firstNonce) + {Key(addr, cur.firstNonce)};
      }
      if byAddr[addr].track {
        byAddr := byAddr[addr := byAddr[addr].(firstNonce := nonce, nextNonce := nonce)];
      } else {
        byAddr := byAddr - {addr};
      }
      assert State() == QueueSpec.Reset(was, addr, nonce);
    }

    /** One turn of PopReady: asleep while no account is ready, else the head of the first ready account. */
    method PopReady() returns (r: Turn<Tx>)
      requires Valid() && QueueSpec.Inv(State())
      modifies this, ready, ctrl
      ensures Valid()
      ensures r.Sleeps? <==> !Watch.Guard(Watch.CallPopReady, old(State()))
      ensures r.Sleeps? ==> State() == old(State()) && r.epoch == ctrl.epoch == old(ctrl.epoch)
      ensures r.Done? ==> QueueSpec.CanPop(old(State())) && State() == QueueSpec.PopReady(old(State()))
      ensures r.Done? ==> r.value == QueueSpec.HeadTx(old(State()), old(State()).ready[0])
      ensures r.Done? ==> ctrl.epoch == old(ctrl.epoch) + 1 && Watch.Signals(Watch.CallPopReady, old(State()))
    {
      ghost var was := State();
      Watch.SignalsIff(Watch.CallPopReady, was);
      var n := ready.Len();
      if n == 0 {
        return Sleeps(ctrl.epoch);
      }
      QueueSpec.ReadyCanPop(was);
      var addr := ready.Pop();
      assert addr == was.ready[0];
      byAddr := byAddr[addr := byAddr[addr].(ready := false)];
      var tx := txs[Key(addr, byAddr[addr].firstNonce)];
      ctrl.Updated();
      assert State() == QueueSpec.PopReady(was);
      return Done(tx);
    }

    /**
     One turn of Push: asleep while the queue is full; a transaction whose nonce is not the
     account's next is dropped without an error. `queued` tells the two outcomes apart.
     */
    method Push(tx: Tx) returns (r: Turn<()>, queued: bool)
      requires Valid()
      modifies this, ready, ctrl
      ensures Valid()
      ensures r.Sleeps? <==> !Watch.Guard(Watch.CallPush(tx), old(State()))
      ensures r.Sleeps? ==> r.epoch == ctrl.epoch
      ensures queued == QueueSpec.Accepts(old(State()), tx)
      ensures State() == QueueSpec.Push(old(State()), tx)
      ensures ctrl.epoch == old(ctrl.epoch) + if queued && old(QueueSpec.IsHead(State(), tx)) then 1 else 0
      ensures ctrl.epoch > old(ctrl.epoch) <==> Watch.Signals(Watch.CallPush(tx), old(State()))
    {
      ghost var was := State();
      Watch.SignalsIff(Watch.CallPush(tx), was);
      if |txs| >= capacity {
        return Sleeps(ctrl.epoch), false;
      }
      var addr := tx.sender.address;
      var st := if addr in byAddr then byAddr[addr] else AccState(0, 0, false, tx.sender.tracked);
      if tx.nonce != st.nextNonce {
        return Done(()), false;
      }
      st := st.(nextNonce := WrapAdd(st.nextNonce, 1));
      byAddr := byAddr[addr := st];
      txs := txs[Key(addr, tx.nonce) := tx];
      if st.firstNonce == tx.nonce {
        byAddr := byAddr[addr := st.(ready := true)];
        ready.Push(addr);
        ctrl.Updated();
      }
      assert State() == QueueSpec.Push(was, tx);
      return Done(()), true;
    }

    method WaitUntilEmpty() returns (r: Turn<()>)
      requires Valid() && QueueSpec.Inv(State())
      ensures r.Sleeps? <==> !Watch.Guard(Watch.CallWaitUntilEmpty, State())
      ensures r.Done? <==> forall a :: a in byAddr ==> byAddr[a].firstNonce == byAddr[a].nextNonce
      ensures r.Sleeps? ==> r.epoch == ctrl.epoch
    {
      if txs == map[] {
        assert forall a | a in byAddr :: Key(a, byAddr[a].firstNonce) !in txs;
        return Done(());
      }
      var k :| k in txs;
      assert byAddr[k.addr].firstNonce <= k.nonce < byAddr[k.addr].nextNonce;
      return Sleeps(ctrl.epoch);
    }

    method Nonce(acc: Account) returns (n: Uint64)
      requires Valid()
      ensures n == QueueSpec.Nonce(State(), acc.address)
    {
      if acc.address in byAddr {
        return byAddr[acc.address].nextNonce;
      }
      return 0;
    }
  }
}
