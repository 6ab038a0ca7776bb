/**
 The order in which the queue hands accounts out: first ready, first served, whatever pushes,
 settlements and resets come between.
 */
module ReadyOrder {
  import opened LoadTypes
  import opened QueueSpec
  import opened QueueFifo

  function ApplyAll(s: QState, ops: seq<Op>): QState {
    if ops == [] then s else Apply(ApplyAll(s, ops[..|ops| - 1]), ops[|ops| - 1])
  }

  /** The account PopReady hands out, if the operation is one and finds a ready account. */
  function HandOut(s: QState, op: Op): seq<Address> {
    if op == OpPop && s.ready != [] then [s.ready[0]] else []
  }

  function HandOuts(s: QState, ops: seq<Op>): seq<Address> {
    if ops == [] then []
    else HandOuts(s, ops[..|ops| - 1]) + HandOut(ApplyAll(s, ops[..|ops| - 1]), ops[|ops| - 1])
  }

  /** The accounts an operation can make ready: the one it is about. */
  function About(op: Op): seq<Address> {
    match op
    case OpPush(tx) => [tx.sender.address]
    case OpSent(a) => [a]
    case OpReset(a, _) => [a]
    case OpPop => []
  }

  /** The account that was not ready before the operation and is after it. */
  function Join(s: QState, op: Op): seq<Address> {
    if About(op) != [] && !IsReady(s, About(op)[0]) && IsReady(Apply(s, op), About(op)[0]) then About(op) else []
  }

  function Joins(s: QState, ops: seq<Op>): seq<Address> {
    if ops == [] then []
    else Joins(s, ops[..|ops| - 1]) + Join(ApplyAll(s, ops[..|ops| - 1]), ops[|ops| - 1])
  }

  predicate IsReady(s: QState, a: Address) {
    a in s.byAddr && s.byAddr[a].ready
  }

  /** The accounts with a stored transaction none of which is out: these, and no others, are ready. */
  lemma ReadyMeans(s: QState, a: Address)
    requires Inv(s)
    ensures IsReady(s, a) <==> a in s.byAddr && s.byAddr[a].firstNonce < s.byAddr[a].nextNonce && !Outstanding(s, a)
    ensures IsReady(s, a) <==> a in s.ready
  {
  }

  ghost predicate InOrder(s: QState, op: Op) {
    HandOut(s, op) + Apply(s, op).ready == s.ready + Join(s, op)
  }

  lemma PushOrder(s: QState, tx: Tx)
    requires Inv(s) && Fits(s, OpPush(tx))
    ensures InOrder(s, OpPush(tx))
  {
    PushInv(s, tx);
    if Accepts(s, tx) && !IsHead(s, tx) {
      assert Lookup(s, tx.sender).firstNonce < Lookup(s, tx.sender).nextNonce;
    }
  }

  lemma PopOrder(s: QState)
    requires Inv(s)
    ensures InOrder(s, OpPop)
  {
    if s.ready != [] {
      ReadyCanPop(s);
      assert [s.ready[0]] + s.ready[1..] == s.ready;
    }
  }

  lemma SentOrder(s: QState, a: Address)
    requires Inv(s)
    ensures InOrder(s, OpSent(a))
  {
  }

  lemma ResetOrder(s: QState, a: Address, nonce: Uint64)
    requires Inv(s)
    ensures InOrder(s, OpReset(a, nonce))
  {
  }

  lemma StepOrder(s: QState, op: Op)
    requires Inv(s) && Fits(s, op)
    ensures InOrder(s, op)
  {
    match op
    case OpPush(tx) => PushOrder(s, tx);
    case OpPop => PopOrder(s);
    case OpSent(a) => SentOrder(s, a);
    case OpReset(a, n) => ResetOrder(s, a, n);
  }

  predicate Fitting(s: QState, ops: seq<Op>) {
    ops == [] || (Fitting(s, ops[..|ops| - 1]) && Fits(ApplyAll(s, ops[..|ops| - 1]), ops[|ops| - 1]))
  }

  lemma {:induction false} ApplyAllInv(s: QState, ops: seq<Op>)
    requires Inv(s) && Fitting(s, ops)
    ensures Inv(ApplyAll(s, ops))
  {
    if ops != [] {
      ApplyAllInv(s, ops[..|ops| - 1]);
      ApplyInv(ApplyAll(s, ops[..|ops| - 1]), ops[|ops| - 1]);
    }
  }

  /**
   Over any operations: the accounts handed out and then those still ready are, in order, the accounts
   ready at the start and then those that became ready on the way.
   */
  lemma {:induction false} FirstReadyFirstServed(s: QState, ops: seq<Op>)
    requires Inv(s) && Fitting(s, ops)
    ensures HandOuts(s, ops) + ApplyAll(s, ops).ready == s.ready + Joins(s, ops)
  {
    if ops != [] {
      var before, op := ops[..|ops| - 1], ops[|ops| - 1];
      FirstReadyFirstServed(s, before);
      ApplyAllInv(s, before);
      var m := ApplyAll(s, before);
      StepOrder(m, op);
      Regroup(HandOuts(s, before), HandOut(m, op), Apply(m, op).ready, m.ready, Join(m, op), s.ready, Joins(s, before));
    }
  }

  lemma Regroup(out: seq<Address>, more: seq<Address>, after: seq<Address>, mid: seq<Address>, join: seq<Address>,
                start: seq<Address>, joins: seq<Address>)
    requires more + after == mid + join && out + mid == start + joins
    ensures (out + more) + after == start + (joins + join)
  {
    assert (out + more) + after == out + (more + after);
    assert out + (mid + join) == (out + mid) + join;
    assert (start + joins) + join == start + (joins + join);
  }

  /** The account at place k at the start is at place k of those handed out since and those ready now. */
  predicate Served(out: seq<Address>, ready: seq<Address>, start: seq<Address>, k: nat)
    requires k < |start|
  {
    if |out| > k then out[k] == start[k] else |ready| > k - |out| && ready[k - |out|] == start[k]
  }

  lemma SamePlace(out: seq<Address>, after: seq<Address>, start: seq<Address>, joins: seq<Address>, k: nat)
    requires out + after == start + joins && k < |start|
    ensures Served(out, after, start, k)
  {
    assert (out + after)[k] == (start + joins)[k];
  }

  /** Bounded waiting: the account at place k of the ready queue is the (k+1)-th to be handed out, and moves up until then. */
  lemma ServedInTurn(s: QState, ops: seq<Op>, k: nat)
    requires Inv(s) && Fitting(s, ops) && k < |s.ready|
    ensures Served(HandOuts(s, ops), ApplyAll(s, ops).ready, s.ready, k)
  {
    FirstReadyFirstServed(s, ops);
    SamePlace(HandOuts(s, ops), ApplyAll(s, ops).ready, s.ready, Joins(s, ops), k);
  }

  /**
   Nobody starves: between two hand-outs of one account every account that was ready at the first is
   handed out.
   */
  lemma EveryoneInBetween(s: QState, ops: seq<Op>, j: nat, b: Address)
    requires Inv(s) && s.ready != [] && Fitting(PopReady(s), ops)
    requires j < |HandOuts(PopReady(s), ops)| && HandOuts(PopReady(s), ops)[j] == s.ready[0]
    requires IsReady(s, b) && b != s.ready[0]
    ensures b in HandOuts(PopReady(s), ops)[..j]
  {
    ReadyCanPop(s);
    PopReadyInv(s);
    var s', a := PopReady(s), s.ready[0];
    ReadyMeans(s', a);
    ReadyMeans(s', b);
    var k: nat :| k < |s'.ready| && s'.ready[k] == b;
    if j <= k {
      ServedInTurn(s', ops, j);                // the one handed out would be one that was ready, and a was not
    } else {
      ServedInTurn(s', ops, k);
      assert HandOuts(s', ops)[..j][k] == b;
    }
  }

  /** The same from a new queue: for every run before and every run after. */
  lemma RunServesInTurn(capacity: int, before: seq<Op>, ops: seq<Op>, k: nat)
    requires AllFit(capacity, before) && Fitting(Run(capacity, before), ops) && k < |Run(capacity, before).ready|
    ensures var s := Run(capacity, before); Served(HandOuts(s, ops), ApplyAll(s, ops).ready, s.ready, k)
  {
    RunInv(capacity, before);
    ServedInTurn(Run(capacity, before), ops, k);
  }

  // ---------- What a push does, in the queue's own terms ----------

  /** A push is stored exactly when there is room and it carries the nonce the queue reports; otherwise nothing changes. */
  lemma StoredExactly(s: QState, tx: Tx)
    requires Inv(s)
    ensures |s.txs| < s.capacity && tx.nonce == Nonce(s, tx.sender.address) ==>
              && Push(s, tx).txs == s.txs[Key(tx.sender.address, tx.nonce) := tx]
              && |Push(s, tx).txs| == |s.txs| + 1
    ensures !(|s.txs| < s.capacity && tx.nonce == Nonce(s, tx.sender.address)) ==> Push(s, tx) == s
  {
    SizeAfterPush(s, tx);
  }
}
