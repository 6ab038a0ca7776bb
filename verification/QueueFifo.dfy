/**
 The queue refines one FIFO per account. Any sequence of queue operations, in any order and
 by any number of goroutines, is cut for each account into epochs: an epoch ends when Reset
 acts on the account, or when PopSent drains an account that is not tracked.
 */
module QueueFifo {
  import opened LoadTypes
  import opened QueueSpec

  /** The transactions of account `a` with nonces from lo up to hi. */
  function Slice(txs: map<Key, Tx>, a: Address, lo: Uint64, hi: Uint64): seq<Tx>
    requires lo <= hi && forall n: Uint64 | lo <= n < hi :: Key(a, n) in txs
  {
    seq(hi - lo, i requires 0 <= i < hi - lo => txs[Key(a, lo + i)])
  }

  /** The account's transactions from firstNonce up to nextNonce are all there. */
  ghost predicate Backed(s: QState, a: Address) {
    a in s.byAddr ==>
      && s.byAddr[a].firstNonce <= s.byAddr[a].nextNonce
      && forall n: Uint64 | s.byAddr[a].firstNonce <= n < s.byAddr[a].nextNonce :: Key(a, n) in s.txs
  }

  lemma InvBacked(s: QState, a: Address)
    requires Inv(s)
    ensures Backed(s, a)
  {
  }

  /** The transactions of an account that wait in the queue, oldest first. */
  ghost function Pending(s: QState, a: Address): seq<Tx>
    requires Backed(s, a)
  {
    if a in s.byAddr then Slice(s.txs, a, s.byAddr[a].firstNonce, s.byAddr[a].nextNonce) else []
  }

  /** What PopReady has handed out and nobody has settled: at most one transaction, the oldest. */
  ghost function InHand(s: QState, a: Address): seq<Tx>
    requires Backed(s, a)
  {
    if Outstanding(s, a) then Pending(s, a)[..1] else []
  }

  lemma PushPending(s: QState, tx: Tx, a: Address)
    requires Backed(s, a) && AccountsOk(s) && (Accepts(s, tx) ==> tx.nonce < MAX_UINT64)
    ensures Backed(Push(s, tx), a)
    ensures Pending(Push(s, tx), a) == Pending(s, a) + if Accepts(s, tx) && a == tx.sender.address then [tx] else []
    ensures InHand(Push(s, tx), a) == InHand(s, a)
  {
    if Accepts(s, tx) {
      if a == tx.sender.address {
        PushOutstanding(s, tx);
        PushTail(s, tx, a);
      } else {
        SamePending(s, Push(s, tx), a);
      }
    }
  }

  lemma PushFifo(s: QState, tx: Tx, a: Address)
    requires Inv(s)
    ensures Inv(Push(s, tx)) <==> !(Accepts(s, tx) && tx.nonce == MAX_UINT64)
    ensures Backed(s, a)
    ensures Inv(Push(s, tx)) ==>
              && Backed(Push(s, tx), a)
              && Pending(Push(s, tx), a) == Pending(s, a) + (if Accepts(s, tx) && a == tx.sender.address then [tx] else [])
              && InHand(Push(s, tx), a) == InHand(s, a)
  {
    PushInv(s, tx);
    InvBacked(s, a);
    if !(Accepts(s, tx) && tx.nonce == MAX_UINT64) {
      PushPending(s, tx, a);
    }
  }

  lemma SliceSnoc(txs: map<Key, Tx>, a: Address, lo: Uint64, hi: Uint64, tx: Tx)
    requires lo <= hi < MAX_UINT64 && forall n: Uint64 | lo <= n < hi :: Key(a, n) in txs
    ensures Slice(txs[Key(a, hi) := tx], a, lo, hi + 1) == Slice(txs, a, lo, hi) + [tx]
  {
  }

  lemma PushTail(s: QState, tx: Tx, a: Address)
    requires Backed(s, a) && Accepts(s, tx) && a == tx.sender.address && tx.nonce < MAX_UINT64
    requires Outstanding(Push(s, tx), a) <==> Outstanding(s, a)
    ensures Backed(Push(s, tx), a)
    ensures Pending(Push(s, tx), a) == Pending(s, a) + [tx]
    ensures InHand(Push(s, tx), a) == InHand(s, a)
  {
    var st := Lookup(s, tx.sender);
    SliceSnoc(s.txs, a, st.firstNonce, st.nextNonce, tx);
  }

  /** Push leaves what is handed out as it is: an account's new head makes it ready. */
  lemma PushOutstanding(s: QState, tx: Tx)
    requires AccountsOk(s) && Accepts(s, tx) && tx.nonce < MAX_UINT64
    ensures forall a :: Outstanding(Push(s, tx), a) <==> Outstanding(s, a)
  {
  }

  lemma PopPending(s: QState, a: Address)
    requires Backed(s, a) && CanPop(s) && HeadReady(s)
    ensures Backed(PopReady(s), a) && Pending(PopReady(s), a) == Pending(s, a)
    ensures InHand(PopReady(s), a) == if a == s.ready[0] then [HeadTx(s, a)] else InHand(s, a)
    ensures a == s.ready[0] ==> InHand(s, a) == []
  {
    if a != s.ready[0] {
      SamePending(s, PopReady(s), a);
    }
  }

  lemma PopFifo(s: QState, a: Address)
    requires Inv(s) && CanPop(s)
    ensures Inv(PopReady(s)) && Backed(s, a) && Backed(PopReady(s), a)
    ensures Pending(PopReady(s), a) == Pending(s, a)
    ensures InHand(PopReady(s), a) == if a == s.ready[0] then [HeadTx(s, a)] else InHand(s, a)
    ensures a == s.ready[0] ==> InHand(s, a) == []
  {
    PopReadyInv(s);
    InvBacked(s, a);
    ReadyHead(s);
    PopPending(s, a);
  }

  lemma SliceTail(txs: map<Key, Tx>, a: Address, lo: Uint64, hi: Uint64)
    requires lo < hi && forall n: Uint64 | lo <= n < hi :: Key(a, n) in txs
    ensures Slice(txs - {Key(a, lo)}, a, lo + 1, hi) == Slice(txs, a, lo, hi)[1..]
  {
  }

  /** What PopSent leaves of an account whose first nonce is below its next. */
  lemma PopSentState(s: QState, a: Address)
    requires Outstanding(s, a) && s.byAddr[a].firstNonce < s.byAddr[a].nextNonce
    ensures var st, s' := s.byAddr[a], PopSent(s, a);
            && s'.txs == s.txs - {Key(a, st.firstNonce)}
            && !Outstanding(s', a)
            && (a in s'.byAddr ==> s'.byAddr[a].firstNonce == st.firstNonce + 1 && s'.byAddr[a].nextNonce == st.nextNonce)
            && (a !in s'.byAddr ==> st.firstNonce + 1 == st.nextNonce)
  {
  }

  lemma PopSentTail(s: QState, a: Address)
    requires Backed(s, a) && Outstanding(s, a)
    ensures Backed(PopSent(s, a), a)
    ensures Pending(s, a) != [] && Pending(PopSent(s, a), a) == Pending(s, a)[1..]
  {
    PopSentState(s, a);
    SliceTail(s.txs, a, s.byAddr[a].firstNonce, s.byAddr[a].nextNonce);
  }

  lemma PopSentNonce(s: QState, a: Address)
    requires Outstanding(s, a)
    ensures Nonce(PopSent(s, a), a) == if a in PopSent(s, a).byAddr then Nonce(s, a) else 0
  {
  }

  /** Pending and InHand read nothing but the account's own state and transactions. */
  lemma SamePending(s: QState, s': QState, a: Address)
    requires Backed(s, a)
    requires a in s.byAddr <==> a in s'.byAddr
    requires a in s.byAddr ==> s'.byAddr[a] == s.byAddr[a]
    requires forall k | k in s.txs && k.addr == a :: k in s'.txs && s'.txs[k] == s.txs[k]
    ensures Backed(s', a)
    ensures Pending(s', a) == Pending(s, a) && InHand(s', a) == InHand(s, a)
  {
  }

  lemma PopSentPending(s: QState, b: Address, a: Address)
    requires Backed(s, a) && Backed(s, b)
    ensures Backed(PopSent(s, b), a)
    ensures Pending(PopSent(s, b), a) == if a == b && Outstanding(s, a) then Pending(s, a)[1..] else Pending(s, a)
    ensures InHand(PopSent(s, b), a) == if a == b then [] else InHand(s, a)
  {
    if Outstanding(s, b) {
      if a == b {
        PopSentState(s, a);
        PopSentTail(s, a);
      } else {
        SamePending(s, PopSent(s, b), a);
      }
    }
  }

  lemma PopSentFifo(s: QState, b: Address, a: Address)
    requires Inv(s)
    ensures Inv(PopSent(s, b)) && Backed(s, a) && Backed(PopSent(s, b), a)
    ensures Pending(PopSent(s, b), a) == if a == b && Outstanding(s, a) then Pending(s, a)[1..] else Pending(s, a)
    ensures InHand(PopSent(s, b), a) == if a == b then [] else InHand(s, a)
  {
    PopSentInv(s, b);
    InvBacked(s, a);
    InvBacked(s, b);
    PopSentPending(s, b, a);
  }

  lemma ResetPending(s: QState, b: Address, nonce: Uint64, a: Address)
    requires Backed(s, a)
    ensures Backed(Reset(s, b, nonce), a)
    ensures Pending(Reset(s, b, nonce), a) == if a == b && Resets(s, a) then [] else Pending(s, a)
    ensures InHand(Reset(s, b, nonce), a) == if a == b then [] else InHand(s, a)
  {
    if Resets(s, b) && a != b {
      SamePending(s, Reset(s, b, nonce), a);
    }
  }

  lemma ResetFifo(s: QState, b: Address, nonce: Uint64, a: Address)
    requires Inv(s)
    ensures Inv(Reset(s, b, nonce)) && Backed(s, a) && Backed(Reset(s, b, nonce), a)
    ensures Pending(Reset(s, b, nonce), a) == if a == b && Resets(s, a) then [] else Pending(s, a)
    ensures InHand(Reset(s, b, nonce), a) == if a == b then [] else InHand(s, a)
  {
    ResetInv(s, b, nonce);
    InvBacked(s, a);
    ResetPending(s, b, nonce, a);
  }

  // ---------- Histories ----------

  datatype Op = OpPush(tx: Tx) | OpPop | OpSent(addr: Address) | OpReset(addr: Address, nonce: Uint64)

  function Apply(s: QState, op: Op): QState {
    match op
    case OpPush(tx) => Push(s, tx)
    case OpPop => if CanPop(s) then PopReady(s) else s
    case OpSent(a) => PopSent(s, a)
    case OpReset(a, n) => Reset(s, a, n)
  }

  function Run(capacity: int, ops: seq<Op>): QState {
    if ops == [] then Init(capacity) else Apply(Run(capacity, ops[..|ops| - 1]), ops[|ops| - 1])
  }

  /**
   One epoch of an account: the transactions Push accepted, those PopReady returned, those
   PopSent removed and those Reset discarded, each in the order it happened.
   */
  datatype Epoch = Epoch(base: nat, accepted: seq<Tx>, handed: seq<Tx>, sent: seq<Tx>, dropped: seq<Tx>, byReset: bool)

  datatype History = History(past: seq<Epoch>, now: Epoch)

  function Fresh(base: nat): Epoch {
    Epoch(base, [], [], [], [], false)
  }

  ghost function Record(h: History, s: QState, op: Op, a: Address): History
    requires Backed(s, a)
  {
    match op
    case OpPush(tx) =>
      if Accepts(s, tx) && tx.sender.address == a then h.(now := h.now.(accepted := h.now.accepted + [tx])) else h
    case OpPop =>
      if CanPop(s) && s.ready[0] == a then h.(now := h.now.(handed := h.now.handed + [HeadTx(s, a)])) else h
    case OpSent(b) =>
      if b == a && Outstanding(s, a) then
        var e := h.now.(sent := h.now.sent + Pending(s, a)[..1]);
        if a in PopSent(s, a).byAddr then h.(now := e) else History(h.past + [e], Fresh(0))
      else h
    case OpReset(b, n) =>
      if b == a && Resets(s, a) then
        var e := h.now.(dropped := Pending(s, a), byReset := true);
        History(h.past + [e], Fresh(if s.byAddr[a].track then n else 0))
      else h
  }

  /** The operation is no push that accepts nonce 2^64-1, the one nonce the queue cannot hold. */
  predicate Fits(s: QState, op: Op) {
    op.OpPush? && Accepts(s, op.tx) ==> op.tx.nonce < MAX_UINT64
  }

  predicate AllFit(capacity: int, ops: seq<Op>) {
    ops == [] || (AllFit(capacity, ops[..|ops| - 1]) && Fits(Run(capacity, ops[..|ops| - 1]), ops[|ops| - 1]))
  }

  lemma ApplyInv(s: QState, op: Op)
    requires Inv(s)
    ensures Inv(Apply(s, op)) <==> Fits(s, op)
  {
    match op
    case OpPush(tx) => PushInv(s, tx);
    case OpPop => if CanPop(s) { PopReadyInv(s); }
    case OpSent(a) => PopSentInv(s, a);
    case OpReset(a, n) => ResetInv(s, a, n);
  }

  lemma {:induction false} RunInv(capacity: int, ops: seq<Op>)
    requires AllFit(capacity, ops)
    ensures Inv(Run(capacity, ops))
  {
    if ops != [] {
      RunInv(capacity, ops[..|ops| - 1]);
      ApplyInv(Run(capacity, ops[..|ops| - 1]), ops[|ops| - 1]);
    }
  }

  ghost predicate AlwaysInv(capacity: int, ops: seq<Op>) {
    Inv(Run(capacity, ops)) && (ops == [] || AlwaysInv(capacity, ops[..|ops| - 1]))
  }

  /** The invariant holds all along exactly when no push ever accepts nonce 2^64-1. */
  lemma {:induction false} AlwaysInvIff(capacity: int, ops: seq<Op>)
    ensures AlwaysInv(capacity, ops) <==> AllFit(capacity, ops)
  {
    if ops == [] {
      InitInv(capacity);
    } else {
      AlwaysInvIff(capacity, ops[..|ops| - 1]);
      if AllFit(capacity, ops[..|ops| - 1]) {
        RunInv(capacity, ops[..|ops| - 1]);
        ApplyInv(Run(capacity, ops[..|ops| - 1]), ops[|ops| - 1]);
      }
    }
  }

  ghost function HistoryOf(capacity: int, ops: seq<Op>, a: Address): History
    requires AllFit(capacity, ops)
  {
    if ops == [] then History([], Fresh(0))
    else
      var before := ops[..|ops| - 1];
      RunInv(capacity, before);
      InvBacked(Run(capacity, before), a);
      Record(HistoryOf(capacity, before, a), Run(capacity, before), ops[|ops| - 1], a)
  }

  ghost predicate Contiguous(base: nat, txs: seq<Tx>, a: Address) {
    forall i | 0 <= i < |txs| :: txs[i].nonce == base + i && txs[i].sender.address == a
  }

  /** An epoch that is over: every accepted transaction was sent, or Reset discarded it. */
  ghost predicate Closed(e: Epoch, a: Address) {
    && Contiguous(e.base, e.accepted, a)
    && e.accepted == e.sent + e.dropped
    && e.sent <= e.handed <= e.accepted
    && |e.handed| <= |e.sent| + 1
    && (e.dropped != [] ==> e.byReset)
  }

  /**
   The epoch in progress: what PopReady returned is, in order and without repeats, the start
   of what Push accepted; it is one transaction ahead of what was settled while the account
   has one in hand, and level with it otherwise; nothing accepted is missing.
   */
  ghost predicate Open(e: Epoch, s: QState, a: Address)
    requires Backed(s, a)
  {
    && Contiguous(e.base, e.accepted, a)
    && e.base + |e.accepted| == Nonce(s, a)
    && e.accepted == e.sent + Pending(s, a)
    && e.handed == e.sent + InHand(s, a)
    && e.dropped == []
    && (a !in s.byAddr ==> e.base == 0)
  }

  ghost predicate AllClosed(past: seq<Epoch>, a: Address) {
    forall e | e in past :: Closed(e, a)
  }

  lemma RecordKeepsFifo(h: History, s: QState, op: Op, a: Address)
    requires Inv(s) && Fits(s, op) && Backed(s, a) && Open(h.now, s, a) && AllClosed(h.past, a)
    ensures Backed(Apply(s, op), a)
    ensures var h' := Record(h, s, op, a); Open(h'.now, Apply(s, op), a) && AllClosed(h'.past, a)
  {
    match op
    case OpPush(tx) => RecordPush(h, s, tx, a);
    case OpPop => RecordPop(h, s, a);
    case OpSent(b) => InvBacked(s, b); RecordSent(h, s, b, a);
    case OpReset(b, n) => RecordReset(h, s, b, n, a);
  }

  lemma RecordPush(h: History, s: QState, tx: Tx, a: Address)
    requires Backed(s, a) && AccountsOk(s) && Fits(s, OpPush(tx)) && Open(h.now, s, a)
    ensures Backed(Push(s, tx), a)
    ensures Open(Record(h, s, OpPush(tx), a).now, Push(s, tx), a)
  {
    PushPending(s, tx, a);
    if Accepts(s, tx) && a == tx.sender.address {
      AcceptOne(h.now, Pending(s, a), tx, a);
      assert Nonce(Push(s, tx), a) == Nonce(s, a) + 1;
    }
  }

  lemma AcceptOne(e: Epoch, pending: seq<Tx>, tx: Tx, a: Address)
    requires Contiguous(e.base, e.accepted, a) && e.accepted == e.sent + pending
    requires tx.sender.address == a && tx.nonce == e.base + |e.accepted|
    ensures Contiguous(e.base, e.accepted + [tx], a) && e.accepted + [tx] == e.sent + (pending + [tx])
  {
  }

  lemma RecordPop(h: History, s: QState, a: Address)
    requires Inv(s) && Backed(s, a) && Open(h.now, s, a)
    ensures Backed(Apply(s, OpPop), a)
    ensures Open(Record(h, s, OpPop, a).now, Apply(s, OpPop), a)
  {
    if CanPop(s) {
      ReadyHead(s);
      RecordHandOut(h, s, a);
    }
  }

  /** The account whose turn it is has nothing in hand, and something to hand out. */
  lemma ReadyHead(s: QState)
    requires Inv(s) && CanPop(s)
    ensures HeadReady(s)
  {
    assert s.ready[0] in s.ready;
  }

  predicate HeadReady(s: QState)
    requires CanPop(s)
  {
    var st := s.byAddr[s.ready[0]];
    st.ready && st.firstNonce < st.nextNonce
  }

  lemma RecordHandOut(h: History, s: QState, a: Address)
    requires Backed(s, a) && CanPop(s) && HeadReady(s) && Open(h.now, s, a)
    ensures Backed(PopReady(s), a)
    ensures Open(Record(h, s, OpPop, a).now, PopReady(s), a)
  {
    PopPending(s, a);
    assert Nonce(PopReady(s), a) == Nonce(s, a);
    if s.ready[0] == a {
      assert h.now.handed + [HeadTx(s, a)] == h.now.sent + [HeadTx(s, a)];
    }
  }

  lemma RecordSent(h: History, s: QState, b: Address, a: Address)
    requires Backed(s, a) && Backed(s, b) && Open(h.now, s, a) && AllClosed(h.past, a)
    ensures Backed(PopSent(s, b), a)
    ensures var h' := Record(h, s, OpSent(b), a);
            Open(h'.now, PopSent(s, b), a) && AllClosed(h'.past, a)
  {
    PopSentPending(s, b, a);
    if b == a && Outstanding(s, a) {
      SettleHead(h.now, s, a);
    }
  }

  /** Settling the transaction in hand moves it from Pending to sent; a drained untracked account ends its epoch. */
  lemma SettleHead(e: Epoch, s: QState, a: Address)
    requires Backed(s, a) && Open(e, s, a) && Outstanding(s, a)
    ensures Backed(PopSent(s, a), a)
    ensures var e' := e.(sent := e.sent + Pending(s, a)[..1]);
            if a in PopSent(s, a).byAddr then Open(e', PopSent(s, a), a)
            else Closed(e', a) && Open(Fresh(0), PopSent(s, a), a)
  {
    PopSentTail(s, a);
    PopSentState(s, a);
    PopSentNonce(s, a);
    MoveHead(e.sent, Pending(s, a));
    if a in PopSent(s, a).byAddr {
      assert e.(sent := e.sent + Pending(s, a)[..1]).accepted == e.accepted;
    }
  }

  lemma MoveHead(sent: seq<Tx>, p: seq<Tx>)
    requires p != []
    ensures sent + p == (sent + p[..1]) + p[1..]
  {
  }

  lemma RecordReset(h: History, s: QState, b: Address, n: Uint64, a: Address)
    requires Backed(s, a) && Open(h.now, s, a) && AllClosed(h.past, a)
    ensures Backed(Reset(s, b, n), a)
    ensures var h' := Record(h, s, OpReset(b, n), a);
            Open(h'.now, Reset(s, b, n), a) && AllClosed(h'.past, a)
  {
    ResetPending(s, b, n, a);
    if b == a && Resets(s, a) {
      assert Closed(h.now.(dropped := Pending(s, a), byReset := true), a);
    }
  }

  lemma {:induction false} RunKeepsFifo(capacity: int, ops: seq<Op>, a: Address)
    requires AllFit(capacity, ops)
    ensures Inv(Run(capacity, ops)) && Backed(Run(capacity, ops), a)
    ensures Open(HistoryOf(capacity, ops, a).now, Run(capacity, ops), a)
    ensures AllClosed(HistoryOf(capacity, ops, a).past, a)
  {
    RunInv(capacity, ops);
    InvBacked(Run(capacity, ops), a);
    if ops != [] {
      var before := ops[..|ops| - 1];
      RunKeepsFifo(capacity, before, a);
      RecordKeepsFifo(HistoryOf(capacity, before, a), Run(capacity, before), ops[|ops| - 1], a);
    }
  }

  /**
   Any sequence of operations keeps the invariant all along exactly when no push in it accepts
   nonce 2^64-1, which the chain refuses (EIP-2681); then every account's history is a FIFO's.
   */
  lemma QueueRefinesFifo(capacity: int, ops: seq<Op>, a: Address)
    ensures AlwaysInv(capacity, ops) <==> AllFit(capacity, ops)
    ensures AllFit(capacity, ops) ==>
              && Inv(Run(capacity, ops)) && Backed(Run(capacity, ops), a)
              && Open(HistoryOf(capacity, ops, a).now, Run(capacity, ops), a)
              && AllClosed(HistoryOf(capacity, ops, a).past, a)
  {
    AlwaysInvIff(capacity, ops);
    if AllFit(capacity, ops) {
      RunKeepsFifo(capacity, ops, a);
    }
  }
}
