/**
 The transaction queue as values: what one critical section of each TxsQueue method does
 to the queue's state, and the invariant and the per-account FIFO those sections keep.
 The class TxsQueue is proved against these functions.
 */
module QueueSpec {
  import opened LoadTypes
  import MapSum

  datatype Key = Key(addr: Address, nonce: Uint64)

  datatype AccState = AccState(firstNonce: Uint64, nextNonce: Uint64, ready: bool, track: bool)

  datatype QState = QState(capacity: int, txs: map<Key, Tx>, byAddr: map<Address, AccState>, ready: seq<Address>)

  function Init(capacity: int): QState {
    QState(capacity, map[], map[], [])
  }

  // ---------- What each critical section does ----------

  predicate HasRoom(s: QState) {
    |s.txs| < s.capacity
  }

  /** The account's state as Push sees it: a sender it does not know starts at nonce 0. */
  function Lookup(s: QState, acc: Account): AccState {
    if acc.address in s.byAddr then s.byAddr[acc.address] else AccState(0, 0, false, acc.tracked)
  }

  predicate Accepts(s: QState, tx: Tx) {
    HasRoom(s) && tx.nonce == Lookup(s, tx.sender).nextNonce
  }

  predicate IsHead(s: QState, tx: Tx) {
    Lookup(s, tx.sender).firstNonce == tx.nonce
  }

  function Push(s: QState, tx: Tx): QState {
    if !Accepts(s, tx) then s
    else
      var a := tx.sender.address;
      var st := Lookup(s, tx.sender);
      s.(txs := s.txs[Key(a, tx.nonce) := tx],
         byAddr := s.byAddr[a := st.(nextNonce := WrapAdd(st.nextNonce, 1), ready := st.ready || IsHead(s, tx))],
         ready := if IsHead(s, tx) then s.ready + [a] else s.ready)
  }

  /** PopReady dereferences the account's state and its first transaction: both must be there. */
  predicate CanPop(s: QState) {
    s.ready != [] && s.ready[0] in s.byAddr && Key(s.ready[0], s.byAddr[s.ready[0]].firstNonce) in s.txs
  }

  function HeadTx(s: QState, a: Address): Tx
    requires a in s.byAddr && Key(a, s.byAddr[a].firstNonce) in s.txs
  {
    s.txs[Key(a, s.byAddr[a].firstNonce)]
  }

  function PopReady(s: QState): QState
    requires CanPop(s)
  {
    var a := s.ready[0];
    s.(byAddr := s.byAddr[a := s.byAddr[a].(ready := false)], ready := s.ready[1..])
  }

  /** The account has a transaction that PopReady handed out and nobody has settled yet. */
  predicate Outstanding(s: QState, a: Address) {
    a in s.byAddr && !s.byAddr[a].ready && s.byAddr[a].firstNonce != s.byAddr[a].nextNonce
  }

  function PopSent(s: QState, a: Address): QState {
    if !Outstanding(s, a) then s
    else
      var st := s.byAddr[a];
      var st' := st.(firstNonce := WrapAdd(st.firstNonce, 1));
      var s' := s.(txs := s.txs - {Key(a, st.firstNonce)});
      if st'.firstNonce < st'.nextNonce then
        s'.(byAddr := s.byAddr[a := st'.(ready := true)], ready := s.ready + [a])
      else if st.track then
        s'.(byAddr := s.byAddr[a := st'])
      else
        s'.(byAddr := s.byAddr - {a})
  }

  predicate Resets(s: QState, a: Address) {
    a in s.byAddr && !s.byAddr[a].ready
  }

  function Span(a: Address, lo: nat, hi: nat): set<Key> {
    set n: Uint64 | lo <= n < hi :: Key(a, n)
  }

  function Reset(s: QState, a: Address, nonce: Uint64): QState {
    if !Resets(s, a) then s
    else
      var st := s.byAddr[a];
      s.(txs := s.txs - Span(a, st.firstNonce, st.nextNonce),
         byAddr := if st.track then s.byAddr[a := st.(firstNonce := nonce, nextNonce := nonce)]
                   else s.byAddr - {a})
  }

  function Nonce(s: QState, a: Address): Uint64 {
    if a in s.byAddr then s.byAddr[a].nextNonce else 0
  }

  // ---------- The representation invariant ----------

  /** The stored transactions are exactly those with firstNonce <= nonce < nextNonce. */
  ghost predicate KeysMatch(s: QState) {
    forall k: Key :: k in s.txs <==> k.addr in s.byAddr && s.byAddr[k.addr].firstNonce <= k.nonce < s.byAddr[k.addr].nextNonce
  }

  ghost predicate TxsAtTheirKeys(s: QState) {
    forall k | k in s.txs :: s.txs[k].sender.address == k.addr && s.txs[k].nonce == k.nonce
  }

  ghost predicate AccountsOk(s: QState) {
    forall a | a in s.byAddr ::
      && s.byAddr[a].firstNonce <= s.byAddr[a].nextNonce
      && (s.byAddr[a].ready || !s.byAddr[a].track ==> s.byAddr[a].firstNonce < s.byAddr[a].nextNonce)
  }

  ghost predicate NoRepeats(q: seq<Address>) {
    forall i, j | 0 <= i < j < |q| :: q[i] != q[j]
  }

  /** The ready flag says whether the address is in the ready queue, where it then is once. */
  ghost predicate ReadyQueueMatches(s: QState) {
    NoRepeats(s.ready) && forall a :: a in s.ready <==> a in s.byAddr && s.byAddr[a].ready
  }

  ghost predicate Inv(s: QState) {
    && KeysMatch(s)
    && TxsAtTheirKeys(s)
    && AccountsOk(s)
    && ReadyQueueMatches(s)
    && (|s.txs| == 0 || |s.txs| <= s.capacity)
  }

  lemma InitInv(capacity: int)
    ensures Inv(Init(capacity))
  {
  }

  lemma PushKeys(s: QState, tx: Tx)
    requires KeysMatch(s) && TxsAtTheirKeys(s) && AccountsOk(s) && Accepts(s, tx) && tx.nonce != MAX_UINT64
    ensures KeysMatch(Push(s, tx)) && TxsAtTheirKeys(Push(s, tx)) && AccountsOk(Push(s, tx))
    ensures Key(tx.sender.address, tx.nonce) !in s.txs
  {
    var s' := Push(s, tx);
    var added := Key(tx.sender.address, tx.nonce);
    assert added !in s.txs;
    forall k: Key
      ensures k in s'.txs <==> k.addr in s'.byAddr && s'.byAddr[k.addr].firstNonce <= k.nonce < s'.byAddr[k.addr].nextNonce
    {
      assert k in s'.txs <==> k in s.txs || k == added;
    }
  }

  lemma PushReady(s: QState, tx: Tx)
    requires ReadyQueueMatches(s) && AccountsOk(s) && Accepts(s, tx)
    ensures ReadyQueueMatches(Push(s, tx))
  {
    assert IsHead(s, tx) ==> tx.sender.address !in s.ready;
    forall b ensures b in Push(s, tx).ready <==> b in s.ready || (b == tx.sender.address && IsHead(s, tx)) {
    }
  }

  /**
   Push keeps the invariant except for one nonce: accepting 2^64-1 wraps nextNonce to 0,
   below firstNonce, and the stored transaction falls outside the account's range.
   */
  lemma PushInv(s: QState, tx: Tx)
    requires Inv(s)
    ensures Inv(Push(s, tx)) <==> !(Accepts(s, tx) && tx.nonce == MAX_UINT64)
  {
    if Accepts(s, tx) {
      if tx.nonce == MAX_UINT64 {
        assert Push(s, tx).byAddr[tx.sender.address].nextNonce == 0;
        assert Key(tx.sender.address, tx.nonce) in Push(s, tx).txs;
      } else {
        PushKeys(s, tx);
        PushReady(s, tx);
      }
    }
  }

  /** The queue after one account pushed nonce 0, had it handed out, and was reset to 2^64-1. */
  function ResetToLast(first: Tx): QState
    requires first.sender == Account(7, true) && first.nonce == 0
  {
    Reset(PopReady(Push(Init(1), first)), 7, MAX_UINT64)
  }

  lemma ResetToLastIs(first: Tx)
    requires first.sender == Account(7, true) && first.nonce == 0
    ensures ResetToLast(first) == QState(1, map[], map[7 := AccState(MAX_UINT64, MAX_UINT64, false, true)], [])
  {
    var pushed := Push(Init(1), first);
    assert pushed == QState(1, map[Key(7, 0) := first], map[7 := AccState(0, 1, true, true)], [7]);
    assert PopReady(pushed).ready == [];
    assert ResetToLast(first).txs == map[];
  }

  /** The wrap is reachable: one Reset to 2^64-1, and a Push of that nonce loses the invariant. */
  lemma PushWrapWitness(first: Tx, last: Tx)
    requires first.sender == last.sender == Account(7, true) && first.nonce == 0 && last.nonce == MAX_UINT64
    ensures Inv(ResetToLast(first)) && Accepts(ResetToLast(first), last) && !Inv(Push(ResetToLast(first), last))
  {
    ResetToLastIs(first);
    PushInv(ResetToLast(first), last);
  }

  /** With the invariant, a ready account always has the state and the transaction PopReady reads. */
  lemma ReadyCanPop(s: QState)
    requires Inv(s) && s.ready != []
    ensures CanPop(s)
  {
    assert s.ready[0] in s.ready;
    var st := s.byAddr[s.ready[0]];
    assert Key(s.ready[0], st.firstNonce) in s.txs;
  }

  lemma PopReadyInv(s: QState)
    requires Inv(s) && CanPop(s)
    ensures Inv(PopReady(s))
    ensures Outstanding(PopReady(s), s.ready[0]) && !Outstanding(s, s.ready[0])
  {
    var a := s.ready[0];
    var s' := PopReady(s);
    assert a in s.ready;
    assert s.ready == [a] + s'.ready;
    assert ReadyQueueMatches(s') by {
      forall b ensures b in s'.ready <==> b in s'.byAddr && s'.byAddr[b].ready {
        assert b in s.ready <==> b == a || b in s'.ready;
      }
    }
  }

  lemma PopSentInv(s: QState, a: Address)
    requires Inv(s)
    ensures Inv(PopSent(s, a)) && !Outstanding(PopSent(s, a), a)
  {
    if Outstanding(s, a) {
      PopSentKeys(s, a);
      PopSentReady(s, a);
      SizeAfterPopSent(s, a);
    }
  }

  lemma PopSentReady(s: QState, a: Address)
    requires ReadyQueueMatches(s) && Outstanding(s, a) && s.byAddr[a].firstNonce < s.byAddr[a].nextNonce
    ensures ReadyQueueMatches(PopSent(s, a)) && !Outstanding(PopSent(s, a), a)
  {
    var s', st := PopSent(s, a), s.byAddr[a];
    assert a !in s.ready;
    forall b ensures b in s'.ready <==> b in s'.byAddr && s'.byAddr[b].ready {
      assert b in s'.ready <==> b in s.ready || (b == a && st.firstNonce + 1 < st.nextNonce);
    }
  }

  lemma PopSentKeys(s: QState, a: Address)
    requires KeysMatch(s) && TxsAtTheirKeys(s) && AccountsOk(s) && Outstanding(s, a)
    ensures KeysMatch(PopSent(s, a)) && TxsAtTheirKeys(PopSent(s, a)) && AccountsOk(PopSent(s, a))
  {
    var s' := PopSent(s, a);
    var st := s.byAddr[a];
    forall k: Key
      ensures k in s'.txs <==> k.addr in s'.byAddr && s'.byAddr[k.addr].firstNonce <= k.nonce < s'.byAddr[k.addr].nextNonce
    {
      assert k in s'.txs <==> k in s.txs && k != Key(a, st.firstNonce);
    }
  }

  lemma SubmapSize(m: map<Key, Tx>, ks: set<Key>)
    ensures |m - ks| <= |m|
  {
    assert (m - ks).Keys <= m.Keys;
    SubsetSize((m - ks).Keys, m.Keys);
  }

  lemma {:induction false} SubsetSize<T>(x: set<T>, y: set<T>)
    requires x <= y
    ensures |x| <= |y|
  {
    if x != {} {
      var e :| e in x;
      SubsetSize(x - {e}, y - {e});
    }
  }

  lemma ResetKeys(s: QState, a: Address, nonce: Uint64)
    requires KeysMatch(s) && TxsAtTheirKeys(s) && AccountsOk(s) && Resets(s, a)
    ensures KeysMatch(Reset(s, a, nonce)) && TxsAtTheirKeys(Reset(s, a, nonce)) && AccountsOk(Reset(s, a, nonce))
  {
    var s' := Reset(s, a, nonce);
    forall k: Key
      ensures k in s'.txs <==> k.addr in s'.byAddr && s'.byAddr[k.addr].firstNonce <= k.nonce < s'.byAddr[k.addr].nextNonce
    {
      assert k in s'.txs <==> k in s.txs && k.addr != a;
    }
  }

  lemma ResetInv(s: QState, a: Address, nonce: Uint64)
    requires Inv(s)
    ensures Inv(Reset(s, a, nonce)) && !Outstanding(Reset(s, a, nonce), a)
  {
    if Resets(s, a) {
      var s' := Reset(s, a, nonce);
      SubmapSize(s.txs, Span(a, s.byAddr[a].firstNonce, s.byAddr[a].nextNonce));
      ResetKeys(s, a, nonce);
      assert a !in s.ready;
      assert ReadyQueueMatches(s');
    }
  }

  // ---------- The size of the queue is the sum of the accounts' backlogs ----------

  lemma SizeAfterPush(s: QState, tx: Tx)
    requires KeysMatch(s) && AccountsOk(s)
    ensures |Push(s, tx).txs| == |s.txs| + if Accepts(s, tx) then 1 else 0
  {
    if Accepts(s, tx) {
      assert Key(tx.sender.address, tx.nonce) !in s.txs;
    }
  }

  lemma SizeAfterPopSent(s: QState, a: Address)
    requires KeysMatch(s) && AccountsOk(s)
    ensures |PopSent(s, a).txs| == |s.txs| - if Outstanding(s, a) then 1 else 0
  {
    if Outstanding(s, a) {
      var k := Key(a, s.byAddr[a].firstNonce);
      assert k in s.txs;
      assert PopSent(s, a).txs.Keys == s.txs.Keys - {k};
    }
  }

  lemma SizeAfterReset(s: QState, a: Address, nonce: Uint64)
    requires KeysMatch(s) && AccountsOk(s)
    ensures |Reset(s, a, nonce).txs| ==
            |s.txs| - if Outstanding(s, a) then s.byAddr[a].nextNonce - s.byAddr[a].firstNonce else 0
  {
    if Resets(s, a) {
      var st := s.byAddr[a];
      SpanSize(a, st.firstNonce, st.nextNonce);
      assert Span(a, st.firstNonce, st.nextNonce) <= s.txs.Keys;
      assert Reset(s, a, nonce).txs.Keys == s.txs.Keys - Span(a, st.firstNonce, st.nextNonce);
    }
  }

  function Backlogs(accs: map<Address, AccState>): map<Address, int> {
    map a | a in accs :: accs[a].nextNonce - accs[a].firstNonce
  }

  lemma {:induction false} SpanSize(a: Address, lo: Uint64, hi: Uint64)
    requires lo <= hi
    ensures |Span(a, lo, hi)| == hi - lo
    decreases hi - lo
  {
    if lo == hi {
      assert Span(a, lo, hi) == {};
    } else {
      SpanSize(a, lo + 1, hi);
      assert Span(a, lo, hi) == {Key(a, lo)} + Span(a, lo + 1, hi);
    }
  }

  lemma {:induction false} SizeIsSumOfBacklogs(s: QState)
    requires KeysMatch(s) && AccountsOk(s)
    ensures |s.txs| == MapSum.Sum(Backlogs(s.byAddr))
    decreases |s.byAddr|
  {
    if s.byAddr == map[] {
      assert s.txs == map[] by {
        assert forall k :: k !in s.txs;
      }
    } else {
      var a :| a in s.byAddr;
      var s' := Without(s, a);
      SizeIsSumOfBacklogs(s');
      BacklogsWithout(s.byAddr, a);
    }
  }

  lemma BacklogsWithout(accs: map<Address, AccState>, a: Address)
    requires a in accs
    ensures MapSum.Sum(Backlogs(accs)) == accs[a].nextNonce - accs[a].firstNonce + MapSum.Sum(Backlogs(accs - {a}))
  {
    MapSum.Remove(Backlogs(accs), a);
    assert Backlogs(accs) - {a} == Backlogs(accs - {a});
  }

  /** Taking one account out of the queue takes its backlog's worth of transactions. */
  lemma Without(s: QState, a: Address) returns (s': QState)
    requires KeysMatch(s) && AccountsOk(s) && a in s.byAddr
    ensures KeysMatch(s') && AccountsOk(s') && s'.byAddr == s.byAddr - {a}
    ensures |s.txs| == |s'.txs| + s.byAddr[a].nextNonce - s.byAddr[a].firstNonce
  {
    var st := s.byAddr[a];
    s' := s.(txs := s.txs - Span(a, st.firstNonce, st.nextNonce), byAddr := s.byAddr - {a});
    SpanSize(a, st.firstNonce, st.nextNonce);
    OwnKeys(s, a);
    assert s'.txs.Keys == s.txs.Keys - Span(a, st.firstNonce, st.nextNonce);
    forall k: Key
      ensures k in s'.txs <==> k.addr in s'.byAddr && s'.byAddr[k.addr].firstNonce <= k.nonce < s'.byAddr[k.addr].nextNonce
    {
      assert k in s'.txs <==> k in s.txs && k.addr != a;
    }
  }

  lemma OwnKeys(s: QState, a: Address)
    requires KeysMatch(s) && a in s.byAddr
    ensures var span := Span(a, s.byAddr[a].firstNonce, s.byAddr[a].nextNonce);
            span <= s.txs.Keys && forall k: Key :: k in span <==> k in s.txs && k.addr == a
  {
  }

}
