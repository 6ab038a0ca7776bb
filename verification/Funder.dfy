/** Funding the account pool: find who is below the target, and pay them in batches. */
module Funder {
  import opened LoadTypes
  import opened DisperseSpec
  import opened SetSize
  import MapSum
  import Chains

  const DEFAULT_FUND_BATCH_SIZE := 200

  /** The configured batch size, or the default for 0 and below. */
  function Batch(size: int): nat {
    if size <= 0 then DEFAULT_FUND_BATCH_SIZE else size
  }

  ghost predicate Distinct(addrs: seq<Address>) {
    forall i, j | 0 <= i < j < |addrs| :: addrs[i] != addrs[j]
  }

  /** The distinct elements, in whatever order the map they were put in iterates. */
  method Unique(addrs: seq<Address>) returns (r: seq<Address>)
    ensures Distinct(r) && forall a :: a in r <==> a in addrs
  {
    var m := {};
    var i := 0;
    while i < |addrs|
      invariant 0 <= i <= |addrs| && forall a :: a in m <==> a in addrs[..i]
    {
      m := m + {addrs[i]};
      i := i + 1;
    }
    assert addrs[..i] == addrs;
    r := Enumerate(m);
  }

  method Enumerate(m: set<Address>) returns (r: seq<Address>)
    ensures Distinct(r) && |r| == |m| && forall a :: a in r <==> a in m
  {
    r := [];
    var todo := m;
    while todo != {}
      invariant todo <= m && Distinct(r) && |r| == |m| - |todo|
      invariant forall a :: a in r <==> a in m && a !in todo
    {
      var a :| a in todo;
      todo := todo - {a};
      r := r + [a];
    }
  }

  function Below(addrs: seq<Address>, b: Balances, amount: int): set<Address> {
    set a | a in addrs && Balance(b, a) < amount
  }

  /** The list has the members of the set, each once. */
  ghost predicate Lists(list: seq<Address>, members: set<Address>) {
    Distinct(list) && |list| == |members| && forall a :: a in list <==> a in members
  }

  lemma ListsOneMore(list: seq<Address>, members: set<Address>, a: Address)
    requires Lists(list, members) && a !in members
    ensures Lists(list + [a], members + {a})
  {
  }

  /** One more address adds itself to those below the amount, or nothing. */
  lemma BelowNext(addrs: seq<Address>, b: Balances, amount: int, i: nat)
    requires Distinct(addrs) && i < |addrs|
    ensures addrs[i] !in Below(addrs[..i], b, amount)
    ensures Below(addrs[..i + 1], b, amount) ==
            Below(addrs[..i], b, amount) + if Balance(b, addrs[i]) < amount then {addrs[i]} else {}
  {
    assert addrs[..i + 1] == addrs[..i] + [addrs[i]];
  }

  /** The list has those of the first i addresses that are below the amount. */
  ghost predicate ListsBelow(list: seq<Address>, addrs: seq<Address>, b: Balances, amount: int, i: nat)
    requires i <= |addrs|
  {
    Lists(list, Below(addrs[..i], b, amount))
  }

  lemma ListsBelowNext(list: seq<Address>, addrs: seq<Address>, b: Balances, amount: int, i: nat)
    requires Distinct(addrs) && i < |addrs| && ListsBelow(list, addrs, b, amount, i)
    ensures ListsBelow(if Balance(b, addrs[i]) < amount then list + [addrs[i]] else list, addrs, b, amount, i + 1)
  {
    BelowNext(addrs, b, amount, i);
    if Balance(b, addrs[i]) < amount {
      ListsOneMore(list, Below(addrs[..i], b, amount), addrs[i]);
    } else {
      assert Below(addrs[..i + 1], b, amount) == Below(addrs[..i], b, amount);
    }
  }

  ghost predicate AnyIn(addrs: seq<Address>, failing: set<Address>) {
    exists a :: a in addrs && a in failing
  }

  lemma AnyNext(addrs: seq<Address>, failing: set<Address>, i: nat)
    requires i < |addrs|
    ensures AnyIn(addrs[..i + 1], failing) <==> AnyIn(addrs[..i], failing) || addrs[i] in failing
  {
    assert addrs[..i + 1] == addrs[..i] + [addrs[i]];
    assert addrs[i] in addrs[..i + 1];
  }

  /**
   One failing check fails the whole filter. `failing`: the addresses whose balance the node does not
   return. The checks run concurrently and append in any order, of which the loop takes one; nothing
   promised here or used of the result depends on it.
   */
  method FilterUnderfunded(addrs: seq<Address>, balances: Balances, amount: int, failing: set<Address>)
    returns (r: Option<seq<Address>>)
    requires Distinct(addrs)
    ensures r == None <==> AnyIn(addrs, failing)
    ensures r.Some? ==> Lists(r.value, Below(addrs, balances, amount))
  {
    var broken, underfunded := false, [];
    var i := 0;
    while i < |addrs|
      invariant 0 <= i <= |addrs|
      invariant broken <==> AnyIn(addrs[..i], failing)
      invariant ListsBelow(underfunded, addrs, balances, amount, i)
    {
      var a := addrs[i];
      ListsBelowNext(underfunded, addrs, balances, amount, i);
      AnyNext(addrs, failing, i);
      if a in failing {
        broken := true;
      }
      if Balance(balances, a) < amount {
        underfunded := underfunded + [a];
      }
      i := i + 1;
    }
    assert addrs[..i] == addrs;
    return if broken then None else Some(underfunded);
  }

  /** The money in the hands of each account when the first n of the underfunded ones have been paid. */
  ghost predicate Funded(b: Balances, b': Balances, underfunded: seq<Address>, n: nat, amount: int, root: Address, self: Address)
    requires n <= |underfunded|
  {
    && (forall a | a != self ::
          Balance(b', a) == Balance(b, a) + amount * One(a in underfunded[..n])
                            + One(a == root && n > 0) * (Balance(b, self) - amount * n))
    && Balance(b', self) == if n > 0 then 0 else Balance(b, self)
  }

  function Same(amount: nat, n: nat): seq<nat> {
    seq(n, _ => amount)
  }

  lemma {:induction false} SameTotal(amount: nat, n: nat)
    ensures Total(Same(amount, n)) == amount * n
  {
    if n > 0 {
      SameTotal(amount, n - 1);
      assert Same(amount, n)[..n - 1] == Same(amount, n - 1);
    }
  }

  /** In a list without repeats everyone is due its value once. */
  lemma {:induction false} SameDue(recipients: seq<Address>, amount: nat, n: nat, a: Address)
    requires Distinct(recipients) && n <= |recipients|
    ensures Due(recipients, Same(amount, |recipients|), n, a) == amount * One(a in recipients[..n])
  {
    if n > 0 {
      SameDue(recipients, amount, n - 1, a);
      assert recipients[..n] == recipients[..n - 1] + [recipients[n - 1]];
    }
  }

  /** One batch went through: its recipients got the amount once, and the root paid and got what the contract still held. */
  ghost predicate Paid(m: Balances, m': Balances, chunk: seq<Address>, amount: nat, root: Address, self: Address) {
    && Balance(m', self) == 0
    && forall a | a != self ::
         Balance(m', a) == Balance(m, a) + amount * One(a in chunk) + One(a == root) * (Balance(m, self) - amount * |chunk|)
  }

  function BatchCall(m: Balances, self: Address, root: Address, chunk: seq<Address>, amount: nat): Option<Balances> {
    DisperseEther(m, self, root, amount * |chunk|, chunk, Same(amount, |chunk|))
  }

  lemma BatchEffect(m: Balances, self: Address, root: Address, chunk: seq<Address>, amount: nat)
    requires self != root && Balance(m, self) >= 0 && Distinct(chunk)
    ensures var r := BatchCall(m, self, root, chunk, amount);
            && (r.Some? <==> Balance(m, root) >= amount * |chunk| && self !in chunk)
            && (r.Some? ==> Paid(m, r.value, chunk, amount, root, self))
  {
    SameTotal(amount, |chunk|);
    DisperseEffect(m, self, root, amount * |chunk|, chunk, Same(amount, |chunk|));
    assert Same(amount, |chunk|)[..|chunk|] == Same(amount, |chunk|);
    assert chunk[..|chunk|] == chunk;
    forall a ensures Due(chunk, Same(amount, |chunk|), |chunk|, a) == amount * One(a in chunk) {
      SameDue(chunk, amount, |chunk|, a);
    }
  }

  /** Paying the accounts from start to end on top of those before start. */
  lemma ExtendFunded(b: Balances, m: Balances, b': Balances, underfunded: seq<Address>, start: nat, end: nat,
                     amount: nat, root: Address, self: Address)
    requires start < end <= |underfunded| && Distinct(underfunded) && self != root
    requires Funded(b, m, underfunded, start, amount, root, self)
    requires Paid(m, b', underfunded[start..end], amount, root, self)
    ensures Funded(b, b', underfunded, end, amount, root, self)
  {
    Split(amount, start, end);
    forall a | a != self
      ensures Balance(b', a) == Balance(b, a) + amount * One(a in underfunded[..end])
                                + One(a == root && end > 0) * (Balance(b, self) - amount * end)
    {
      OnceInEither(underfunded, start, end, a);
      Distribute(amount, One(a in underfunded[..start]), One(a in underfunded[start..end]));
    }
  }

  lemma OnceInEither(underfunded: seq<Address>, start: nat, end: nat, a: Address)
    requires Distinct(underfunded) && start <= end <= |underfunded|
    ensures One(a in underfunded[..end]) == One(a in underfunded[..start]) + One(a in underfunded[start..end])
  {
    assert underfunded[..end] == underfunded[..start] + underfunded[start..end];
  }

  lemma Distribute(amount: nat, x: int, y: int)
    ensures amount * (x + y) == amount * x + amount * y
  {
  }

  // ---------- The batches ----------

  /** What becomes of one call: on the chain and confirmed, not on the chain, or on the chain with the receipt never seen. */
  datatype Delivery = Confirmed | Lost | Unseen

  function Least(a: int, b: int): int {
    if a < b then a else b
  }

  /** Whether the batch from k can be paid once all before it are. */
  ghost predicate CanPay(b: Balances, self: Address, root: Address, underfunded: seq<Address>, amount: nat, size: nat, k: nat)
    requires k < |underfunded| && size > 0
  {
    var end := Least(k + size, |underfunded|);
    && self !in underfunded[k..end]
    && Balance(b, root) + amount * One(root in underfunded[..k]) + One(k > 0) * (Balance(b, self) - amount * k)
       >= amount * (end - k)
  }

  /** Every batch from the one at start on is confirmed and can be paid. */
  ghost predicate Goes(b: Balances, self: Address, root: Address, underfunded: seq<Address>, amount: nat, size: nat,
                       delivery: nat -> Delivery, start: nat)
    requires size > 0
    decreases |underfunded| - start
  {
    start < |underfunded| ==>
      && delivery(start) == Confirmed
      && CanPay(b, self, root, underfunded, amount, size, start)
      && Goes(b, self, root, underfunded, amount, size, delivery, start + size)
  }

  /** The chain once the accounts before start, or all of them, are paid; no money is made or lost. */
  ghost predicate PaidUpTo(b: Balances, b': Balances, underfunded: seq<Address>, start: nat, amount: nat,
                           root: Address, self: Address) {
    && Funded(b, b', underfunded, Least(start, |underfunded|), amount, root, self)
    && MapSum.Sum(b') == MapSum.Sum(b)
  }

  /** CanPay speaks of the balances at the start; this is what it means when the batch's turn has come. */
  lemma CanPayNow(b: Balances, m: Balances, self: Address, root: Address, underfunded: seq<Address>,
                  amount: nat, size: nat, start: nat)
    requires start < |underfunded| && size > 0 && self != root
    requires Funded(b, m, underfunded, start, amount, root, self)
    ensures var end := Least(start + size, |underfunded|);
            CanPay(b, self, root, underfunded, amount, size, start) <==>
            Balance(m, root) >= amount * (end - start) && self !in underfunded[start..end]
  {
  }

  /** What the call for the batch at start does, after those before it. */
  lemma BatchConserves(m: Balances, self: Address, root: Address, chunk: seq<Address>, amount: nat)
    requires BatchCall(m, self, root, chunk, amount).Some?
    ensures MapSum.Sum(BatchCall(m, self, root, chunk, amount).value) == MapSum.Sum(m)
  {
    DisperseConserves(m, self, root, amount * |chunk|, chunk, Same(amount, |chunk|));
  }

  lemma BatchPaysOn(b: Balances, m: Balances, m': Balances, self: Address, root: Address, underfunded: seq<Address>,
                    amount: nat, size: nat, start: nat)
    requires Distinct(underfunded) && self != root && size > 0 && start < |underfunded|
    requires PaidUpTo(b, m, underfunded, start, amount, root, self) && MapSum.Sum(m') == MapSum.Sum(m)
    requires Paid(m, m', underfunded[start..Least(start + size, |underfunded|)], amount, root, self)
    ensures PaidUpTo(b, m', underfunded, start + size, amount, root, self)
  {
    ExtendFunded(b, m, m', underfunded, start, Least(start + size, |underfunded|), amount, root, self);
  }

  lemma BatchNext(b: Balances, m: Balances, self: Address, root: Address, underfunded: seq<Address>,
                  amount: nat, size: nat, start: nat)
    requires Distinct(underfunded) && self != root && Balance(b, self) >= 0 && size > 0 && start < |underfunded|
    requires PaidUpTo(b, m, underfunded, start, amount, root, self)
    ensures var r := BatchCall(m, self, root, underfunded[start..Least(start + size, |underfunded|)], amount);
            && (r.Some? <==> CanPay(b, self, root, underfunded, amount, size, start))
            && (r.Some? ==> PaidUpTo(b, r.value, underfunded, start + size, amount, root, self))
  {
    var end := Least(start + size, |underfunded|);
    var chunk := underfunded[start..end];
    CanPayNow(b, m, self, root, underfunded, amount, size, start);
    BatchEffect(m, self, root, chunk, amount);
    var r := BatchCall(m, self, root, chunk, amount);
    if r.Some? {
      BatchConserves(m, self, root, chunk, amount);
      BatchPaysOn(b, m, r.value, self, root, underfunded, amount, size, start);
    }
  }

  function Joined(lists: seq<seq<Address>>): seq<Address> {
    if lists == [] then [] else Joined(lists[..|lists| - 1]) + lists[|lists| - 1]
  }

  /** The lists are the accounts in order, cut into lists of `size`; only the last may be shorter. */
  ghost predicate Cut(lists: seq<seq<Address>>, accounts: seq<Address>, size: nat) {
    && Joined(lists) == accounts
    && (forall i | 0 <= i < |lists| :: 0 < |lists[i]| <= size)
    && (forall i | 0 <= i < |lists| - 1 :: |lists[i]| == size)
  }

  /** What the batches before start have been: full ones, unless start is past the end. */
  ghost predicate CutUpTo(lists: seq<seq<Address>>, underfunded: seq<Address>, start: nat, size: nat) {
    && Cut(lists, underfunded[..Least(start, |underfunded|)], size)
    && (start <= |underfunded| ==> forall i | 0 <= i < |lists| :: |lists[i]| == size)
  }

  /** The batch at start. */
  function Chunk(underfunded: seq<Address>, start: nat, size: nat): seq<Address>
    requires start < |underfunded|
  {
    underfunded[start..Least(start + size, |underfunded|)]
  }

  lemma CutNext(lists: seq<seq<Address>>, underfunded: seq<Address>, start: nat, size: nat)
    requires CutUpTo(lists, underfunded, start, size) && start < |underfunded| && size > 0
    ensures CutUpTo(lists + [Chunk(underfunded, start, size)], underfunded, start + size, size)
  {
    var end := Least(start + size, |underfunded|);
    var chunk := underfunded[start..end];
    assert (lists + [chunk])[..|lists|] == lists;
    assert underfunded[..start] + chunk == underfunded[..end];
  }

  /** How many accounts a number of full batches pays. */
  function InBatches(batches: nat, size: nat): nat {
    if batches == 0 then 0 else InBatches(batches - 1, size) + size
  }

  /** The chain once these batches are through: they are the accounts in order, cut to size, and those are paid. */
  ghost predicate Through(b: Balances, b': Balances, underfunded: seq<Address>, lists: seq<seq<Address>>, size: nat,
                          amount: nat, root: Address, self: Address) {
    && PaidUpTo(b, b', underfunded, InBatches(|lists|, size), amount, root, self)
    && CutUpTo(lists, underfunded, InBatches(|lists|, size), size)
  }

  lemma NothingThrough(b: Balances, underfunded: seq<Address>, size: nat, amount: nat, root: Address, self: Address)
    ensures Through(b, b, underfunded, [], size, amount, root, self)
  {
    assert underfunded[..0] == [];
  }

  lemma OneMoreThrough(b: Balances, m: Balances, m': Balances, underfunded: seq<Address>, lists: seq<seq<Address>>,
                       size: nat, amount: nat, root: Address, self: Address, start: nat)
    requires Through(b, m, underfunded, lists, size, amount, root, self)
    requires start == InBatches(|lists|, size) && start < |underfunded| && size > 0
    requires PaidUpTo(b, m', underfunded, start + size, amount, root, self)
    ensures Through(b, m', underfunded, lists + [Chunk(underfunded, start, size)], size, amount, root, self)
  {
    CutNext(lists, underfunded, start, size);
    assert InBatches(|lists| + 1, size) == start + size;
  }

  /** One batch on top of those before it: what the loop does to the chain. */
  method PayBatch(chain: Chains.Chain, self: Address, root: Address, underfunded: seq<Address>, amount: nat, size: nat,
                  start: nat, ghost b: Balances, ghost lists: seq<seq<Address>>) returns (paid: bool)
    requires Distinct(underfunded) && self != root && Balance(b, self) >= 0 && size > 0
    requires start == InBatches(|lists|, size) && start < |underfunded|
    requires Through(b, chain.balances, underfunded, lists, size, amount, root, self)
    modifies chain
    ensures paid <==> CanPay(b, self, root, underfunded, amount, size, start)
    ensures var batch := if paid then [Chunk(underfunded, start, size)] else [];
            && chain.mined == old(chain.mined) + batch
            && Through(b, chain.balances, underfunded, lists + batch, size, amount, root, self)
  {
    BatchNext(b, chain.balances, self, root, underfunded, amount, size, start);
    var end := Least(start + size, |underfunded|);
    var chunk := underfunded[start..end];
    var values, total := Values(chunk, amount);
    ghost var m := chain.balances;
    paid := chain.DisperseEther(self, root, total, chunk, values);
    if paid {
      OneMoreThrough(b, m, chain.balances, underfunded, lists, size, amount, root, self, start);
    } else {
      assert lists + [] == lists;
    }
  }

  /**
   The batch at start, sent and waited for. A batch whose receipt is never seen is through but not
   reported as such.
   */
  method SendBatch(chain: Chains.Chain, self: Address, root: Address, underfunded: seq<Address>, amount: nat, size: nat,
                   start: nat, delivery: Delivery, ghost b: Balances, ghost lists: seq<seq<Address>>)
    returns (ok: bool, ghost batch: seq<seq<Address>>)
    requires Distinct(underfunded) && self != root && Balance(b, self) >= 0 && size > 0
    requires start == InBatches(|lists|, size) && start < |underfunded|
    requires Through(b, chain.balances, underfunded, lists, size, amount, root, self)
    modifies chain
    ensures ok <==> delivery == Confirmed && CanPay(b, self, root, underfunded, amount, size, start)
    ensures ok ==> |batch| == 1
    ensures chain.mined == old(chain.mined) + batch
    ensures Through(b, chain.balances, underfunded, lists + batch, size, amount, root, self)
  {
    if delivery == Lost {
      assert lists + [] == lists;
      return false, [];
    }
    var paid := PayBatch(chain, self, root, underfunded, amount, size, start, b, lists);
    batch := if paid then [Chunk(underfunded, start, size)] else [];
    ok := paid && delivery == Confirmed;
  }

  /**
   The batches in order, up to the first that fails. Either way the chain has paid a whole number of
   batches, each account in them once.
   */
  method PayBatches(chain: Chains.Chain, self: Address, root: Address, underfunded: seq<Address>, amount: nat, size: nat,
                    delivery: nat -> Delivery) returns (ok: bool, ghost lists: seq<seq<Address>>)
    requires Distinct(underfunded) && self != root && Balance(chain.balances, self) >= 0 && size > 0
    modifies chain
    ensures chain.mined == old(chain.mined) + lists
    ensures Through(old(chain.balances), chain.balances, underfunded, lists, size, amount, root, self)
    ensures ok ==> InBatches(|lists|, size) >= |underfunded|
    ensures ok <==> Goes(old(chain.balances), self, root, underfunded, amount, size, delivery, 0)
  {
    ghost var b := chain.balances;
    var start := 0;
    lists := [];
    NothingThrough(b, underfunded, size, amount, root, self);
    while start < |underfunded|
      invariant start == InBatches(|lists|, size) && chain.mined == old(chain.mined) + lists
      invariant Through(b, chain.balances, underfunded, lists, size, amount, root, self)
      invariant Goes(b, self, root, underfunded, amount, size, delivery, 0) <==>
                Goes(b, self, root, underfunded, amount, size, delivery, start)
      decreases |underfunded| - start
    {
      ghost var batch;
      ok, batch := SendBatch(chain, self, root, underfunded, amount, size, start, delivery(start), b, lists);
      lists := lists + batch;
      if !ok {
        return;
      }
      start := start + size;
    }
    ok := true;
  }

  /** The values of one batch and what they come to. */
  method Values(chunk: seq<Address>, amount: nat) returns (values: seq<nat>, total: nat)
    ensures values == Same(amount, |chunk|) && total == amount * |chunk|
  {
    values, total := [], 0;
    while |values| < |chunk|
      invariant |values| <= |chunk| && values == Same(amount, |values|) && total == amount * |values|
    {
      values, total := values + [amount], total + amount;
    }
  }

  // ---------- When the batches go through, in closed form ----------

  ghost predicate Confirmations(count: nat, size: nat, delivery: nat -> Delivery, start: nat)
    requires size > 0
    decreases count - start
  {
    start < count ==> delivery(start) == Confirmed && Confirmations(count, size, delivery, start + size)
  }

  /** The root can pay the first batch alone, and everything with what the first batch brings back from the contract. */
  ghost predicate Affordable(b: Balances, self: Address, root: Address, poor: set<Address>, amount: int, size: nat) {
    poor != {} ==>
      && self !in poor
      && Balance(b, root) >= amount * Least(size, |poor|)
      && (|poor| > size ==> Balance(b, root) + Balance(b, self) >= amount * |poor|)
  }

  lemma Split(amount: nat, part: nat, whole: nat)
    requires part <= whole
    ensures amount * whole == amount * part + amount * (whole - part) >= amount * part
  {
  }

  /** A later batch can be paid iff the root's money and the contract's reach to its end. */
  lemma CanPayLater(b: Balances, self: Address, root: Address, u: seq<Address>, amount: nat, size: nat, start: nat)
    requires 0 < start < |u| && size > 0 && root !in u
    ensures var end := Least(start + size, |u|);
            CanPay(b, self, root, u, amount, size, start) <==>
            self !in u[start..end] && Balance(b, root) + Balance(b, self) >= amount * end
  {
    var end := Least(start + size, |u|);
    Split(amount, start, end);
    assert root !in u[..start];
  }

  /** What is asked of the batches from start on. */
  ghost predicate Tail(b: Balances, self: Address, root: Address, u: seq<Address>, amount: nat, start: nat) {
    start < |u| ==> self !in u[start..] && Balance(b, root) + Balance(b, self) >= amount * |u|
  }

  lemma TailStep(b: Balances, self: Address, root: Address, u: seq<Address>, amount: nat, size: nat, start: nat)
    requires 0 < start < |u| && size > 0 && root !in u
    ensures Tail(b, self, root, u, amount, start) <==>
            CanPay(b, self, root, u, amount, size, start) && Tail(b, self, root, u, amount, start + size)
  {
    var end := Least(start + size, |u|);
    CanPayLater(b, self, root, u, amount, size, start);
    assert u[start..] == u[start..end] + u[end..];
    Split(amount, end, |u|);
  }

  lemma {:induction false} GoesTail(b: Balances, self: Address, root: Address, u: seq<Address>, amount: nat, size: nat,
                                    delivery: nat -> Delivery, start: nat)
    requires size > 0 && start > 0 && root !in u
    ensures Goes(b, self, root, u, amount, size, delivery, start) <==>
            Confirmations(|u|, size, delivery, start) && Tail(b, self, root, u, amount, start)
    decreases |u| - start
  {
    if start < |u| {
      TailStep(b, self, root, u, amount, size, start);
      GoesTail(b, self, root, u, amount, size, delivery, start + size);
    }
  }

  /** The first batch and what is asked of the rest, together. */
  lemma FirstAndTail(b: Balances, self: Address, root: Address, u: seq<Address>, poor: set<Address>, amount: nat, size: nat)
    requires size > 0 && |u| == |poor| > 0 && forall a :: a in u <==> a in poor
    requires root !in u
    ensures Affordable(b, self, root, poor, amount, size) <==>
            CanPay(b, self, root, u, amount, size, 0) && Tail(b, self, root, u, amount, size)
  {
    var end := Least(size, |u|);
    assert u == u[0..end] + u[end..];
    assert u[0] in poor;
  }

  /** Among accounts below the amount, all batches go through iff all are confirmed and the root can afford them. */
  lemma GoesIff(b: Balances, self: Address, root: Address, u: seq<Address>, poor: set<Address>, amount: nat, size: nat,
                delivery: nat -> Delivery)
    requires size > 0 && |u| == |poor| && forall a :: a in u <==> a in poor
    requires forall a | a in poor :: Balance(b, a) < amount
    ensures Goes(b, self, root, u, amount, size, delivery, 0) <==>
            Confirmations(|u|, size, delivery, 0) && Affordable(b, self, root, poor, amount, size)
  {
    if |u| > 0 {
      assert u[0] in poor;
      Split(amount, 1, Least(size, |u|));
      if root in u {
        assert Balance(b, root) < amount * Least(size, |u|);
      } else {
        FirstAndTail(b, self, root, u, poor, amount, size);
        GoesTail(b, self, root, u, amount, size, delivery, size);
      }
    }
  }

  // ---------- Funding as a whole ----------

  /** Everyone below the amount got it once, the root paid for all of them, and nobody else moved. */
  ghost predicate AllFunded(b: Balances, b': Balances, poor: set<Address>, amount: int, root: Address, self: Address) {
    if poor == {} then b' == b
    else
      && Balance(b', self) == 0
      && forall a | a != self ::
           Balance(b', a) == Balance(b, a) + amount * One(a in poor)
                             + One(a == root) * (Balance(b, self) - amount * |poor|)
  }

  /** The batches hold these accounts, each once; none is over the size, and all but the last are full. */
  ghost predicate InBatchesOnce(lists: seq<seq<Address>>, poor: set<Address>, size: nat) {
    && Lists(Joined(lists), poor)
    && (forall i | 0 <= i < |lists| :: 0 < |lists[i]| <= size)
    && (forall i | 0 <= i < |lists| - 1 :: |lists[i]| == size)
  }

  /**
   `failing`: the addresses whose balance query fails. `deployed`: whether the contract, at the fresh
   address `self`, was deployed.
   */
  method FundAccounts(chain: Chains.Chain, self: Address, root: Address, addrs: seq<Address>, amount: int, batchSize: int,
                      failing: set<Address>, deployed: bool, delivery: nat -> Delivery) returns (ok: bool)
    requires self != root && forall a :: Balance(chain.balances, a) >= 0
    modifies chain
    ensures var b := old(chain.balances);
            var poor := set a | a in addrs && Balance(b, a) < amount;
            var size := if batchSize <= 0 then 200 else batchSize;
            && (ok <==> && (forall a | a in addrs :: a !in failing)
                        && (poor == {} || (deployed && Confirmations(|poor|, size, delivery, 0)
                                                  && Affordable(b, self, root, poor, amount, size))))
            && (ok ==> AllFunded(b, chain.balances, poor, amount, root, self))
            && (forall a | a != self && a != root ::
                  || Balance(chain.balances, a) == Balance(b, a)
                  || (a in poor && Balance(chain.balances, a) == Balance(b, a) + amount))
    ensures MapSum.Sum(chain.balances) == old(MapSum.Sum(chain.balances))
    ensures |chain.mined| >= |old(chain.mined)| && chain.mined[..|old(chain.mined)|] == old(chain.mined)
            && (ok ==> InBatchesOnce(chain.mined[|old(chain.mined)|..],
                                     set a | a in addrs && Balance(old(chain.balances), a) < amount,
                                     if batchSize <= 0 then 200 else batchSize))
  {
    var distinct := Unique(addrs);
    ghost var b := chain.balances;
    ghost var poor := Below(addrs, b, amount);
    assert Below(distinct, b, amount) == poor;
    var r := FilterUnderfunded(distinct, chain.balances, amount, failing);
    if r == None {
      return false;
    }
    var underfunded := r.value;
    if |underfunded| == 0 {
      return true;
    }
    assert underfunded[0] in poor;
    if !deployed {
      return false;
    }
    ghost var lists;
    ok, lists := PayBatches(chain, self, root, underfunded, amount, Batch(batchSize), delivery);
    GoesIff(b, self, root, underfunded, poor, amount, Batch(batchSize), delivery);
    if ok {
      assert underfunded[..|underfunded|] == underfunded;
      assert chain.mined[|old(chain.mined)|..] == lists;
    }
  }

  /**
   Funding that succeeds brings every account of the pool to the amount, iff there was nothing to do
   or the pool leaves out the contract and any root that cannot keep the amount for itself.
   */
  lemma TargetMet(b: Balances, b': Balances, addrs: seq<Address>, amount: int, size: nat, root: Address, self: Address)
    requires size > 0 && self != root && forall a :: Balance(b, a) >= 0
    requires Affordable(b, self, root, Below(addrs, b, amount), amount, size)
    requires AllFunded(b, b', Below(addrs, b, amount), amount, root, self)
    ensures var poor := Below(addrs, b, amount);
            (forall a | a in addrs :: Balance(b', a) >= amount) <==>
            || poor == {}
            || (self !in addrs && (root in addrs ==> Balance(b, root) + Balance(b, self) - amount * |poor| >= amount))
  {
    var poor := Below(addrs, b, amount);
    forall a | a in addrs && (poor == {} || (a != root && a != self)) ensures Balance(b', a) >= amount {
      assert a in poor || Balance(b, a) >= amount;
    }
    if p :| p in poor {
      assert amount > Balance(b, p);
      Split(amount, 1, Least(size, |poor|));
      assert root !in poor;
    }
  }

  /** It fails for a root in the pool that pays itself below the amount: 1 has 15, pays 10 to 2, and keeps 5. */
  lemma TargetMissed()
    ensures var b, b', addrs := map[1 := 15, 2 := 0], map[1 := 5, 2 := 10], [1, 2];
            && Affordable(b, 99, 1, Below(addrs, b, 10), 10, DEFAULT_FUND_BATCH_SIZE)
            && AllFunded(b, b', Below(addrs, b, 10), 10, 1, 99)
            && 1 in addrs && Balance(b', 1) < 10
  {
    assert Below([1, 2], map[1 := 15, 2 := 0], 10) == {2};
  }
}
