/** The chain's balances and the Disperse contract's disperseEther. */
module DisperseSpec {
  import opened LoadTypes
  import MapSum
  import opened SetSize

  type Balances = map<Address, int>

  function Balance(b: Balances, a: Address): int {
    if a in b then b[a] else 0
  }

  function Move(b: Balances, from: Address, to: Address, amount: int): Balances {
    var b' := b[from := Balance(b, from) - amount];
    b'[to := Balance(b', to) + amount]
  }

  /** A transfer out of the contract: reverts without the money, and to the contract itself, which cannot receive. */
  function Pay(b: Balances, self: Address, to: Address, amount: nat): Option<Balances> {
    if Balance(b, self) < amount || to == self then None else Some(Move(b, self, to, amount))
  }

  /** The contract's loop over the first n recipients; a missing value reverts. */
  function PayAll(b: Balances, self: Address, recipients: seq<Address>, values: seq<nat>, n: nat): Option<Balances>
    requires n <= |recipients|
  {
    if n == 0 then Some(b)
    else
      var before := PayAll(b, self, recipients, values, n - 1);
      if before == None || n > |values| then None else Pay(before.value, self, recipients[n - 1], values[n - 1])
  }

  /** One transaction: the sender's value arrives, the recipients are paid, and the rest goes back to the sender. */
  function DisperseEther(b: Balances, self: Address, sender: Address, value: nat,
                         recipients: seq<Address>, values: seq<nat>): Option<Balances> {
    if Balance(b, sender) < value then None
    else
      var paid := PayAll(Move(b, sender, self, value), self, recipients, values, |recipients|);
      if paid == None then None
      else if Balance(paid.value, self) > 0 then Pay(paid.value, self, sender, Balance(paid.value, self))
      else paid
  }

  // ---------- What a call does to every account ----------

  function Total(values: seq<nat>): nat {
    if values == [] then 0 else Total(values[..|values| - 1]) + values[|values| - 1]
  }

  /** What an account is due: its values, added up over all its places in the list. */
  function Due(recipients: seq<Address>, values: seq<nat>, n: nat, a: Address): nat
    requires n <= |recipients| && n <= |values|
  {
    if n == 0 then 0
    else Due(recipients, values, n - 1, a) + if recipients[n - 1] == a then values[n - 1] else 0
  }

  lemma {:induction false} PayAllEffect(b: Balances, self: Address, recipients: seq<Address>, values: seq<nat>, n: nat)
    requires n <= |recipients| && n <= |values|
    ensures var r := PayAll(b, self, recipients, values, n);
            && (r.Some? <==> self !in recipients[..n] && (n == 0 || Total(values[..n]) <= Balance(b, self)))
            && (r.Some? ==> Balance(r.value, self) == Balance(b, self) - Total(values[..n]))
            && (r.Some? ==> forall a | a != self :: Balance(r.value, a) == Balance(b, a) + Due(recipients, values, n, a))
  {
    if n > 0 {
      PayAllEffect(b, self, recipients, values, n - 1);
      assert recipients[..n] == recipients[..n - 1] + [recipients[n - 1]];
      assert values[..n][..n - 1] == values[..n - 1];
    }
  }

  lemma {:induction false} PayAllFails(b: Balances, self: Address, recipients: seq<Address>, values: seq<nat>, n: nat, m: nat)
    requires n <= m <= |recipients| && PayAll(b, self, recipients, values, n) == None
    ensures PayAll(b, self, recipients, values, m) == None
    decreases m
  {
    if n < m {
      PayAllFails(b, self, recipients, values, n, m - 1);
    }
  }

  /**
   A call succeeds exactly when there is a value for every recipient, the sender has the value sent,
   the contract is not among the recipients, and the value with what the contract already held covers
   the payments. Then every recipient gets what it is due, the sender pays the value and gets the
   contract's rest, and the contract is empty. Values beyond the last recipient do not matter.
   */
  lemma DisperseEffect(b: Balances, self: Address, sender: Address, value: nat, recipients: seq<Address>, values: seq<nat>)
    requires self != sender && Balance(b, self) >= 0
    ensures var r := DisperseEther(b, self, sender, value, recipients, values);
            var n := |recipients|;
            && (r.Some? <==> n <= |values| && Balance(b, sender) >= value && self !in recipients
                             && Total(values[..n]) <= Balance(b, self) + value)
            && (r.Some? ==> Balance(r.value, self) == 0)
            && (r.Some? ==> forall a | a != self ::
                  Balance(r.value, a) == Balance(b, a) + Due(recipients, values, n, a)
                                         + One(a == sender) * (Balance(b, self) - Total(values[..n])))
  {
    var start, n := Move(b, sender, self, value), |recipients|;
    if n <= |values| {
      PayAllEffect(start, self, recipients, values, n);
      assert recipients[..n] == recipients;
    } else {
      PayAllFails(start, self, recipients, values, |values| + 1, n);
    }
  }

  lemma MoveConserves(b: Balances, from: Address, to: Address, amount: int)
    ensures MapSum.Sum(Move(b, from, to, amount)) == MapSum.Sum(b)
  {
    var b' := b[from := Balance(b, from) - amount];
    MapSum.Update(b, from, Balance(b, from) - amount);
    MapSum.Update(b', to, Balance(b', to) + amount);
  }

  lemma {:induction false} PayAllConserves(b: Balances, self: Address, recipients: seq<Address>, values: seq<nat>, n: nat)
    requires n <= |recipients| && PayAll(b, self, recipients, values, n).Some?
    ensures MapSum.Sum(PayAll(b, self, recipients, values, n).value) == MapSum.Sum(b)
  {
    if n > 0 {
      PayAllConserves(b, self, recipients, values, n - 1);
      MoveConserves(PayAll(b, self, recipients, values, n - 1).value, self, recipients[n - 1], values[n - 1]);
    }
  }

  /** No money is made or lost. */
  lemma DisperseConserves(b: Balances, self: Address, sender: Address, value: nat, recipients: seq<Address>, values: seq<nat>)
    requires DisperseEther(b, self, sender, value, recipients, values).Some?
    ensures MapSum.Sum(DisperseEther(b, self, sender, value, recipients, values).value) == MapSum.Sum(b)
  {
    MoveConserves(b, sender, self, value);
    var start := Move(b, sender, self, value);
    PayAllConserves(start, self, recipients, values, |recipients|);
    var paid := PayAll(start, self, recipients, values, |recipients|).value;
    MoveConserves(paid, self, sender, Balance(paid, self));
  }
}

/** The chain as the funder drives it: one transaction at a time, each mined or reverted as a whole. */
module Chains {
  import opened LoadTypes
  import opened DisperseSpec

  class Chain {
    var balances: Balances
    var mined: seq<seq<Address>>  // the recipients of each call that went through

    constructor (balances: Balances)
      ensures this.balances == balances && mined == []
    {
      this.balances, mined := balances, [];
    }

    /** `self` is the contract's address; a false result stands for a revert, which undoes everything. */
    method DisperseEther(self: Address, sender: Address, value: nat, recipients: seq<Address>, values: seq<nat>)
      returns (ok: bool)
      modifies this
      ensures ok <==> DisperseSpec.DisperseEther(old(balances), self, sender, value, recipients, values).Some?
      ensures balances == if ok then DisperseSpec.DisperseEther(old(balances), self, sender, value, recipients, values).value
                          else old(balances)
      ensures mined == if ok then old(mined) + [recipients] else old(mined)
    {
      var before := balances;
      ok := Balance(balances, sender) >= value;
      if !ok {
        return;
      }
      balances := Move(balances, sender, self, value);
      ghost var start := balances;
      var i := 0;
      while i < |recipients|
        invariant 0 <= i <= |recipients| && mined == old(mined)
        invariant PayAll(start, self, recipients, values, i) == Some(balances)
        invariant start == Move(before, sender, self, value)
      {
        if i >= |values| || Balance(balances, self) < values[i] || recipients[i] == self {
          PayAllFails(start, self, recipients, values, i + 1, |recipients|);
          balances := before;
          return false;
        }
        balances := Move(balances, self, recipients[i], values[i]);
        i := i + 1;
      }
      var rest := Balance(balances, self);
      if rest > 0 {
        if sender == self {
          balances := before;
          return false;
        }
        balances := Move(balances, self, sender, rest);
      }
      mined := mined + [recipients];
    }
  }
}
