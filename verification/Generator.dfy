/** The pool of accounts and its rotating cursor. */
module AccountPools {
  import opened LoadTypes

  class AccountPool {
    const accounts: seq<Account>
    var idx: nat

    constructor (accounts: seq<Account>)
      ensures this.accounts == accounts && idx == 0
    {
      this.accounts := accounts;
      idx := 0;
    }

    /** The remainder by the pool's size panics on an empty pool. */
    method NextIndex() returns (i: nat)
      requires accounts != []
      modifies this
      ensures i == idx == (old(idx) + 1) % |accounts|
    {
      idx := idx + 1;
      idx := idx % |accounts|;
      i := idx;
    }

    /** `minted`: the new untracked account when the roll against newAccountRate hits. */
    method NextAccount(minted: Option<Account>) returns (a: Account)
      requires minted == None ==> accounts != []
      modifies this
      ensures minted.Some? ==> a == minted.value && idx == old(idx)
      ensures minted == None ==> idx == (old(idx) + 1) % |accounts| && a == accounts[idx]
    {
      if minted.Some? {
        return minted.value;
      }
      var i := NextIndex();
      a := accounts[i];
    }
  }

  /** The index of the sender of transaction i, and of its receiver, in one pool of n accounts. */
  function Sender(i: nat, n: nat): nat
    requires n > 0
  {
    (2 * i + 1) % n
  }

  function Receiver(i: nat, n: nat): nat
    requires n > 0
  {
    (2 * i + 2) % n
  }

  lemma Remainder(x: nat, n: nat, q: nat, r: nat)
    requires n > 0 && x == q * n + r && r < n
    ensures x % n == r
  {
    var d := x / n - q;
    assert x == (x / n) * n + x % n;
    assert d * n == r - x % n;
    assert d >= 1 ==> d * n >= n;
    assert d <= -1 ==> d * n <= -1 * n;
  }

  lemma Steps(x: nat, n: nat)
    requires n > 0
    ensures (x % n + 1) % n == (x + 1) % n
  {
    var q, r := x / n, x % n;
    assert x == q * n + r;
    if r + 1 < n {
      Remainder(x + 1, n, q, r + 1);
      Remainder(r + 1, n, 0, r + 1);
    } else {
      assert (q + 1) * n == q * n + n;
      Remainder(x + 1, n, q + 1, 0);
      Remainder(n, n, 1, 0);
    }
  }

  /** Two neighbours in a pool of at least two are different. */
  lemma NeighboursDiffer(x: nat, n: nat)
    requires n >= 2
    ensures x % n != (x + 1) % n
  {
    Steps(x, n);
    if x % n + 1 < n {
      Remainder(x % n + 1, n, 0, x % n + 1);
    } else {
      Remainder(n, n, 1, 0);
    }
  }

  /** The sender d transactions after transaction k, for d less than the pool's size. */
  lemma SenderAfter(k: nat, d: nat, n: nat)
    requires n > 0 && d < n
    ensures var r := Sender(k, n) + 2 * d;
            Sender(k + d, n) == if r < n then r else if r < 2 * n then r - n else r - 2 * n
  {
    var q, r := (2 * k + 1) / n, Sender(k, n) + 2 * d;
    assert 2 * k + 1 == q * n + Sender(k, n);
    assert (q + 1) * n == q * n + n && (q + 2) * n == q * n + 2 * n;
    if r < n {
      Remainder(2 * (k + d) + 1, n, q, r);
    } else if r < 2 * n {
      Remainder(2 * (k + d) + 1, n, q + 1, r - n);
    } else {
      Remainder(2 * (k + d) + 1, n, q + 2, r - 2 * n);
    }
  }

  /** In a pool of odd size the senders of n consecutive transactions are all different. */
  lemma OddPoolNoRepeat(k: nat, d: nat, e: nat, n: nat)
    requires n % 2 == 1 && d < n && e < n && Sender(k + d, n) == Sender(k + e, n)
    ensures d == e
  {
    SenderAfter(k, d, n);
    SenderAfter(k, e, n);
    var h := n / 2;
    assert n == 2 * h + 1;
  }

  /** How many transactions after k the account is the sender: half the way to it, once or twice around. */
  lemma FindSender(k: nat, n: nat, account: nat) returns (d: nat)
    requires n % 2 == 1 && account < n
    ensures d < n && Sender(k + d, n) == account
  {
    var s := Sender(k, n);
    var gap := if account >= s then account - s else account - s + n;
    d := if gap % 2 == 0 then gap / 2 else (gap + n) / 2;
    assert 2 * d == gap || 2 * d == gap + n;
    SenderAfter(k, d, n);
  }

  /** A pool of odd size: any n consecutive transactions use every account as sender, each once. */
  lemma OddPoolRotates(k: nat, n: nat, account: nat) returns (t: nat)
    requires n % 2 == 1 && account < n
    ensures k <= t < k + n && Sender(t, n) == account
    ensures forall u: nat | k <= u < k + n && Sender(u, n) == account :: u == t
  {
    var d := FindSender(k, n, account);
    t := k + d;
    forall u: nat | k <= u < k + n && Sender(u, n) == account ensures u == t {
      assert Sender(k + (u - k), n) == account;
      OddPoolNoRepeat(k, d, u - k, n);
    }
  }

  lemma EvenPoolSendsOdd(i: nat, n: nat)
    requires n > 0 && n % 2 == 0
    ensures Sender(i, n) % 2 == 1
  {
    var q, h := (2 * i + 1) / n, n / 2;
    assert n == 2 * h;
    assert 2 * i + 1 == q * n + Sender(i, n);
    assert q * n == 2 * (q * h) by {
      assert q * (2 * h) == 2 * (q * h);
    }
  }

  /** A pool of even size: exactly the accounts with an odd index ever send. */
  lemma EvenPoolHalves(n: nat, account: nat)
    requires n > 0 && n % 2 == 0 && account < n
    ensures (exists i: nat :: Sender(i, n) == account) <==> account % 2 == 1
  {
    if account % 2 == 1 {
      Remainder(account, n, 0, account);
      assert Sender(account / 2, n) == account;
    }
    forall i: nat ensures Sender(i, n) % 2 == 1 {
      EvenPoolSendsOdd(i, n);
    }
  }
}

/** Weighted round-robin over scenario instances: build, shuffle, and the generator's loop. */
module Workload {
  import opened LoadTypes
  import opened AccountPools
  import opened WeightedList

  /** A scenario instance: its weight, and which of the account pools it draws from. */
  datatype Instance = Instance(id: nat, weight: int, pool: nat)

  /** The instance's share of the list is its weight; a weight of 0 or less gives it none. */
  function Share(i: Instance): nat {
    if i.weight > 0 then i.weight else 0
  }

  function Shares(instances: seq<Instance>): seq<(Instance, nat)> {
    seq(|instances|, k requires 0 <= k < |instances| => (instances[k], Share(instances[k])))
  }

  ghost predicate Different(instances: seq<Instance>) {
    forall i, j | 0 <= i < j < |instances| :: instances[i] != instances[j]
  }

  /** The positive weights added up. */
  function TotalWeight(instances: seq<Instance>): nat {
    if instances == [] then 0
    else
      var weight := instances[|instances| - 1].weight;
      TotalWeight(instances[..|instances| - 1]) + if weight > 0 then weight else 0
  }

  /** The list holds every instance its weight's number of times, one of weight 0 or less not at all, and nothing else. */
  ghost predicate ByWeight(instances: seq<Instance>, gens: seq<Instance>) {
    && |gens| == TotalWeight(instances)
    && forall inst: Instance :: multiset(gens)[inst] == if inst in instances && inst.weight > 0 then inst.weight else 0
  }

  lemma {:induction false} SharesTotal(instances: seq<Instance>)
    ensures Total(Shares(instances)) == TotalWeight(instances)
  {
    if instances != [] {
      SharesTotal(instances[..|instances| - 1]);
      assert Shares(instances)[..|instances| - 1] == Shares(instances[..|instances| - 1]);
    }
  }

  lemma ExpandByWeight(instances: seq<Instance>)
    requires Different(instances)
    ensures ByWeight(instances, Expand(Shares(instances)))
  {
    var items := Shares(instances);
    SharesTotal(instances);
    ExpandLength(items);
    forall inst: Instance
      ensures multiset(Expand(items))[inst] == if inst in instances && inst.weight > 0 then inst.weight else 0
    {
      if inst in instances {
        var i :| 0 <= i < |instances| && instances[i] == inst;
        CountPresent(items, i);
      } else {
        CountAbsent(items, inst);
      }
    }
  }

  /** The Fisher-Yates swaps of the random source: any pairs of places. */
  method Shuffle(gens: array<Instance>, swaps: seq<(nat, nat)>)
    requires forall s | s in swaps :: s.0 < gens.Length && s.1 < gens.Length
    modifies gens
    ensures multiset(gens[..]) == multiset(old(gens[..]))
  {
    var k := 0;
    while k < |swaps|
      invariant 0 <= k <= |swaps|
      invariant multiset(gens[..]) == multiset(old(gens[..]))
    {
      var (i, j) := swaps[k];
      assert swaps[k] in swaps;
      gens[i], gens[j] := gens[j], gens[i];
      k := k + 1;
    }
  }

  /** An empty expansion is the source's error "no scenario instances created". */
  method Build(instances: seq<Instance>) returns (gens: seq<Instance>)
    ensures gens == Expand(Shares(instances))
    ensures Different(instances) ==> ByWeight(instances, gens)
  {
    gens := [];
    var k := 0;
    while k < |instances|
      invariant 0 <= k <= |instances|
      invariant gens == Expand(Shares(instances[..k]))
    {
      var inst := instances[k];
      ghost var before := gens;
      if inst.weight != 0 {
        var r := 0;
        while r < inst.weight
          invariant 0 <= r <= Share(inst)
          invariant gens == before + Repeat(inst, r)
        {
          gens := gens + [inst];
          r := r + 1;
        }
      }
      assert Shares(instances[..k + 1])[..k] == Shares(instances[..k]);
      k := k + 1;
    }
    assert instances[..k] == instances;
    if Different(instances) {
      ExpandByWeight(instances);
    }
  }

  /** What the shuffle leaves is a list by weight as well. */
  lemma ShuffleKeepsWeights(instances: seq<Instance>, gens: seq<Instance>, shuffled: seq<Instance>)
    requires ByWeight(instances, gens) && multiset(shuffled) == multiset(gens)
    ensures ByWeight(instances, shuffled)
  {
    assert |shuffled| == |multiset(shuffled)|;
    assert |gens| == |multiset(gens)|;
  }

  datatype Draw = Draw(instance: Instance, sender: Account, receiver: Account)

  /** The rolls of one iteration against newAccountRate: the account minted for its sender and for its receiver, if any. */
  datatype Roll = Roll(sender: Option<Account>, receiver: Option<Account>)

  const NO_MINTING: nat -> Roll := _ => Roll(None, None)

  /** Iteration i has a pool to draw from, with accounts in it unless both of its accounts are minted. */
  predicate Supplied(gens: seq<Instance>, pools: seq<seq<Account>>, rolls: nat -> Roll, i: nat) {
    && gens != []
    && gens[i % |gens|].pool < |pools|
    && (rolls(i).sender == None || rolls(i).receiver == None ==> pools[gens[i % |gens|].pool] != [])
  }

  ghost predicate AllSupplied(gens: seq<Instance>, pools: seq<seq<Account>>, rolls: nat -> Roll, n: nat) {
    gens != [] && forall i | 0 <= i < n :: Supplied(gens, pools, rolls, i)
  }

  function Taken(minted: Option<Account>): nat {
    if minted == None then 1 else 0
  }

  /** How many accounts a pool has handed out in the first i iterations. */
  function Used(gens: seq<Instance>, rolls: nat -> Roll, pool: nat, i: nat): nat
    requires gens != []
  {
    if i == 0 then 0
    else Used(gens, rolls, pool, i - 1)
         + if gens[(i - 1) % |gens|].pool == pool then Taken(rolls(i - 1).sender) + Taken(rolls(i - 1).receiver) else 0
  }

  function Pick(minted: Option<Account>, accounts: seq<Account>, used: nat): Account
    requires minted == None ==> accounts != []
  {
    if minted.Some? then minted.value else accounts[(used + 1) % |accounts|]
  }

  /** What the loop's iteration i works on: the instance whose turn it is, and the next two accounts of its pool. */
  function DrawAt(gens: seq<Instance>, pools: seq<seq<Account>>, rolls: nat -> Roll, i: nat): Draw
    requires Supplied(gens, pools, rolls, i)
  {
    var g := gens[i % |gens|];
    var accounts, used := pools[g.pool], Used(gens, rolls, g.pool, i);
    Draw(g, Pick(rolls(i).sender, accounts, used), Pick(rolls(i).receiver, accounts, used + Taken(rolls(i).sender)))
  }

  ghost function Draws(gens: seq<Instance>, pools: seq<seq<Account>>, rolls: nat -> Roll, n: nat): seq<Draw>
    requires AllSupplied(gens, pools, rolls, n)
  {
    if n == 0 then [] else Draws(gens, pools, rolls, n - 1) + [DrawAt(gens, pools, rolls, n - 1)]
  }

  function AccountsOf(pools: seq<AccountPool>): seq<seq<Account>> {
    seq(|pools|, p requires 0 <= p < |pools| => pools[p].accounts)
  }

  ghost predicate Stands(pool: AccountPool, used: nat)
    reads pool
  {
    pool.accounts != [] ==> pool.idx == used % |pool.accounts|
  }

  /** Every cursor stands where the accounts its pool has handed out leave it. */
  ghost predicate CursorsAt(pools: seq<AccountPool>, gens: seq<Instance>, rolls: nat -> Roll, i: nat)
    requires gens != []
    reads pools
  {
    forall p | 0 <= p < |pools| :: Stands(pools[p], Used(gens, rolls, p, i))
  }

  ghost predicate DistinctPools(pools: seq<AccountPool>) {
    forall p, q | 0 <= p < q < |pools| :: pools[p] != pools[q]
  }

  /** One iteration's two draws from its pool. */
  method DrawTwo(pool: AccountPool, roll: Roll, ghost used: nat) returns (sender: Account, receiver: Account)
    requires Stands(pool, used) && (roll.sender == None || roll.receiver == None ==> pool.accounts != [])
    modifies pool
    ensures sender == Pick(roll.sender, pool.accounts, used)
    ensures receiver == Pick(roll.receiver, pool.accounts, used + Taken(roll.sender))
    ensures Stands(pool, used + Taken(roll.sender) + Taken(roll.receiver))
  {
    if pool.accounts != [] {
      Steps(used, |pool.accounts|);
      Steps(used + Taken(roll.sender), |pool.accounts|);
    }
    sender := pool.NextAccount(roll.sender);
    receiver := pool.NextAccount(roll.receiver);
  }

  /** One iteration of the loop, on the pool of the instance whose turn it is. */
  method Iterate(gens: seq<Instance>, pools: seq<AccountPool>, roll: Roll, ghost rolls: nat -> Roll, i: nat) returns (draw: Draw)
    requires Supplied(gens, AccountsOf(pools), rolls, i) && roll == rolls(i)
    requires DistinctPools(pools) && CursorsAt(pools, gens, rolls, i)
    modifies pools
    ensures CursorsAt(pools, gens, rolls, i + 1)
    ensures draw == DrawAt(gens, AccountsOf(pools), rolls, i)
  {
    var g := gens[i % |gens|];
    assert AccountsOf(pools)[g.pool] == pools[g.pool].accounts;
    assert Stands(pools[g.pool], Used(gens, rolls, g.pool, i));
    var sender, receiver := DrawTwo(pools[g.pool], roll, Used(gens, rolls, g.pool, i));
    forall p | 0 <= p < |pools| ensures Stands(pools[p], Used(gens, rolls, p, i + 1)) {
      if p != g.pool {
        assert old(Stands(pools[p], Used(gens, rolls, p, i)));      // its cursor did not move
      }
    }
    return Draw(g, sender, receiver);
  }

  /** The generator's loop up to building each transaction, from new pools; the context ends it after n iterations. */
  method Run(gens: seq<Instance>, pools: seq<AccountPool>, rolls: nat -> Roll, n: nat) returns (draws: seq<Draw>)
    requires AllSupplied(gens, AccountsOf(pools), rolls, n) && forall p | 0 <= p < |pools| :: pools[p].idx == 0
    requires DistinctPools(pools)
    modifies pools
    ensures draws == Draws(gens, AccountsOf(pools), rolls, n)
  {
    draws := [];
    var counter := 0;
    NewCursors(pools, gens, rolls);
    while counter < n
      invariant 0 <= counter <= n && CursorsAt(pools, gens, rolls, counter)
      invariant draws == Draws(gens, AccountsOf(pools), rolls, counter)
    {
      var draw := Iterate(gens, pools, rolls(counter), rolls, counter);
      draws := draws + [draw];
      counter := counter + 1;
    }
  }

  lemma NewCursors(pools: seq<AccountPool>, gens: seq<Instance>, rolls: nat -> Roll)
    requires gens != [] && forall p | 0 <= p < |pools| :: pools[p].idx == 0
    ensures CursorsAt(pools, gens, rolls, 0)
  {
    forall p | 0 <= p < |pools| ensures Stands(pools[p], Used(gens, rolls, p, 0)) {
      if pools[p].accounts != [] {
        Remainder(0, |pools[p].accounts|, 0, 0);
      }
    }
  }

  // ---------- Senders and receivers ----------

  /** Without minting, and with at least two accounts in the pool, all different, no transaction goes to its own sender. */
  lemma SenderIsNotReceiver(gens: seq<Instance>, pools: seq<seq<Account>>, rolls: nat -> Roll, i: nat)
    requires Supplied(gens, pools, rolls, i) && rolls(i) == Roll(None, None)
    requires var accounts := pools[gens[i % |gens|].pool];
             |accounts| >= 2 && forall j, k | 0 <= j < k < |accounts| :: accounts[j] != accounts[k]
    ensures DrawAt(gens, pools, rolls, i).sender != DrawAt(gens, pools, rolls, i).receiver
  {
    var g := gens[i % |gens|];
    NeighboursDiffer(Used(gens, rolls, g.pool, i) + 1, |pools[g.pool]|);
  }

  /** Minted accounts are used as they come, and an iteration that mints both leaves its pool's turn where it is. */
  lemma MintedAreUsed(gens: seq<Instance>, pools: seq<seq<Account>>, rolls: nat -> Roll, i: nat, pool: nat)
    requires Supplied(gens, pools, rolls, i)
    ensures rolls(i).sender.Some? ==> DrawAt(gens, pools, rolls, i).sender == rolls(i).sender.value
    ensures rolls(i).receiver.Some? ==> DrawAt(gens, pools, rolls, i).receiver == rolls(i).receiver.value
    ensures rolls(i).sender == None ==> DrawAt(gens, pools, rolls, i).sender in pools[gens[i % |gens|].pool]
    ensures rolls(i).receiver == None ==> DrawAt(gens, pools, rolls, i).receiver in pools[gens[i % |gens|].pool]
    ensures rolls(i).sender.Some? && rolls(i).receiver.Some? ==> Used(gens, rolls, pool, i + 1) == Used(gens, rolls, pool, i)
    ensures gens[i % |gens|].pool != pool ==> Used(gens, rolls, pool, i + 1) == Used(gens, rolls, pool, i)
  {
  }

  lemma {:induction false} UsedOnePool(gens: seq<Instance>, i: nat)
    requires gens != [] && forall k | 0 <= k < |gens| :: gens[k].pool == 0
    ensures Used(gens, NO_MINTING, 0, i) == 2 * i
  {
    if i > 0 {
      UsedOnePool(gens, i - 1);
    }
  }

  /** One pool that mints nothing is walked through two accounts at a time. */
  lemma OnePoolDraws(gens: seq<Instance>, accounts: seq<Account>, i: nat)
    requires gens != [] && accounts != [] && forall k | 0 <= k < |gens| :: gens[k].pool == 0
    ensures DrawAt(gens, [accounts], NO_MINTING, i) ==
            Draw(gens[i % |gens|], accounts[Sender(i, |accounts|)], accounts[Receiver(i, |accounts|)])
  {
    UsedOnePool(gens, i);
  }

  // ---------- Any L consecutive iterations honour the weights exactly ----------

  function Picks(gens: seq<Instance>, from: nat, n: nat, inst: Instance): nat
    requires gens != []
  {
    if n == 0 then 0
    else Picks(gens, from, n - 1, inst) + if gens[(from + n - 1) % |gens|] == inst then 1 else 0
  }

  lemma {:induction false} PicksShift(gens: seq<Instance>, from: nat, n: nat, inst: Instance)
    requires gens != []
    ensures Picks(gens, from + 1, n, inst) + (if gens[from % |gens|] == inst then 1 else 0)
            == Picks(gens, from, n, inst) + if gens[(from + n) % |gens|] == inst then 1 else 0
  {
    if n > 0 {
      PicksShift(gens, from, n - 1, inst);
      assert from + 1 + n - 1 == from + n;
    }
  }

  lemma {:induction false} PicksPrefix(gens: seq<Instance>, n: nat, inst: Instance)
    requires gens != [] && n <= |gens|
    ensures Picks(gens, 0, n, inst) == multiset(gens[..n])[inst]
  {
    if n > 0 {
      PicksPrefix(gens, n - 1, inst);
      Remainder(n - 1, |gens|, 0, n - 1);
      assert gens[..n] == gens[..n - 1] + [gens[n - 1]];
    }
  }

  lemma {:induction false} WindowCounts(gens: seq<Instance>, from: nat, inst: Instance)
    requires gens != []
    ensures Picks(gens, from, |gens|, inst) == multiset(gens)[inst]
  {
    if from == 0 {
      PicksPrefix(gens, |gens|, inst);
      assert gens[..|gens|] == gens;
    } else {
      WindowCounts(gens, from - 1, inst);
      PicksShift(gens, from - 1, |gens|, inst);
      OneTurn(from - 1, |gens|);
    }
  }

  lemma OneTurn(x: nat, n: nat)
    requires n > 0
    ensures (x + n) % n == x % n
  {
    var q := x / n;
    assert x == q * n + x % n && (q + 1) * n == q * n + n;
    Remainder(x + n, n, q + 1, x % n);
  }

  /**
   Whatever the shuffle did, every window of as many iterations as the positive weights add up to picks
   each instance exactly its weight's number of times.
   */
  lemma WindowHonoursWeights(instances: seq<Instance>, gens: seq<Instance>, from: nat, inst: Instance)
    requires ByWeight(instances, gens) && gens != []
    ensures Picks(gens, from, TotalWeight(instances), inst) == if inst in instances && inst.weight > 0 then inst.weight else 0
  {
    WindowCounts(gens, from, inst);
  }

  function CountOf(draws: seq<Draw>, inst: Instance): nat {
    if draws == [] then 0
    else CountOf(draws[..|draws| - 1], inst) + if draws[|draws| - 1].instance == inst then 1 else 0
  }

  lemma {:induction false} DrawsAre(gens: seq<Instance>, pools: seq<seq<Account>>, rolls: nat -> Roll, n: nat)
    requires AllSupplied(gens, pools, rolls, n)
    ensures |Draws(gens, pools, rolls, n)| == n
    ensures forall i | 0 <= i < n :: Draws(gens, pools, rolls, n)[i].instance == gens[i % |gens|]
  {
    if n > 0 {
      DrawsAre(gens, pools, rolls, n - 1);
    }
  }

  // ---------- Every pool goes round ----------

  function Own(minted: Option<Account>, drawn: Account): seq<Account> {
    if minted == None then [drawn] else []
  }

  /** The pool's own accounts in one transaction. */
  function OwnOf(draw: Draw, roll: Roll, pool: nat): seq<Account> {
    if draw.instance.pool == pool then Own(roll.sender, draw.sender) + Own(roll.receiver, draw.receiver) else []
  }

  /** The pool's own accounts among those of the first n transactions, in the order in which they are drawn. */
  ghost function HandedOut(gens: seq<Instance>, pools: seq<seq<Account>>, rolls: nat -> Roll, n: nat, pool: nat): seq<Account>
    requires AllSupplied(gens, pools, rolls, n)
  {
    if n == 0 then []
    else HandedOut(gens, pools, rolls, n - 1, pool) + OwnOf(DrawAt(gens, pools, rolls, n - 1), rolls(n - 1), pool)
  }

  /** The accounts in turn, from the second one on. */
  ghost predicate InRotation(handed: seq<Account>, accounts: seq<Account>)
    requires accounts != []
  {
    forall k | 0 <= k < |handed| :: handed[k] == accounts[(k + 1) % |accounts|]
  }

  lemma OneMore(handed: seq<Account>, accounts: seq<Account>, minted: Option<Account>)
    requires accounts != [] && InRotation(handed, accounts)
    ensures var own := Own(minted, Pick(minted, accounts, |handed|));
            |own| == Taken(minted) && InRotation(handed + own, accounts)
  {
  }

  /** Both accounts of an iteration on the pool. */
  lemma TwoMore(handed: seq<Account>, accounts: seq<Account>, roll: Roll)
    requires accounts != [] && InRotation(handed, accounts)
    ensures var own := Own(roll.sender, Pick(roll.sender, accounts, |handed|))
                       + Own(roll.receiver, Pick(roll.receiver, accounts, |handed| + Taken(roll.sender)));
            |own| == Taken(roll.sender) + Taken(roll.receiver) && InRotation(handed + own, accounts)
  {
    var first := Own(roll.sender, Pick(roll.sender, accounts, |handed|));
    OneMore(handed, accounts, roll.sender);
    OneMore(handed + first, accounts, roll.receiver);
    var second := Own(roll.receiver, Pick(roll.receiver, accounts, |handed| + Taken(roll.sender)));
    assert handed + first + second == handed + (first + second);
  }

  /** So far the pool has handed out as many accounts as were used, in turn. */
  ghost predicate Rotated(handed: seq<Account>, accounts: seq<Account>, used: nat)
    requires accounts != []
  {
    |handed| == used && InRotation(handed, accounts)
  }

  lemma RotatesOn(gens: seq<Instance>, pools: seq<seq<Account>>, rolls: nat -> Roll, i: nat, pool: nat, handed: seq<Account>)
    requires Supplied(gens, pools, rolls, i) && pool < |pools| && pools[pool] != []
    requires Rotated(handed, pools[pool], Used(gens, rolls, pool, i))
    ensures Rotated(handed + OwnOf(DrawAt(gens, pools, rolls, i), rolls(i), pool), pools[pool], Used(gens, rolls, pool, i + 1))
  {
    if gens[i % |gens|].pool == pool {
      TwoMore(handed, pools[pool], rolls(i));
    } else {
      assert handed + [] == handed;
    }
  }

  /** Whatever is minted, and whatever other pools hand out in between, a pool hands out its accounts in rotation. */
  lemma {:induction false} PoolRotates(gens: seq<Instance>, pools: seq<seq<Account>>, rolls: nat -> Roll, n: nat, pool: nat)
    requires AllSupplied(gens, pools, rolls, n) && pool < |pools| && pools[pool] != []
    ensures Rotated(HandedOut(gens, pools, rolls, n, pool), pools[pool], Used(gens, rolls, pool, n))
  {
    if n > 0 {
      PoolRotates(gens, pools, rolls, n - 1, pool);
      RotatesOn(gens, pools, rolls, n - 1, pool, HandedOut(gens, pools, rolls, n - 1, pool));
    }
  }

  lemma {:induction false} WindowOfDraws(gens: seq<Instance>, draws: seq<Draw>, from: nat, len: nat, inst: Instance)
    requires gens != [] && from + len <= |draws|
    requires forall i | 0 <= i < |draws| :: draws[i].instance == gens[i % |gens|]
    ensures CountOf(draws[from..from + len], inst) == Picks(gens, from, len, inst)
  {
    if len > 0 {
      WindowOfDraws(gens, draws, from, len - 1, inst);
      assert draws[from..from + len] == draws[from..from + len - 1] + [draws[from + len - 1]];
    }
  }

  /** The same of what a run of the loop produces: any window of its transactions honours the weights. */
  lemma RunHonoursWeights(instances: seq<Instance>, gens: seq<Instance>, pools: seq<seq<Account>>, rolls: nat -> Roll,
                          n: nat, from: nat, inst: Instance)
    requires ByWeight(instances, gens) && AllSupplied(gens, pools, rolls, n) && from + TotalWeight(instances) <= n
    ensures |Draws(gens, pools, rolls, n)| == n
    ensures CountOf(Draws(gens, pools, rolls, n)[from..from + TotalWeight(instances)], inst)
            == if inst in instances && inst.weight > 0 then inst.weight else 0
  {
    WindowOfRun(gens, pools, rolls, n, from, TotalWeight(instances), inst);
    WindowHonoursWeights(instances, gens, from, inst);
  }

  lemma WindowOfRun(gens: seq<Instance>, pools: seq<seq<Account>>, rolls: nat -> Roll, n: nat,
                    from: nat, len: nat, inst: Instance)
    requires AllSupplied(gens, pools, rolls, n) && from + len <= n
    ensures |Draws(gens, pools, rolls, n)| == n
    ensures CountOf(Draws(gens, pools, rolls, n)[from..from + len], inst) == Picks(gens, from, len, inst)
  {
    DrawsAre(gens, pools, rolls, n);
    WindowOfDraws(gens, Draws(gens, pools, rolls, n), from, len, inst);
  }
}
