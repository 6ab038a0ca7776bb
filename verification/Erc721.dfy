/** The ERC-721 load contract as values. A mapping's missing key reads as zero; address 0 is no account. */
module Erc721Spec {
  import opened LoadTypes

  const MAX_UINT256 := 0xFFFF_FFFF_FFFF_FFFF_FFFF_FFFF_FFFF_FFFF_FFFF_FFFF_FFFF_FFFF_FFFF_FFFF_FFFF_FFFF

  type TokenId = nat

  datatype Token = Token(
    ownerOf: map<TokenId, Address>, balanceOf: map<Address, int>,
    approvals: map<TokenId, Address>, operators: map<(Address, Address), bool>)

  const DEPLOYED := Token(map[], map[], map[], map[])

  function OwnerOf(s: Token, id: TokenId): Address {
    if id in s.ownerOf then s.ownerOf[id] else 0
  }

  function BalanceOf(s: Token, a: Address): int {
    if a in s.balanceOf then s.balanceOf[a] else 0
  }

  function Approved(s: Token, id: TokenId): Address {
    if id in s.approvals then s.approvals[id] else 0
  }

  predicate IsOperator(s: Token, owner: Address, operator: Address) {
    (owner, operator) in s.operators && s.operators[(owner, operator)]
  }

  datatype Call =
    | SetApprovalForAll(sender: Address, operator: Address, approved: bool)
    | Approve(sender: Address, spender: Address, id: TokenId)
    | TransferFrom(sender: Address, from: Address, to: Address, id: TokenId)
    | Mint(sender: Address, to: Address, id: TokenId)
    | Burn(sender: Address, id: TokenId)

  predicate MayApprove(s: Token, sender: Address, id: TokenId) {
    sender == OwnerOf(s, id) || IsOperator(s, OwnerOf(s, id), sender)
  }

  predicate MaySpend(s: Token, owner: Address, spender: Address, id: TokenId) {
    spender == owner || IsOperator(s, owner, spender) || spender == Approved(s, id)
  }

  function Credit(balances: map<Address, int>, a: Address, amount: int): map<Address, int> {
    balances[a := (if a in balances then balances[a] else 0) + amount]
  }

  /** The call's effect, or None when it reverts: a failed require, or checked arithmetic out of range. */
  function Execute(s: Token, c: Call): Option<Token> {
    match c
    case SetApprovalForAll(sender, operator, approved) =>
      Some(s.(operators := s.operators[(sender, operator) := approved]))
    case Approve(sender, spender, id) =>
      if MayApprove(s, sender, id) then Some(s.(approvals := s.approvals[id := spender])) else None
    case TransferFrom(sender, from, to, id) =>
      if from != OwnerOf(s, id) || to == 0 || !MaySpend(s, from, sender, id) then None
      else if BalanceOf(s, from) == 0 then None
      else
        var debited := Credit(s.balanceOf, from, -1);
        if (if to in debited then debited[to] else 0) == MAX_UINT256 then None
        else Some(s.(balanceOf := Credit(debited, to, 1), ownerOf := s.ownerOf[id := to], approvals := s.approvals - {id}))
    case Mint(_, to, id) =>
      if to == 0 || BalanceOf(s, to) == MAX_UINT256 then None
      else Some(s.(balanceOf := Credit(s.balanceOf, to, 1), ownerOf := s.ownerOf[id := to]))
    case Burn(sender, id) =>
      if sender != OwnerOf(s, id) || OwnerOf(s, id) == 0 || BalanceOf(s, OwnerOf(s, id)) == 0 then None
      else Some(s.(balanceOf := Credit(s.balanceOf, OwnerOf(s, id), -1),
                   ownerOf := s.ownerOf - {id}, approvals := s.approvals - {id}))
  }

  /** A reverted call leaves the state as it was. */
  function After(s: Token, c: Call): Token {
    if Execute(s, c).Some? then Execute(s, c).value else s
  }

  function Run(calls: seq<Call>): Token {
    if calls == [] then DEPLOYED else After(Run(calls[..|calls| - 1]), calls[|calls| - 1])
  }
}

/** The contract object: storage changed in place; `ok` is false when the call reverts. */
module Erc721Contract {
  import opened LoadTypes
  import opened Erc721Spec

  class ERC721 {
    var ownerOf: map<TokenId, Address>
    var balanceOf: map<Address, int>
    var approvals: map<TokenId, Address>
    var operators: map<(Address, Address), bool>

    ghost function State(): Token
      reads this
    {
      Token(ownerOf, balanceOf, approvals, operators)
    }

    constructor ()
      ensures State() == DEPLOYED
    {
      ownerOf, balanceOf, approvals, operators := map[], map[], map[], map[];
    }

    method SetApprovalForAll(sender: Address, operator: Address, approved: bool)
      modifies this
      ensures State() == After(old(State()), Call.SetApprovalForAll(sender, operator, approved))
    {
      operators := operators[(sender, operator) := approved];
    }

    method Approve(sender: Address, spender: Address, id: TokenId) returns (ok: bool)
      modifies this
      ensures State() == After(old(State()), Call.Approve(sender, spender, id))
      ensures ok <==> Execute(old(State()), Call.Approve(sender, spender, id)).Some?
    {
      var owner := if id in ownerOf then ownerOf[id] else 0;
      if !(sender == owner || ((owner, sender) in operators && operators[(owner, sender)])) {
        return false;
      }
      approvals := approvals[id := spender];
      return true;
    }

    method TransferFrom(sender: Address, from: Address, to: Address, id: TokenId) returns (ok: bool)
      modifies this
      ensures State() == After(old(State()), Call.TransferFrom(sender, from, to, id))
      ensures ok <==> Execute(old(State()), Call.TransferFrom(sender, from, to, id)).Some?
    {
      if from != (if id in ownerOf then ownerOf[id] else 0) || to == 0 {
        return false;
      }
      var spends := sender == from || ((from, sender) in operators && operators[(from, sender)])
                    || sender == (if id in approvals then approvals[id] else 0);
      if !spends || (if from in balanceOf then balanceOf[from] else 0) == 0 {
        return false;
      }
      var before := balanceOf;
      balanceOf := Credit(balanceOf, from, -1);
      if (if to in balanceOf then balanceOf[to] else 0) == MAX_UINT256 {
        balanceOf := before;       // the transaction's changes are rolled back
        return false;
      }
      balanceOf := Credit(balanceOf, to, 1);
      ownerOf := ownerOf[id := to];
      approvals := approvals - {id};
      return true;
    }

    method Mint(sender: Address, to: Address, id: TokenId) returns (ok: bool)
      modifies this
      ensures State() == After(old(State()), Call.Mint(sender, to, id))
      ensures ok <==> Execute(old(State()), Call.Mint(sender, to, id)).Some?
    {
      if to == 0 || (if to in balanceOf then balanceOf[to] else 0) == MAX_UINT256 {
        return false;
      }
      balanceOf := Credit(balanceOf, to, 1);
      ownerOf := ownerOf[id := to];
      return true;
    }

    method Burn(sender: Address, id: TokenId) returns (ok: bool)
      modifies this
      ensures State() == After(old(State()), Call.Burn(sender, id))
      ensures ok <==> Execute(old(State()), Call.Burn(sender, id)).Some?
    {
      var owner := if id in ownerOf then ownerOf[id] else 0;
      if sender != owner || owner == 0 || (if owner in balanceOf then balanceOf[owner] else 0) == 0 {
        return false;
      }
      balanceOf := Credit(balanceOf, owner, -1);
      ownerOf := ownerOf - {id};
      approvals := approvals - {id};
      return true;
    }
  }
}

/** Laws of every run of calls by non-zero callers, in which tokens may be minted again while owned. */
module Erc721Laws {
  import opened LoadTypes
  import opened Erc721Spec
  import MapSum
  import opened SetSize

  ghost function Owned(s: Token, a: Address): set<TokenId> {
    set id | id in s.ownerOf && s.ownerOf[id] == a
  }

  /** A mint of a token that account `a` owns, which takes it from a without touching a's balance. */
  function Displaces(s: Token, c: Call, a: Address): nat {
    if c.Mint? && Execute(s, c).Some? && c.id in s.ownerOf && s.ownerOf[c.id] == a then 1 else 0
  }

  function Displaced(calls: seq<Call>, a: Address): nat {
    if calls == [] then 0
    else Displaced(calls[..|calls| - 1], a) + Displaces(Run(calls[..|calls| - 1]), calls[|calls| - 1], a)
  }

  function Reminted(calls: seq<Call>): nat {
    if calls == [] then 0
    else
      var s, c := Run(calls[..|calls| - 1]), calls[|calls| - 1];
      Reminted(calls[..|calls| - 1]) + if c.Mint? && Execute(s, c).Some? && c.id in s.ownerOf then 1 else 0
  }

  /** Address 0 owns nothing and has no operator; only owned tokens have an approval. */
  ghost predicate Wellformed(s: Token) {
    && (forall id | id in s.ownerOf :: s.ownerOf[id] != 0)
    && (forall x :: !IsOperator(s, 0, x))
    && (forall id | Approved(s, id) != 0 :: id in s.ownerOf)
  }

  lemma StepWellformed(s: Token, c: Call)
    requires Wellformed(s) && c.sender != 0
    ensures Wellformed(After(s, c))
  {
    if c.Approve? && MayApprove(s, c.sender, c.id) {
      assert c.id in s.ownerOf;
    }
    assert forall x :: !IsOperator(After(s, c), 0, x) by {
      forall x ensures !IsOperator(After(s, c), 0, x) {
        assert !IsOperator(s, 0, x);
      }
    }
  }

  /** One token changing hands changes what each account owns by that token. */
  lemma OwnedAfter(s: Token, s': Token, id: TokenId, a: Address)
    requires forall x | x != id :: x in Owned(s, a) <==> x in Owned(s', a)
    ensures |Owned(s', a)| == |Owned(s, a)| - One(id in Owned(s, a)) + One(id in Owned(s', a))
  {
    Recount(Owned(s, a), Owned(s', a), id);
  }

  /** A balance and the owned tokens move together, except that minting an owned token leaves its owner's balance. */
  lemma StepSurplus(s: Token, c: Call, a: Address)
    requires Wellformed(s) && c.sender != 0 && a != 0
    ensures BalanceOf(After(s, c), a) - |Owned(After(s, c), a)|
            == BalanceOf(s, a) - |Owned(s, a)| + Displaces(s, c, a)
  {
    var s' := After(s, c);
    match c
    case TransferFrom(sender, from, to, id) =>
      OwnedAfter(s, s', id, a);
      if Execute(s, c).Some? {
        TransferOwned(s, c);
      }
    case Mint(_, to, id) => OwnedAfter(s, s', id, a);
    case Burn(_, id) => OwnedAfter(s, s', id, a);
    case _ => assert s'.ownerOf == s.ownerOf; assert Owned(s', a) == Owned(s, a);
  }

  lemma SpendOwned(s: Token, spender: Address, id: TokenId)
    requires Wellformed(s) && spender != 0 && MaySpend(s, OwnerOf(s, id), spender, id)
    ensures id in s.ownerOf
  {
    assert !IsOperator(s, 0, spender);
  }

  /** A transfer that goes through is of an owned token: nobody may spend an unowned one. */
  lemma TransferOwned(s: Token, c: Call)
    requires Wellformed(s) && c.TransferFrom? && c.sender != 0 && Execute(s, c).Some?
    ensures c.id in s.ownerOf && c.from == s.ownerOf[c.id] != 0
  {
    SpendOwned(s, c.sender, c.id);
  }

  lemma {:induction false} RunWellformed(calls: seq<Call>)
    requires forall c | c in calls :: c.sender != 0
    ensures Wellformed(Run(calls))
  {
    if calls != [] {
      RunWellformed(calls[..|calls| - 1]);
      StepWellformed(Run(calls[..|calls| - 1]), calls[|calls| - 1]);
    }
  }

  /**
   The surplus law of every account, in every reachable state: its balance is the number of
   tokens it owns plus the number of tokens that were minted away from it.
   */
  lemma {:induction false} AccountSurplus(calls: seq<Call>, a: Address)
    requires (forall c | c in calls :: c.sender != 0) && a != 0
    ensures BalanceOf(Run(calls), a) == |Owned(Run(calls), a)| + Displaced(calls, a)
  {
    if calls == [] {
      assert Owned(DEPLOYED, a) == {};
    } else {
      var before := calls[..|calls| - 1];
      AccountSurplus(before, a);
      RunWellformed(before);
      StepSurplus(Run(before), calls[|calls| - 1], a);
    }
  }

  lemma SumCredit(balances: map<Address, int>, a: Address, amount: int)
    ensures MapSum.Sum(Credit(balances, a, amount)) == MapSum.Sum(balances) + amount
  {
    MapSum.Update(balances, a, MapSum.At(balances, a) + amount);
  }

  /** The total surplus law: the balances add up to the owned tokens plus the mints of owned tokens. */
  lemma {:induction false} TotalSurplus(calls: seq<Call>)
    requires forall c | c in calls :: c.sender != 0
    ensures MapSum.Sum(Run(calls).balanceOf) == |Run(calls).ownerOf.Keys| + Reminted(calls)
  {
    if calls != [] {
      var before, c := calls[..|calls| - 1], calls[|calls| - 1];
      TotalSurplus(before);
      RunWellformed(before);
      StepTotal(Run(before), c);
    }
  }

  lemma TransferTotal(s: Token, c: Call)
    requires Wellformed(s) && c.sender != 0 && c.TransferFrom? && Execute(s, c).Some?
    ensures MapSum.Sum(After(s, c).balanceOf) == MapSum.Sum(s.balanceOf) && After(s, c).ownerOf.Keys == s.ownerOf.Keys
  {
    TransferOwned(s, c);
    SumCredit(s.balanceOf, c.from, -1);
    SumCredit(Credit(s.balanceOf, c.from, -1), c.to, 1);
  }

  lemma MintTotal(s: Token, c: Call)
    requires c.Mint? && Execute(s, c).Some?
    ensures MapSum.Sum(After(s, c).balanceOf) == MapSum.Sum(s.balanceOf) + 1
    ensures After(s, c).ownerOf.Keys == s.ownerOf.Keys + {c.id}
  {
    SumCredit(s.balanceOf, c.to, 1);
  }

  lemma BurnTotal(s: Token, c: Call)
    requires c.Burn? && Execute(s, c).Some?
    ensures MapSum.Sum(After(s, c).balanceOf) == MapSum.Sum(s.balanceOf) - 1
    ensures c.id in s.ownerOf && After(s, c).ownerOf.Keys == s.ownerOf.Keys - {c.id}
  {
    SumCredit(s.balanceOf, s.ownerOf[c.id], -1);
  }

  lemma StepTotal(s: Token, c: Call)
    requires Wellformed(s) && c.sender != 0
    ensures MapSum.Sum(After(s, c).balanceOf) - |After(s, c).ownerOf.Keys|
            == MapSum.Sum(s.balanceOf) - |s.ownerOf.Keys| + One(c.Mint? && Execute(s, c).Some? && c.id in s.ownerOf)
  {
    if Execute(s, c).Some? {
      if c.TransferFrom? {
        TransferTotal(s, c);
      } else if c.Mint? {
        MintTotal(s, c);
        Recount(s.ownerOf.Keys, After(s, c).ownerOf.Keys, c.id);
      } else if c.Burn? {
        BurnTotal(s, c);
        Recount(s.ownerOf.Keys, After(s, c).ownerOf.Keys, c.id);
      }
    }
  }

  // ---------- When calls revert ----------

  /** The checked decrements never underflow: a transfer reverts exactly for one of its three requires, or a full balance. */
  lemma TransferReverts(calls: seq<Call>, c: Call)
    requires (forall x | x in calls :: x.sender != 0) && c.TransferFrom? && c.sender != 0
    ensures var s := Run(calls);
            Execute(s, c) == None <==>
              c.from != OwnerOf(s, c.id) || c.to == 0 || !MaySpend(s, c.from, c.sender, c.id)
              || (BalanceOf(s, c.to) == MAX_UINT256 && c.to != c.from)
  {
    var s := Run(calls);
    RunWellformed(calls);
    if c.from == OwnerOf(s, c.id) && MaySpend(s, c.from, c.sender, c.id) {
      SpendOwned(s, c.sender, c.id);
      AccountSurplus(calls, c.from);
      assert c.id in Owned(s, c.from);
      assert |Owned(s, c.from)| > 0;
      if c.to == c.from {
        BalanceFits(calls, c.from);
      }
    }
  }

  lemma {:induction false} BalanceFits(calls: seq<Call>, a: Address)
    ensures BalanceOf(Run(calls), a) <= MAX_UINT256
  {
    if calls != [] {
      BalanceFits(calls[..|calls| - 1], a);
      StepFits(Run(calls[..|calls| - 1]), calls[|calls| - 1], a);
    }
  }

  lemma StepFits(s: Token, c: Call, a: Address)
    requires BalanceOf(s, a) <= MAX_UINT256
    ensures BalanceOf(After(s, c), a) <= MAX_UINT256
  {
  }

  lemma BurnReverts(calls: seq<Call>, c: Call)
    requires (forall x | x in calls :: x.sender != 0) && c.Burn? && c.sender != 0
    ensures Execute(Run(calls), c) == None <==> c.sender != OwnerOf(Run(calls), c.id)
  {
    var s := Run(calls);
    RunWellformed(calls);
    if c.sender == OwnerOf(s, c.id) {
      AccountSurplus(calls, c.sender);
      assert c.id in Owned(s, c.sender);
      assert |Owned(s, c.sender)| > 0;
    }
  }

  /** Nobody can approve or move a token that nobody owns. */
  lemma UnownedIsUntouchable(calls: seq<Call>, c: Call)
    requires (forall x | x in calls :: x.sender != 0) && c.sender != 0
    requires (c.Approve? || c.TransferFrom?) && OwnerOf(Run(calls), c.id) == 0
    ensures Execute(Run(calls), c) == None
    ensures Approved(Run(calls), c.id) == 0
  {
    var s := Run(calls);
    RunWellformed(calls);
    assert !IsOperator(s, 0, c.sender);
    assert c.id !in s.ownerOf;
    assert Approved(s, c.id) == 0;
  }
}
