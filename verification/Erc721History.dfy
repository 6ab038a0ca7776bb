/**
 What the contract's storage means: owners, operators and approvals as the history of the calls
 determines them, and who may move a token.
 */
module Erc721History {
  import opened LoadTypes
  import opened Erc721Spec
  import opened Erc721Laws

  /** The call after these went through. */
  predicate Succeeds(calls: seq<Call>, c: Call) {
    Execute(Run(calls), c).Some?
  }

  /** Whom the last successful mint or transfer of the token names; nobody after a burn. */
  function LastOwner(calls: seq<Call>, id: TokenId): Address {
    if calls == [] then 0
    else
      var before, c := calls[..|calls| - 1], calls[|calls| - 1];
      if !Succeeds(before, c) then LastOwner(before, id)
      else
        match c
        case Mint(_, to, token) => if token == id then to else LastOwner(before, id)
        case TransferFrom(_, _, to, token) => if token == id then to else LastOwner(before, id)
        case Burn(_, token) => if token == id then 0 else LastOwner(before, id)
        case _ => LastOwner(before, id)
  }

  /** What the owner last said of the operator. */
  function LastSaid(calls: seq<Call>, owner: Address, operator: Address): bool {
    if calls == [] then false
    else
      var before, c := calls[..|calls| - 1], calls[|calls| - 1];
      if c.SetApprovalForAll? && c.sender == owner && c.operator == operator then c.approved
      else LastSaid(before, owner, operator)
  }

  /** Whom the last successful approval of the token names, if no transfer or burn of it came after. A mint does not count. */
  function LastApproved(calls: seq<Call>, id: TokenId): Address {
    if calls == [] then 0
    else
      var before, c := calls[..|calls| - 1], calls[|calls| - 1];
      if !Succeeds(before, c) then LastApproved(before, id)
      else
        match c
        case Approve(_, spender, token) => if token == id then spender else LastApproved(before, id)
        case TransferFrom(_, _, _, token) => if token == id then 0 else LastApproved(before, id)
        case Burn(_, token) => if token == id then 0 else LastApproved(before, id)
        case _ => LastApproved(before, id)
  }

  lemma {:induction false} OwnerIsLast(calls: seq<Call>, id: TokenId)
    ensures OwnerOf(Run(calls), id) == LastOwner(calls, id)
  {
    if calls != [] {
      OwnerIsLast(calls[..|calls| - 1], id);
    }
  }

  lemma {:induction false} OperatorIsLast(calls: seq<Call>, owner: Address, operator: Address)
    ensures IsOperator(Run(calls), owner, operator) == LastSaid(calls, owner, operator)
  {
    if calls != [] {
      OperatorIsLast(calls[..|calls| - 1], owner, operator);
    }
  }

  lemma {:induction false} ApprovedIsLast(calls: seq<Call>, id: TokenId)
    ensures Approved(Run(calls), id) == LastApproved(calls, id)
  {
    if calls != [] {
      ApprovedIsLast(calls[..|calls| - 1], id);
    }
  }

  /**
   After any calls a transfer goes through exactly when it names the last owner and a recipient that can
   take one more, and comes from the owner, from whom the owner last made an operator, or from the last
   approved. Then the recipient is the owner, and the approval is gone.
   */
  lemma TransferHistory(calls: seq<Call>, c: Call)
    requires (forall x | x in calls :: x.sender != 0) && c.TransferFrom? && c.sender != 0
    ensures Succeeds(calls, c) <==>
            && c.from == LastOwner(calls, c.id) && c.to != 0
            && (c.sender == c.from || LastSaid(calls, c.from, c.sender) || c.sender == LastApproved(calls, c.id))
            && (BalanceOf(Run(calls), c.to) < MAX_UINT256 || c.to == c.from)
    ensures Succeeds(calls, c) ==> LastOwner(calls + [c], c.id) == c.to && LastApproved(calls + [c], c.id) == 0
  {
    TransferReverts(calls, c);
    BalanceFits(calls, c.to);
    OwnerIsLast(calls, c.id);
    OperatorIsLast(calls, c.from, c.sender);
    ApprovedIsLast(calls, c.id);
    assert (calls + [c])[..|calls|] == calls;
  }

  /** An approval goes through exactly for the last owner and for whom it last made an operator. */
  lemma ApproveHistory(calls: seq<Call>, c: Call)
    requires c.Approve?
    ensures Succeeds(calls, c) <==>
            c.sender == LastOwner(calls, c.id) || LastSaid(calls, LastOwner(calls, c.id), c.sender)
    ensures Succeeds(calls, c) ==> LastApproved(calls + [c], c.id) == c.spender
  {
    OwnerIsLast(calls, c.id);
    OperatorIsLast(calls, LastOwner(calls, c.id), c.sender);
    assert (calls + [c])[..|calls|] == calls;
  }

  /** A burn goes through exactly for the last owner, and leaves the token without owner and approval. */
  lemma BurnHistory(calls: seq<Call>, c: Call)
    requires (forall x | x in calls :: x.sender != 0) && c.Burn? && c.sender != 0
    ensures Succeeds(calls, c) <==> c.sender == LastOwner(calls, c.id)
    ensures Succeeds(calls, c) ==> LastOwner(calls + [c], c.id) == 0 && LastApproved(calls + [c], c.id) == 0
  {
    BurnReverts(calls, c);
    OwnerIsLast(calls, c.id);
    assert (calls + [c])[..|calls|] == calls;
  }

  /** A mint goes through for anyone but address 0 that can take one more, owned or not, and makes it the owner. */
  lemma MintHistory(calls: seq<Call>, c: Call)
    requires c.Mint?
    ensures Succeeds(calls, c) <==> c.to != 0 && BalanceOf(Run(calls), c.to) < MAX_UINT256
    ensures Succeeds(calls, c) ==> LastOwner(calls + [c], c.id) == c.to
    ensures Succeeds(calls, c) ==> LastApproved(calls + [c], c.id) == LastApproved(calls, c.id)
    ensures Succeeds(calls, c) ==> BalanceOf(Run(calls + [c]), c.to) == BalanceOf(Run(calls), c.to) + 1
  {
    BalanceFits(calls, c.to);
    assert (calls + [c])[..|calls|] == calls;
  }

  /**
   Because a mint leaves the approval, it outlives the owner who gave it: once 1's token 5 is minted again
   to 3, the one that 1 approved takes it from 3.
   */
  lemma ApprovalOutlivesOwner()
    ensures var calls := [Mint(9, 1, 5), Approve(1, 2, 5), Mint(9, 3, 5)];
            LastOwner(calls, 5) == 3 && Succeeds(calls, TransferFrom(2, 3, 2, 5))
  {
    var minted := Run([Mint(9, 1, 5)]);
    assert [Mint(9, 1, 5)][..0] == [] && minted == After(DEPLOYED, Mint(9, 1, 5));
    assert OwnerOf(minted, 5) == 1;
    var approved := Run([Mint(9, 1, 5), Approve(1, 2, 5)]);
    assert [Mint(9, 1, 5), Approve(1, 2, 5)][..1] == [Mint(9, 1, 5)];
    assert approved == After(minted, Approve(1, 2, 5)) && Approved(approved, 5) == 2;
    var calls := [Mint(9, 1, 5), Approve(1, 2, 5), Mint(9, 3, 5)];
    assert calls[..2] == [Mint(9, 1, 5), Approve(1, 2, 5)];
    assert Run(calls) == After(approved, Mint(9, 3, 5));
    assert Approved(Run(calls), 5) == 2 && OwnerOf(Run(calls), 5) == 3 && BalanceOf(Run(calls), 3) == 1;
    OwnerIsLast(calls, 5);
  }
}
