/**
 One generator over the send protocol: it reads its sender's next nonce from the queue in one critical
 section and pushes the transaction in a later one, and anything may happen in between.
 */
module OneGenerator {
  import opened LoadTypes
  import opened SendProtocol
  import QueueSpec

  /** The transaction the generator has built and not pushed yet. */
  datatype Loaded = Loaded(sys: Sys, built: Option<Tx>)

  datatype Move =
    | Read(id: nat, sender: Account, gas: Uint64)
    | Push
    | Other(l: Step)

  predicate CanMove(s: Loaded, m: Move) {
    match m
    case Read(_, _, _) => s.built == None
    case Push => s.built.Some? && Enabled(s.sys, Generate(s.built.value))
    case Other(l) => !l.Generate? && Enabled(s.sys, l)
  }

  function After(s: Loaded, m: Move): Loaded
    requires CanMove(s, m)
  {
    match m
    case Read(id, sender, gas) => s.(built := Some(Tx(id, sender, QueueSpec.Nonce(s.sys.q, sender.address), gas)))
    case Push => Loaded(Next(s.sys, Generate(s.built.value)), None)
    case Other(l) => s.(sys := Next(s.sys, l))
  }

  function Start(capacity: int, chain: map<Address, Uint64>): Loaded {
    Loaded(Init(capacity, chain), None)
  }

  function Moves(s: Loaded, moves: seq<Move>): Option<Loaded> {
    if moves == [] then Some(s)
    else
      var before := Moves(s, moves[..|moves| - 1]);
      if before.Some? && CanMove(before.value, moves[|moves| - 1])
      then Some(After(before.value, moves[|moves| - 1])) else None
  }

  /** A push of the account that the queue drops for its nonce. */
  function Drop(s: Loaded, m: Move, a: Address): nat
    requires CanMove(s, m)
  {
    if m.Push? && s.built.value.sender.address == a && !QueueSpec.Accepts(s.sys.q, s.built.value) then 1 else 0
  }

  /** A Reset of the account, or a PopSent that drains and so forgets it. */
  function Upset(s: Loaded, m: Move, a: Address): nat
    requires CanMove(s, m)
  {
    if m.Other? && m.l.Settle? && Sender(s.sys.tasks[m.l.id]) == a
       && (s.sys.tasks[m.l.id].phase.HasNonce? || (a in s.sys.q.byAddr && a !in Next(s.sys, m.l).q.byAddr)) then 1 else 0
  }

  function Drops(s: Loaded, moves: seq<Move>, a: Address): nat
    requires Moves(s, moves).Some?
  {
    if moves == [] then 0
    else Drops(s, moves[..|moves| - 1], a) + Drop(Moves(s, moves[..|moves| - 1]).value, moves[|moves| - 1], a)
  }

  function Upsets(s: Loaded, moves: seq<Move>, a: Address): nat
    requires Moves(s, moves).Some?
  {
    if moves == [] then 0
    else Upsets(s, moves[..|moves| - 1], a) + Upset(Moves(s, moves[..|moves| - 1]).value, moves[|moves| - 1], a)
  }

  /** The built transaction is the account's, and its nonce is no longer the one the queue wants. */
  function Stale(s: Loaded, a: Address): nat {
    if s.built.Some? && s.built.value.sender.address == a && s.built.value.nonce != QueueSpec.Nonce(s.sys.q, a) then 1 else 0
  }

  /** The nonce the queue wants of an account changes only by a push, a Reset or a drain of it. */
  lemma NonceKept(s: Loaded, l: Step, a: Address)
    requires CanMove(s, Other(l)) && Upset(s, Other(l), a) == 0
    ensures QueueSpec.Nonce(Next(s.sys, l).q, a) == QueueSpec.Nonce(s.sys.q, a)
  {
  }

  /** A push is dropped exactly when it is stale, for there is room. */
  lemma DroppedIffStale(s: Loaded, a: Address)
    requires CanMove(s, Push) && s.built.value.sender.address == a
    ensures Drop(s, Push, a) == Stale(s, a)
  {
  }

  lemma MoveDrops(s: Loaded, m: Move, a: Address)
    requires CanMove(s, m)
    ensures Drop(s, m, a) + Stale(After(s, m), a) <= Stale(s, a) + Upset(s, m, a)
  {
    match m
    case Read(_, _, _) =>
    case Push =>
      if s.built.value.sender.address == a {
        DroppedIffStale(s, a);
      }
    case Other(l) =>
      if Upset(s, m, a) == 0 {
        NonceKept(s, l, a);
      }
  }

  lemma {:induction false} RunDrops(s: Loaded, moves: seq<Move>, a: Address)
    requires Moves(s, moves).Some?
    ensures Drops(s, moves, a) + Stale(Moves(s, moves).value, a) <= Stale(s, a) + Upsets(s, moves, a)
  {
    if moves != [] {
      RunDrops(s, moves[..|moves| - 1], a);
      MoveDrops(Moves(s, moves[..|moves| - 1]).value, moves[|moves| - 1], a);
    }
  }

  /**
   In every interleaving with one generator, the pushes of an account that are dropped are no more than
   its Resets and drains: each costs at most the one transaction built before it and pushed after it.
   */
  lemma DropsBounded(capacity: int, chain: map<Address, Uint64>, moves: seq<Move>, a: Address)
    requires Moves(Start(capacity, chain), moves).Some?
    ensures Drops(Start(capacity, chain), moves, a) <= Upsets(Start(capacity, chain), moves, a)
  {
    RunDrops(Start(capacity, chain), moves, a);
  }

  /** Such a run is a run of the protocol, so whatever holds of all of those holds of it. */
  lemma {:induction false} RunsProtocol(s: Loaded, moves: seq<Move>) returns (steps: seq<Step>)
    requires Moves(s, moves).Some?
    ensures Exec(s.sys, steps) == Some(Moves(s, moves).value.sys)
  {
    if moves == [] {
      steps := [];
    } else {
      var m := moves[|moves| - 1];
      steps := RunsProtocol(s, moves[..|moves| - 1]);
      var before := Moves(s, moves[..|moves| - 1]).value;
      if !m.Read? {
        var l := if m.Push? then Generate(before.built.value) else m.l;
        assert (steps + [l])[..|steps|] == steps;
        steps := steps + [l];
      }
    }
  }
}
