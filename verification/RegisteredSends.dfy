/**
 The sender and the inclusion tracker together: what the tasks register, and what follows for the
 tracker's documented laws.
 */
module RegisteredSends {
  import opened LoadTypes
  import opened SendProtocol
  import opened SetSize
  import QueueSpec
  import Tracker = InclusionConservation

  /** The transactions handed to the tracker, in order. */
  function Registered(s: Sys, steps: seq<Step>): seq<Tx>
    requires Exec(s, steps).Some?
  {
    if steps == [] then []
    else
      var before, l := steps[..|steps| - 1], steps[|steps| - 1];
      Registered(s, before) + if l.Register? then [Exec(s, before).value.tasks[l.id].tx] else []
  }

  /** The send succeeds: the chain takes the transaction, whose nonce is the one it expects, and the call says so. */
  predicate Succeeds(s: Sys, l: Step)
    requires Enabled(s, l)
  {
    l.SendRpc? && l.fault == NoFault && s.tasks[l.id].tx.nonce == ChainNonce(s, s.tasks[l.id].tx.sender.address)
  }

  /** The transactions whose send succeeded, in order. */
  function Succeeded(s: Sys, steps: seq<Step>): seq<Tx>
    requires Exec(s, steps).Some?
  {
    if steps == [] then []
    else
      var before, l := steps[..|steps| - 1], steps[|steps| - 1];
      Succeeded(s, before) + if Succeeds(Exec(s, before).value, l) then [Exec(s, before).value.tasks[l.id].tx] else []
  }

  /** No change from outside takes an account's pending nonce back. */
  predicate NeverBack(s: Sys, steps: seq<Step>)
    requires Exec(s, steps).Some?
  {
    steps != [] ==>
      var before, l := steps[..|steps| - 1], steps[|steps| - 1];
      NeverBack(s, before) && (l.External? ==> l.nonce >= ChainNonce(Exec(s, before).value, l.addr))
  }

  predicate SameNonce(t: Tx, u: Tx) {
    t.sender.address == u.sender.address && t.nonce == u.nonce
  }

  ghost predicate NonceOnce(txs: seq<Tx>) {
    forall i, j | 0 <= i < j < |txs| :: !SameNonce(txs[i], txs[j])
  }

  /** The chain is past everything registered and everything about to be, and these are all different. */
  ghost predicate RegistrationsOk(s: Sys, registered: seq<Tx>) {
    && NonceOnce(registered)
    && (forall i | 0 <= i < |registered| :: registered[i].nonce < ChainNonce(s, registered[i].sender.address))
    && (forall id | id in s.tasks && s.tasks[id].phase.Registering? ::
          && s.tasks[id].tx.nonce < ChainNonce(s, Sender(s.tasks[id]))
          && forall i | 0 <= i < |registered| :: !SameNonce(registered[i], s.tasks[id].tx))
  }

  /** A successful send takes a nonce that nothing registered has had, and moves the chain past it. */
  lemma SendRegistrations(s: Sys, l: Step, registered: seq<Tx>)
    requires SysInv(s) && Enabled(s, l) && l.SendRpc? && RegistrationsOk(s, registered)
    ensures RegistrationsOk(Next(s, l), registered)
  {
    var t, s' := s.tasks[l.id], Next(s, l);
    assert Stored(s.q, t.tx) && t.tx.nonce < s.q.byAddr[Sender(t)].nextNonce;
    forall a ensures ChainNonce(s', a) >= ChainNonce(s, a) {
    }
  }

  lemma RegisterRegistrations(s: Sys, id: nat, registered: seq<Tx>)
    requires SysInv(s) && Enabled(s, Register(id)) && RegistrationsOk(s, registered)
    ensures RegistrationsOk(Next(s, Register(id)), registered + [s.tasks[id].tx])
  {
    var tx, s' := s.tasks[id].tx, Next(s, Register(id));
    forall other | other in s'.tasks && s'.tasks[other].phase.Registering?
      ensures forall i | 0 <= i < |registered + [tx]| :: !SameNonce((registered + [tx])[i], s'.tasks[other].tx)
    {
      assert other != id && Sender(s.tasks[other]) != Sender(s.tasks[id]);
    }
  }

  lemma OtherRegistrations(s: Sys, l: Step, registered: seq<Tx>)
    requires Enabled(s, l) && RegistrationsOk(s, registered) && !l.SendRpc? && !l.Register?
    requires l.External? ==> l.nonce >= ChainNonce(s, l.addr)
    ensures RegistrationsOk(Next(s, l), registered)
  {
    var s' := Next(s, l);
    forall id | id in s'.tasks && s'.tasks[id].phase.Registering? ensures id in s.tasks && s'.tasks[id] == s.tasks[id] {
    }
    forall a ensures ChainNonce(s', a) >= ChainNonce(s, a) {
    }
  }

  lemma StepRegistrations(s: Sys, l: Step, registered: seq<Tx>)
    requires SysInv(s) && Enabled(s, l) && RegistrationsOk(s, registered)
    requires l.External? ==> l.nonce >= ChainNonce(s, l.addr)
    ensures RegistrationsOk(Next(s, l), registered + if l.Register? then [s.tasks[l.id].tx] else [])
  {
    if l.Register? {
      RegisterRegistrations(s, l.id, registered);
    } else {
      assert registered + [] == registered;
      if l.SendRpc? {
        SendRegistrations(s, l, registered);
      } else {
        OtherRegistrations(s, l, registered);
      }
    }
  }

  lemma {:induction false} RunRegistrations(capacity: int, chain: map<Address, Uint64>, steps: seq<Step>)
    requires Exec(Init(capacity, chain), steps).Some? && NeverBack(Init(capacity, chain), steps)
    ensures RegistrationsOk(Exec(Init(capacity, chain), steps).value, Registered(Init(capacity, chain), steps))
  {
    if steps != [] {
      var s0, before := Init(capacity, chain), steps[..|steps| - 1];
      RunRegistrations(capacity, chain, before);
      QueueSpec.InitInv(capacity);
      ExecInv(s0, before);
      StepRegistrations(Exec(s0, before).value, steps[|steps| - 1], Registered(s0, before));
    }
  }

  /**
   In every interleaving in which no outside change takes a nonce back, no two registrations have the
   same sender and nonce, whatever faults the chain's calls have and however often accounts are reset.
   */
  lemma RegisteredOnce(capacity: int, chain: map<Address, Uint64>, steps: seq<Step>)
    requires Exec(Init(capacity, chain), steps).Some? && NeverBack(Init(capacity, chain), steps)
    ensures NonceOnce(Registered(Init(capacity, chain), steps))
  {
    RunRegistrations(capacity, chain, steps);
  }

  // ---------- Taking a nonce back makes room for a second registration ----------

  lemma Extend(s: Sys, steps: seq<Step>, l: Step)
    requires Exec(s, steps).Some? && Enabled(Exec(s, steps).value, l)
    ensures Exec(s, steps + [l]) == Some(Next(Exec(s, steps).value, l))
    ensures Registered(s, steps + [l]) == Registered(s, steps) + if l.Register? then [Exec(s, steps).value.tasks[l.id].tx] else []
  {
    assert (steps + [l])[..|steps + [l]| - 1] == steps;
  }

  function NewChain(): Sys {
    Init(1, map[7 := 0])
  }

  function HandedOut(tx: Tx, phase: Phase, nonce: Uint64): Sys {
    Sys(QueueSpec.QState(1, map[QueueSpec.Key(7, 0) := tx], map[7 := QueueSpec.AccState(0, 1, false, false)], []),
        map[0 := Task(tx, phase)], map[7 := nonce])
  }

  function Pushed(tx: Tx): Sys {
    Sys(QueueSpec.QState(1, map[QueueSpec.Key(7, 0) := tx], map[7 := QueueSpec.AccState(0, 1, true, false)], [7]),
        map[], map[7 := 0])
  }

  predicate First(tx: Tx) {
    tx.sender == Account(7, false) && tx.nonce == 0
  }

  lemma PushSteps(tx: Tx)
    requires First(tx)
    ensures Enabled(NewChain(), Generate(tx)) && Next(NewChain(), Generate(tx)) == Pushed(tx)
    ensures Enabled(Pushed(tx), Dispatch(0)) && Next(Pushed(tx), Dispatch(0)) == HandedOut(tx, Sending, 0)
  {
    assert QueueSpec.PopReady(Pushed(tx).q).ready == [];
  }

  lemma SendSteps(tx: Tx)
    requires First(tx)
    ensures var s1, s2 := HandedOut(tx, Sending, 0), HandedOut(tx, Registering, 1);
            && Enabled(s1, SendRpc(0, NoFault)) && Next(s1, SendRpc(0, NoFault)) == s2
            && Enabled(s2, Register(0)) && Next(s2, Register(0)) == HandedOut(tx, Settling, 1) && s2.tasks[0].tx == tx
  {
    assert Next(HandedOut(tx, Sending, 0), SendRpc(0, NoFault)).chain == map[7 := 1];
    assert Next(HandedOut(tx, Sending, 0), SendRpc(0, NoFault)).tasks == map[0 := Task(tx, Registering)];
    assert Next(HandedOut(tx, Registering, 1), Register(0)).tasks == map[0 := Task(tx, Settling)];
  }

  lemma BackSteps(tx: Tx)
    requires First(tx)
    ensures var s3 := HandedOut(tx, Settling, 1);
            && Enabled(s3, Settle(0)) && Next(Next(s3, Settle(0)), External(7, 0)) == NewChain()
  {
    var s4 := Next(HandedOut(tx, Settling, 1), Settle(0));
    assert s4.q.txs == map[] && s4.q.byAddr == map[] && s4.tasks == map[];
    assert Next(s4, External(7, 0)).chain == map[7 := 0];
  }

  lemma PushAndSend(steps: seq<Step>, tx: Tx) returns (longer: seq<Step>)
    requires First(tx) && Exec(NewChain(), steps) == Some(NewChain())
    ensures Exec(NewChain(), longer) == Some(HandedOut(tx, Settling, 1))
    ensures Registered(NewChain(), longer) == Registered(NewChain(), steps) + [tx]
  {
    PushSteps(tx);
    SendSteps(tx);
    Extend(NewChain(), steps, Generate(tx));
    longer := steps + [Generate(tx)];
    Extend(NewChain(), longer, Dispatch(0));
    longer := longer + [Dispatch(0)];
    Extend(NewChain(), longer, SendRpc(0, NoFault));
    longer := longer + [SendRpc(0, NoFault)];
    Extend(NewChain(), longer, Register(0));
    longer := longer + [Register(0)];
  }

  lemma TakeBack(steps: seq<Step>, tx: Tx) returns (longer: seq<Step>)
    requires First(tx) && Exec(NewChain(), steps) == Some(HandedOut(tx, Settling, 1))
    ensures Exec(NewChain(), longer) == Some(NewChain()) && Registered(NewChain(), longer) == Registered(NewChain(), steps)
  {
    BackSteps(tx);
    Extend(NewChain(), steps, Settle(0));
    longer := steps + [Settle(0)];
    Extend(NewChain(), longer, External(7, 0));
    longer := longer + [External(7, 0)];
  }

  /** The condition is needed: a run with one outside change, from 1 back to 0, registers the same sender and nonce twice. */
  lemma RegisteredAgain(first: Tx, second: Tx) returns (steps: seq<Step>)
    requires First(first) && First(second)
    ensures Exec(NewChain(), steps).Some? && Registered(NewChain(), steps) == [first, second]
    ensures !NonceOnce(Registered(NewChain(), steps))
  {
    steps := PushAndSend([], first);
    steps := TakeBack(steps, first);
    steps := PushAndSend(steps, second);
    assert Registered(NewChain(), steps) == [] + [first] + [second];
    assert SameNonce(Registered(NewChain(), steps)[0], Registered(NewChain(), steps)[1]);
  }

  /** The steps lead to s without a success, a registration or a change from outside. */
  ghost predicate Quiet(steps: seq<Step>, s: Sys) {
    && Exec(NewChain(), steps) == Some(s)
    && Registered(NewChain(), steps) == [] && Succeeded(NewChain(), steps) == []
    && forall l | l in steps :: !l.External?
  }

  lemma StaysQuiet(steps: seq<Step>, s: Sys, l: Step)
    requires Quiet(steps, s) && Enabled(s, l) && !Succeeds(s, l) && !l.Register? && !l.External?
    ensures Quiet(steps + [l], Next(s, l))
  {
    Extend(NewChain(), steps, l);
    assert (steps + [l])[..|steps|] == steps;
  }

  lemma LostReply(tx: Tx)
    requires First(tx)
    ensures var s1 := HandedOut(tx, Sending, 0);
            Enabled(s1, SendRpc(0, AfterEffect)) && Next(s1, SendRpc(0, AfterEffect)) == HandedOut(tx, Settling, 1)
  {
    assert Next(HandedOut(tx, Sending, 0), SendRpc(0, AfterEffect)).chain == map[7 := 1];
    assert Next(HandedOut(tx, Sending, 0), SendRpc(0, AfterEffect)).tasks == map[0 := Task(tx, Settling)];
  }

  /** A send that takes effect and is reported failed moves the chain's nonce on, and its transaction is not registered. */
  lemma LandedUnregistered(tx: Tx) returns (steps: seq<Step>)
    requires First(tx)
    ensures Quiet(steps, HandedOut(tx, Settling, 1))
  {
    PushSteps(tx);
    LostReply(tx);
    StaysQuiet([], NewChain(), Generate(tx));
    StaysQuiet([] + [Generate(tx)], Pushed(tx), Dispatch(0));
    StaysQuiet([] + [Generate(tx)] + [Dispatch(0)], HandedOut(tx, Sending, 0), SendRpc(0, AfterEffect));
    steps := [] + [Generate(tx)] + [Dispatch(0)] + [SendRpc(0, AfterEffect)];
  }

  // ---------- Registered transactions are exactly the succeeded ----------

  /** The tasks whose send succeeded and that have not registered it yet. */
  ghost function AboutTo(s: Sys): set<nat> {
    set id | id in s.tasks && s.tasks[id].phase.Registering?
  }

  ghost predicate Due(s: Sys, tx: Tx) {
    exists id :: id in AboutTo(s) && s.tasks[id].tx == tx
  }

  /** Registered and about to be: what succeeded, no more, no less. */
  ghost predicate Accounted(s: Sys, registered: seq<Tx>, succeeded: seq<Tx>) {
    && (forall tx | tx in registered :: tx in succeeded)
    && (forall id | id in AboutTo(s) :: s.tasks[id].tx in succeeded)
    && (forall tx | tx in succeeded :: tx in registered || Due(s, tx))
    && |succeeded| == |registered| + |AboutTo(s)|
  }

  lemma SuccessAccounted(s: Sys, l: Step, registered: seq<Tx>, succeeded: seq<Tx>)
    requires Enabled(s, l) && Succeeds(s, l) && Accounted(s, registered, succeeded)
    ensures Accounted(Next(s, l), registered, succeeded + [s.tasks[l.id].tx])
  {
    var s', tx := Next(s, l), s.tasks[l.id].tx;
    Recount(AboutTo(s), AboutTo(s'), l.id);
    assert l.id in AboutTo(s') && s'.tasks[l.id].tx == tx;
    assert (succeeded + [tx])[|succeeded|] == tx;
    forall t | t in succeeded + [tx] ensures t in registered || Due(s', t) {
      if t != tx && t !in registered {
        var id :| id in AboutTo(s) && s.tasks[id].tx == t;
        assert id in AboutTo(s') && s'.tasks[id].tx == t;
      }
    }
  }

  lemma RegisterAccounted(s: Sys, id: nat, registered: seq<Tx>, succeeded: seq<Tx>)
    requires Enabled(s, Register(id)) && Accounted(s, registered, succeeded)
    ensures Accounted(Next(s, Register(id)), registered + [s.tasks[id].tx], succeeded)
  {
    var s', tx := Next(s, Register(id)), s.tasks[id].tx;
    Recount(AboutTo(s), AboutTo(s'), id);
    assert id in AboutTo(s);
    assert (registered + [tx])[|registered|] == tx;
    forall t | t in succeeded ensures t in registered + [tx] || Due(s', t) {
      if t != tx && t !in registered {
        var other :| other in AboutTo(s) && s.tasks[other].tx == t;
        assert other in AboutTo(s') && s'.tasks[other].tx == t;
      }
    }
  }

  lemma SameAccounted(s: Sys, l: Step, registered: seq<Tx>, succeeded: seq<Tx>)
    requires Enabled(s, l) && !Succeeds(s, l) && !l.Register? && Accounted(s, registered, succeeded)
    ensures Accounted(Next(s, l), registered, succeeded)
  {
    var s' := Next(s, l);
    assert AboutTo(s') == AboutTo(s);
    assert forall id | id in AboutTo(s) :: s'.tasks[id].tx == s.tasks[id].tx;
    forall t | Due(s, t) ensures Due(s', t) {
      var id :| id in AboutTo(s) && s.tasks[id].tx == t;
      assert id in AboutTo(s') && s'.tasks[id].tx == t;
    }
  }

  /**
   In every run, whatever happens outside: only transactions whose send succeeded are registered, and
   every one of them is, or its task is still about to.
   */
  lemma {:induction false} RegisteredAreSucceeded(capacity: int, chain: map<Address, Uint64>, steps: seq<Step>)
    requires Exec(Init(capacity, chain), steps).Some?
    ensures var s0 := Init(capacity, chain);
            Accounted(Exec(s0, steps).value, Registered(s0, steps), Succeeded(s0, steps))
  {
    var s0 := Init(capacity, chain);
    if steps == [] {
      assert AboutTo(s0) == {};
    } else {
      var before, l := steps[..|steps| - 1], steps[|steps| - 1];
      RegisteredAreSucceeded(capacity, chain, before);
      var s, registered, succeeded := Exec(s0, before).value, Registered(s0, before), Succeeded(s0, before);
      assert registered + [] == registered && succeeded + [] == succeeded;
      if Succeeds(s, l) {
        SuccessAccounted(s, l, registered, succeeded);
      } else if l.Register? {
        RegisterAccounted(s, l.id, registered, succeeded);
      } else {
        SameAccounted(s, l, registered, succeeded);
      }
    }
  }

  // ---------- The tracker's law for what the sender registers ----------

  /** A transaction's hash fixes its sender and its nonce. */
  ghost predicate FixesNonce(hash: Tx -> nat) {
    forall t, u | hash(t) == hash(u) :: SameNonce(t, u)
  }

  function Hashes(hash: Tx -> nat, txs: seq<Tx>): seq<nat> {
    seq(|txs|, i requires 0 <= i < |txs| => hash(txs[i]))
  }

  lemma {:induction false} CountDistinct(hashes: seq<nat>, h: nat)
    requires Tracker.AllDistinct(hashes)
    ensures multiset(hashes)[h] <= 1
    ensures multiset(hashes)[h] == 1 ==> h in hashes
  {
    if hashes != [] {
      var n := |hashes| - 1;
      CountDistinct(hashes[..n], h);
      assert hashes == hashes[..n] + [hashes[n]];
    }
  }

  lemma RepeatCounts(hashes: seq<nat>, i: nat, j: nat)
    requires i < j < |hashes| && hashes[i] == hashes[j]
    ensures multiset(hashes)[hashes[i]] >= 2
  {
    assert hashes == hashes[..j] + [hashes[j]] + hashes[j + 1..];
    assert hashes[..j][i] == hashes[i];
  }

  lemma DistinctInAnyOrder(hashes: seq<nat>, order: seq<nat>)
    requires Tracker.AllDistinct(hashes) && multiset(order) == multiset(hashes)
    ensures Tracker.AllDistinct(order)
  {
    forall i, j | 0 <= i < j < |order| ensures order[i] != order[j] {
      if order[i] == order[j] {
        CountDistinct(hashes, order[i]);
        RepeatCounts(order, i, j);
      }
    }
  }

  /**
   The tracker's documented law holds for what the sender registers, in whatever order the registrations
   reach the tracker and however they interleave with blocks and sweeps, as long as no outside change
   takes a nonce back.
   */
  lemma SenderKeepsLaw(capacity: int, chain: map<Address, Uint64>, steps: seq<Step>, hash: Tx -> nat,
                       reapAfter: int, maxInflight: int, events: seq<Tracker.Event>)
    requires Exec(Init(capacity, chain), steps).Some? && NeverBack(Init(capacity, chain), steps) && FixesNonce(hash)
    requires multiset(Tracker.HashesOf(events)) == multiset(Hashes(hash, Registered(Init(capacity, chain), steps)))
    ensures Tracker.DocumentedLaw(reapAfter, maxInflight, events)
  {
    var registered := Registered(Init(capacity, chain), steps);
    RegisteredOnce(capacity, chain, steps);
    forall i, j | 0 <= i < j < |registered| ensures Hashes(hash, registered)[i] != Hashes(hash, registered)[j] {
      assert !SameNonce(registered[i], registered[j]);
    }
    DistinctInAnyOrder(Hashes(hash, registered), Tracker.HashesOf(events));
    Tracker.DocumentedLawIff(reapAfter, maxInflight, Tracker.HashesOf(events));
  }
}
