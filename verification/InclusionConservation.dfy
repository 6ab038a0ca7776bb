/**
 Where every transaction handed to the inclusion tracker ends up, over any interleaving of
 registrations, matched blocks and sweeps. Attempts are numbered in the order of Register.
 */
module InclusionConservation {
  import opened InclusionSpec

  /** What became of one attempt. `age` is how long the entry had been in flight when it was reaped. */
  datatype Fate = Waiting | Included(arrival: Time) | Expired(age: Time) | Dropped | Overwritten

  datatype Log = Log(r: Registry, fates: seq<Fate>)

  datatype Event =
    | Registers(hash: Hash, time: Time)
    | Matches(hashes: seq<Hash>, time: Time)
    | Sweeps(order: seq<Hash>, time: Time)

  function Start(reapAfter: Time, maxInflight: int): Log {
    Log(Init(reapAfter, maxInflight), [])
  }

  /** Gives the transaction in flight under the hash its fate. */
  function Settle(l: Log, h: Hash, fate: Fate): seq<Fate> {
    if h in l.r.inflight && l.r.inflight[h].tx < |l.fates| then l.fates[l.r.inflight[h].tx := fate] else l.fates
  }

  function LogRegister(l: Log, hash: Hash, now: Time): Log {
    Log(Register(l.r, hash, |l.fates|, now),
        if AtCap(l.r) then l.fates + [Dropped] else Settle(l, hash, Overwritten) + [Waiting])
  }

  function LogMatch(l: Log, h: Hash, arrival: Time): Log {
    Log(MatchOne(l.r, h, arrival), Settle(l, h, Included(arrival)))
  }

  function LogReap(l: Log, h: Hash, now: Time): Log {
    Log(ReapOne(l.r, h, now), if Old(l.r, h, now) then Settle(l, h, Expired(now - l.r.inflight[h].registeredAt)) else l.fates)
  }

  function LogMatchAll(l: Log, hashes: seq<Hash>, arrival: Time): Log {
    if hashes == [] then l else LogMatch(LogMatchAll(l, hashes[..|hashes| - 1], arrival), hashes[|hashes| - 1], arrival)
  }

  function LogReapAll(l: Log, order: seq<Hash>, now: Time): Log {
    if order == [] then l else LogReap(LogReapAll(l, order[..|order| - 1], now), order[|order| - 1], now)
  }

  function Step(l: Log, e: Event): Log {
    match e
    case Registers(h, t) => LogRegister(l, h, t)
    case Matches(hashes, t) => LogMatchAll(l, hashes, t)
    case Sweeps(order, t) => LogReapAll(l, order, t)
  }

  function After(l: Log, events: seq<Event>): Log {
    if events == [] then l else Step(After(l, events[..|events| - 1]), events[|events| - 1])
  }

  // ---------- Counting fates ----------

  datatype Kind = KWaiting | KIncluded | KExpired | KDropped | KOverwritten

  function KindOf(f: Fate): Kind {
    match f
    case Waiting => KWaiting
    case Included(_) => KIncluded
    case Expired(_) => KExpired
    case Dropped => KDropped
    case Overwritten => KOverwritten
  }

  function Count(fates: seq<Fate>, k: Kind): nat {
    if fates == [] then 0 else Count(fates[..|fates| - 1], k) + if KindOf(fates[|fates| - 1]) == k then 1 else 0
  }

  lemma CountSnoc(fates: seq<Fate>, f: Fate, k: Kind)
    ensures Count(fates + [f], k) == Count(fates, k) + if KindOf(f) == k then 1 else 0
  {
    assert (fates + [f])[..|fates|] == fates;
  }

  lemma {:induction false} CountUpdate(fates: seq<Fate>, i: nat, f: Fate, k: Kind)
    requires i < |fates|
    ensures Count(fates[i := f], k) + (if KindOf(fates[i]) == k then 1 else 0)
            == Count(fates, k) + if KindOf(f) == k then 1 else 0
  {
    var n := |fates| - 1;
    if i < n {
      CountUpdate(fates[..n], i, f, k);
      assert fates[i := f][..n] == fates[..n][i := f];
    } else {
      assert fates[i := f][..n] == fates[..n];
    }
  }

  lemma {:induction false} CountAll(fates: seq<Fate>)
    ensures |fates| == Count(fates, KWaiting) + Count(fates, KIncluded) + Count(fates, KExpired)
                       + Count(fates, KDropped) + Count(fates, KOverwritten)
  {
    if fates != [] {
      CountAll(fates[..|fates| - 1]);
    }
  }

  // ---------- The invariant ----------

  predicate Waits(fates: seq<Fate>, e: Entry) {
    e.tx < |fates| && fates[e.tx].Waiting?
  }

  ghost predicate DistinctTxs(inflight: map<Hash, Entry>) {
    forall h, g | h in inflight && g in inflight && h != g :: inflight[h].tx != inflight[g].tx
  }

  /** The registry's entries are different attempts, all still waiting. */
  ghost predicate EntriesWait(l: Log) {
    && (forall h | h in l.r.inflight :: Waits(l.fates, l.r.inflight[h]))
    && DistinctTxs(l.r.inflight)
  }

  ghost predicate CountersMatch(l: Log) {
    && Count(l.fates, KWaiting) == |l.r.inflight|
    && Count(l.fates, KIncluded) == l.r.included
    && Count(l.fates, KExpired) == l.r.expired
    && Count(l.fates, KDropped) == l.r.droppedAtCap
  }

  /** The InclusionTime of a transaction is written exactly when it is included, with that block's arrival. */
  ghost predicate StampsMatch(l: Log) {
    forall i: nat :: (i in l.r.stamps <==> i < |l.fates| && l.fates[i].Included?)
                     && (i in l.r.stamps ==> l.fates[i].arrival == l.r.stamps[i])
  }

  ghost predicate LogInv(l: Log) {
    EntriesWait(l) && CountersMatch(l) && StampsMatch(l) && |l.r.inflight| <= l.r.maxInflight
  }

  /** A fate other than Waiting is final. */
  ghost predicate Settled(l: Log, l': Log) {
    |l.fates| <= |l'.fates| && forall i | 0 <= i < |l.fates| && !l.fates[i].Waiting? :: l'.fates[i] == l.fates[i]
  }

  lemma SettleCounts(l: Log, h: Hash, f: Fate, k: Kind)
    requires EntriesWait(l) && h in l.r.inflight
    ensures Count(Settle(l, h, f), k) == Count(l.fates, k) - (if k == KWaiting then 1 else 0) + if KindOf(f) == k then 1 else 0
  {
    CountUpdate(l.fates, l.r.inflight[h].tx, f, k);
  }

  /** Taking the entry of h out of the registry with a fate: the other entries still wait. */
  lemma RemoveEntry(l: Log, h: Hash, f: Fate, r': Registry)
    requires EntriesWait(l) && h in l.r.inflight && !f.Waiting? && r'.inflight == l.r.inflight - {h}
    ensures EntriesWait(Log(r', Settle(l, h, f))) && Settled(l, Log(r', Settle(l, h, f)))
    ensures |r'.inflight| == |l.r.inflight| - 1
  {
    assert l.r.inflight.Keys == r'.inflight.Keys + {h};
    OthersWait(l, h, f);
    FewerDistinct(l.r.inflight, h);
    SettleSettles(l, h, f, r');
  }

  lemma FewerDistinct(inflight: map<Hash, Entry>, h: Hash)
    requires DistinctTxs(inflight)
    ensures DistinctTxs(inflight - {h})
  {
  }

  lemma SettleSettles(l: Log, h: Hash, f: Fate, r': Registry)
    requires h in l.r.inflight && Waits(l.fates, l.r.inflight[h])
    ensures Settled(l, Log(r', Settle(l, h, f)))
  {
  }

  lemma OthersWait(l: Log, h: Hash, f: Fate)
    requires EntriesWait(l) && h in l.r.inflight
    ensures forall g | g in l.r.inflight && g != h :: Waits(Settle(l, h, f), l.r.inflight[g])
  {
    forall g | g in l.r.inflight && g != h ensures Waits(Settle(l, h, f), l.r.inflight[g]) {
      assert Waits(l.fates, l.r.inflight[g]) && l.r.inflight[g].tx != l.r.inflight[h].tx;
    }
  }

  lemma MatchInv(l: Log, h: Hash, arrival: Time)
    requires LogInv(l)
    ensures LogInv(LogMatch(l, h, arrival)) && Settled(l, LogMatch(l, h, arrival))
  {
    if h in l.r.inflight {
      var f, l' := Included(arrival), LogMatch(l, h, arrival);
      RemoveEntry(l, h, f, l'.r);
      SettleCounts(l, h, f, KWaiting);
      SettleCounts(l, h, f, KIncluded);
      SettleCounts(l, h, f, KExpired);
      SettleCounts(l, h, f, KDropped);
      assert CountersMatch(l');
      MatchStamps(l, h, arrival);
    }
  }

  lemma MatchStamps(l: Log, h: Hash, arrival: Time)
    requires EntriesWait(l) && StampsMatch(l) && h in l.r.inflight
    ensures StampsMatch(LogMatch(l, h, arrival))
  {
  }

  lemma ReapStamps(l: Log, h: Hash, age: Time)
    requires EntriesWait(l) && StampsMatch(l) && h in l.r.inflight
    ensures StampsMatch(Log(l.r, Settle(l, h, Expired(age))))
  {
  }

  lemma ReapCounts(l: Log, h: Hash, now: Time, k: Kind)
    requires EntriesWait(l)
    ensures |LogReap(l, h, now).fates| == |l.fates|
    ensures Count(LogReap(l, h, now).fates, k) == Count(l.fates, k)
            - (if Old(l.r, h, now) && k == KWaiting then 1 else 0) + if Old(l.r, h, now) && k == KExpired then 1 else 0
  {
    if Old(l.r, h, now) {
      SettleCounts(l, h, Expired(now - l.r.inflight[h].registeredAt), k);
    }
  }

  lemma ExpireCounters(l: Log, h: Hash, now: Time)
    requires EntriesWait(l) && CountersMatch(l) && Old(l.r, h, now) && |LogReap(l, h, now).r.inflight| == |l.r.inflight| - 1
    ensures CountersMatch(LogReap(l, h, now))
  {
    ReapCounts(l, h, now, KWaiting);
    ReapCounts(l, h, now, KIncluded);
    ReapCounts(l, h, now, KExpired);
    ReapCounts(l, h, now, KDropped);
  }

  lemma ReapInv(l: Log, h: Hash, now: Time)
    requires LogInv(l)
    ensures LogInv(LogReap(l, h, now)) && Settled(l, LogReap(l, h, now))
  {
    if Old(l.r, h, now) {
      var age := now - l.r.inflight[h].registeredAt;
      RemoveEntry(l, h, Expired(age), LogReap(l, h, now).r);
      ExpireCounters(l, h, now);
      ReapStamps(l, h, age);
    } else {
      assert LogReap(l, h, now) == l;
    }
  }

  lemma DropInv(l: Log, hash: Hash, now: Time)
    requires LogInv(l) && AtCap(l.r)
    ensures LogInv(LogRegister(l, hash, now)) && Settled(l, LogRegister(l, hash, now))
  {
    CountSnoc(l.fates, Dropped, KWaiting);
    CountSnoc(l.fates, Dropped, KIncluded);
    CountSnoc(l.fates, Dropped, KExpired);
    CountSnoc(l.fates, Dropped, KDropped);
  }

  lemma InsertCounts(l: Log, hash: Hash, k: Kind)
    requires EntriesWait(l)
    ensures var fates := Settle(l, hash, Overwritten) + [Waiting];
            && (k == KWaiting ==> Count(fates, k) == Count(l.fates, k) + if hash in l.r.inflight then 0 else 1)
            && (k == KOverwritten ==> Count(fates, k) == Count(l.fates, k) + if hash in l.r.inflight then 1 else 0)
            && (k != KWaiting && k != KOverwritten ==> Count(fates, k) == Count(l.fates, k))
  {
    CountSnoc(Settle(l, hash, Overwritten), Waiting, k);
    if hash in l.r.inflight {
      SettleCounts(l, hash, Overwritten, k);
    }
  }

  lemma InsertEntries(l: Log, hash: Hash, now: Time)
    requires EntriesWait(l) && !AtCap(l.r)
    ensures EntriesWait(LogRegister(l, hash, now)) && Settled(l, LogRegister(l, hash, now))
  {
    var l' := LogRegister(l, hash, now);
    forall g | g in l'.r.inflight && g != hash
      ensures Waits(l'.fates, l'.r.inflight[g]) && l'.r.inflight[g].tx < |l.fates|
    {
      assert g in l.r.inflight && Waits(l.fates, l.r.inflight[g]);
      assert hash in l.r.inflight ==> l.r.inflight[g].tx != l.r.inflight[hash].tx;
    }
  }

  lemma InsertSize(l: Log, hash: Hash, now: Time)
    requires !AtCap(l.r)
    ensures |LogRegister(l, hash, now).r.inflight| == |l.r.inflight| + if hash in l.r.inflight then 0 else 1
  {
    var r' := LogRegister(l, hash, now).r;
    assert r'.inflight.Keys == l.r.inflight.Keys + {hash};
    assert hash in l.r.inflight ==> r'.inflight.Keys == l.r.inflight.Keys;
  }

  lemma InsertStamps(l: Log, hash: Hash, now: Time)
    requires EntriesWait(l) && StampsMatch(l) && !AtCap(l.r)
    ensures StampsMatch(LogRegister(l, hash, now))
  {
    var l' := LogRegister(l, hash, now);
    if hash in l.r.inflight {
      assert Waits(l.fates, l.r.inflight[hash]);
    }
    forall i: nat ensures i < |l'.fates| && l'.fates[i].Included? <==> i < |l.fates| && l.fates[i].Included? {
    }
  }

  lemma RegisterInv(l: Log, hash: Hash, now: Time)
    requires LogInv(l)
    ensures LogInv(LogRegister(l, hash, now)) && Settled(l, LogRegister(l, hash, now))
  {
    if AtCap(l.r) {
      DropInv(l, hash, now);
    } else {
      InsertEntries(l, hash, now);
      InsertSize(l, hash, now);
      InsertStamps(l, hash, now);
      InsertCounts(l, hash, KWaiting);
      InsertCounts(l, hash, KIncluded);
      InsertCounts(l, hash, KExpired);
      InsertCounts(l, hash, KDropped);
    }
  }

  lemma {:induction false} MatchAllInv(l: Log, hashes: seq<Hash>, arrival: Time)
    requires LogInv(l)
    ensures LogInv(LogMatchAll(l, hashes, arrival)) && Settled(l, LogMatchAll(l, hashes, arrival))
    ensures LogMatchAll(l, hashes, arrival).r == MatchAll(l.r, hashes, arrival)
  {
    if hashes != [] {
      var n := |hashes| - 1;
      MatchAllInv(l, hashes[..n], arrival);
      MatchInv(LogMatchAll(l, hashes[..n], arrival), hashes[n], arrival);
    }
  }

  lemma {:induction false} ReapAllInv(l: Log, order: seq<Hash>, now: Time)
    requires LogInv(l)
    ensures LogInv(LogReapAll(l, order, now)) && Settled(l, LogReapAll(l, order, now))
    ensures LogReapAll(l, order, now).r == ReapAll(l.r, order, now)
  {
    if order != [] {
      var n := |order| - 1;
      ReapAllInv(l, order[..n], now);
      ReapInv(LogReapAll(l, order[..n], now), order[n], now);
    }
  }

  lemma StepInv(l: Log, e: Event)
    requires LogInv(l)
    ensures LogInv(Step(l, e)) && Settled(l, Step(l, e))
  {
    match e
    case Registers(h, t) => RegisterInv(l, h, t);
    case Matches(hashes, t) => MatchAllInv(l, hashes, t);
    case Sweeps(order, t) => ReapAllInv(l, order, t);
  }

  lemma {:induction false} AfterInv(l: Log, events: seq<Event>)
    requires LogInv(l)
    ensures LogInv(After(l, events)) && Settled(l, After(l, events))
  {
    if events != [] {
      AfterInv(l, events[..|events| - 1]);
      StepInv(After(l, events[..|events| - 1]), events[|events| - 1]);
    }
  }

  // ---------- Conservation ----------

  function Registrations(events: seq<Event>): nat {
    if events == [] then 0 else Registrations(events[..|events| - 1]) + if events[|events| - 1].Registers? then 1 else 0
  }

  /** The registrations that found their hash in flight, below the cap: each replaces an entry. */
  function Replacements(l: Log, events: seq<Event>): nat {
    if events == [] then 0
    else
      var before := After(l, events[..|events| - 1]);
      var e := events[|events| - 1];
      Replacements(l, events[..|events| - 1])
      + if e.Registers? && !AtCap(before.r) && e.hash in before.r.inflight then 1 else 0
  }

  lemma {:induction false} MatchAllKeeps(l: Log, hashes: seq<Hash>, t: Time)
    requires LogInv(l)
    ensures var l' := LogMatchAll(l, hashes, t);
            |l'.fates| == |l.fates| && Count(l'.fates, KOverwritten) == Count(l.fates, KOverwritten)
  {
    if hashes != [] {
      var n := |hashes| - 1;
      MatchAllKeeps(l, hashes[..n], t);
      MatchAllInv(l, hashes[..n], t);
      var m := LogMatchAll(l, hashes[..n], t);
      if hashes[n] in m.r.inflight {
        SettleCounts(m, hashes[n], Included(t), KOverwritten);
      }
    }
  }

  lemma {:induction false} ReapAllKeeps(l: Log, order: seq<Hash>, t: Time)
    requires LogInv(l)
    ensures var l' := LogReapAll(l, order, t);
            |l'.fates| == |l.fates| && Count(l'.fates, KOverwritten) == Count(l.fates, KOverwritten)
  {
    if order != [] {
      var n := |order| - 1;
      ReapAllKeeps(l, order[..n], t);
      ReapAllInv(l, order[..n], t);
      ReapCounts(LogReapAll(l, order[..n], t), order[n], t, KOverwritten);
    }
  }

  lemma RegisterOverwrites(l: Log, h: Hash, t: Time)
    requires LogInv(l)
    ensures Count(LogRegister(l, h, t).fates, KOverwritten) == Count(l.fates, KOverwritten)
            + if !AtCap(l.r) && h in l.r.inflight then 1 else 0
  {
    if AtCap(l.r) {
      CountSnoc(l.fates, Dropped, KOverwritten);
    } else {
      InsertCounts(l, h, KOverwritten);
    }
  }

  lemma StepOverwrites(l: Log, e: Event)
    requires LogInv(l)
    ensures Count(Step(l, e).fates, KOverwritten) == Count(l.fates, KOverwritten)
            + if e.Registers? && !AtCap(l.r) && e.hash in l.r.inflight then 1 else 0
    ensures |Step(l, e).fates| == |l.fates| + if e.Registers? then 1 else 0
  {
    match e
    case Registers(h, t) => RegisterOverwrites(l, h, t);
    case Matches(hashes, t) => MatchAllKeeps(l, hashes, t);
    case Sweeps(order, t) => ReapAllKeeps(l, order, t);
  }

  lemma {:induction false} OverwrittenAreReplacements(l: Log, events: seq<Event>)
    requires LogInv(l)
    ensures Count(After(l, events).fates, KOverwritten) == Count(l.fates, KOverwritten) + Replacements(l, events)
    ensures |After(l, events).fates| == |l.fates| + Registrations(events)
  {
    if events != [] {
      var before := events[..|events| - 1];
      OverwrittenAreReplacements(l, before);
      AfterInv(l, before);
      StepOverwrites(After(l, before), events[|events| - 1]);
    }
  }

  lemma StartInv(reapAfter: Time, maxInflight: int)
    ensures LogInv(Start(reapAfter, maxInflight))
  {
  }

  /** The cap in force, which is never 0. */
  function Cap(maxInflight: int): nat {
    if maxInflight <= 0 then 10_000 else maxInflight
  }

  lemma {:induction false} MatchAllConfig(l: Log, hashes: seq<Hash>, arrival: Time)
    ensures LogMatchAll(l, hashes, arrival).r.maxInflight == l.r.maxInflight
    ensures LogMatchAll(l, hashes, arrival).r.reapAfter == l.r.reapAfter
  {
    if hashes != [] {
      MatchAllConfig(l, hashes[..|hashes| - 1], arrival);
    }
  }

  lemma {:induction false} ReapAllConfig(l: Log, order: seq<Hash>, now: Time)
    ensures LogReapAll(l, order, now).r.maxInflight == l.r.maxInflight
    ensures LogReapAll(l, order, now).r.reapAfter == l.r.reapAfter
  {
    if order != [] {
      ReapAllConfig(l, order[..|order| - 1], now);
    }
  }

  /** The cap and the period never change. */
  lemma StepConfig(l: Log, e: Event)
    ensures Step(l, e).r.maxInflight == l.r.maxInflight && Step(l, e).r.reapAfter == l.r.reapAfter
  {
    match e
    case Registers(_, _) =>
    case Matches(hashes, t) => MatchAllConfig(l, hashes, t);
    case Sweeps(order, t) => ReapAllConfig(l, order, t);
  }

  lemma {:induction false} AfterConfig(l: Log, events: seq<Event>)
    ensures After(l, events).r.maxInflight == l.r.maxInflight
  {
    if events != [] {
      AfterConfig(l, events[..|events| - 1]);
      StepConfig(After(l, events[..|events| - 1]), events[|events| - 1]);
    }
  }

  /**
   Conservation, over any interleaving: every attempt is included, expired, in flight, dropped
   at the cap or replaced by a later registration of its hash, and each number of the summary counts the
   attempts it names; the registry keeps to its cap.
   */
  lemma Conservation(reapAfter: Time, maxInflight: int, events: seq<Event>)
    ensures var l0 := Start(reapAfter, maxInflight);
            var s := Tally(After(l0, events).r);
            && Registrations(events) == s.included + s.expired + s.inflightAtShutdown + s.droppedAtCap + Replacements(l0, events)
            && s.inflightAtShutdown <= Cap(maxInflight)
    ensures var l := After(Start(reapAfter, maxInflight), events);
            var s := Tally(l.r);
            && s.included == Count(l.fates, KIncluded) && s.expired == Count(l.fates, KExpired)
            && s.droppedAtCap == Count(l.fates, KDropped) && s.inflightAtShutdown == Count(l.fates, KWaiting)
  {
    var l0 := Start(reapAfter, maxInflight);
    StartInv(reapAfter, maxInflight);
    AfterInv(l0, events);
    AfterConfig(l0, events);
    OverwrittenAreReplacements(l0, events);
    CountAll(After(l0, events).fates);
  }

  /** A registration is dropped exactly when as many transactions as the cap admits are in flight; otherwise it is in flight. */
  lemma DroppedExactlyAtCap(reapAfter: Time, maxInflight: int, events: seq<Event>, h: Hash, now: Time)
    ensures var l := After(Start(reapAfter, maxInflight), events);
            var l' := Step(l, Registers(h, now));
            && |l'.fates| == |l.fates| + 1
            && (l'.fates[|l.fates|].Dropped? <==> |l.r.inflight| == Cap(maxInflight))
            && (l'.fates[|l.fates|].Dropped? ==> l'.r.inflight == l.r.inflight)
            && (!l'.fates[|l.fates|].Dropped? ==> h in l'.r.inflight && l'.r.inflight[h] == Entry(|l.fates|, now))
  {
    var l0 := Start(reapAfter, maxInflight);
    StartInv(reapAfter, maxInflight);
    AfterInv(l0, events);
    AfterConfig(l0, events);
  }

  // ---------- When the documented law holds, which has no term for replacements ----------

  ghost predicate DocumentedLaw(reapAfter: Time, maxInflight: int, events: seq<Event>) {
    var s := Tally(After(Start(reapAfter, maxInflight), events).r);
    Registrations(events) - s.droppedAtCap == s.included + s.expired + s.inflightAtShutdown
  }

  /** The hashes of the registrations, in order. */
  function HashesOf(events: seq<Event>): seq<Hash> {
    if events == [] then []
    else
      var e := events[|events| - 1];
      HashesOf(events[..|events| - 1]) + if e.Registers? then [e.hash] else []
  }

  ghost predicate AllDistinct(hashes: seq<Hash>) {
    forall i, j | 0 <= i < j < |hashes| :: hashes[i] != hashes[j]
  }

  ghost predicate InflightAmong(l: Log, hashes: seq<Hash>) {
    forall h | h in l.r.inflight :: h in hashes
  }

  lemma {:induction false} MatchAllShrinks(l: Log, hashes: seq<Hash>, arrival: Time)
    ensures forall h | h in LogMatchAll(l, hashes, arrival).r.inflight :: h in l.r.inflight
  {
    if hashes != [] {
      MatchAllShrinks(l, hashes[..|hashes| - 1], arrival);
    }
  }

  lemma {:induction false} ReapAllShrinks(l: Log, order: seq<Hash>, now: Time)
    ensures forall h | h in LogReapAll(l, order, now).r.inflight :: h in l.r.inflight
  {
    if order != [] {
      ReapAllShrinks(l, order[..|order| - 1], now);
    }
  }

  /** Without a hash registered twice nothing is ever replaced, and with a cap of 1 neither. */
  lemma {:induction false} NoReplacements(reapAfter: Time, maxInflight: int, events: seq<Event>)
    requires AllDistinct(HashesOf(events)) || Cap(maxInflight) == 1
    ensures Replacements(Start(reapAfter, maxInflight), events) == 0
    ensures InflightAmong(After(Start(reapAfter, maxInflight), events), HashesOf(events))
  {
    if events != [] {
      var before, e := events[..|events| - 1], events[|events| - 1];
      var l := After(Start(reapAfter, maxInflight), before);
      assert AllDistinct(HashesOf(events)) ==> AllDistinct(HashesOf(before)) by {
        assert HashesOf(before) <= HashesOf(events);
      }
      NoReplacements(reapAfter, maxInflight, before);
      match e
      case Registers(h, t) =>
        assert HashesOf(events) == HashesOf(before) + [h];
        AfterConfig(Start(reapAfter, maxInflight), before);
        if h in l.r.inflight {
          Occupied(l.r.inflight, h);
          AppendRepeats(HashesOf(before), h);
        }
      case Matches(hashes, t) => MatchAllShrinks(l, hashes, t);
      case Sweeps(order, t) => ReapAllShrinks(l, order, t);
    }
  }

  lemma AppendRepeats(hashes: seq<Hash>, h: Hash)
    requires h in hashes
    ensures !AllDistinct(hashes + [h])
  {
    var i :| 0 <= i < |hashes| && hashes[i] == h;
    assert (hashes + [h])[i] == (hashes + [h])[|hashes|];
  }

  lemma Occupied(inflight: map<Hash, Entry>, h: Hash)
    requires h in inflight
    ensures |inflight| >= 1
  {
    assert inflight.Keys != {};
  }

  lemma Extend(l0: Log, events: seq<Event>, e: Event)
    ensures After(l0, events + [e]) == Step(After(l0, events), e)
    ensures HashesOf(events + [e]) == HashesOf(events) + if e.Registers? then [e.hash] else []
    ensures Replacements(l0, events + [e]) == Replacements(l0, events)
            + if e.Registers? && !AtCap(After(l0, events).r) && e.hash in After(l0, events).r.inflight then 1 else 0
  {
    assert (events + [e])[..|events + [e]| - 1] == events;
  }

  lemma ThroughOne(l: Log, h: Hash)
    requires !AtCap(l.r) && h !in l.r.inflight
    ensures var l' := Step(Step(l, Registers(h, 0)), Matches([h], 0));
            l'.r.inflight == l.r.inflight && l'.r.maxInflight == l.r.maxInflight
  {
    var m := Step(l, Registers(h, 0));
    assert [h][..0] == [];
    assert LogMatchAll(m, [], 0) == m;
    assert LogMatchAll(m, [h], 0) == LogMatch(m, h, 0);
    assert m.r.inflight - {h} == l.r.inflight;
  }

  /** Each of the hashes, none of them in flight, is registered and found in a block at once: the registry is as before. */
  lemma {:induction false} InAndOut(l0: Log, events: seq<Event>, hashes: seq<Hash>) returns (longer: seq<Event>)
    requires !AtCap(After(l0, events).r) && forall h | h in hashes :: h !in After(l0, events).r.inflight
    ensures HashesOf(longer) == HashesOf(events) + hashes
    ensures After(l0, longer).r.inflight == After(l0, events).r.inflight
    ensures After(l0, longer).r.maxInflight == After(l0, events).r.maxInflight
  {
    if hashes == [] {
      longer := events;
    } else {
      var n := |hashes| - 1;
      longer := InAndOut(l0, events, hashes[..n]);
      var h := hashes[n];
      assert hashes == hashes[..n] + [h];
      Extend(l0, longer, Registers(h, 0));
      var entered := longer + [Registers(h, 0)];
      Extend(l0, entered, Matches([h], 0));
      ThroughOne(After(l0, longer), h);
      longer := entered + [Matches([h], 0)];
    }
  }

  lemma {:induction false} RegisterRest(l0: Log, events: seq<Event>, hashes: seq<Hash>) returns (longer: seq<Event>)
    ensures HashesOf(longer) == HashesOf(events) + hashes
    ensures Replacements(l0, longer) >= Replacements(l0, events)
  {
    if hashes == [] {
      longer := events;
    } else {
      var n := |hashes| - 1;
      longer := RegisterRest(l0, events, hashes[..n]);
      Extend(l0, longer, Registers(hashes[n], 0));
      longer := longer + [Registers(hashes[n], 0)];
      assert hashes == hashes[..n] + [hashes[n]];
    }
  }

  /** The first place that repeats an earlier one. */
  lemma {:induction false} FirstRepeat(hashes: seq<Hash>) returns (i: nat, j: nat)
    requires !AllDistinct(hashes)
    ensures i < j < |hashes| && hashes[i] == hashes[j] && AllDistinct(hashes[..j])
  {
    var n := |hashes| - 1;
    if AllDistinct(hashes[..n]) {
      i, j :| 0 <= i < j < |hashes| && hashes[i] == hashes[j];
      assert forall k | 0 <= k < n :: hashes[..n][k] == hashes[k];
    } else {
      i, j := FirstRepeat(hashes[..n]);
      assert hashes[..n][..j] == hashes[..j];
    }
  }

  /** Up to the first registration of `h`: it alone is in flight. */
  lemma AloneInFlight(l0: Log, before: seq<Hash>, h: Hash) returns (events: seq<Event>)
    requires l0.r.inflight == map[] && l0.r.maxInflight > 1
    ensures HashesOf(events) == before + [h]
    ensures After(l0, events).r.inflight.Keys == {h} && After(l0, events).r.maxInflight > 1
  {
    assert After(l0, []) == l0;
    events := InAndOut(l0, [], before);
    Extend(l0, events, Registers(h, 0));
    events := events + [Registers(h, 0)];
  }

  /** A hash registered again while it is in flight. */
  lemma RegisteredAgain(l0: Log, events: seq<Event>, between: seq<Hash>, h: Hash) returns (longer: seq<Event>)
    requires After(l0, events).r.inflight.Keys == {h} && After(l0, events).r.maxInflight > 1 && h !in between
    ensures HashesOf(longer) == HashesOf(events) + between + [h]
    ensures Replacements(l0, longer) > 0
  {
    Only(After(l0, events).r.inflight, h);
    longer := InAndOut(l0, events, between);
    Extend(l0, longer, Registers(h, 0));
    longer := longer + [Registers(h, 0)];
  }

  lemma Only(inflight: map<Hash, Entry>, h: Hash)
    requires inflight.Keys == {h}
    ensures |inflight| == 1 && h in inflight
  {
    assert |inflight| == |inflight.Keys|;
  }

  lemma Replaces(reapAfter: Time, maxInflight: int, hashes: seq<Hash>) returns (events: seq<Event>)
    requires !AllDistinct(hashes) && Cap(maxInflight) != 1
    ensures HashesOf(events) == hashes && Replacements(Start(reapAfter, maxInflight), events) > 0
  {
    var l0 := Start(reapAfter, maxInflight);
    var i, j := FirstRepeat(hashes);
    assert hashes == hashes[..i] + [hashes[i]] + hashes[i + 1..j] + [hashes[i]] + hashes[j + 1..];
    events := AloneInFlight(l0, hashes[..i], hashes[i]);
    assert forall k | i < k < j :: hashes[..j][k] != hashes[..j][i];
    events := RegisteredAgain(l0, events, hashes[i + 1..j], hashes[i]);
    events := RegisterRest(l0, events, hashes[j + 1..]);
  }

  /**
   The law holds in every interleaving that registers these hashes in this order, exactly when no
   hash comes twice or the cap admits only one transaction at a time.
   */
  lemma DocumentedLawIff(reapAfter: Time, maxInflight: int, hashes: seq<Hash>)
    ensures (forall events | HashesOf(events) == hashes :: DocumentedLaw(reapAfter, maxInflight, events))
            <==> AllDistinct(hashes) || Cap(maxInflight) == 1
  {
    if AllDistinct(hashes) || Cap(maxInflight) == 1 {
      forall events | HashesOf(events) == hashes ensures DocumentedLaw(reapAfter, maxInflight, events) {
        Conservation(reapAfter, maxInflight, events);
        NoReplacements(reapAfter, maxInflight, events);
      }
    } else {
      var events := Replaces(reapAfter, maxInflight, hashes);
      Conservation(reapAfter, maxInflight, events);
      assert !DocumentedLaw(reapAfter, maxInflight, events);
    }
  }

  /** The shortest case: the same hash twice. */
  lemma RegisteredTwice(h: Hash)
    ensures !DocumentedLaw(0, 0, [Registers(h, 0), Registers(h, 1)])
  {
    var l0, once := Start(0, 0), [Registers(h, 0)];
    Extend(l0, [], Registers(h, 0));
    assert [] + once == once;
    assert After(l0, once).r.inflight.Keys == {h};
    Only(After(l0, once).r.inflight, h);
    Extend(l0, once, Registers(h, 1));
    assert once + [Registers(h, 1)] == [Registers(h, 0), Registers(h, 1)];
    Conservation(0, 0, [Registers(h, 0), Registers(h, 1)]);
  }

  /** Each transaction reaches at most one terminal state, and its InclusionTime is the first block's that had it. */
  lemma TerminalOnce(reapAfter: Time, maxInflight: int, events: seq<Event>, later: seq<Event>, i: nat)
    requires i < |After(Start(reapAfter, maxInflight), events).fates|
    requires !After(Start(reapAfter, maxInflight), events).fates[i].Waiting?
    ensures var l := After(Start(reapAfter, maxInflight), events);
            var l' := After(l, later);
            && i < |l'.fates| && l'.fates[i] == l.fates[i]
            && (i in l'.r.stamps <==> l.fates[i].Included?)
            && (l.fates[i].Included? ==> l'.r.stamps[i] == l.fates[i].arrival)
  {
    StartInv(reapAfter, maxInflight);
    AfterInv(Start(reapAfter, maxInflight), events);
    AfterInv(After(Start(reapAfter, maxInflight), events), later);
  }
}
