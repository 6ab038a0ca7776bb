/**
 When entries expire. A sweep's cutoff and a block's arrival stamp are read before the registry's
 lock is taken, an entry's time of registration under it; so only registrations are in the order of
 their times, and any of them may come between a stamp and its use.
 */
module ReapTiming {
  import opened LoadTypes
  import opened InclusionSpec
  import opened InclusionConservation

  /** The tracker's log, a time not after the present, and the time of the last sweep, or of the start. */
  datatype Timed = Timed(l: Log, clock: Time, lastTick: Time)

  function Later(x: Time, y: Time): Time {
    if x < y then y else x
  }

  function Next(t: Timed, e: Event): Timed {
    Timed(Step(t.l, e), if e.Matches? then t.clock else Later(t.clock, e.time), if e.Sweeps? then e.time else t.lastTick)
  }

  /** Registrations happen at the present; a sweep's tick is at most `gap` after the last one, and it visits every entry. */
  predicate OnTime(t: Timed, e: Event, gap: Time) {
    match e
    case Registers(_, time) => t.clock <= time
    case Matches(_, _) => true
    case Sweeps(order, time) => t.lastTick <= time <= t.lastTick + gap && forall h | h in t.l.r.inflight :: h in order
  }

  function Exec(reapAfter: Time, maxInflight: int, gap: Time, start: Time, events: seq<Event>): Option<Timed> {
    if events == [] then Some(Timed(Start(reapAfter, maxInflight), start, start))
    else
      var before := Exec(reapAfter, maxInflight, gap, start, events[..|events| - 1]);
      if before.Some? && OnTime(before.value, events[|events| - 1], gap)
      then Some(Next(before.value, events[|events| - 1])) else None
  }

  ghost predicate AgesOk(fates: seq<Fate>, period: Time, gap: Time) {
    forall i | 0 <= i < |fates| && fates[i].Expired? :: period <= fates[i].age < period + gap
  }

  /** Entries registered after `since`. */
  ghost predicate RegisteredAfter(inflight: map<Hash, Entry>, since: Time) {
    forall h | h in inflight :: since < inflight[h].registeredAt
  }

  ghost predicate TimedInv(t: Timed, gap: Time) {
    && LogInv(t.l)
    && t.l.r.reapAfter > 0
    && t.lastTick <= t.clock
    && RegisteredAfter(t.l.r.inflight, t.lastTick - t.l.r.reapAfter)
    && AgesOk(t.l.fates, t.l.r.reapAfter, gap)
  }

  lemma {:induction false} SweepAges(l: Log, order: seq<Hash>, now: Time, gap: Time)
    requires LogInv(l) && AgesOk(l.fates, l.r.reapAfter, gap) && RegisteredAfter(l.r.inflight, now - gap - l.r.reapAfter)
    ensures var l' := LogReapAll(l, order, now);
            && AgesOk(l'.fates, l.r.reapAfter, gap) && l'.r.reapAfter == l.r.reapAfter
            && RegisteredAfter(l'.r.inflight, now - gap - l.r.reapAfter)
  {
    if order != [] {
      var n := |order| - 1;
      SweepAges(l, order[..n], now, gap);
      var m := LogReapAll(l, order[..n], now);
      if Old(m.r, order[n], now) {
        assert now - gap - m.r.reapAfter < m.r.inflight[order[n]].registeredAt <= now - m.r.reapAfter;
      }
    }
  }

  lemma {:induction false} MatchKeepsTimes(l: Log, hashes: seq<Hash>, arrival: Time, since: Time, gap: Time)
    requires AgesOk(l.fates, l.r.reapAfter, gap) && RegisteredAfter(l.r.inflight, since)
    ensures var l' := LogMatchAll(l, hashes, arrival);
            && AgesOk(l'.fates, l.r.reapAfter, gap) && l'.r.reapAfter == l.r.reapAfter
            && RegisteredAfter(l'.r.inflight, since)
  {
    if hashes != [] {
      MatchKeepsTimes(l, hashes[..|hashes| - 1], arrival, since, gap);
    }
  }

  lemma SweepTimed(t: Timed, e: Event, gap: Time)
    requires TimedInv(t, gap) && OnTime(t, e, gap) && e.Sweeps?
    ensures TimedInv(Next(t, e), gap)
  {
    StepInv(t.l, e);
    SweepAges(t.l, e.order, e.time, gap);
    ReapAllInv(t.l, e.order, e.time);
    SweepOrder(t.l.r, e.order, e.time);
  }

  lemma RegisterTimes(l: Log, hash: Hash, now: Time, since: Time, gap: Time)
    requires AgesOk(l.fates, l.r.reapAfter, gap) && RegisteredAfter(l.r.inflight, since) && since < now
    ensures AgesOk(LogRegister(l, hash, now).fates, l.r.reapAfter, gap)
    ensures RegisteredAfter(LogRegister(l, hash, now).r.inflight, since)
  {
  }

  lemma StepTimed(t: Timed, e: Event, gap: Time)
    requires TimedInv(t, gap) && OnTime(t, e, gap)
    ensures TimedInv(Next(t, e), gap)
  {
    match e
    case Registers(h, now) =>
      StepInv(t.l, e);
      RegisterTimes(t.l, h, now, t.lastTick - t.l.r.reapAfter, gap);
    case Matches(hashes, arrival) =>
      StepInv(t.l, e);
      MatchKeepsTimes(t.l, hashes, arrival, t.lastTick - t.l.r.reapAfter, gap);
    case Sweeps(_, _) => SweepTimed(t, e, gap);
  }

  lemma {:induction false} ExecTimed(reapAfter: Time, maxInflight: int, gap: Time, start: Time, events: seq<Event>)
    requires Exec(reapAfter, maxInflight, gap, start, events).Some?
    ensures TimedInv(Exec(reapAfter, maxInflight, gap, start, events).value, gap)
  {
    if events == [] {
      StartInv(reapAfter, maxInflight);
    } else {
      ExecTimed(reapAfter, maxInflight, gap, start, events[..|events| - 1]);
      StepTimed(Exec(reapAfter, maxInflight, gap, start, events[..|events| - 1]).value, events[|events| - 1], gap);
    }
  }

  /**
   When no two ticks are more than `gap` apart, an entry that expires does so at an age from
   reapAfter up to, and not including, reapAfter + gap; and until the next tick is due nothing in
   flight is as old as that. An exact ticker has gap reapAfter: expiry before age 2 * reapAfter.
   */
  lemma ExpiryWindow(reapAfter: Time, maxInflight: int, gap: Time, start: Time, events: seq<Event>, i: nat, h: Hash, now: Time)
    requires Exec(reapAfter, maxInflight, gap, start, events).Some?
    ensures var t := Exec(reapAfter, maxInflight, gap, start, events).value;
            var period := t.l.r.reapAfter;
            && period == (if reapAfter <= 0 then 30_000_000_000 else reapAfter)
            && (i < |t.l.fates| && t.l.fates[i].Expired? ==> period <= t.l.fates[i].age < period + gap)
            && (h in t.l.r.inflight && now <= t.lastTick + gap ==> now - t.l.r.inflight[h].registeredAt < period + gap)
  {
    ExecTimed(reapAfter, maxInflight, gap, start, events);
    SamePeriod(reapAfter, maxInflight, gap, start, events);
  }

  lemma {:induction false} SamePeriod(reapAfter: Time, maxInflight: int, gap: Time, start: Time, events: seq<Event>)
    requires Exec(reapAfter, maxInflight, gap, start, events).Some?
    ensures Exec(reapAfter, maxInflight, gap, start, events).value.l.r.reapAfter == Init(reapAfter, maxInflight).reapAfter
  {
    if events != [] {
      SamePeriod(reapAfter, maxInflight, gap, start, events[..|events| - 1]);
      StepConfig(Exec(reapAfter, maxInflight, gap, start, events[..|events| - 1]).value.l, events[|events| - 1]);
    }
  }
}
