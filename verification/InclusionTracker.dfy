/** The inclusion registry as values: what each critical section does to it. */
module InclusionSpec {
  type Hash = nat
  type Time = int

  /** `tx` identifies the registered LoadTx, whose InclusionTime the tracker owns. */
  datatype Entry = Entry(tx: nat, registeredAt: Time)

  datatype Registry = Registry(
    maxInflight: nat, reapAfter: Time,
    inflight: map<Hash, Entry>, included: nat, expired: nat, droppedAtCap: nat,
    stamps: map<nat, Time>)       // the InclusionTime fields written so far

  datatype Summary = Summary(included: nat, expired: nat, droppedAtCap: nat, inflightAtShutdown: nat)

  /** The tally a summary of the registry gives. */
  function Tally(r: Registry): Summary {
    Summary(r.included, r.expired, r.droppedAtCap, |r.inflight|)
  }

  const DEFAULT_MAX_INFLIGHT := 10_000
  const DEFAULT_REAP_AFTER := 30_000_000_000

  function Init(reapAfter: Time, maxInflight: int): Registry {
    Registry(if maxInflight <= 0 then DEFAULT_MAX_INFLIGHT else maxInflight,
             if reapAfter <= 0 then DEFAULT_REAP_AFTER else reapAfter, map[], 0, 0, 0, map[])
  }

  predicate AtCap(r: Registry) {
    |r.inflight| >= r.maxInflight
  }

  function Register(r: Registry, hash: Hash, tx: nat, now: Time): Registry {
    if AtCap(r) then r.(droppedAtCap := r.droppedAtCap + 1)
    else r.(inflight := r.inflight[hash := Entry(tx, now)])
  }

  /** Stamp and remove the transaction with this hash, if it is in flight. */
  function MatchOne(r: Registry, h: Hash, arrival: Time): Registry {
    if h !in r.inflight then r
    else r.(stamps := r.stamps[r.inflight[h].tx := arrival], inflight := r.inflight - {h}, included := r.included + 1)
  }

  function MatchAll(r: Registry, hashes: seq<Hash>, arrival: Time): Registry {
    if hashes == [] then r else MatchOne(MatchAll(r, hashes[..|hashes| - 1], arrival), hashes[|hashes| - 1], arrival)
  }

  /** Whether a head is new: 0 means that none was seen. */
  predicate IsNew(lastSeen: nat, num: nat) {
    lastSeen == 0 || num > lastSeen
  }

  /** The heads that are matched, of those that arrive. */
  function NewHeads(nums: seq<nat>): seq<nat> {
    if nums == [] then []
    else
      var before, num := NewHeads(nums[..|nums| - 1]), nums[|nums| - 1];
      if IsNew(if before == [] then 0 else before[|before| - 1], num) then before + [num] else before
  }

  /** Increasing numbers, all of them arrived, up to the highest that did. */
  ghost predicate MatchedInOrder(heads: seq<nat>, nums: seq<nat>) {
    && (forall i, j | 0 <= i < j < |heads| :: heads[i] < heads[j])
    && (forall i | 0 <= i < |nums| :: heads != [] && nums[i] <= heads[|heads| - 1])
    && (forall head | head in heads :: head in nums)
  }

  lemma OneMoreHead(heads: seq<nat>, nums: seq<nat>, num: nat)
    requires MatchedInOrder(heads, nums) && (heads == [] || num > heads[|heads| - 1])
    ensures MatchedInOrder(heads + [num], nums + [num])
  {
  }

  lemma OneHeadSkipped(heads: seq<nat>, nums: seq<nat>, num: nat)
    requires MatchedInOrder(heads, nums) && heads != [] && num <= heads[|heads| - 1]
    ensures MatchedInOrder(heads, nums + [num])
  {
  }

  /** Heads are matched in increasing order, so no block twice; and every head that is higher than all before it is. */
  lemma {:induction false} HeadsIncrease(nums: seq<nat>)
    requires forall i | 0 <= i < |nums| :: nums[i] > 0
    ensures MatchedInOrder(NewHeads(nums), nums)
  {
    if nums != [] {
      var before, num := nums[..|nums| - 1], nums[|nums| - 1];
      HeadsIncrease(before);
      assert nums == before + [num];
      var heads := NewHeads(before);
      if heads == [] || num > heads[|heads| - 1] {
        OneMoreHead(heads, before, num);
      } else {
        OneHeadSkipped(heads, before, num);
      }
    }
  }

  /** In flight for at least reapAfter: not registered after now - reapAfter. */
  predicate Old(r: Registry, h: Hash, now: Time) {
    h in r.inflight && r.inflight[h].registeredAt <= now - r.reapAfter
  }

  function ReapOne(r: Registry, h: Hash, now: Time): Registry {
    if Old(r, h, now) then r.(inflight := r.inflight - {h}, expired := r.expired + 1) else r
  }

  /** A sweep visits the registry in whatever order the map iterates in. */
  function ReapAll(r: Registry, order: seq<Hash>, now: Time): Registry {
    if order == [] then r else ReapOne(ReapAll(r, order[..|order| - 1], now), order[|order| - 1], now)
  }

  ghost function Aged(r: Registry, now: Time): set<Hash> {
    set h | h in r.inflight && Old(r, h, now)
  }

  /** What a sweep of the whole registry leaves. */
  ghost function Reaped(r: Registry, now: Time): Registry {
    r.(inflight := r.inflight - Aged(r, now), expired := r.expired + |Aged(r, now)|)
  }

  /** The order of a sweep does not matter. */
  lemma {:induction false} SweepOrder(r: Registry, order: seq<Hash>, now: Time)
    requires forall h | h in r.inflight :: h in order
    ensures ReapAll(r, order, now) == Reaped(r, now)
  {
    var gone := SweepPart(r, order, now);
    assert gone == Aged(r, now);
  }

  lemma ReapNext(r: Registry, order: seq<Hash>, h: Hash, now: Time)
    ensures ReapAll(r, order + [h], now) == ReapOne(ReapAll(r, order, now), h, now)
  {
    assert (order + [h])[..|order|] == order;
  }

  lemma {:induction false} SweepPart(r: Registry, order: seq<Hash>, now: Time) returns (gone: set<Hash>)
    ensures forall h :: h in gone <==> h in order && Old(r, h, now)
    ensures ReapAll(r, order, now) == r.(inflight := r.inflight - gone, expired := r.expired + |gone|)
  {
    if order == [] {
      gone := {};
      assert r.inflight - {} == r.inflight;
    } else {
      var n := |order| - 1;
      var before := SweepPart(r, order[..n], now);
      assert order == order[..n] + [order[n]];
      if Old(r, order[n], now) && order[n] !in before {
        gone := before + {order[n]};
        assert r.inflight - before - {order[n]} == r.inflight - gone;
      } else {
        gone := before;
      }
    }
  }
}

/** The tracker object; each method is one critical section. */
module InclusionTrackers {
  import opened LoadTypes
  import opened InclusionSpec

  class InclusionTracker {
    const maxInflight: nat
    const reapAfter: Time
    var inflight: map<Hash, Entry>
    var included: nat
    var expired: nat
    var droppedAtCap: nat
    var stamps: map<nat, Time>

    ghost function State(): Registry
      reads this
    {
      Registry(maxInflight, reapAfter, inflight, included, expired, droppedAtCap, stamps)
    }

    constructor (reapAfter: Time, maxInflight: int)
      ensures State() == Init(reapAfter, maxInflight)
    {
      this.maxInflight := if maxInflight <= 0 then DEFAULT_MAX_INFLIGHT else maxInflight;
      this.reapAfter := if reapAfter <= 0 then DEFAULT_REAP_AFTER else reapAfter;
      inflight, stamps := map[], map[];
      included, expired, droppedAtCap := 0, 0, 0;
    }

    method Register(hash: Hash, tx: nat, now: Time)
      modifies this
      ensures State() == InclusionSpec.Register(old(State()), hash, tx, now)
    {
      if |inflight| >= maxInflight {
        droppedAtCap := droppedAtCap + 1;
        return;
      }
      inflight := inflight[hash := Entry(tx, now)];
    }

    /** `fetched`: the block's transaction hashes, or None when the fetch failed, which is not retried. */
    method MatchBlock(fetched: Option<seq<Hash>>, arrival: Time)
      modifies this
      ensures State() == if fetched.Some? then MatchAll(old(State()), fetched.value, arrival) else old(State())
    {
      if fetched == None {
        return;
      }
      var hashes := fetched.value;
      var i := 0;
      while i < |hashes|
        invariant 0 <= i <= |hashes|
        invariant State() == MatchAll(old(State()), hashes[..i], arrival)
      {
        var h := hashes[i];
        assert hashes[..i + 1][..i] == hashes[..i];
        if h in inflight {
          stamps := stamps[inflight[h].tx := arrival];
          inflight := inflight - {h};
          included := included + 1;
        }
        i := i + 1;
      }
      assert hashes[..i] == hashes;
    }

    /** A head that is not past the last one seen is ignored; 0 means none was seen. */
    method ProcessHead(num: Uint64, fetched: Option<seq<Hash>>, arrival: Time, lastSeen: Uint64) returns (seen: Uint64)
      modifies this
      ensures !IsNew(lastSeen, num) ==> seen == lastSeen && State() == old(State())
      ensures IsNew(lastSeen, num) ==>
                seen == num && State() == if fetched.Some? then MatchAll(old(State()), fetched.value, arrival) else old(State())
    {
      if lastSeen != 0 && num <= lastSeen {
        return lastSeen;
      }
      MatchBlock(fetched, arrival);
      return num;
    }

    method Reap(now: Time)
      modifies this
      ensures State() == Reaped(old(State()), now)
    {
      var cutoff := now - reapAfter;
      ghost var was := State();
      ghost var order: seq<Hash> := [];
      var todo := inflight.Keys;
      while todo != {}
        invariant State() == ReapAll(was, order, now)
        invariant forall h :: h in was.inflight ==> h in todo || h in order
        decreases |todo|
      {
        var h :| h in todo;
        todo := todo - {h};
        ReapNext(was, order, h, now);
        order := order + [h];
        if h in inflight && inflight[h].registeredAt <= cutoff {
          inflight := inflight - {h};
          expired := expired + 1;
        }
      }
      SweepOrder(was, order, now);
    }

    /** What the tally adds up to over a run is InclusionConservation.Conservation. */
    method Summarize() returns (summary: Summary)
      ensures summary == Tally(State())
    {
      return Summary(included, expired, droppedAtCap, |inflight|);
    }
  }
}
