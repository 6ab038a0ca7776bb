/** Weighted operations: validating a mix, building the cumulative table, and drawing from it. */
module OperationPickers {
  import opened LoadTypes
  import opened WeightedList
  import MapSum

  /** An operation's wire name. */
  datatype Name = Name(text: string)

  type Mix = map<Name, Uint64>

  /** Operation names in draw order; the first is the default. */
  datatype OperationSet = OperationSet(names: seq<Name>)

  ghost predicate NoRepeats(names: seq<Name>) {
    forall i, j | 0 <= i < j < |names| :: names[i] != names[j]
  }

  /** None where the source panics. */
  method NewOperationSet(names: seq<Name>) returns (r: Option<OperationSet>)
    ensures r.Some? <==> names != [] && NoRepeats(names)
    ensures r.Some? ==> r.value.names == names
  {
    if names == [] {
      return None;
    }
    var known: set<Name> := {};
    var i := 0;
    while i < |names|
      invariant 0 <= i <= |names|
      invariant known == set k | 0 <= k < i :: names[k]
      invariant NoRepeats(names[..i])
    {
      if names[i] in known {
        var k :| 0 <= k < i && names[k] == names[i];
        assert !NoRepeats(names);
        return None;
      }
      known := known + {names[i]};
      i := i + 1;
    }
    assert names[..i] == names;
    return Some(OperationSet(names));
  }

  function Weight(mix: Mix, name: Name): Uint64 {
    if name in mix then mix[name] else 0
  }

  ghost function Sum(mix: Mix): int {
    MapSum.Sum(map name | name in mix :: mix[name] as int)
  }

  predicate Known(operations: OperationSet, mix: Mix) {
    forall name | name in mix :: name in operations.names
  }

  /** The names of the mix, each once, in some order; the source sorts them. */
  ghost predicate Enumerates(keys: seq<Name>, mix: Mix) {
    NoRepeats(keys) && forall name :: name in keys <==> name in mix
  }

  /** The true sum of the first weights. */
  function PrefixSum(names: seq<Name>, mix: Mix): nat {
    if names == [] then 0 else PrefixSum(names[..|names| - 1], mix) + Weight(mix, names[|names| - 1])
  }

  lemma SumWithout(mix: Mix, name: Name)
    ensures Sum(mix) == Weight(mix, name) + Sum(mix - {name})
  {
    var m := map x | x in mix :: mix[x] as int;
    var m' := map x | x in mix - {name} :: (mix - {name})[x] as int;
    if name in mix {
      MapSum.Remove(m, name);
      assert m' == m - {name};
    } else {
      assert mix - {name} == mix;
    }
  }

  ghost predicate Lists(names: seq<Name>, mix: Mix) {
    forall name | name in mix :: name in names
  }

  /** Leaving out the last name, and its weight, leaves the other names and weights. */
  lemma WithoutLast(names: seq<Name>, mix: Mix)
    requires names != [] && NoRepeats(names) && Lists(names, mix)
    ensures var n := |names| - 1;
            var rest := mix - {names[n]};
            Lists(names[..n], rest) && forall k | 0 <= k < n :: Weight(rest, names[..n][k]) == Weight(mix, names[..n][k])
  {
    var n := |names| - 1;
    forall name | name in mix - {names[n]} ensures name in names[..n] {
      var k :| 0 <= k < |names| && names[k] == name;
      assert names[..n][k] == name;
    }
  }

  /** Any list of distinct names that has all of the mix's names adds up to the mix's sum. */
  lemma {:induction false} SumInAnyOrder(names: seq<Name>, mix: Mix)
    requires NoRepeats(names) && Lists(names, mix)
    ensures PrefixSum(names, mix) == Sum(mix)
  {
    if names == [] {
      assert (map x | x in mix :: mix[x] as int) == map[];
    } else {
      var n := |names| - 1;
      var rest := mix - {names[n]};
      WithoutLast(names, mix);
      SumInAnyOrder(names[..n], rest);
      SamePrefix(names[..n], mix, rest);
      SumWithout(mix, names[n]);
    }
  }

  lemma {:induction false} SamePrefix(names: seq<Name>, mix: Mix, mix': Mix)
    requires forall k | 0 <= k < |names| :: Weight(mix', names[k]) == Weight(mix, names[k])
    ensures PrefixSum(names, mix) == PrefixSum(names, mix')
  {
    if names != [] {
      SamePrefix(names[..|names| - 1], mix, mix');
    }
  }

  lemma {:induction false} PrefixMonotone(names: seq<Name>, mix: Mix, k: nat)
    requires k <= |names|
    ensures PrefixSum(names[..k], mix) <= PrefixSum(names, mix)
  {
    if k == |names| {
      assert names[..k] == names;
    } else {
      PrefixMonotone(names[..|names| - 1], mix, k);
      assert names[..|names| - 1][..k] == names[..k];
    }
  }

  ghost predicate AllIn(keys: seq<Name>, names: seq<Name>) {
    forall k | 0 <= k < |keys| :: keys[k] in names
  }

  lemma KnownByKeys(operations: OperationSet, mix: Mix, keys: seq<Name>)
    requires Enumerates(keys, mix)
    ensures Known(operations, mix) <==> AllIn(keys, operations.names)
  {
    if Known(operations, mix) {
      forall k | 0 <= k < |keys| ensures keys[k] in operations.names {
        assert keys[k] in keys;
      }
    }
  }

  lemma NextKey(keys: seq<Name>, mix: Mix, names: seq<Name>, i: nat)
    requires Enumerates(keys, mix) && i < |keys|
    ensures keys[i] in mix
    ensures PrefixSum(keys[..i + 1], mix) == PrefixSum(keys[..i], mix) + Weight(mix, keys[i]) <= PrefixSum(keys, mix)
    ensures AllIn(keys[..i + 1], names) <==> AllIn(keys[..i], names) && keys[i] in names
    ensures AllIn(keys, names) ==> keys[i] in names
  {
    assert keys[i] in keys;
    assert keys[..i + 1][..i] == keys[..i];
    PrefixMonotone(keys, mix, i + 1);
    assert forall k | 0 <= k < i :: keys[..i + 1][k] == keys[..i][k];
    assert AllIn(keys[..i + 1], names) ==> keys[..i + 1][i] in names;
  }

  datatype Verdict = Accepted | NoOperations | UnknownOperation | SumOverflows | AllZero

  /** At key i, with nothing wrong before it: an undeclared name, or a sum that passes 2^64-1. */
  ghost predicate FaultAt(keys: seq<Name>, mix: Mix, names: seq<Name>, i: nat, undeclared: bool)
    requires i < |keys|
  {
    && AllIn(keys[..i], names) && PrefixSum(keys[..i], mix) <= MAX_UINT64
    && if undeclared then keys[i] !in names else keys[i] in names && PrefixSum(keys[..i + 1], mix) > MAX_UINT64
  }

  /** Which of the two the first fault in the order of `keys` is. */
  ghost predicate FirstFault(keys: seq<Name>, mix: Mix, names: seq<Name>, undeclared: bool) {
    exists i | 0 <= i < |keys| :: FaultAt(keys, mix, names, i, undeclared)
  }

  lemma FaultMeans(keys: seq<Name>, mix: Mix, names: seq<Name>)
    ensures FirstFault(keys, mix, names, true) ==> !AllIn(keys, names)
    ensures FirstFault(keys, mix, names, false) ==> PrefixSum(keys, mix) > MAX_UINT64
  {
    if FirstFault(keys, mix, names, false) {
      var i :| 0 <= i < |keys| && FaultAt(keys, mix, names, i, false);
      PrefixMonotone(keys, mix, i + 1);
    }
  }

  /** The check of a mix that is there, in the order of `keys`. */
  method ValidateMix(mix: Mix, operations: OperationSet, keys: seq<Name>) returns (v: Verdict)
    requires Enumerates(keys, mix)
    ensures !v.NoOperations?
    ensures v.Accepted? ==> AllIn(keys, operations.names) && 0 < PrefixSum(keys, mix) <= MAX_UINT64
    ensures v.AllZero? ==> AllIn(keys, operations.names) && PrefixSum(keys, mix) == 0
    ensures v.UnknownOperation? ==> FirstFault(keys, mix, operations.names, true)
    ensures v.SumOverflows? ==> FirstFault(keys, mix, operations.names, false)
  {
    var total: Uint64 := 0;
    var i := 0;
    while i < |keys|
      invariant 0 <= i <= |keys|
      invariant total == PrefixSum(keys[..i], mix)
      invariant AllIn(keys[..i], operations.names)
    {
      var name := keys[i];
      NextKey(keys, mix, operations.names, i);
      if name !in operations.names {
        assert FaultAt(keys, mix, operations.names, i, true);
        return UnknownOperation;
      }
      if WrapAdd(total, mix[name]) < total {
        assert FaultAt(keys, mix, operations.names, i, false);
        return SumOverflows;
      }
      total := WrapAdd(total, mix[name]);
      i := i + 1;
    }
    assert keys[..i] == keys;
    return if total == 0 then AllZero else Accepted;
  }

  /**
   An absent mix passes. `keys` is the order in which the names are checked: it decides which of
   an unknown name and an overflow is reported, never whether the mix is accepted.
   */
  method Validate(mix: Option<Mix>, operations: Option<OperationSet>, keys: seq<Name>) returns (v: Verdict)
    requires mix.Some? ==> Enumerates(keys, mix.value)
    ensures v.Accepted? <==>
              mix == None || (operations.Some? && Known(operations.value, mix.value) && 0 < Sum(mix.value) <= MAX_UINT64)
    ensures v.NoOperations? <==> mix.Some? && operations == None
    ensures mix.Some? && operations.Some? && Known(operations.value, mix.value) ==>
              (v.SumOverflows? <==> Sum(mix.value) > MAX_UINT64) && (v.AllZero? <==> Sum(mix.value) == 0)
    ensures v.SumOverflows? ==> Sum(mix.value) > MAX_UINT64 && FirstFault(keys, mix.value, operations.value.names, false)
    ensures v.UnknownOperation? ==>
              !Known(operations.value, mix.value) && FirstFault(keys, mix.value, operations.value.names, true)
  {
    if mix == None {
      return Accepted;
    }
    if operations == None {
      return NoOperations;
    }
    SumInAnyOrder(keys, mix.value);
    KnownByKeys(operations.value, mix.value, keys);
    FaultMeans(keys, mix.value, operations.value.names);
    v := ValidateMix(mix.value, operations.value, keys);
  }

  datatype OperationPicker = OperationPicker(names: seq<Name>, cum: seq<Uint64>, total: Uint64, fallback: Name)

  function Items(names: seq<Name>, mix: Mix): seq<(Name, nat)> {
    seq(|names|, i requires 0 <= i < |names| => (names[i], Weight(mix, names[i]) as nat))
  }

  /** The table's entry i covers the draws from the entry before it up to its own, and `list` names it at each. */
  ghost predicate Covers(p: OperationPicker, list: seq<Name>, i: nat)
    requires i < |p.cum| == |p.names|
  {
    && p.cum[i] <= |list|
    && forall u | (if i == 0 then 0 else p.cum[i - 1]) <= u < p.cum[i] :: list[u] == p.names[i]
  }

  ghost predicate Represents(p: OperationPicker, list: seq<Name>) {
    && |p.names| == |p.cum|
    && p.total == |list|
    && (p.cum == [] ==> p.total == 0)
    && (p.cum != [] ==> p.cum[|p.cum| - 1] == p.total)
    && (forall i | 0 <= i < |p.cum| :: Covers(p, list, i))
  }

  lemma NextName(names: seq<Name>, mix: Mix, i: nat)
    requires i < |names|
    ensures names[..i + 1][..i] == names[..i]
    ensures PrefixSum(names[..i + 1], mix) == PrefixSum(names[..i], mix) + Weight(mix, names[i]) <= PrefixSum(names, mix)
  {
    assert names[..i + 1][..i] == names[..i];
    PrefixMonotone(names, mix, i + 1);
  }

  /** The table over the first names, when its sum does not wrap; names without weight get no entry. */
  function Table(names: seq<Name>, mix: Mix, fallback: Name): (p: OperationPicker)
    requires PrefixSum(names, mix) <= MAX_UINT64
    ensures p.total == PrefixSum(names, mix) && p.fallback == fallback
  {
    if names == [] then OperationPicker([], [], 0, fallback)
    else
      var p := Table(names[..|names| - 1], mix, fallback);
      var weight := Weight(mix, names[|names| - 1]);
      if weight == 0 then p
      else p.(names := p.names + [names[|names| - 1]], cum := p.cum + [p.total + weight], total := p.total + weight)
  }

  lemma {:induction false} TableRepresents(names: seq<Name>, mix: Mix, fallback: Name)
    requires PrefixSum(names, mix) <= MAX_UINT64
    ensures Represents(Table(names, mix, fallback), Expand(Items(names, mix)))
  {
    if names != [] {
      var n := |names| - 1;
      TableRepresents(names[..n], mix, fallback);
      assert Items(names, mix)[..n] == Items(names[..n], mix);
      if Weight(mix, names[n]) == 0 {
        assert Expand(Items(names, mix)) == Expand(Items(names[..n], mix)) + Repeat(names[n], 0);
        assert Expand(Items(names, mix)) == Expand(Items(names[..n], mix));
      } else {
        ExtendTable(Table(names[..n], mix, fallback), Expand(Items(names[..n], mix)), names[n], Weight(mix, names[n]));
      }
    }
  }

  /** The loop of Picker. None where it panics: the running total would wrap. */
  method BuildTable(names: seq<Name>, mix: Mix, fallback: Name) returns (r: Option<OperationPicker>)
    ensures r.Some? <==> PrefixSum(names, mix) <= MAX_UINT64
    ensures r.Some? ==> r.value == Table(names, mix, fallback)
  {
    var p := OperationPicker([], [], 0, fallback);
    var i := 0;
    while i < |names|
      invariant 0 <= i <= |names|
      invariant PrefixSum(names[..i], mix) <= MAX_UINT64
      invariant p == Table(names[..i], mix, fallback)
    {
      var weight := Weight(mix, names[i]);
      NextName(names, mix, i);
      if weight != 0 {
        if WrapAdd(p.total, weight) < p.total {
          return None;
        }
        p := p.(total := WrapAdd(p.total, weight));
        p := p.(names := p.names + [names[i]], cum := p.cum + [p.total]);
      }
      i := i + 1;
    }
    assert names[..i] == names;
    return Some(p);
  }

  /** None where the source panics: an undeclared name, or weights that sum past uint64. */
  method Picker(operations: OperationSet, mix: Mix) returns (r: Option<OperationPicker>)
    requires operations.names != [] && NoRepeats(operations.names)
    ensures r.Some? <==> Known(operations, mix) && Sum(mix) <= MAX_UINT64
    ensures r.Some? ==> r.value.total == Sum(mix) && r.value.fallback == operations.names[0]
                        && Represents(r.value, Expand(Items(operations.names, mix)))
  {
    if !Known(operations, mix) {
      return None;
    }
    SumInAnyOrder(operations.names, mix);
    r := BuildTable(operations.names, mix, operations.names[0]);
    if r.Some? {
      TableRepresents(operations.names, mix, operations.names[0]);
    }
  }

  lemma ExtendTable(p: OperationPicker, list: seq<Name>, name: Name, weight: Uint64)
    requires Represents(p, list) && weight > 0 && p.total + weight <= MAX_UINT64
    ensures Represents(p.(names := p.names + [name], cum := p.cum + [p.total + weight], total := p.total + weight),
                       list + Repeat(name, weight))
  {
    var p' := p.(names := p.names + [name], cum := p.cum + [p.total + weight], total := p.total + weight);
    forall i | 0 <= i < |p'.cum| ensures Covers(p', list + Repeat(name, weight), i) {
      assert i < |p.cum| ==> Covers(p, list, i);
    }
  }

  /** `u` is the random draw from [0, total), which is not made when total is 0. */
  method Select(p: OperationPicker, u: Uint64, ghost list: seq<Name>) returns (name: Name)
    requires Represents(p, list) && (p.total > 0 ==> u < p.total)
    ensures p.total == 0 ==> name == p.fallback
    ensures p.total > 0 ==> name == list[u]
  {
    name := p.fallback;
    if p.total == 0 {
      return;
    }
    var i := 0;
    while i < |p.cum|
      invariant 0 <= i <= |p.cum|
      invariant i > 0 ==> p.cum[i - 1] <= u
    {
      if u < p.cum[i] {
        assert Covers(p, list, i);
        return p.names[i];
      }
      i := i + 1;
    }
    assert false;                  // the last entry of the table is the total
  }

  /**
   Exactness: among the names Select returns for the draws 0, 1, ... below the total, each name
   occurs exactly mix[name] times, so an undeclared name never does; and they come in declared order.
   */
  lemma SelectionIsExact(operations: OperationSet, mix: Mix, name: Name)
    requires NoRepeats(operations.names) && Known(operations, mix)
    ensures var list := Expand(Items(operations.names, mix));
            && |list| == Sum(mix)
            && multiset(list)[name] == (if name in mix then mix[name] as int else 0)
            && forall u, v | 0 <= u <= v < |list| :: DeclaredInOrder(operations.names, list[u], list[v])
  {
    var items := Items(operations.names, mix);
    ExpandLength(items);
    TotalIsSum(operations.names, mix);
    SumInAnyOrder(operations.names, mix);
    var list := Expand(items);
    forall u, v | 0 <= u <= v < |list| ensures DeclaredInOrder(operations.names, list[u], list[v]) {
      var i, j := ExpandInOrder(items, u, v);
      assert operations.names[i] == list[u] && operations.names[j] == list[v];
    }
    if name in operations.names {
      var i :| 0 <= i < |operations.names| && operations.names[i] == name;
      CountPresent(items, i);
    } else {
      CountAbsent(items, name);
    }
  }

  ghost predicate DeclaredInOrder(names: seq<Name>, first: Name, second: Name) {
    exists i, j :: 0 <= i <= j < |names| && names[i] == first && names[j] == second
  }

  lemma {:induction false} TotalIsSum(names: seq<Name>, mix: Mix)
    ensures Total(Items(names, mix)) == PrefixSum(names, mix)
  {
    if names != [] {
      TotalIsSum(names[..|names| - 1], mix);
      assert Items(names, mix)[..|names| - 1] == Items(names[..|names| - 1], mix);
    }
  }
}
