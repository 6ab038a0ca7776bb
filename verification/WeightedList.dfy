/** A list in which every item stands as often as its weight says, in the items' order. */
module WeightedList {
  function Repeat<T>(x: T, n: nat): seq<T> {
    seq(n, _ => x)
  }

  function Expand<T>(items: seq<(T, nat)>): seq<T> {
    if items == [] then []
    else Expand(items[..|items| - 1]) + Repeat(items[|items| - 1].0, items[|items| - 1].1)
  }

  function Total<T>(items: seq<(T, nat)>): nat {
    if items == [] then 0 else Total(items[..|items| - 1]) + items[|items| - 1].1
  }

  ghost predicate Distinct<T>(items: seq<(T, nat)>) {
    forall i, j | 0 <= i < j < |items| :: items[i].0 != items[j].0
  }

  lemma {:induction false} ExpandLength<T>(items: seq<(T, nat)>)
    ensures |Expand(items)| == Total(items)
  {
    if items != [] {
      ExpandLength(items[..|items| - 1]);
    }
  }

  /** The items stand in their order: what comes earlier in the list comes no later among the items. */
  lemma {:induction false} ExpandInOrder<T>(items: seq<(T, nat)>, u: nat, v: nat) returns (i: nat, j: nat)
    requires u <= v < |Expand(items)|
    ensures i <= j < |items| && Expand(items)[u] == items[i].0 && Expand(items)[v] == items[j].0
  {
    var n := |items| - 1;
    if v < |Expand(items[..n])| {
      i, j := ExpandInOrder(items[..n], u, v);
    } else {
      j := n;
      if u < |Expand(items[..n])| {
        var k;
        i, k := ExpandInOrder(items[..n], u, u);
      } else {
        i := n;
      }
    }
  }

  lemma {:induction false} RepeatCount<T>(x: T, n: nat, y: T)
    ensures multiset(Repeat(x, n))[y] == if x == y then n else 0
  {
    if n > 0 {
      RepeatCount(x, n - 1, y);
      assert Repeat(x, n) == Repeat(x, n - 1) + [x];
    }
  }

  lemma {:induction false} CountAbsent<T>(items: seq<(T, nat)>, x: T)
    requires forall i | 0 <= i < |items| :: items[i].0 != x
    ensures multiset(Expand(items))[x] == 0
  {
    if items != [] {
      var n := |items| - 1;
      CountAbsent(items[..n], x);
      RepeatCount(items[n].0, items[n].1, x);
    }
  }

  /** Each of the distinct items occurs exactly its weight's number of times. */
  lemma {:induction false} CountPresent<T>(items: seq<(T, nat)>, i: nat)
    requires Distinct(items) && i < |items|
    ensures multiset(Expand(items))[items[i].0] == items[i].1
  {
    var n := |items| - 1;
    RepeatCount(items[n].0, items[n].1, items[i].0);
    if i < n {
      CountPresent(items[..n], i);
    } else {
      CountAbsent(items[..n], items[i].0);
    }
  }
}
