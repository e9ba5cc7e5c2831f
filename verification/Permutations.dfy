/** Orders in which each number below a bound comes once. */
module Permutations {
  import opened Counting

  // Each of the first n numbers once.
  predicate Perm(order: seq<nat>, n: nat) {
    && |order| == n && (forall k :: 0 <= k < n ==> order[k] < n)
    && forall a, b :: 0 <= a < b < n ==> order[a] != order[b]
  }

  function Upto(n: nat): (s: set<nat>)
    ensures |s| == n && forall k: nat :: k in s <==> k < n
  {
    if n == 0 then {} else
      var t := Upto(n - 1);
      assert n - 1 !in t;
      t + {n - 1}
  }

  function Elems(order: seq<nat>): set<nat> { set k | k in order }

  lemma {:induction false} Distinct(order: seq<nat>)
    requires forall a, b :: 0 <= a < b < |order| ==> order[a] != order[b]
    ensures |Elems(order)| == |order|
  {
    if order != [] {
      var n := |order| - 1;
      Distinct(order[..n]);
      assert Elems(order) == Elems(order[..n]) + {order[n]};
    }
  }

  lemma Everyone(order: seq<nat>, n: nat, k: nat)
    requires Perm(order, n) && k < n
    ensures exists a :: 0 <= a < n && order[a] == k
  {
    Distinct(order);
    SameSize(Elems(order), Upto(n));
    assert k in Elems(order);
  }

  lemma SameSize(s: set<nat>, t: set<nat>)
    requires s <= t && |s| == |t|
    ensures s == t
  {
    assert t == s + (t - s);
    assert |t| == |s| + |t - s|;
  }

  lemma Removed(order: seq<nat>, q: nat, n: nat)
    requires Perm(order, n + 1) && q <= n && order[q] == n
    ensures Perm(order[..q] + order[q + 1..], n)
  {
    var rest := order[..q] + order[q + 1..];
    forall k | 0 <= k < n
      ensures rest[k] < n
    {
      assert rest[k] == order[if k < q then k else k + 1];
    }
    forall a, b | 0 <= a < b < n
      ensures rest[a] != rest[b]
    {
      assert rest[a] == order[if a < q then a else a + 1] && rest[b] == order[if b < q then b else b + 1];
    }
  }

  function Arranged(cs: seq<nat>, order: seq<nat>): (r: seq<nat>)
    requires forall x :: 0 <= x < |order| ==> order[x] < |cs|
    ensures |r| == |order|
  {
    seq(|order|, x requires 0 <= x < |order| => cs[order[x]])
  }

  lemma ArrangedWithout(cs: seq<nat>, order: seq<nat>, q: nat)
    requires cs != [] && Perm(order, |cs|) && q < |cs| && order[q] == |cs| - 1
    requires Perm(order[..q] + order[q + 1..], |cs| - 1)
    ensures Arranged(cs, order)[..q] + Arranged(cs, order)[q + 1..] == Arranged(cs[..|cs| - 1], order[..q] + order[q + 1..])
  {
  }

  /** Adding up in another order gives the same. */
  lemma {:induction false} SumArranged(cs: seq<nat>, order: seq<nat>)
    requires Perm(order, |cs|)
    ensures Sum(Arranged(cs, order)) == Sum(cs)
  {
    hide Sum;
    if cs == [] {
      assert Arranged(cs, order) == [];
    } else {
      var n := |cs| - 1;
      Everyone(order, n + 1, n);
      var q :| 0 <= q <= n && order[q] == n;
      var rest: seq<nat> := order[..q] + order[q + 1..];
      Removed(order, q, n);
      SumArranged(cs[..n], rest);
      SumWithout(Arranged(cs, order), q);
      ArrangedWithout(cs, order, q);
      SumLast(cs);
    }
  }
}
