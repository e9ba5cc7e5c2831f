/** Counting and adding up. */
module Counting {

  function One(b: bool): nat { if b then 1 else 0 }

  function Sum(s: seq<nat>): nat {
    if s == [] then 0 else Sum(s[..|s| - 1]) + s[|s| - 1]
  }

  lemma SumSnoc(s: seq<nat>, i: nat)
    requires i < |s|
    ensures Sum(s[..i + 1]) == Sum(s[..i]) + s[i]
  {
    assert s[..i + 1][..i] == s[..i];
  }

  lemma SumLast(s: seq<nat>)
    requires s != []
    ensures Sum(s) == Sum(s[..|s| - 1]) + s[|s| - 1]
  {
  }

  lemma {:induction false} SumUpdate(s: seq<nat>, i: nat, x: nat)
    requires i < |s|
    ensures Sum(s[i := x]) == Sum(s) - s[i] + x
  {
    var n := |s| - 1;
    if i < n {
      SumUpdate(s[..n], i, x);
      assert s[i := x][..n] == s[..n][i := x];
    } else {
      assert s[i := x][..n] == s[..n];
    }
  }

  lemma {:induction false} SumMono(s: seq<nat>, i: nat, j: nat)
    requires i <= j <= |s|
    ensures Sum(s[..i]) <= Sum(s[..j])
    decreases j
  {
    if i < j {
      SumMono(s, i, j - 1);
      SumSnoc(s, j - 1);
    }
  }

  lemma {:induction false} SumWithout(s: seq<nat>, q: nat)
    requires q < |s|
    ensures Sum(s) == Sum(s[..q] + s[q + 1..]) + s[q]
  {
    hide Sum;
    var n := |s| - 1;
    if q == n {
      SumLast(s);
      assert s[..q] + s[q + 1..] == s[..n];
    } else {
      SumWithout(s[..n], q);
      var t := s[..q] + s[q + 1..];
      SumLast(t);
      SumLast(s);
      assert t[..n - 1] == s[..n][..q] + s[..n][q + 1..] && t[n - 1] == s[n];
    }
  }
}
