/** The semi-adaptive model of the Tornado arithmetic coder: counts in use, live
    counts that replace them when the difference is used up, and an index by bins. */
module TorCounter {
  import opened Counting

  const TOP: nat := 16384
  const BINS: nat := 2048
  const STEP: nat := 8

  // Every symbol can be coded.
  predicate AllLive(s: seq<nat>) {
    forall i :: 0 <= i < |s| ==> s[i] >= 1
  }

  function Sub(c: nat): nat {
    if c > 1 && c < 6 then 1 else c / 6
  }

  // Live counts after rescaling.
  function Shrunk(s: seq<nat>): (r: seq<nat>)
    ensures |r| == |s|
  {
    seq(|s|, i requires 0 <= i < |s| => if s[i] < Sub(s[i]) then 0 else s[i] - Sub(s[i]))
  }

  /** A count loses a sixth, or one when it is less than six, but never its last. */
  lemma ShrunkMeans(s: seq<nat>, i: nat)
    requires i < |s|
    ensures var c := s[i]; var less := c - Shrunk(s)[i];
            if c <= 1 then less == 0 else if c < 6 then less == 1 else 6 * less <= c < 6 * less + 6
  {
  }

  lemma SubOk(c: nat)
    requires c >= 1
    ensures Sub(c) < c && (c > 1 ==> Sub(c) >= 1)
  {
  }

  /** Rescaling leaves every symbol live, and frees something unless all counts are 1. */
  lemma {:induction false} ShrunkSum(s: seq<nat>)
    requires AllLive(s)
    ensures AllLive(Shrunk(s)) && |s| <= Sum(Shrunk(s)) <= Sum(s)
    ensures Sum(s) > |s| ==> Sum(Shrunk(s)) < Sum(s)
  {
    if s != [] {
      var n := |s| - 1;
      ShrunkSum(s[..n]);
      SubOk(s[n]);
      assert Shrunk(s)[..n] == Shrunk(s[..n]);
    }
  }

  /** Symbol x owns count v. */
  predicate Owns(cum: seq<nat>, cnt: seq<nat>, x: nat, v: nat) {
    x < |cum| && x < |cnt| && cum[x] <= v < cum[x] + cnt[x]
  }

  ghost predicate Cumulative(cnt: seq<nat>, cum: seq<nat>, n: nat) {
    n <= |cnt| == |cum| && forall x :: 0 <= x < n ==> cum[x] == Sum(cnt[..x])
  }

  // The bins whose first value is below the total so far are indexed.
  ghost predicate Indexed(cnt: seq<nat>, cum: seq<nat>, index: seq<nat>, ind: nat, n: nat) {
    && ind <= |index| == BINS && n <= |cnt| == |cum|
    && forall b :: 0 <= b < ind ==> index[b] < n && Owns(cum, cnt, index[b], STEP * b)
  }

  /** No count has two owners. */
  lemma OwnerUnique(cnt: seq<nat>, cum: seq<nat>, x: nat, y: nat, v: nat)
    requires Cumulative(cnt, cum, |cnt|) && Owns(cum, cnt, x, v) && Owns(cum, cnt, y, v)
    ensures x == y
  {
    if x < y {
      SumMono(cnt, x + 1, y);
      SumSnoc(cnt, x);
    } else if y < x {
      SumMono(cnt, y + 1, x);
      SumSnoc(cnt, y);
    }
  }

  class Counter {
    const n: nat
    var remainder: nat
    const cnt: array<nat>
    const cum: array<nat>
    const live: array<nat>
    const index: array<nat>

    ghost predicate Sized()
      reads this
    {
      && 0 < n < TOP && cnt.Length == cum.Length == live.Length == n && index.Length == BINS
      && cnt != cum && cnt != live && cnt != index && cum != live && cum != index && live != index
    }

    /** Counts in use are at least 1 and add up to 16384; live counts and the
        remainder do too, and something remains. */
    ghost predicate Valid()
      reads this, cnt, cum, live, index
    {
      && Sized()
      && AllLive(cnt[..]) && Sum(cnt[..]) == TOP
      && AllLive(live[..]) && Sum(live[..]) + remainder == TOP && remainder >= 1
      && Cumulative(cnt[..], cum[..], n)
      && Indexed(cnt[..], cum[..], index[..], BINS, n)
    }

    constructor (size: nat)
      requires 0 < size < TOP
      ensures Valid() && n == size && fresh(cnt) && fresh(cum) && fresh(live) && fresh(index)
    {
      hide FirstShare, Shrunk, Sum, AllLive;
      n := size;
      cnt, cum, live, index := new nat[size](_ => 0), new nat[size](_ => 0), new nat[size](_ => 0), new nat[BINS](_ => 0);
      remainder := 0;
      new;
      var base := TOP / n;
      var extra := TOP - base * n;
      ghost var first := First(n);
      FirstLive(n);
      for s := 0 to n
        invariant Sized() && forall k :: 0 <= k < s ==> live[k] == first[k]
      {
        FirstIs(n, s, base, extra);
        live[s] := base + if s < extra then 1 else 0;
      }
      assert live[..] == first;
      Rescale();
    }

    /** rescale: the live counts come into use, and shrink. */
    method Rescale()
      requires Sized() && AllLive(live[..]) && Sum(live[..]) == TOP
      modifies this`remainder, cnt, cum, live, index
      ensures Valid() && cnt[..] == old(live[..]) && live[..] == Shrunk(old(live[..]))
    {
      hide Sum, Sub, Owns, AllLive, Shrunk;
      ghost var was, now := live[..], Shrunk(live[..]);
      var total: nat := 0;
      remainder := TOP;
      var ind: nat := 0;
      ShrunkSum(was);
      Nothing(was, now);
      FewerThanTop(was, n);
      for s := 0 to n
        invariant Sized() && |was| == |now| == n && total == Sum(was[..s]) <= TOP && ind <= BINS
        invariant remainder + Sum(now[..s]) == TOP
        invariant forall k :: 0 <= k < s ==> cnt[k] == was[k] && cum[k] == Sum(was[..k]) && live[k] == now[k]
        invariant forall k :: s <= k < n ==> live[k] == was[k]
        invariant Indexed(cnt[..], cum[..], index[..], ind, s) && (ind < BINS ==> total <= STEP * ind)
      {
        SumSnoc(was, s);
        SumSnoc(now, s);
        SumMono(was, s + 1, n);
        SumMono(now, s + 1, n);
        assert was[..n] == was && now[..n] == now;
        LiveAt(was, s);
        ghost var cnt0, cum0 := cnt[..], cum[..];
        cnt[s] := live[s];
        cum[s] := total;
        total := total + cnt[s];
        var sub := live[s] / 6;
        if live[s] > 1 && live[s] < 6 {
          sub := 1;
        }
        live[s] := live[s] - sub;
        remainder := remainder - live[s];
        IndexedLonger(cnt0, cum0, cnt[..], cum[..], index[..], ind, s);
        ind := FillBins(s, ind, total);
      }
      assert was[..n] == was && now[..n] == now;
      assert cnt[..] == was && live[..] == now;
    }

    // Each bin that starts in the range of symbol s points to it.
    method FillBins(s: nat, from: nat, total: nat) returns (ind: nat)
      requires Sized() && s < n && Indexed(cnt[..], cum[..], index[..], from, s + 1) && total == cum[s] + cnt[s] && cnt[s] >= 1
      requires from < BINS ==> cum[s] <= STEP * from
      modifies index
      ensures Indexed(cnt[..], cum[..], index[..], ind, s + 1) && (ind < BINS ==> total <= STEP * ind)
    {
      hide Owns;
      ind := from;
      while ind < BINS && cum[s] + cnt[s] - 1 >= STEP * ind
        invariant Indexed(cnt[..], cum[..], index[..], ind, s + 1) && (ind < BINS ==> cum[s] <= STEP * ind)
      {
        OwnsIt(cnt[..], cum[..], s, STEP * ind);
        index[ind] := s;
        ind := ind + 1;
      }
    }

    /** inc: a symbol was seen. The remainder never goes below zero. */
    method Inc(s: nat)
      requires Valid() && s < n
      modifies this`remainder, cnt, cum, live, index
      ensures Valid()
      ensures if old(remainder) == 1
              then cnt[..] == old(live[..])[s := old(live[s]) + 1] && live[..] == Shrunk(cnt[..])
              else cnt[..] == old(cnt[..]) && live[..] == old(live[..])[s := old(live[s]) + 1] && remainder == old(remainder) - 1
    {
      hide Sum, Shrunk, Cumulative, Indexed;
      SumUpdate(live[..], s, live[s] + 1);
      ghost var was := live[..];
      live[s] := live[s] + 1;
      assert live[..] == was[s := was[s] + 1];
      remainder := remainder - 1;
      if remainder == 0 {
        Rescale();
      }
    }

    /** decode: the symbol that owns the count. */
    method Decode(count: nat) returns (s: nat, ok: bool)
      requires Valid()
      ensures ok <==> count < TOP
      ensures ok ==> s < n && Owns(cum[..], cnt[..], s, count)
    {
      hide Sum, AllLive;
      if count >= TOP {
        return 0, false;
      }
      s := index[count / STEP];
      assert Owns(cum[..], cnt[..], index[count / STEP], STEP * (count / STEP));
      while s < n && cum[s] + cnt[s] - 1 < count
        invariant s <= n && (s < n ==> cum[s] <= count)
        invariant s == n ==> Sum(cnt[..]) <= count
        decreases n - s
      {
        NextCum(cnt[..], cum[..], s);
        s := s + 1;
      }
      ok := s < n;
      LiveAt(cnt[..], s);
    }
  }

  lemma Nothing(was: seq<nat>, now: seq<nat>)
    requires |was| == |now|
    ensures Sum(was[..0]) == 0 && Sum(now[..0]) == 0
  {
  }

  lemma FewerThanTop(was: seq<nat>, n: nat)
    requires |was| == n < TOP && Sum(was) == TOP && AllLive(was)
    ensures Sum(Shrunk(was)) < TOP
  {
    ShrunkSum(was);
  }

  lemma LiveAt(s: seq<nat>, i: nat)
    requires AllLive(s) && i < |s|
    ensures s[i] >= 1 && Shrunk(s)[i] == s[i] - Sub(s[i]) && Sub(s[i]) == if s[i] > 1 && s[i] < 6 then 1 else s[i] / 6
  {
    SubOk(s[i]);
  }

  lemma OwnsIt(cnt: seq<nat>, cum: seq<nat>, s: nat, v: nat)
    requires s < |cnt| == |cum| && cum[s] <= v < cum[s] + cnt[s]
    ensures Owns(cum, cnt, s, v)
  {
  }

  lemma IndexedLonger(cnt0: seq<nat>, cum0: seq<nat>, cnt: seq<nat>, cum: seq<nat>, index: seq<nat>, ind: nat, s: nat)
    requires Indexed(cnt0, cum0, index, ind, s) && |cnt| == |cum| == |cnt0| == |cum0| && s < |cnt|
    requires forall k :: 0 <= k < s ==> cnt[k] == cnt0[k] && cum[k] == cum0[k]
    ensures Indexed(cnt, cum, index, ind, s + 1)
  {
  }

  lemma NextCum(cnt: seq<nat>, cum: seq<nat>, s: nat)
    requires Cumulative(cnt, cum, |cnt|) && s < |cnt|
    ensures s + 1 < |cnt| ==> cum[s + 1] == cum[s] + cnt[s]
    ensures s + 1 == |cnt| ==> Sum(cnt) == cum[s] + cnt[s]
  {
    SumSnoc(cnt, s);
    assert s + 1 == |cnt| ==> cnt[..s + 1] == cnt;
  }

  /** The first shares: equal, but for the first few. */
  function FirstShare(n: nat, k: nat): nat
    requires n > 0
  {
    TOP / n + if k < TOP % n then 1 else 0
  }

  lemma FirstIs(n: nat, k: nat, base: nat, extra: int)
    requires 0 < n && base == TOP / n && extra == TOP - base * n
    ensures base + (if k < extra then 1 else 0) == FirstShare(n, k)
  {
    assert TOP == n * base + TOP % n;
  }

  function First(n: nat): (first: seq<nat>)
    requires n > 0
    ensures |first| == n && forall k :: 0 <= k < n ==> first[k] == FirstShare(n, k)
  {
    seq(n, k requires 0 <= k < n => FirstShare(n, k))
  }

  lemma FirstLive(n: nat)
    requires 0 < n < TOP
    ensures AllLive(First(n)) && Sum(First(n)) == TOP
  {
    Shares(n, TOP / n, TOP - TOP / n * n);
    assert TOP - TOP / n * n == TOP % n;
    FirstSum(First(n), TOP / n, TOP % n, n);
    assert First(n)[..n] == First(n);
  }

  lemma {:induction false} FirstSum(first: seq<nat>, base: nat, extra: nat, s: nat)
    requires s <= |first| && forall k :: 0 <= k < |first| ==> first[k] == base + if k < extra then 1 else 0
    ensures Sum(first[..s]) == base * s + if s < extra then s else extra
  {
    if s > 0 {
      FirstSum(first, base, extra, s - 1);
      SumSnoc(first, s - 1);
      assert base * s == base * (s - 1) + base;
    }
  }

  lemma Shares(n: nat, base: nat, extra: int)
    requires 0 < n < TOP && base == TOP / n && extra == TOP - base * n
    ensures base >= 1 && 0 <= extra < n && base * n + extra == TOP
  {
    assert TOP == n * base + TOP % n && TOP % n < n;
    assert base == 0 ==> n * base == 0;
  }
}
