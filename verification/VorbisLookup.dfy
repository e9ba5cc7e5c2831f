/** The size of a codebook's value table: an integer root by bisection. */
module VorbisLookup {

  function Pow(b: nat, d: nat): nat {
    if d == 0 then 1 else Pow(b, d - 1) * b
  }

  lemma {:induction false} PowGrows(a: nat, b: nat, d: nat)
    requires a <= b
    ensures Pow(a, d) <= Pow(b, d)
  {
    if d > 0 {
      PowGrows(a, b, d - 1);
      Product(Pow(a, d - 1), Pow(b, d - 1), a, b);
    }
  }

  lemma Product(a: nat, b: nat, x: nat, y: nat)
    requires a <= b && x <= y
    ensures a * x <= b * y
  {
    assert b * y == a * x + (b - a) * x + b * (y - x);
  }

  lemma {:induction false} PowLonger(b: nat, d: nat, e: nat)
    requires b >= 1 && d <= e
    ensures 1 <= Pow(b, d) <= Pow(b, e)
    decreases e
  {
    if d < e {
      PowLonger(b, d, e - 1);
      Product(Pow(b, e - 1), Pow(b, e - 1), 1, b);
    } else if d > 0 {
      PowLonger(b, d - 1, d - 1);
      Product(1, Pow(b, d - 1), 1, b);
    }
  }

  lemma TooMuch(v: nat, mid: nat, entries: nat)
    requires mid > 0
    ensures v > entries / mid <==> v * mid > entries
  {
    var q, r := entries / mid, entries % mid;
    assert entries == q * mid + r;
    if v > q {
      Product(q + 1, v, mid, mid);
    } else {
      Product(v, q, mid, mid);
    }
  }

  /** The inner loop: whether mid to the power dim is at most entries, never multiplying past it. */
  method PowerFits(mid: nat, dim: nat, entries: nat) returns (fits: bool)
    requires mid >= 1 && entries >= 1
    ensures fits <==> Pow(mid, dim) <= entries
  {
    var v, i := 1, 0;
    while i < dim && v <= entries
      invariant 0 <= i <= dim && v == Pow(mid, i) <= entries
    {
      TooMuch(v, mid, entries);
      if v > entries / mid {
        PowLonger(mid, i + 1, dim);
        return false;
      }
      v := v * mid;
      i := i + 1;
    }
    fits := true;
  }

  /** lookupCount: the greatest number whose power dim is at most entries (section 9.2.3
      of the Vorbis I specification); entries itself where dim is 0, and 1 without entries. */
  method LookupCount(entries: nat, dim: nat) returns (lo: nat)
    ensures entries >= 1 && dim >= 1 ==> lo >= 1 && Pow(lo, dim) <= entries < Pow(lo + 1, dim)
    ensures dim == 0 && entries >= 1 ==> lo == entries
    ensures entries == 0 ==> lo == 1
  {
    lo := 1;
    var hi := entries;
    assert Pow(1, dim) == 1 by { OneStays(dim); }
    if entries >= 1 && dim >= 1 {
      PastEnd(entries, dim);
    }
    while lo < hi
      invariant entries == 0 ==> lo == 1
      invariant entries >= 1 ==> 1 <= lo <= hi <= entries && Pow(lo, dim) <= entries
      invariant entries >= 1 && dim >= 1 ==> entries < Pow(hi + 1, dim)
      invariant dim == 0 ==> hi == entries
      decreases hi - lo
    {
      var mid := lo + (hi - lo + 1) / 2;
      var fits := PowerFits(mid, dim, entries);
      if fits {
        lo := mid;
      } else {
        hi := mid - 1;
      }
    }
  }

  lemma {:induction false} OneStays(d: nat)
    ensures Pow(1, d) == 1
  {
    if d > 0 {
      OneStays(d - 1);
    }
  }

  lemma PastEnd(n: nat, d: nat)
    requires d >= 1
    ensures n < Pow(n + 1, d)
  {
    PowLonger(n + 1, 1, d);
    assert Pow(n + 1, 1) == Pow(n + 1, 0) * (n + 1) == n + 1;
  }

  /** No other number has that property. */
  lemma RootUnique(entries: nat, dim: nat, a: nat, b: nat)
    requires Pow(a, dim) <= entries < Pow(a + 1, dim) && Pow(b, dim) <= entries < Pow(b + 1, dim)
    ensures a == b
  {
    if a < b {
      PowGrows(a + 1, b, dim);
    } else if b < a {
      PowGrows(b + 1, a, dim);
    }
  }
}
