/** The rANS entropy decoder, and the encoder it undoes: every operation takes one
    slice of the state's range out of it, and reads bytes until it is large again. */
module AnsCoder {
  import opened Bytes

  type u16 = x: int | 0 <= x < 0x1_0000 witness 0

  const LOWER: nat := 0x80_0000

  function Pow2(n: nat): (r: nat)
    ensures r > 0
  {
    if n == 0 then 1 else 2 * Pow2(n - 1)
  }

  lemma {:induction false} Pow2Add(a: nat, b: nat)
    ensures Pow2(a + b) == Pow2(a) * Pow2(b)
  {
    if b > 0 {
      Pow2Add(a, b - 1);
    }
  }

  lemma Pow2Values()
    ensures Pow2(5) == 32 && Pow2(14) == 16384 && Pow2(15) == 32768 && Pow2(16) == 65536 && Pow2(23) == LOWER
  {
    assert Pow2(5) == 32;
    assert Pow2(10) == 32 * Pow2(5);
    assert Pow2(14) == 16 * Pow2(10);
    assert Pow2(15) == 2 * Pow2(14) && Pow2(16) == 2 * Pow2(15);
    assert Pow2(20) == 16 * Pow2(16) && Pow2(23) == 8 * Pow2(20);
  }

  lemma Pow32()
    ensures Pow2(32) == U32
  {
    Pow2Values();
    Pow2Add(16, 16);
  }

  lemma {:induction false} Pow2Mono(a: nat, b: nat)
    requires a <= b
    ensures Pow2(a) <= Pow2(b)
  {
    if a < b {
      Pow2Mono(a, b - 1);
    }
  }

  // ----- slices -----

  /** The part of each block of `total` states that stands for one value. */
  datatype Slice = Slice(start: nat, size: nat, total: nat)

  // `total` divides the lower bound of the state.
  predicate Sliced(t: Slice, q: nat) {
    0 < t.size && t.start + t.size <= t.total && t.total * q == LOWER
  }

  /** The decoder's step. */
  function Take(x: nat, t: Slice): int
    requires t.total > 0
  {
    t.size * (x / t.total) + x % t.total - t.start
  }

  /** The encoder's. */
  function Give(y: nat, t: Slice): (x: nat)
    requires t.size > 0
  {
    (y / t.size) * t.total + y % t.size + t.start
  }

  lemma Stride(a: nat, b: nat, p: nat)
    ensures a < b ==> a * p + p <= b * p
  {
    if a < b {
      assert b * p == a * p + p + (b - a - 1) * p;
      Product(b - a - 1, p);
    }
  }

  lemma DivUnique(q: nat, r: nat, p: nat)
    requires r < p
    ensures (q * p + r) / p == q && (q * p + r) % p == r
  {
    var x := q * p + r;
    var q', r' := x / p, x % p;
    assert x == q' * p + r';
    Stride(q', q, p);
    Stride(q, q', p);
  }

  lemma TakeGive(y: nat, t: Slice)
    requires 0 < t.size && t.start + t.size <= t.total
    ensures Take(Give(y, t), t) == y
    ensures t.start <= Give(y, t) % t.total < t.start + t.size
  {
    DivUnique(y / t.size, y % t.size + t.start, t.total);
  }

  lemma Product(a: nat, b: nat)
    ensures a * b >= 0
  {
  }

  // Taking a slice never makes the state larger.
  lemma TakeShrinks(x: nat, t: Slice)
    requires 0 < t.size && t.start + t.size <= t.total && t.start <= x % t.total < t.start + t.size
    ensures 0 <= Take(x, t) <= x
  {
    var q := x / t.total;
    Product(t.size, q);
    assert t.size * q <= t.total * q by { Scaled(t.size, t.total, q); }
    assert x == t.total * q + x % t.total;
  }

  lemma Scaled(a: nat, b: nat, c: nat)
    ensures a <= b ==> a * c <= b * c && c * a <= c * b
  {
  }

  lemma Quotient(d: nat, r: nat, s: nat, q: nat)
    requires r < s
    ensures q * s <= d * s + r ==> q <= d
    ensures d * s + r < q * s ==> d < q
  {
    Stride(d, q, s);
    Scaled(q, d, s);
  }

  lemma InRange(d: nat, r: nat, p: nat, q: nat)
    requires q <= d < 256 * q && r < p
    ensures p * q <= d * p + r < 256 * (p * q)
  {
    Scaled(q, d, p);
    Stride(d, 256 * q, p);
    assert (256 * q) * p == 256 * (p * q);
  }

  /** In range before the step, in range after it. */
  lemma GiveBounds(y: nat, t: Slice, q: nat)
    requires Sliced(t, q) && t.size * q <= y < 256 * (t.size * q)
    ensures LOWER <= Give(y, t) < 256 * LOWER
  {
    var d, r, s := y / t.size, y % t.size, t.size;
    assert y == d * s + r;
    assert (256 * q) * s == 256 * (s * q) && q * s == s * q;
    Quotient(d, r, s, q);
    Quotient(d, r, s, 256 * q);
    InRange(d, r + t.start, t.total, q);
  }

  // ----- bytes in and out -----

  datatype Coder = Coder(x: nat, rest: seq<byte>, failed: bool)

  /** normalize: bytes are read until the state is at least LOWER. */
  function Refill(x: nat, rest: seq<byte>): (c: Coder)
    ensures !c.failed ==> c.x >= LOWER
    ensures x < 256 * LOWER ==> c.x < 256 * LOWER
    ensures c.x < LOWER || c.x < 256 * LOWER || c.x == x
    decreases |rest|
  {
    if x >= LOWER then Coder(x, rest, false)
    else if rest == [] then Coder(x, rest, true)
    else Refill(x * 256 + rest[0], rest[1..])
  }

  function Normal(c: Coder): Coder {
    if c.failed then c else Refill(c.x, c.rest)
  }

  lemma NormalStep(c: Coder)
    ensures c.failed || c.x >= LOWER ==> Normal(c) == c
    ensures !c.failed && c.x < LOWER && c.rest == [] ==> Normal(c) == Coder(c.x, [], true)
    ensures !c.failed && c.x < LOWER && c.rest != [] ==> Normal(c) == Normal(Coder(c.x * 256 + c.rest[0], c.rest[1..], false))
  {
  }

  datatype Emitted = Emitted(x: nat, bytes: seq<byte>)

  /** The encoder's counterpart: low bytes leave until the state is below `bound`.
      They are listed in the order the decoder reads them. */
  function Shed(x: nat, bound: nat): Emitted
    requires bound > 0
  {
    if x < bound then Emitted(x, [])
    else
      var e := Shed(x / 256, bound);
      Emitted(e.x, e.bytes + [x % 256])
  }

  lemma {:induction false} ShedBounds(x: nat, low: nat)
    requires 0 < low <= x
    ensures low <= Shed(x, 256 * low).x < 256 * low
  {
    if x >= 256 * low {
      ShedBounds(x / 256, low);
    }
  }

  /** What the encoder sheds, the decoder reads back, and no more. */
  lemma {:induction false} RefillShed(x: nat, bound: nat, more: seq<byte>)
    requires bound > 0 && x < 256 * LOWER
    ensures Refill(Shed(x, bound).x, Shed(x, bound).bytes + more) == Refill(x, more)
  {
    if x >= bound {
      var e := Shed(x / 256, bound);
      var b: byte := x % 256;
      RefillShed(x / 256, bound, [b] + more);
      assert e.bytes + [b] + more == e.bytes + ([b] + more);
      assert ([b] + more)[1..] == more;
    } else {
      assert [] + more == more;
    }
  }

  // ----- one value -----

  /** Decoding one value: its slice is taken, then bytes are read. */
  function Consume(c: Coder, t: Slice): Coder
    requires 0 < t.size && t.start + t.size <= t.total && t.start <= c.x % t.total < t.start + t.size
  {
    TakeShrinks(c.x, t);
    Normal(c.(x := Take(c.x, t)))
  }

  /** Encoding one value in front of what is already encoded. */
  function Produce(x: nat, bytes: seq<byte>, t: Slice, q: nat): Emitted
    requires Sliced(t, q)
  {
    Scaled(1, t.size, q);
    var e := Shed(x, 256 * (t.size * q));
    Emitted(Give(e.x, t), e.bytes + bytes)
  }

  lemma SliceBound(t: Slice, q: nat)
    requires Sliced(t, q)
    ensures 0 < t.size * q <= LOWER
  {
    assert q > 0;
    Scaled(1, t.size, q);
    Scaled(t.size, t.total, q);
  }

  /** Decoding undoes encoding, one value at a time, and the state stays in range. */
  lemma ConsumeProduce(x: nat, bytes: seq<byte>, t: Slice, q: nat)
    requires Sliced(t, q) && LOWER <= x < 256 * LOWER
    ensures var e := Produce(x, bytes, t, q);
            && LOWER <= e.x < 256 * LOWER
            && t.start <= e.x % t.total < t.start + t.size
            && Consume(Coder(e.x, e.bytes, false), t) == Coder(x, bytes, false)
  {
    SliceBound(t, q);
    var low := t.size * q;
    var s := Shed(x, 256 * low);
    ShedBounds(x, low);
    GiveBounds(s.x, t, q);
    TakeGive(s.x, t);
    RefillShed(x, 256 * low, bytes);
  }

  // ----- which slice a value has -----

  function BitSlice(p: nat, scale: nat, b: nat): Slice
    requires p <= Pow2(scale)
  {
    if b == 0 then Slice(0, p, Pow2(scale)) else Slice(p, Pow2(scale) - p, Pow2(scale))
  }

  // The probability after a bit.
  function BitNext(p: nat, scale: nat, shift: nat, b: nat): int {
    if b == 0 then p + (Pow2(scale) - p) / Pow2(shift) else p - p / Pow2(shift)
  }

  /** A probability never reaches 0 or 1. */
  lemma BitNextOk(p: nat, scale: nat, shift: nat, b: nat)
    requires 0 < p < Pow2(scale) && shift > 0
    ensures 0 < BitNext(p, scale, shift, b) < Pow2(scale)
  {
    hide Pow2;
    Halved(Pow2(scale) - p, shift);
    Halved(p, shift);
  }

  /** The bit that was seen gets likelier, by its share of the rest. */
  lemma BitNextMoves(p: nat, scale: nat, shift: nat, b: nat)
    requires p <= Pow2(scale)
    ensures var p' := BitNext(p, scale, shift, b);
            var move, rest := if b == 0 then p' - p else p - p', if b == 0 then Pow2(scale) - p else p;
            0 <= move <= rest && Pow2(shift) * move <= rest < Pow2(shift) * move + Pow2(shift)
  {
    hide Pow2;
    Parted(if b == 0 then Pow2(scale) - p else p, Pow2(shift));
  }

  lemma Parted(x: nat, d: nat)
    requires d > 0
    ensures 0 <= x / d <= x && d * (x / d) <= x < d * (x / d) + d
  {
    var q := x / d;
    assert x == d * q + x % d;
    Scaled(1, d, q);
  }

  lemma Halved(x: nat, shift: nat)
    requires x > 0 && shift > 0
    ensures 0 <= x / Pow2(shift) < x
  {
    var d, q := Pow2(shift), x / Pow2(shift);
    assert d >= 2;
    assert x == d * q + x % d;
    Scaled(2, d, q);
  }

  function RawSlice(n: nat, v: nat): Slice {
    Slice(v, 1, Pow2(n))
  }

  const ONE: nat := 32768

  /** Cumulative frequencies: from 0 to 32768, with something for each symbol. */
  ghost predicate Cdf(c: seq<int>) {
    && |c| >= 2 && c[0] == 0 && c[|c| - 1] == ONE
    && forall i {:trigger c[i]} :: 0 <= i < |c| - 1 ==> c[i] < c[i + 1]
  }

  lemma {:induction false} CdfOrdered(c: seq<int>, i: nat, j: nat)
    requires Cdf(c) && i <= j < |c|
    ensures c[i] <= c[j] && (i < j ==> c[i] < c[j])
  {
    if i < j {
      CdfOrdered(c, i, j - 1);
      assert c[j - 1] < c[j - 1 + 1];
    }
  }

  lemma CdfTop(c: seq<int>)
    requires Cdf(c)
    ensures |c| >= 2 && c[0] == 0 && c[|c| - 1] == ONE
  {
  }

  lemma CdfSlice(c: seq<int>, s: nat)
    requires Cdf(c) && s < |c| - 1
    ensures 0 <= c[s] < c[s + 1] <= ONE
  {
    CdfOrdered(c, 0, s);
    CdfOrdered(c, s, s + 1);
    CdfOrdered(c, s + 1, |c| - 1);
  }

  function SymbolSlice(c: seq<int>, s: nat): Slice
    requires s + 1 < |c| && 0 <= c[s] <= c[s + 1]
  {
    Slice(c[s], c[s + 1] - c[s], ONE)
  }

  predicate Inside(x: nat, t: Slice)
    requires t.total > 0
  {
    0 < t.size && t.start + t.size <= t.total && t.start <= x % t.total < t.start + t.size
  }

  // ----- the decoder in place -----

  class Entropy {
    const data: seq<byte>
    var off: nat
    var x: nat
    var failed: bool

    predicate Valid()
      reads this
    {
      x < U32 && (!failed ==> off <= |data|)
    }

    // What the decoder still has before it.
    function View(): Coder
      reads this
      requires Valid()
    {
      Coder(x, if failed then [] else data[off..], failed)
    }

    constructor (b: seq<byte>)
      ensures Valid() && data == b
      ensures |b| < 4 ==> failed
      ensures |b| >= 4 ==> View() == Coder(UnLe(b[..4]), b[4..], false)
    {
      data, off, x, failed := b, 4, 0, false;
      new;
      if |b| < 4 {
        failed := true;
        return;
      }
      PowU32U64();
      x := UnLe(b[..4]);
    }

    method Normalize()
      requires Valid()
      modifies this`off, this`x, this`failed
      ensures Valid() && View() == Normal(old(View())) && (old(failed) ==> x == old(x))
    {
      hide Normal;
      while x < LOWER && !failed
        invariant Valid()
        invariant Normal(View()) == Normal(old(View())) && (old(failed) ==> x == old(x) && failed)
        decreases !failed, |data| - off
      {
        NormalStep(View());
        if off >= |data| {
          failed := true;
          NormalStep(View());
          return;
        }
        assert data[off..][0] == data[off] && data[off..][1..] == data[off + 1..];
        x := x * 256 + data[off];
        off := off + 1;
      }
      NormalStep(View());
    }

    /** bit: one binary decision with an adaptive probability. */
    method Bit(p: u16, scale: nat, shift: nat) returns (b: nat, p': u16)
      requires Valid() && scale <= 15 && shift > 0 && 0 < p < Pow2(scale)
      modifies this`off, this`x, this`failed
      ensures Valid() && b <= 1 && Inside(old(x), BitSlice(p, scale, b))
      ensures View() == Consume(old(View()), BitSlice(p, scale, b))
      ensures p' == BitNext(p, scale, shift, b) && 0 < p' < Pow2(scale)
    {
      hide Normal;
      Pow2Values();
      Pow2Mono(scale, 15);
      var v := p;
      var lo, hi := x % Pow2(scale), x / Pow2(scale);
      b := 0;
      BitNextOk(p, scale, shift, 0);
      BitNextOk(p, scale, shift, 1);
      BitTake(x, p, scale);
      if lo < v {
        TakeShrinks(x, BitSlice(p, scale, 0));
        x := hi * v + lo;
        p' := p + (Pow2(scale) - v) / Pow2(shift);
      } else {
        TakeShrinks(x, BitSlice(p, scale, 1));
        x := x - v * (hi + 1);
        p' := p - v / Pow2(shift);
        b := 1;
      }
      Normalize();
    }

    lemma BitTake(x: nat, p: nat, scale: nat)
      requires 0 < p < Pow2(scale)
      ensures var lo, hi := x % Pow2(scale), x / Pow2(scale);
              && (lo < p ==> Take(x, BitSlice(p, scale, 0)) == hi * p + lo && Inside(x, BitSlice(p, scale, 0)))
              && (lo >= p ==> Take(x, BitSlice(p, scale, 1)) == x - p * (hi + 1) && Inside(x, BitSlice(p, scale, 1)))
    {
      var total := Pow2(scale);
      var lo, hi := x % total, x / total;
      assert x == total * hi + lo;
      assert (total - p) * hi == total * hi - p * hi;
    }

    /** raw: n bits as they are. */
    method Raw(n: nat) returns (v: nat)
      requires Valid()
      modifies this`off, this`x, this`failed
      ensures Valid() && v < Pow2(n) && Inside(old(x), RawSlice(n, v))
      ensures View() == Consume(old(View()), RawSlice(n, v))
    {
      hide Normal;
      v := x % Pow2(n);
      TakeShrinks(x, RawSlice(n, v));
      x := x / Pow2(n);
      Normalize();
    }

    // The state without the symbol whose interval is [a, b).
    function Taken(x: nat, a: nat, b: nat): int { (x / ONE) * (b - a) + x % ONE - a }

    lemma SymbolTake(x: nat, a: nat, b: nat)
      requires a <= x % ONE < b <= ONE
      ensures Inside(x, Slice(a, b - a, ONE)) && 0 <= Take(x, Slice(a, b - a, ONE)) <= x
      ensures Take(x, Slice(a, b - a, ONE)) == Taken(x, a, b)
    {
      var t := Slice(a, b - a, ONE);
      assert x % t.total == x % ONE && x / t.total == x / ONE;
      assert t.size * (x / ONE) == (x / ONE) * t.size;
      TakeShrinks(x, t);
    }

    /** selectSymbol: the symbol whose interval holds the low 15 bits. */
    method SelectSymbol(c: array<u16>) returns (s: nat)
      requires Valid() && Cdf(c[..])
      modifies this`x
      ensures Valid() && s < c.Length - 1 && 0 <= c[s] < c[s + 1] <= ONE
      ensures Inside(old(x), SymbolSlice(c[..], s)) && x == Take(old(x), SymbolSlice(c[..], s))
    {
      hide Take, Inside, Taken, Cdf;
      var lo := x % ONE;
      s := 0;
      CdfTop(c[..]);
      CdfSlice(c[..], 0);
      while s < c.Length - 2 && c[s + 1] <= lo
        invariant x == old(x) && s <= c.Length - 2 && 0 <= c[s] <= lo && c[s] < c[s + 1] <= ONE
      {
        s := s + 1;
        CdfSlice(c[..], s);
      }
      SymbolTake(x, c[s], c[s + 1]);
      x := Taken(x, c[s], c[s + 1]);
    }

    /** finish: everything has been read, and the state is the encoder's first. */
    method Finish() returns (ok: bool)
      requires Valid()
      ensures ok <==> View() == Coder(LOWER, [], false)
    {
      if failed {
        return false;
      }
      ok := x == LOWER && off == |data|;
    }
  }
}
