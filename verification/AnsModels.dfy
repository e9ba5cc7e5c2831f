/** The adaptive frequency tables of the entropy decoder: 16-bit arithmetic that
    never overflows, and intervals that never close. */
module AnsModels {
  import opened Bytes
  import opened AnsCoder

  // ----- the arithmetic -----

  // A 16-bit signed value, and an unsigned one.
  function Int16(z: int): int { (z + 32768) % 65536 - 32768 }
  function U16(z: int): int { z % 65536 }

  lemma {:induction false} FloorSteps(b: int, m: nat, d: nat)
    requires d > 0
    ensures b / d <= (b + m) / d <= b / d + m
  {
    if m > 0 {
      FloorSteps(b, m - 1, d);
      FloorNext(b + m - 1, d);
    }
  }

  lemma FloorNext(x: int, d: nat)
    requires d > 0
    ensures x / d <= (x + 1) / d <= x / d + 1
  {
    var q, r, q' := x / d, x % d, (x + 1) / d;
    assert x == d * q + r && x + 1 == d * q' + (x + 1) % d;
    Stretch(q', q, d);
    Stretch(q + 1, q', d);
  }

  lemma Stretch(a: int, b: int, d: nat)
    ensures a < b ==> d * a + d <= d * b
  {
    if a < b {
      assert d * b == d * a + d + d * (b - a - 1);
      Product(d, b - a - 1);
    }
  }

  // How a boundary `g` above its least place moves down, and up.
  function Down(g: int, d: nat): int
    requires d > 0
  {
    g + (-g) / d
  }

  function Up(g: int, d: nat): int
    requires d > 0
  {
    g + (32767 - g) / d
  }

  /** Boundaries keep their order, whichever way each of them moves. */
  lemma MovesKeepOrder(p: int, q: int, d: nat)
    requires 0 <= p <= q <= ONE && d > 0
    ensures 0 <= Down(p, d) <= Down(q, d)
    ensures Down(p, d) <= Up(q, d)
    ensures 0 <= Up(p, d) <= Up(q, d)
  {
    DownOrder(p, q, d);
    UpOrder(p, q, d);
    DownUp(p, q, d);
  }

  lemma DownOrder(p: int, q: int, d: nat)
    requires 0 <= p <= q && d > 0
    ensures 0 <= Down(p, d) <= Down(q, d)
  {
    FloorSteps(-q, q - p, d);
    FloorSteps(-p, p, d);
    Zero(d);
  }

  lemma UpOrder(p: int, q: int, d: nat)
    requires 0 <= p <= q <= ONE && d > 0
    ensures 0 <= Up(p, d) <= Up(q, d)
  {
    FloorSteps(32767 - q, q - p, d);
    FloorSteps(-1, 32768 - p, d);
    MinusOne(d);
    if p == 0 {
      FloorSteps(0, 32767, d);
      Zero(d);
    }
  }

  lemma DownUp(p: int, q: int, d: nat)
    requires 0 <= p <= q <= ONE && d > 0
    ensures Down(p, d) <= Up(q, d)
  {
    MinusOne(d);
    Zero(d);
    FloorSteps(-1, 32768 - q, d);
    if p > 0 {
      FloorSteps(-p, p - 1, d);
    } else if q < 32768 {
      FloorSteps(0, 32767 - q, d);
    }
  }

  lemma MinusOne(d: nat)
    requires d > 0
    ensures (-1) / d == -1
  {
    var q := (-1) / d;
    assert -1 == d * q + (-1) % d;
    Stretch(q, -1, d);
    Stretch(-1, q, d);
  }

  lemma Zero(d: nat)
    requires d > 0
    ensures 0 / d == 0
  {
  }

  /** Moving up stops short of the top by the width of the step. */
  lemma UpBound(g: int, d: nat, top: int)
    requires 0 < d <= ONE && 0 <= g <= top && ONE - d <= top <= ONE
    ensures Up(g, d) <= top
  {
    if g <= ONE - d {
      FloorSteps(32767 - (ONE - d), ONE - d - g, d);
      Small(d - 1, d);
    } else {
      FloorSteps(32767 - g, d - 1 - (32767 - g), d);
      Small(d - 1, d);
    }
  }

  lemma Small(x: nat, d: nat)
    requires x < d
    ensures x / d == 0
  {
  }

  // ----- frequency tables -----

  /** A table whose intervals are all at least d wide. */
  ghost predicate Wide(c: seq<int>, d: nat) {
    && |c| >= 2 && c[0] == 0 && c[|c| - 1] == ONE
    && forall i {:trigger c[i]} :: 0 <= i < |c| - 1 ==> c[i] + d <= c[i + 1]
  }

  lemma WideCdf(c: seq<int>, d: nat)
    requires Wide(c, d) && d > 0
    ensures Cdf(c)
  {
  }

  lemma {:induction false} WideLow(c: seq<int>, d: nat, i: nat)
    requires Wide(c, d) && i < |c|
    ensures d * i <= c[i]
  {
    if i > 0 {
      WideLow(c, d, i - 1);
      assert c[i - 1] + d <= c[i - 1 + 1];
      assert d * i == d * (i - 1) + d;
    }
  }

  lemma {:induction false} WideHigh(c: seq<int>, d: nat, i: nat)
    requires Wide(c, d) && i < |c|
    ensures c[i] <= ONE - d * (|c| - 1 - i)
    decreases |c| - i
  {
    if i < |c| - 1 {
      WideHigh(c, d, i + 1);
      assert d * (|c| - 1 - i) == d * (|c| - 1 - (i + 1)) + d;
    }
  }

  /** uniform */
  function Even(n: nat): (c: seq<int>)
    requires n > 0
    ensures |c| == n + 1
  {
    seq(n + 1, i requires 0 <= i <= n => i * ONE / n)
  }

  // The least width the step size leaves to each of n symbols.
  function Floor(n: nat, k: nat): nat
    requires n > 0
  {
    Pow2(k) / n
  }

  lemma EvenWide(n: nat, k: nat)
    requires n > 0 && k <= 15
    ensures Wide(Even(n), Floor(n, k)) && forall i :: 0 <= i <= n ==> 0 <= Even(n)[i] <= ONE
  {
    Pow2Values();
    Pow2Mono(k, 15);
    FloorSteps(Pow2(k), ONE - Pow2(k), n);
    var c, d := Even(n), ONE / n;
    forall i {:trigger c[i]} | 0 <= i < n
      ensures c[i] + d <= c[i + 1]
    {
      assert (i + 1) * ONE == i * ONE + ONE;
      DivSum(i * ONE, ONE, n);
    }
    Whole(n);
    assert Wide(c, d) by { Zero(n); }
    forall i | 0 <= i <= n
      ensures 0 <= c[i] <= ONE
    {
      WideLow(c, d, i);
      WideHigh(c, d, i);
      Product(d, i);
      Product(d, n - i);
    }
  }

  lemma DivSum(a: nat, b: nat, n: nat)
    requires n > 0
    ensures a / n + b / n <= (a + b) / n
  {
    var q, r, t, u := a / n, a % n, b / n, b % n;
    assert a == n * q + r && b == n * t + u;
    assert a + b == n * (q + t) + (r + u);
    var w := (a + b) / n;
    assert a + b == n * w + (a + b) % n;
    Stretch(w, q + t, n);
  }

  lemma Whole(n: nat)
    requires n > 0
    ensures n * ONE / n == ONE
  {
    DivUnique(ONE, 0, n);
    assert ONE * n + 0 == n * ONE;
  }

  // The least place of entry i, when every interval is at least d wide.
  function Least(d: nat, i: nat): nat {
    Product(d, i);
    d * i
  }

  function Target(i: nat, s: nat, d: nat): nat {
    Least(d, i) + if i > s then 32767 else 0
  }

  // One entry after symbol s, in the 16-bit arithmetic of the source.
  function Moved(c: int, i: nat, s: nat, d: nat, k: nat): int {
    U16(c + U16(Step(Int16(Target(i, s, d) - c), k)))
  }

  function Step(t: int, k: nat): int { t / Pow2(k) }

  /** adaptCDF: every boundary but the last moves. */
  function Adapted(c: seq<int>, s: nat, k: nat): (r: seq<int>)
    requires |c| >= 2
    ensures |r| == |c|
  {
    seq(|c|, i requires 0 <= i < |c| =>
      if i == |c| - 1 then c[i] else Moved(c[i], i, s, Floor(|c| - 1, k), k))
  }

  lemma U16Sum(a: int, b: int)
    requires 0 <= a + b < 65536
    ensures U16(a + U16(b)) == a + b
  {
  }

  /** No entry overflows: an entry moves by the shifted difference, down up to s and up beyond. */
  lemma MovedPlain(c: int, i: nat, s: nat, d: nat, k: nat)
    requires Least(d, i) <= c <= Least(d, i) + ONE && Least(d, i) + ONE <= 65535
    ensures Int16(Target(i, s, d) - c) == Target(i, s, d) - c
    ensures 0 <= c - Least(d, i) <= ONE
    ensures Moved(c, i, s, d, k) == Least(d, i) + Move(c - Least(d, i), i > s, Pow2(k)) == c + Step(Target(i, s, d) - c, k)
  {
    var g := c - Least(d, i);
    MovesKeepOrder(g, g, Pow2(k));
    var move := (Target(i, s, d) - c) / Pow2(k);
    if i > s {
      assert Target(i, s, d) - c == 32767 - g;
      UpAtMost(g, Pow2(k));
    } else {
      assert Target(i, s, d) - c == -g;
      DownAtMost(g, Pow2(k));
    }
    U16Sum(c, move);
  }

  lemma UpAtMost(g: int, d: nat)
    requires 0 <= g <= ONE && d > 0
    ensures Up(g, d) <= ONE
  {
    if g <= 32767 {
      FloorSteps(0, 32767 - g, d);
      Zero(d);
    } else {
      MinusOne(d);
    }
  }

  lemma DownAtMost(g: int, d: nat)
    requires 0 <= g && d > 0
    ensures Down(g, d) <= g
  {
    FloorSteps(-g, g, d);
    Zero(d);
  }

  /** Whatever the symbol, intervals stay at least that wide, with no overflow on the way. */
  lemma AdaptWide(c: seq<int>, s: nat, k: nat)
    requires |c| >= 2 && Wide(c, Floor(|c| - 1, k)) && k <= 15
    ensures Wide(Adapted(c, s, k), Floor(|c| - 1, k))
    ensures forall i :: 0 <= i < |c| - 1 ==> NoOverflow(c, i, s, k)
  {
    var n, d, r := |c| - 1, Floor(|c| - 1, k), Adapted(c, s, k);
    FloorFits(n, k);
    forall i {:trigger c[i]} | 0 <= i < n
      ensures NoOverflow(c, i, s, k) && (i == 0 ==> r[i] == 0) && r[i] + d <= r[i + 1]
    {
      AdaptPair(c, s, k, i);
    }
  }

  // The difference an entry moves towards fits 16 bits signed, the result 16 bits unsigned.
  ghost predicate NoOverflow(c: seq<int>, i: nat, s: nat, k: nat)
    requires i < |c| - 1
  {
    var t := Target(i, s, Floor(|c| - 1, k)) - c[i];
    -32768 <= t < 32768 && 0 <= c[i] + Step(t, k) <= ONE && Adapted(c, s, k)[i] == c[i] + Step(t, k)
  }

  lemma FloorFits(n: nat, k: nat)
    requires n > 0 && k <= 15
    ensures Floor(n, k) * n == Least(Floor(n, k), n) <= Pow2(k) <= ONE
  {
    Pow2Values();
    Pow2Mono(k, 15);
    QuotientFits(Pow2(k), n);
  }

  lemma QuotientFits(p: nat, n: nat)
    requires n > 0
    ensures p / n * n <= p
  {
    assert p == n * (p / n) + p % n;
  }

  lemma AdaptPair(c: seq<int>, s: nat, k: nat, i: nat)
    requires |c| >= 2 && Wide(c, Floor(|c| - 1, k)) && k <= 15 && i < |c| - 1
    ensures var r := Adapted(c, s, k);
            NoOverflow(c, i, s, k) && (i == 0 ==> r[i] == 0) && r[i] + Floor(|c| - 1, k) <= r[i + 1]
  {
    hide Pow2, Floor, Moved, Move, Wide, Target, Adapted, Step, Least, NoOverflow;
    var n, d, p := |c| - 1, Floor(|c| - 1, k), Pow2(k);
    FloorFits(n, k);
    Apart(c, d, i);
    Entry(c, s, k, i);
    NextLeast(d, i);
    if i + 1 < n {
      Entry(c, s, k, i + 1);
      Stays(c[i] - Least(d, i), c[i + 1] - Least(d, i + 1), i > s, i + 1 > s, p, ONE - Least(d, n));
    } else {
      AdaptedAt(c, s, k, n);
    }
  }

  // Where an entry moves to, by how far it is above its least place.
  lemma Entry(c: seq<int>, s: nat, k: nat, i: nat)
    requires |c| >= 2 && Wide(c, Floor(|c| - 1, k)) && k <= 15 && i < |c| - 1
    ensures NoOverflow(c, i, s, k)
    ensures var d := Floor(|c| - 1, k);
            && 0 <= c[i] - Least(d, i) <= ONE - Least(d, |c| - 1) && Least(d, i) + d <= Least(d, |c| - 1)
            && Adapted(c, s, k)[i] == Least(d, i) + Move(c[i] - Least(d, i), i > s, Pow2(k)) <= ONE - Least(d, |c| - 1) + Least(d, i)
            && (i == 0 && c[i] == 0 ==> Adapted(c, s, k)[i] == 0)
  {
    hide Pow2, Floor, Moved, Move, Wide, Target, Adapted, Step, Least;
    var n, d := |c| - 1, Floor(|c| - 1, k);
    FloorFits(n, k);
    Place(c, d, i);
    MovedPlain(c[i], i, s, d, k);
    TargetIs(i, s, d);
    AdaptedAt(c, s, k, i);
    UpToTop(d, i, n);
    NextLeast(d, i);
    Stays(c[i] - Least(d, i), c[i] - Least(d, i), i > s, i > s, Pow2(k), ONE - Least(d, n));
  }

  lemma TargetIs(i: nat, s: nat, d: nat)
    ensures Target(i, s, d) == Least(d, i) + if i > s then 32767 else 0
  {
  }

  lemma UpToTop(d: nat, i: nat, n: nat)
    requires i < n
    ensures Least(d, i) + d <= Least(d, n)
  {
    assert d * n == d * i + d + d * (n - i - 1);
    Product(d, n - i - 1);
  }

  lemma Apart(c: seq<int>, d: nat, i: nat)
    requires Wide(c, d) && i < |c| - 1
    ensures c[i] + d <= c[i + 1] && c[0] == 0 && c[|c| - 1] == ONE
  {
  }

  function Move(g: int, up: bool, d: nat): int
    requires d > 0
  {
    if up then Up(g, d) else Down(g, d)
  }

  lemma NextLeast(d: nat, i: nat)
    ensures Least(d, i + 1) == Least(d, i) + d && Least(d, 0) == 0
  {
    assert d * (i + 1) == d * i + d;
  }

  // Two places in order, moved by rules in order.
  lemma Stays(p: int, q: int, up: bool, up': bool, d: nat, top: int)
    requires 0 <= p <= q <= top && (up ==> up') && 0 < d <= ONE && ONE - d <= top <= ONE
    ensures 0 <= Move(p, up, d) <= Move(q, up', d) <= top
    ensures p == 0 && !up ==> Move(p, up, d) == 0
  {
    MovesKeepOrder(p, q, d);
    DownAtMost(q, d);
    UpBound(q, d, top);
    Zero(d);
  }

  // Where an entry may be.
  lemma Place(c: seq<int>, d: nat, i: nat)
    requires Wide(c, d) && i < |c| && Least(d, |c| - 1) <= ONE
    ensures Least(d, i) <= c[i] <= Least(d, i) + ONE && (i < |c| - 1 ==> Least(d, i) + ONE <= 65535)
    ensures c[i] - Least(d, i) <= ONE - Least(d, |c| - 1)
  {
    var n := |c| - 1;
    WideLow(c, d, i);
    WideHigh(c, d, i);
    assert d * (n - i) == d * n - d * i;
    Product(d, n - i);
    Product(d, n);
    Product(d, i);
    if i < n {
      UpToTop(d, i, n);
    }
  }

  // Entries fit 16 bits.
  lemma WideFits(c: seq<int>, d: nat, i: nat)
    requires Wide(c, d) && i < |c|
    ensures 0 <= c[i] <= ONE
  {
    WideLow(c, d, i);
    WideHigh(c, d, i);
    Product(d, i);
    Product(d, |c| - 1 - i);
  }

  lemma EvenAt(n: nat, i: nat)
    requires n > 0 && i <= n
    ensures Even(n)[i] == i * ONE / n && 0 <= i * ONE / n <= ONE
  {
    EvenWide(n, 0);
  }

  method Uniform(n: nat) returns (c: array<u16>)
    requires n > 0
    ensures fresh(c) && c[..] == Even(n)
  {
    hide Even;
    c := new u16[n + 1];
    for i := 0 to n + 1
      invariant c.Length == n + 1 && forall j :: 0 <= j < i ==> c[j] == Even(n)[j]
    {
      EvenAt(n, i);
      c[i] := i * ONE / n;
    }
  }

  lemma AdaptedAt(c: seq<int>, s: nat, k: nat, i: nat)
    requires |c| >= 2 && i < |c|
    ensures Adapted(c, s, k)[i] == if i == |c| - 1 then c[i] else Moved(c[i], i, s, Floor(|c| - 1, k), k)
  {
  }

  /** adaptCDF, in place: the table after symbol s. */
  method AdaptCdf(c: array<u16>, s: nat, shift: nat)
    requires c.Length >= 2 && shift <= 15 && Wide(c[..], Floor(c.Length - 1, shift))
    modifies c
    ensures c[..] == Adapted(old(c[..]), s, shift)
    ensures Wide(c[..], Floor(c.Length - 1, shift))
  {
    hide Wide, Pow2, Moved, Adapted, U16, Int16, Target, Step, Least, Floor, NoOverflow, Units;
    var n := c.Length - 1;
    ghost var was, now := c[..], Adapted(c[..], s, shift);
    AdaptWide(was, s, shift);
    var i := 0;
    while i < n
      invariant 0 <= i <= n && c.Length == n + 1
      invariant forall j :: 0 <= j < i ==> c[j] == now[j]
      invariant forall j :: i <= j < c.Length ==> c[j] == was[j]
    {
      var target := Units(shift, n, i);
      if i > s {
        target := target + 32767;
      }
      MovedIs(c[i], i, s, n, shift, target);
      AdaptedAt(was, s, shift, i);
      c[i] := U16(c[i] + U16(Int16(target - c[i]) / Pow2(shift)));
      i := i + 1;
    }
    AdaptedAt(was, s, shift, n);
    assert c[..] == now;
  }

  // int((1 << shift) / n) * i
  function Units(k: nat, n: nat, i: nat): int
    requires n > 0
  {
    Pow2(k) / n * i
  }

  // The arithmetic of one turn of the loop.
  lemma MovedIs(c: int, i: nat, s: nat, n: nat, k: nat, target: int)
    requires n > 0 && target == Units(k, n, i) + if i > s then 32767 else 0
    ensures var m := Moved(c, i, s, Floor(n, k), k); m == U16(c + U16(Int16(target - c) / Pow2(k))) && 0 <= m < 65536
  {
    hide Pow2, Int16, Target, Least, Floor;
    TargetIs(i, s, Floor(n, k));
    FloorTimes(n, k, i);
  }

  lemma FloorTimes(n: nat, k: nat, i: nat)
    requires n > 0
    ensures Least(Floor(n, k), i) == Units(k, n, i)
  {
  }

  /** Learning a symbol: boundaries up to it move down, those beyond it up, so its
      interval grows and no other one does. */
  lemma AdaptLearns(c: seq<int>, s: nat, k: nat)
    requires |c| >= 2 && Wide(c, Floor(|c| - 1, k)) && k <= 15 && Floor(|c| - 1, k) > 0 && s < |c| - 1
    ensures var r := Adapted(c, s, k);
            && r[s + 1] - r[s] >= c[s + 1] - c[s]
            && forall i :: 0 <= i < |c| - 1 && i != s ==> r[i + 1] - r[i] <= c[i + 1] - c[i]
  {
    hide Adapted, Wide, Floor, Pow2;
    var n, r := |c| - 1, Adapted(c, s, k);
    EntryMoves(c, s, k, s);
    EntryMoves(c, s, k, s + 1);
    forall i | 0 <= i < n && i != s
      ensures r[i + 1] - r[i] <= c[i + 1] - c[i]
    {
      PairMoves(c, s, k, i);
    }
  }

  /** Each boundary goes the 2^k-th part of the way to the place it would have if the
      symbol had nearly all of the table to itself and the others their least share. */
  lemma AdaptStep(c: seq<int>, s: nat, k: nat, i: nat)
    requires |c| >= 2 && Wide(c, Floor(|c| - 1, k)) && k <= 15 && i < |c| - 1
    ensures var way := Pow2(k) / (|c| - 1) * i + (if i > s then 32767 else 0) - c[i];
            var step := Adapted(c, s, k)[i] - c[i];
            Pow2(k) * step <= way < Pow2(k) * step + Pow2(k)
  {
    hide Pow2, Wide, Adapted, Target, Floor, Least;
    var n := |c| - 1;
    Entry(c, s, k, i);
    TargetIs(i, s, Floor(n, k));
    FloorTimes(n, k, i);
    StepIs(Target(i, s, Floor(n, k)) - c[i], k);
  }

  lemma StepIs(t: int, k: nat)
    ensures Pow2(k) * Step(t, k) <= t < Pow2(k) * Step(t, k) + Pow2(k)
  {
    hide Pow2;
    var d, q := Pow2(k), t / Pow2(k);
    assert t == d * q + t % d;
  }

  // A boundary goes down up to s, and up beyond.
  lemma EntryMoves(c: seq<int>, s: nat, k: nat, i: nat)
    requires |c| >= 2 && Wide(c, Floor(|c| - 1, k)) && k <= 15 && Floor(|c| - 1, k) > 0 && s < |c| - 1 && i < |c|
    ensures if i <= s then Adapted(c, s, k)[i] <= c[i] else Adapted(c, s, k)[i] >= c[i]
  {
    hide Pow2, Floor, Moved, Wide, Target, Adapted, Step, Least;
    var n, d, p := |c| - 1, Floor(|c| - 1, k), Pow2(k);
    AdaptedAt(c, s, k, i);
    if i < n {
      Entry(c, s, k, i);
      LeastTotal(c, k);
      var g := c[i] - Least(d, i);
      if i > s {
        UpMoves(g, p);
      } else {
        DownAtMost(g, p);
      }
    }
  }

  lemma LeastTotal(c: seq<int>, k: nat)
    requires |c| >= 2 && Floor(|c| - 1, k) > 0
    ensures Least(Floor(|c| - 1, k), |c| - 1) >= 1
  {
    hide Floor;
    Scaled(1, Floor(|c| - 1, k), |c| - 1);
  }

  lemma UpMoves(g: int, d: nat)
    requires 0 <= g <= ONE - 1 && d > 0
    ensures Up(g, d) >= g
  {
    FloorSteps(0, 32767 - g, d);
    Zero(d);
  }

  // Two neighbours on the same side of the symbol come closer.
  lemma PairMoves(c: seq<int>, s: nat, k: nat, i: nat)
    requires |c| >= 2 && Wide(c, Floor(|c| - 1, k)) && k <= 15 && Floor(|c| - 1, k) > 0 && s < |c| - 1 && i < |c| - 1 && i != s
    ensures Adapted(c, s, k)[i + 1] - Adapted(c, s, k)[i] <= c[i + 1] - c[i]
  {
    hide Pow2, Floor, Moved, Wide, Target, Adapted, Step, Least, Move;
    var n, d, p := |c| - 1, Floor(|c| - 1, k), Pow2(k);
    Entry(c, s, k, i);
    Apart(c, d, i);
    NextLeast(d, i);
    if i + 1 < n {
      Entry(c, s, k, i + 1);
      Closer(c[i] - Least(d, i), c[i + 1] - Least(d, i + 1), i > s, p);
    } else {
      AdaptedAt(c, s, k, n);
      EntryMoves(c, s, k, i);
    }
  }

  lemma Closer(g: int, h: int, up: bool, d: nat)
    requires 0 <= g <= h && d > 0
    ensures Move(h, up, d) - Move(g, up, d) <= h - g
  {
    if up {
      FloorSteps(32767 - h, h - g, d);
    } else {
      FloorSteps(-h, h - g, d);
    }
  }

  // ----- two tables mixed -----

  const SIXTEEN: nat := 65536

  // One entry of the mixture, weight w on the first table.
  function Blend(w: nat, a: int, b: int): int {
    U16(w * a / SIXTEEN + U16(0 - w) * b / SIXTEEN)
  }

  function Mixture(w: nat, a: seq<int>, b: seq<int>): (c: seq<int>)
    requires |a| == |b| == 17
    ensures |c| == 17
  {
    seq(17, i requires 0 <= i < 17 => if i == 16 then ONE else Blend(w, a[i], b[i]))
  }

  // Weights on the two sides add up.
  lemma Blended(w: nat, a: nat, b: nat)
    requires 0 < w < SIXTEEN && a <= ONE && b <= ONE
    ensures Blend(w, a, b) == w * a / SIXTEEN + (SIXTEEN - w) * b / SIXTEEN
    ensures 0 <= Blend(w, a, b) <= ONE
    ensures w * a + (SIXTEEN - w) * b - 2 * SIXTEEN < SIXTEEN * Blend(w, a, b) <= w * a + (SIXTEEN - w) * b
  {
    var x, y := w * a, (SIXTEEN - w) * b;
    assert U16(0 - w) == SIXTEEN - w;
    Product(w, a);
    Product(SIXTEEN - w, b);
    Scaled(a, ONE, w);
    Scaled(b, ONE, SIXTEEN - w);
    assert w * ONE + (SIXTEEN - w) * ONE == SIXTEEN * ONE;
    assert x == SIXTEEN * (x / SIXTEEN) + x % SIXTEEN && y == SIXTEEN * (y / SIXTEEN) + y % SIXTEEN;
    var z := x / SIXTEEN + y / SIXTEEN;
    assert SIXTEEN * z <= SIXTEEN * ONE;
    assert 0 <= z <= ONE;
  }

  lemma BlendGrows(w: nat, a: nat, b: nat, a': nat, b': nat)
    requires 0 < w < SIXTEEN && a + 2 <= a' <= ONE && b + 2 <= b' <= ONE
    ensures Blend(w, a, b) < Blend(w, a', b')
  {
    Blended(w, a, b);
    Blended(w, a', b');
    Scaled(a + 2, a', w);
    Scaled(b + 2, b', SIXTEEN - w);
    assert w * (a + 2) == w * a + 2 * w && (SIXTEEN - w) * (b + 2) == (SIXTEEN - w) * b + 2 * (SIXTEEN - w);
  }

  lemma BlendBelow(w: nat, a: nat, b: nat)
    requires 0 < w < SIXTEEN && a < ONE && b < ONE
    ensures Blend(w, a, b) < ONE
  {
    Blended(w, a, b);
    Scaled(a, ONE - 1, w);
    Scaled(b, ONE - 1, SIXTEEN - w);
    assert w * (ONE - 1) + (SIXTEEN - w) * (ONE - 1) == SIXTEEN * (ONE - 1);
  }

  /** The mixture of two tables whose intervals are at least 2 wide has no empty interval. */
  lemma MixtureCdf(w: nat, a: seq<int>, b: seq<int>, d: nat)
    requires |a| == |b| == 17 && Wide(a, d) && Wide(b, d) && d >= 2 && 0 < w < SIXTEEN
    ensures Cdf(Mixture(w, a, b))
  {
    hide Blend, Wide;
    var c := Mixture(w, a, b);
    WideEnds(a, d);
    WideEnds(b, d);
    assert c[0] == 0 by { Blended(w, 0, 0); NothingBlends(w); }
    forall i {:trigger c[i]} | 0 <= i < 16
      ensures c[i] < c[i + 1]
    {
      WideFits(a, d, i);
      WideFits(b, d, i);
      WideFits(a, d, i + 1);
      WideFits(b, d, i + 1);
      Apart(a, d, i);
      Apart(b, d, i);
      if i == 15 {
        BlendBelow(w, a[15], b[15]);
      } else {
        BlendGrows(w, a[i], b[i], a[i + 1], b[i + 1]);
      }
    }
  }

  lemma WideEnds(c: seq<int>, d: nat)
    requires Wide(c, d)
    ensures c[0] == 0 && c[|c| - 1] == ONE
  {
  }

  lemma NothingBlends(w: nat)
    ensures Blend(w, 0, 0) == 0
  {
    assert w * 0 == 0 && U16(0 - w) * 0 == 0;
  }

  /** The weight after symbol s: it moves to the table that found s likelier. */
  function Weighed(w: nat, a: seq<int>, b: seq<int>, s: nat): int
    requires s + 1 < |a| && s + 1 < |b|
  {
    w - w / 16 + if a[s + 1] - a[s] >= b[s + 1] - b[s] then 4095 else 0
  }

  lemma WeighedOk(w: nat, a: seq<int>, b: seq<int>, s: nat)
    requires s + 1 < |a| && s + 1 < |b| && 0 < w < SIXTEEN
    ensures 0 < Weighed(w, a, b, s) < SIXTEEN
  {
  }

  /** The weight goes a sixteenth of the way to the side that found s likelier. */
  lemma WeighedStep(w: nat, a: seq<int>, b: seq<int>, s: nat)
    requires s + 1 < |a| && s + 1 < |b| && w < SIXTEEN
    ensures var w' := Weighed(w, a, b, s);
            if a[s + 1] - a[s] >= b[s + 1] - b[s] then SIXTEEN - 16 - w <= 16 * (w' - w) < SIXTEEN - w && w <= w'
            else w - 15 <= 16 * (w - w') <= w
  {
  }

  /** No symbol gets less likely by having been seen. */
  lemma WeighedLikelier(w: nat, a: seq<int>, b: seq<int>, s: nat)
    requires s + 1 < |a| && s + 1 < |b| && w < SIXTEEN
    ensures var w', A, B := Weighed(w, a, b, s), a[s + 1] - a[s], b[s + 1] - b[s];
            w' * A + (SIXTEEN - w') * B >= w * A + (SIXTEEN - w) * B
  {
    hide Weighed;
    var w', A, B := Weighed(w, a, b, s), a[s + 1] - a[s], b[s + 1] - b[s];
    WeighedStep(w, a, b, s);
    if A >= B {
      Product(w' - w, A - B);
    } else {
      Product(w - w', B - A);
    }
    assert w' * A + (SIXTEEN - w') * B - (w * A + (SIXTEEN - w) * B) == (w' - w) * (A - B) == (w - w') * (B - A);
  }

  /** Each width of the mixture is the weighted mean of the two, but for rounding. */
  lemma MixtureMeans(w: nat, a: seq<int>, b: seq<int>, d: nat, s: nat)
    requires |a| == |b| == 17 && Wide(a, d) && Wide(b, d) && 0 < w < SIXTEEN && s < 16
    ensures var c, mean := Mixture(w, a, b), w * (a[s + 1] - a[s]) + (SIXTEEN - w) * (b[s + 1] - b[s]);
            mean - 2 * SIXTEEN < SIXTEEN * (c[s + 1] - c[s]) < mean + 2 * SIXTEEN
  {
    hide Blend, Wide;
    WideFits(a, d, s);
    WideFits(b, d, s);
    WideFits(a, d, s + 1);
    WideFits(b, d, s + 1);
    Blended(w, a[s], b[s]);
    assert w * (a[s + 1] - a[s]) == w * a[s + 1] - w * a[s];
    assert (SIXTEEN - w) * (b[s + 1] - b[s]) == (SIXTEEN - w) * b[s + 1] - (SIXTEEN - w) * b[s];
    if s < 15 {
      Blended(w, a[s + 1], b[s + 1]);
    } else {
      WideEnds(a, d);
      WideEnds(b, d);
      assert w * ONE + (SIXTEEN - w) * ONE == SIXTEEN * ONE;
    }
  }
}
