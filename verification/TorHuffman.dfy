/** The adaptive Huffman tree: rebuilt from its counters, it decodes exactly the
    codewords of the new tree. */
module TorHuffman {
  import opened Bytes
  import opened AnsCoder
  import Counting
  import opened Permutations
  import opened TorTree
  import opened TorCodes
  import opened TorRule
  import opened TorSort
  import opened TorLookup

  // ----- the leaves are ready to be merged -----

  function Order(buf: seq<Node>, n: nat): (r: seq<nat>)
    requires n <= |buf|
    ensures |r| == n
  {
    seq(n, x requires 0 <= x < n => buf[x].left)
  }

  lemma OrderPerm(buf: seq<Node>, cs: seq<nat>)
    requires InOrder(buf, cs)
    ensures Perm(Order(buf, |cs|), |cs|)
  {
    forall x, y | 0 <= x < y < |cs|
      ensures buf[x].left != buf[y].left
    {
      assert Key(cs, buf[x].left) < Key(cs, buf[y].left);
    }
  }

  lemma {:induction false} SumLeaves(buf: seq<Node>, cs: seq<nat>, k: nat)
    requires InOrder(buf, cs) && k <= |cs|
    ensures Sum(buf, 0, k) == Counting.Sum(Arranged(cs, Order(buf, |cs|))[..k])
  {
    var a := Arranged(cs, Order(buf, |cs|));
    if k > 0 {
      SumLeaves(buf, cs, k - 1);
      SumSnoc(buf, 0, k - 1);
      Counting.SumLast(a[..k]);
      assert a[..k][..k - 1] == a[..k - 1];
    }
  }

  predicate Positive(cs: seq<nat>) {
    forall i :: 0 <= i < |cs| ==> cs[i] >= 1
  }

  /** Sorted leaves start the two queues. */
  lemma LeavesReady(buf: seq<Node>, cs: seq<nat>)
    requires InOrder(buf, cs) && 2 <= |cs| <= MAX_HUF && 2 * |cs| + 4 <= |buf| && Positive(cs) && Counting.Sum(cs) <= FENCE
    requires forall i :: |cs| <= i < 2 * |cs| + 4 ==> buf[i].cnt == FENCE
    ensures Queues(buf, |cs|, 0, |cs| + 2, |cs| + 2, 0, Counting.Sum(cs))
  {
    hide FENCE, Arranged, Order, InOrder, Sorted, Positive;
    var b := |cs|;
    OrderPerm(buf, cs);
    SumLeaves(buf, cs, b);
    SumArranged(cs, Order(buf, b));
    var a := Arranged(cs, Order(buf, b));
    assert a[..b] == a;
    LeavesSorted(buf, cs);
    assert Sum(buf, b + 2, b + 2) == 0;
  }

  lemma LeavesSorted(buf: seq<Node>, cs: seq<nat>)
    requires InOrder(buf, cs) && |cs| <= MAX_HUF && Positive(cs) && |cs| + 2 <= |buf|
    ensures Sorted(buf, 0, |cs|) && AtLeast(buf, 0, |cs|, 1) && AtLeast(buf, 0, |cs|, 0) && Sorted(buf, |cs| + 2, |cs| + 2)
  {
    forall i, j | 0 <= i <= j < |cs|
      ensures buf[i].cnt <= buf[j].cnt
    {
      if i < j {
        assert Key(cs, buf[i].left) < Key(cs, buf[j].left);
        KeyLess(buf[i].cnt, buf[i].left, buf[j].cnt, buf[j].left);
      }
    }
  }

  lemma KeyLess(c: nat, i: nat, d: nat, j: nat)
    requires c * MAX_HUF + i < d * MAX_HUF + j && i < MAX_HUF && j < MAX_HUF
    ensures c <= d
  {
  }

  // ----- filling one leaf's slots -----

  method FillShort(fast: array<int>, s: int, sbits: nat, scode: nat)
    requires fast.Length == FAST_SIZE && sbits <= FAST && scode < Pow2(sbits)
    modifies fast
    ensures forall v :: 0 <= v < FAST_SIZE ==> fast[v] == if v % Pow2(sbits) == scode then s else old(fast[v])
  {
    hide Pow2;
    var n, step := Pow2(FAST - sbits), Pow2(sbits);
    FastSize();
    Pow2Add(sbits, FAST - sbits);
    for j := 0 to n
      invariant forall v :: 0 <= v < FAST_SIZE ==> fast[v] == if v % step == scode && v / step < j then s else old(fast[v])
    {
      Spaced(scode, sbits, j);
      Scaled2(scode, step, j, n);
      fast[scode + j * step] := s;
      SpacedOnly(step, scode, j);
    }
    SpacedAll(step, n, FAST_SIZE);
  }

  method FillLong(index: array<nat>, s: nat, sbits: nat, scode: nat, maxbits: nat)
    requires sbits <= maxbits && Pow2(maxbits) <= index.Length && scode < Pow2(sbits)
    modifies index
    ensures forall w :: 0 <= w < index.Length ==> index[w] == if w < Pow2(maxbits) && w % Pow2(sbits) == scode then s else old(index[w])
  {
    hide Pow2;
    var n, step := Pow2(maxbits - sbits), Pow2(sbits);
    Pow2Add(sbits, maxbits - sbits);
    for j := 0 to n
      invariant forall w :: 0 <= w < index.Length ==> index[w] == if w < Pow2(maxbits) && w % step == scode && w / step < j then s else old(index[w])
    {
      Spaced(scode, sbits, j);
      Scaled2(scode, step, j, n);
      index[scode + j * step] := s;
      SpacedOnly(step, scode, j);
    }
    SpacedAll(step, n, Pow2(maxbits));
  }

  lemma Scaled2(c: nat, step: nat, j: nat, n: nat)
    requires c < step && j < n
    ensures c + j * step < step * n
  {
    Stride(j, n, step);
    assert n * step == step * n;
  }

  lemma SpacedOnly(step: nat, c: nat, j: nat)
    requires step > 0
    ensures forall v: nat {:trigger v % step} {:trigger v / step} :: v % step == c && v / step == j ==> v == c + j * step
  {
    forall v: nat | v % step == c && v / step == j
      ensures v == c + j * step
    {
      var q, r := Quotients(v, step);
      DivUnique(q, r, step);
      assert step * q == q * step;
    }
  }

  lemma SpacedAll(step: nat, n: nat, size: nat)
    requires step > 0 && size == step * n
    ensures forall v: nat {:trigger v / step} :: v < size ==> v / step < n
  {
    forall v: nat | v < size
      ensures v / step < n
    {
      var q, r := Quotients(v, step);
      DivUnique(q, r, step);
      Scaled(n, q, step);
      assert n * step == step * n && q * step == step * q;
    }
  }

  // ----- the counters after a rebuild -----

  function Factor(mode: nat): (r: nat)
    ensures r > 0
  {
    match mode
    case 0 => 2 case 1 => 3 case 2 => 4 case 3 => 6
    case 4 => 8 case 5 => 10 case 6 => 12 case 7 => 16
    case _ => 2
  }

  function Aged(c: nat, factor: nat): int
    requires factor > 0
  {
    c - if c > 1 && c < factor then 1 else c / factor
  }

  /** Counters shrink, but never to nothing. */
  lemma AgedOk(c: nat, mode: nat)
    requires c >= 1
    ensures 1 <= Aged(c, Factor(mode)) <= c && (c > 1 ==> Aged(c, Factor(mode)) < c)
  {
  }

  // ----- the counters over a whole run -----

  /** How many symbols may come between two rebuilds. */
  const CREDIT: nat := 0x1_ffff

  /** Counters that can take so many more symbols and still be rebuilt from. */
  ghost predicate Funded(cs: seq<nat>, credit: nat) {
    && Positive(cs) && |cs| <= MAX_HUF
    && (forall i :: 0 <= i < |cs| ==> cs[i] + credit < 0x20_0000)
    && Counting.Sum(cs) + credit <= FENCE
  }

  lemma FundedReady(cs: seq<nat>, credit: nat)
    requires Funded(cs, credit)
    ensures Positive(cs) && Narrow(cs) && Counting.Sum(cs) <= FENCE
  {
  }

  lemma FundedSpent(cs: seq<nat>, credit: nat, s: nat)
    requires Funded(cs, credit) && credit > 0 && s < |cs|
    ensures Funded(cs[s := cs[s] + 1], credit - 1)
  {
    Counting.SumUpdate(cs, s, cs[s] + 1);
  }

  /** A counter loses the factor-th part of it, or one when it is less than the factor,
      but never its last. */
  lemma AgedMeans(c: nat, factor: nat)
    requires factor > 1
    ensures var less := c - Aged(c, factor);
            if c <= 1 then less == 0 else if c < factor then less == 1 else factor * less <= c < factor * less + factor
  {
    var q := c / factor;
    assert c == factor * q + c % factor;
  }

  // A rebuild takes a sixteenth off, if not more.
  lemma AgedDown(c: nat, mode: nat)
    requires c >= 1
    ensures 1 <= Aged(c, Factor(mode)) <= c && 16 * Aged(c, Factor(mode)) <= 15 * c + 15
  {
    AgedOk(c, mode);
  }

  ghost predicate AllAged(was: seq<nat>, cs: seq<nat>, mode: nat) {
    |was| == |cs| && forall i :: 0 <= i < |cs| ==> cs[i] == Aged(was[i], Factor(mode))
  }

  lemma {:induction false} SumAged(was: seq<nat>, cs: seq<nat>, mode: nat)
    requires AllAged(was, cs, mode) && Positive(was)
    ensures 16 * Counting.Sum(cs) <= 15 * Counting.Sum(was) + 15 * |cs|
  {
    hide Aged, Factor;
    if cs != [] {
      var n := |cs| - 1;
      SumAged(was[..n], cs[..n], mode);
      AgedDown(was[n], mode);
    }
  }

  /** Whatever was left, after a rebuild the counters have their full credit again. */
  lemma FreshFunds(was: seq<nat>, cs: seq<nat>, mode: nat)
    requires AllAged(was, cs, mode) && Positive(was) && Narrow(was) && Counting.Sum(was) <= FENCE
    ensures Funded(cs, CREDIT)
  {
    hide Aged, Factor;
    SumAged(was, cs, mode);
    forall i | 0 <= i < |cs|
      ensures 1 <= cs[i] && cs[i] + CREDIT < 0x20_0000
    {
      AgedDown(was[i], mode);
    }
  }

  lemma {:induction false} SumOnes(s: seq<nat>)
    requires forall i :: 0 <= i < |s| ==> s[i] == 1
    ensures Counting.Sum(s) == |s|
  {
    if s != [] {
      SumOnes(s[..|s| - 1]);
    }
  }

  lemma FibTop(h: nat)
    ensures h > MAX_BITS ==> Fib(h) > 1_000_000
  {
    if h > MAX_BITS {
      Fib29();
      FibMono(29, h);
    }
  }

  lemma Fib29()
    ensures Fib(29) == 1346269
  {
    assert Fib(8) == 55 && Fib(9) == 89;
    assert Fib(10) == 144 && Fib(11) == 233 && Fib(12) == 377 && Fib(13) == 610 && Fib(14) == 987;
    assert Fib(15) == 1597 && Fib(16) == 2584 && Fib(17) == 4181 && Fib(18) == 6765 && Fib(19) == 10946;
    assert Fib(20) == 17711 && Fib(21) == 28657 && Fib(22) == 46368 && Fib(23) == 75025 && Fib(24) == 121393;
    assert Fib(25) == 196418 && Fib(26) == 317811 && Fib(27) == 514229 && Fib(28) == 832040;
  }

  // ----- the tree -----

  /** What the last rebuild made: depths and codewords of the leaves, and their symbols. */
  datatype Built = Built(bs: seq<nat>, cs: seq<nat>, sym: seq<nat>)

  // Leaf x's symbol has its length.
  ghost predicate Lengths(bits: seq<nat>, t: Built, n: nat) {
    n <= |t.sym| <= |t.bs| && forall x :: 0 <= x < n ==> t.sym[x] < |bits| && bits[t.sym[x]] == t.bs[x]
  }

  lemma LengthsStep(bits: seq<nat>, t: Built, n: nat)
    requires Lengths(bits, t, n) && n < |t.sym| && Perm(t.sym, |bits|)
    ensures Lengths(bits[t.sym[n] := t.bs[n]], t, n + 1)
  {
  }

  // ----- the tree is a function of the counters -----

  function Ones(n: nat): seq<nat> { seq(n, _ => 1) }

  lemma OnesStay()
    ensures Aged(1, Factor(0)) == 1
  {
  }

  /** The symbols in the order of their counts, then of themselves. */
  ghost predicate Ordered(sym: seq<nat>, cs: seq<nat>) {
    Perm(sym, |cs|) && forall x, y :: 0 <= x < y < |cs| ==> Key(cs, sym[x]) < Key(cs, sym[y])
  }

  lemma {:induction false} OrderedAt(a: seq<nat>, b: seq<nat>, cs: seq<nat>, x: nat)
    requires Ordered(a, cs) && Ordered(b, cs) && x < |cs| && a[..x] == b[..x]
    ensures Key(cs, a[x]) >= Key(cs, b[x])
  {
    Everyone(b, |cs|, a[x]);
    var y :| 0 <= y < |cs| && b[y] == a[x];
    assert y >= x;
  }

  lemma {:induction false} OrderedOnly(a: seq<nat>, b: seq<nat>, cs: seq<nat>, x: nat)
    requires Ordered(a, cs) && Ordered(b, cs) && x <= |cs| <= MAX_HUF
    ensures a[..x] == b[..x]
  {
    if x > 0 {
      hide Ordered, Key;
      OrderedOnly(a, b, cs, x - 1);
      OrderedAt(a, b, cs, x - 1);
      OrderedAt(b, a, cs, x - 1);
      SameKey(a, b, cs, x - 1);
    }
  }

  lemma SameKey(a: seq<nat>, b: seq<nat>, cs: seq<nat>, x: nat)
    requires Ordered(a, cs) && Ordered(b, cs) && x < |cs| <= MAX_HUF && Key(cs, a[x]) == Key(cs, b[x]) && a[..x] == b[..x]
    ensures a[..x + 1] == b[..x + 1]
  {
  }

  /** What build makes of the counters. */
  ghost predicate IsTree(cs: seq<nat>, t: Built) {
    var n := |cs|;
    && n >= 2 && Ordered(t.sym, cs)
    && (t.bs, t.cs) == CodesOf(Merging(Arranged(cs, t.sym) + seq(n + 4, _ => FENCE), n, 0, n + 2, n + 2), n, 2 * MAX_HUF + 4)
  }

  lemma IsTreeOnly(cs: seq<nat>, t: Built, t': Built)
    requires IsTree(cs, t) && IsTree(cs, t') && |cs| <= MAX_HUF
    ensures t == t'
  {
    hide Ordered, Merging, CodesOf, Arranged;
    OrderedOnly(t.sym, t'.sym, cs, |cs|);
    Whole(t.sym, cs);
    Whole(t'.sym, cs);
  }

  // The lighter symbol comes first, and of two that are alike the one with the lower number.
  predicate First(cs: seq<nat>, i: nat, j: nat)
    requires i < |cs| && j < |cs|
  {
    cs[i] < cs[j] || (cs[i] == cs[j] && i < j)
  }

  lemma KeyFirst(cs: seq<nat>, i: nat, j: nat)
    requires i < |cs| <= MAX_HUF && j < |cs|
    ensures Key(cs, i) < Key(cs, j) <==> First(cs, i, j)
  {
  }

  /** The tree of the counters, without the loops: symbols in order, merged by the
      rule of the two queues, codewords from the root. */
  ghost predicate ByRule(cs: seq<nat>, t: Built) {
    && Perm(t.sym, |cs|) && (forall x, y :: 0 <= x < y < |cs| ==> First(cs, t.sym[x], t.sym[y]))
    && exists cnt, hs :: Grown(Arranged(cs, t.sym), cnt, hs, t.bs, t.cs)
  }

  lemma ByRuleOrdered(cs: seq<nat>, t: Built)
    requires ByRule(cs, t) && |cs| <= MAX_HUF
    ensures Ordered(t.sym, cs)
  {
    hide Key, First;
    forall x, y | 0 <= x < y < |cs|
      ensures Key(cs, t.sym[x]) < Key(cs, t.sym[y])
    {
      KeyFirst(cs, t.sym[x], t.sym[y]);
    }
  }

  /** It says all there is to say: symbols, lengths and codewords of the leaves. */
  lemma ByRuleOnly(cs: seq<nat>, t: Built, t': Built)
    requires ByRule(cs, t) && ByRule(cs, t') && |cs| <= MAX_HUF
    ensures t.sym == t'.sym && |cs| <= |t.bs| == |t.cs| && |cs| <= |t'.bs| == |t'.cs|
    ensures forall x :: 0 <= x < |cs| ==> t.bs[x] == t'.bs[x] && t.cs[x] == t'.cs[x]
  {
    hide Grown1, Key, First;
    ByRuleOrdered(cs, t);
    ByRuleOrdered(cs, t');
    OrderedOnly(t.sym, t'.sym, cs, |cs|);
    Whole(t.sym, cs);
    Whole(t'.sym, cs);
    var a, hs :| Grown(Arranged(cs, t.sym), a, hs, t.bs, t.cs);
    var a', hs' :| Grown(Arranged(cs, t.sym), a', hs', t'.bs, t'.cs);
    forall x | 0 <= x < |cs|
      ensures t.bs[x] == t'.bs[x] && t.cs[x] == t'.cs[x]
    {
      GrownOnly(Arranged(cs, t.sym), a, hs, t.bs, t.cs, a', hs', t'.bs, t'.cs, x);
    }
  }

  lemma RuleShown(buf: seq<Node>, cs: seq<nat>, t: Built, hs: seq<Heads>)
    requires Ordered(t.sym, cs) && 2 <= |cs| <= MAX_HUF && Merged(buf, |cs|, hs) && Ruled(buf, |cs|, hs) && |hs| == |cs|
    requires hs[|cs| - 1] == Heads(|cs|, 2 * |cs|) && 2 * |cs| < |buf| && (t.bs, t.cs) == CodesOf(hs, |cs|, |buf|)
    requires Counts(buf, |cs|) == Arranged(cs, t.sym)
    ensures ByRule(cs, t)
  {
    hide Merged, Ruled, Key, First, CodesOf, Grown;
    GrownIs(buf, |cs|, hs, |buf|, t.bs, t.cs);
    forall x, y | 0 <= x < y < |cs|
      ensures First(cs, t.sym[x], t.sym[y])
    {
      KeyFirst(cs, t.sym[x], t.sym[y]);
    }
  }

  lemma Whole(sym: seq<nat>, cs: seq<nat>)
    requires Ordered(sym, cs)
    ensures |sym| == |cs| && sym[..|cs|] == sym
  {
  }

  class HuffTree {
    const n: nat
    const counter: array<nat>
    const bits: array<nat>
    const fast: array<int>
    var maxbits: nat
    var maxSeen: nat
    var index: array<nat>
    ghost var t: Built

    // The arrays belong to this tree alone and have their sizes.
    ghost predicate Sized()
      reads this
    {
      && 2 <= n <= MAX_HUF && counter.Length == bits.Length == n && fast.Length == FAST_SIZE
      && counter != bits && counter != index && bits != index
      && index.Length == if maxSeen == 0 then 0 else Pow2(maxSeen)
    }

    /** The tables decode the codewords of the tree. */
    ghost predicate Valid()
      reads this, bits, fast, index
    {
      && Sized() && Coding(n, t.bs, t.cs) && Perm(t.sym, n) && Lengths(bits[..], t, n)
      && maxbits == t.bs[0] <= MAX_BITS && maxbits <= maxSeen
      && Filled(t.bs, t.cs, t.sym, n, maxbits, fast[..], index[..])
    }

    /** sym: a window of maxbits bits begins with one codeword, and this is its symbol. */
    method Sym(code: nat) returns (s: int)
      requires Valid() && code < Pow2(maxbits)
      ensures 0 <= s < n && exists x :: 0 <= x < n && t.sym[x] == s && Reaches(t.bs, t.cs, x, code) && bits[s] == t.bs[x]
    {
      hide Coding, Filled, Pow2;
      CodingSize(n, t.bs, t.cs);
      ghost var x := TheLeaf(n, t.bs, t.cs, code);
      LookupRight(n, t.bs, t.cs, t.sym, maxbits, fast[..], index[..], x, code);
      FilledSize(t.bs, t.cs, t.sym, n, maxbits, fast[..], index[..]);
      var y := fast[code % FAST_SIZE];
      if y >= 0 {
        return y;
      }
      if code >= index.Length {
        return -1;
      }
      s := index[code];
    }

    // The lookup tables, leaf by leaf.
    method FillTables(buf: array<Node>, ghost t': Built) returns (ok: bool)
      requires Sized() && buf.Length >= n && Coding(n, t'.bs, t'.cs) && Perm(t'.sym, n) && |t'.bs| == buf.Length
      requires forall x :: 0 <= x < n ==> buf[x].left == t'.sym[x] && buf[x].bits == t'.bs[x] && buf[x].code == t'.cs[x]
      requires maxbits == t'.bs[0] <= maxSeen && maxbits <= MAX_BITS
      modifies bits, fast, index
      ensures ok && Lengths(bits[..], t', n) && Filled(t'.bs, t'.cs, t'.sym, n, maxbits, fast[..], index[..])
    {
      hide Coding, Pow2, Filled, Reaches, Lengths;
      CodingSize(n, t'.bs, t'.cs);
      NothingFilled(t', n, maxbits, maxSeen, fast[..], index[..], bits[..]);
      for i := 0 to n
        invariant Lengths(bits[..], t', i) && Filled(t'.bs, t'.cs, t'.sym, i, maxbits, fast[..], index[..])
      {
        var s, sbits, scode := buf[i].left, buf[i].bits, buf[i].code;
        CodingAt(n, t'.bs, t'.cs, i);
        if s >= n {
          return false;
        }
        LengthsStep(bits[..], t', i);
        ghost var bits0: seq<nat> := bits[..];
        ghost var fast0: seq<int> := fast[..];
        ghost var index0: seq<nat> := index[..];
        bits[s] := sbits;
        assert bits[..] == bits0[s := sbits];
        if sbits <= FAST {
          FillShort(fast, s, sbits, scode);
          ShortFilled(t'.bs, t'.cs, i, s, fast0, fast[..]);
          ShortKeeps(n, t'.bs, t'.cs, t'.sym, i, maxbits, fast0, index0, fast[..]);
        } else {
          fast[scode % FAST_SIZE] := -1;
          FilledSize(t'.bs, t'.cs, t'.sym, i, maxbits, fast0, index0);
          FillLong(index, s, sbits, scode, maxbits);
          LongFilled(t'.bs, t'.cs, i, s, maxbits, index0, index[..]);
          LongKeeps(n, t'.bs, t'.cs, t'.sym, i, maxbits, fast0, index0, index[..]);
          assert fast[..] == fast0[scode % FAST_SIZE := -1];
        }
      }
      ok := true;
    }

    // The index grows with the deepest tree seen; what it held stays in front.
    method GrowIndex()
      requires Sized() && maxbits <= MAX_BITS
      modifies this`maxSeen, this`index
      ensures Sized() && maxbits <= maxSeen && (index == old(index) || fresh(index))
    {
      hide Pow2;
      if maxbits > maxSeen {
        if maxSeen > 0 {
          Pow2Mono(maxSeen, maxbits);
        }
        maxSeen := maxbits;
        var was := index;
        var idx := new nat[Pow2(maxbits)](_ => 0);
        forall k | 0 <= k < was.Length { idx[k] := was[k]; }
        index := idx;
      }
    }

    method Age(mode: nat)
      requires Positive(counter[..])
      modifies counter
      ensures forall s :: 0 <= s < counter.Length ==> counter[s] == Aged(old(counter[s]), Factor(mode))
      ensures Positive(counter[..])
    {
      hide Aged, Factor;
      var factor := Factor(mode);
      for s := 0 to counter.Length
        invariant forall k :: 0 <= k < s ==> counter[k] == Aged(old(counter[k]), Factor(mode)) && counter[k] >= 1
        invariant forall k :: s <= k < counter.Length ==> counter[k] == old(counter[k])
      {
        var c := counter[s];
        assert c == old(counter[..])[s];
        AgedOk(c, mode);
        AgedIs(c, mode);
        counter[s] := c - if c > 1 && c < factor then 1 else c / factor;
      }
    }

    lemma AgedIs(c: nat, mode: nat)
      ensures Factor(mode) > 0 && Aged(c, Factor(mode)) == c - if c > 1 && c < Factor(mode) then 1 else c / Factor(mode)
    {
    }

    /** newHuff: all counters are 1, and the first tree is never too deep. */
    constructor (n: nat)
      requires 2 <= n <= MAX_HUF
      ensures this.n == n && Valid() && Funded(counter[..], CREDIT)
      ensures counter[..] == Ones(n) && IsTree(Ones(n), t) && ByRule(Ones(n), t)
      ensures fresh(counter) && fresh(bits) && fresh(fast) && fresh(index)
    {
      hide Coding, Pow2, Filled, Lengths, IsTree, ByRule, Aged, Factor;
      this.n := n;
      counter := new nat[n](_ => 1);
      bits := new nat[n];
      fast := new int[FAST_SIZE];
      index := new nat[0];
      maxbits, maxSeen := 0, 0;
      t := Built([], [], []);
      new;
      ghost var ones: seq<nat> := counter[..];
      assert ones == Ones(n);
      SumOnes(ones);
      assert Narrow(ones) && Positive(ones);
      var ok := Build(0);
      FibTop(maxbits);
      FreshFunds(ones, counter[..], 0);
      OnesStay();
    }

    /** build: a new tree from the counters, and its tables. It fails exactly for a
        tree that is too deep, which takes counters of more than a million together. */
    method Build(mode: nat) returns (ok: bool)
      requires Sized() && Positive(counter[..]) && Narrow(counter[..]) && Counting.Sum(counter[..]) <= FENCE
      modifies this, counter, bits, fast, index
      ensures ok ==> Valid() && Positive(counter[..]) && forall s :: 0 <= s < n ==> counter[s] == Aged(old(counter[s]), Factor(mode))
      ensures ByRule(old(counter[..]), t)
      ensures IsTree(old(counter[..]), t) && t.bs != [] && maxbits == t.bs[0] && (ok <==> maxbits <= MAX_BITS)
      ensures Fib(maxbits) <= Counting.Sum(old(counter[..]))
      ensures index == old(index) || fresh(index)
    {
      hide Coding, Pow2, Filled, Lengths, IsTree, ByRule, Aged, Factor, Fib;
      var buf;
      buf, t := Leaves(counter[..]);
      maxbits := buf[0].bits;
      ok := maxbits <= MAX_BITS;
      if ok {
        CodesFit(n, t.bs, t.cs);
        GrowIndex();
        ok := FillTables(buf, t);
        Age(mode);
      }
    }
  }

  // A tree in the buffer it was made in: its leaves carry symbols, lengths and codewords.
  ghost predicate InBuffer(buf: seq<Node>, t: Built, n: nat) {
    && Coding(n, t.bs, t.cs) && Perm(t.sym, n) && |t.bs| == |buf| >= n
    && forall x :: 0 <= x < n ==> buf[x].left == t.sym[x] && buf[x].bits == t.bs[x] && buf[x].code == t.cs[x] % U32
  }

  /** The first half of build: sorting, merging, and the codewords. */
  method Leaves(counter: seq<nat>) returns (buf: array<Node>, ghost t: Built)
    requires 2 <= |counter| <= MAX_HUF && Positive(counter) && Narrow(counter) && Counting.Sum(counter) <= FENCE
    ensures fresh(buf) && InBuffer(buf[..], t, |counter|) && IsTree(counter, t) && Fib(t.bs[0]) <= Counting.Sum(counter)
    ensures ByRule(counter, t)
  {
    hide Coding, Pow2, InOrder, Queues, Merged, Heavy, Tree, Merging, CodesOf, Counts, Arranged, Fib, Order, Ordered, ByRule, Ruled, IsTree;
    var n := |counter|;
    buf := new Node[2 * MAX_HUF + 4](_ => Node(0, 0, 0, 0, 0));
    SortLeaves(counter, buf);
    ghost var sym := Order(buf[..], n);
    OrderPerm(buf[..], counter);
    OrderOrdered(buf[..], counter);
    LeavesReady(buf[..], counter);
    CountsAre(buf[..], counter);
    ghost var sorted: seq<Node> := buf[..];
    var root;
    ghost var hs, hts, last, bs, cs;
    root, hs, hts, last := MergeAll(buf, n, Counting.Sum(counter));
    ghost var merged: seq<Node> := buf[..];
    TreeReady(buf[..], n, hs, hts, last, root);
    RootFib(buf[..], n, hts, last, root);
    bs, cs := Assign(buf, n, root, hs, hts);
    FibMono(bs[0], Height(n, hts, root));
    t := Built(bs, cs, sym);
    OrderIs(sorted, n);
    TreeShown(sorted, counter, t, hs);
    LeavesStay(sorted, merged, counter, sym);
    RuleShown(merged, counter, t, hs);
  }

  lemma TreeShown(buf: seq<Node>, cs: seq<nat>, t: Built, hs: seq<Heads>)
    requires 2 <= |cs| && 2 * |cs| + 4 <= |buf| == 2 * MAX_HUF + 4 && t.sym == Order(buf, |cs|) && Ordered(t.sym, cs)
    requires Counts(buf, 2 * |cs| + 4) == Arranged(cs, t.sym) + seq(|cs| + 4, _ => FENCE)
    requires hs == Merging(Counts(buf, 2 * |cs| + 4), |cs|, 0, |cs| + 2, |cs| + 2) && (t.bs, t.cs) == CodesOf(hs, |cs|, |buf|)
    ensures IsTree(cs, t)
  {
    hide Ordered, Order, Merging, CodesOf, Counts, Arranged;
  }

  // The leaves keep their counts while inner nodes are made.
  lemma LeavesStay(buf: seq<Node>, buf': seq<Node>, cs: seq<nat>, sym: seq<nat>)
    requires 2 * |cs| + 4 <= |buf| == |buf'| && (forall i :: 0 <= i < |cs| ==> buf'[i] == buf[i]) && Perm(sym, |cs|)
    requires Counts(buf, 2 * |cs| + 4) == Arranged(cs, sym) + seq(|cs| + 4, _ => FENCE)
    ensures Counts(buf', |cs|) == Arranged(cs, sym)
  {
    var a, f := Arranged(cs, sym), seq(|cs| + 4, _ => FENCE);
    forall i | 0 <= i < |cs|
      ensures Counts(buf', |cs|)[i] == a[i]
    {
      assert Counts(buf, 2 * |cs| + 4)[i] == (a + f)[i];
    }
  }

  lemma OrderIs(buf: seq<Node>, n: nat)
    requires n <= |buf|
    ensures forall x :: 0 <= x < n ==> Order(buf, n)[x] == buf[x].left
  {
  }

  lemma OrderOrdered(buf: seq<Node>, cs: seq<nat>)
    requires InOrder(buf, cs)
    ensures Ordered(Order(buf, |cs|), cs)
  {
    OrderPerm(buf, cs);
  }

  // Sorted leaves and fences, as the merging sees them.
  lemma CountsAre(buf: seq<Node>, cs: seq<nat>)
    requires InOrder(buf, cs) && 2 * |cs| + 4 <= |buf| && forall i :: |cs| <= i < 2 * |cs| + 4 ==> buf[i].cnt == FENCE
    ensures Perm(Order(buf, |cs|), |cs|)
    ensures Counts(buf, 2 * |cs| + 4) == Arranged(cs, Order(buf, |cs|)) + seq(|cs| + 4, _ => FENCE)
  {
    OrderPerm(buf, cs);
  }

  lemma RootFib(buf: seq<Node>, b: nat, hts: seq<nat>, last: nat, root: nat)
    requires Heavy(buf, b, hts, last) && |hts| == b - 1 && root == 2 * b < |buf| && b >= 2
    ensures Fib(Height(b, hts, root)) <= buf[root].cnt
  {
    hide Tall, Fib, Height;
    HeavyTall(buf, b, hts, last, b - 2);
  }

  lemma TreeReady(buf: seq<Node>, b: nat, hs: seq<Heads>, hts: seq<nat>, last: nat, root: nat)
    requires Merged(buf, b, hs) && |hs| == b >= 2 && hs[b - 1] == Heads(b, 2 * b) && root == 2 * b < |buf|
    requires Heavy(buf, b, hts, last) && |hts| == b - 1 && buf[root].cnt <= FENCE
    ensures Tree(buf, b, hs, hts, root)
  {
    hide Merged, Heavy, Tall;
    forall k {:trigger Tall(buf, b, hts, k)} | 0 <= k < |hts|
      ensures Tall(buf, b, hts, k)
    {
      HeavyTall(buf, b, hts, last, k);
    }
    HeavyTall(buf, b, hts, last, b - 2);
  }

  lemma HeavyTall(buf: seq<Node>, b: nat, hts: seq<nat>, last: nat, k: nat)
    requires Heavy(buf, b, hts, last) && k < |hts|
    ensures b + 2 + k < |buf| && Tall(buf, b, hts, k) && Fib(Height(b, hts, b + 2 + k)) <= buf[b + 2 + k].cnt
  {
    assert hts[k] > 0;
  }

  // Codewords of at most 28 bits are not cut off.
  lemma CodesFit(b: nat, bs: seq<nat>, cs: seq<nat>)
    requires Coding(b, bs, cs) && bs[0] <= MAX_BITS
    ensures forall x :: 0 <= x < b ==> cs[x] % U32 == cs[x]
  {
    Pow32();
    forall x | 0 <= x < b
      ensures cs[x] % U32 == cs[x]
    {
      CodingAt(b, bs, cs, x);
      Pow2Mono(bs[x], 32);
    }
  }

  lemma FilledSize(bs: seq<nat>, cs: seq<nat>, sym: seq<nat>, n: nat, maxbits: nat, fast: seq<int>, index: seq<nat>)
    requires Filled(bs, cs, sym, n, maxbits, fast, index)
    ensures |fast| == FAST_SIZE && Pow2(maxbits) <= |index|
  {
  }

  lemma CodingAt(b: nat, bs: seq<nat>, cs: seq<nat>, x: nat)
    requires Coding(b, bs, cs) && x < b
    ensures cs[x] < Pow2(bs[x]) && bs[x] <= bs[0] < 62
  {
  }

  lemma NothingFilled(t: Built, n: nat, maxbits: nat, maxSeen: nat, fast: seq<int>, index: seq<nat>, bits: seq<nat>)
    requires Coding(n, t.bs, t.cs) && |t.sym| == n >= 2 && |fast| == FAST_SIZE && maxbits == t.bs[0] <= maxSeen
    requires |index| == if maxSeen == 0 then 0 else Pow2(maxSeen)
    ensures Filled(t.bs, t.cs, t.sym, 0, maxbits, fast, index) && Lengths(bits, t, 0)
  {
    DeepEnough(n, t.bs, t.cs);
    Pow2Mono(maxbits, maxSeen);
  }

  // Two leaves cannot both be the root.
  lemma DeepEnough(b: nat, bs: seq<nat>, cs: seq<nat>)
    requires Coding(b, bs, cs) && b >= 2
    ensures bs[0] > 0
  {
    if bs[0] == 0 {
      assert bs[1] <= bs[0] && cs[0] < Pow2(bs[0]) && cs[1] < Pow2(bs[1]);
      assert Pow2(0) == 1;
      assert Reaches(bs, cs, 0, 0) && Reaches(bs, cs, 1, 0);
      OneLeaf(b, bs, cs, 0, 1, 0);
    }
  }

  lemma ShortFilled(bs: seq<nat>, cs: seq<nat>, n: nat, s: nat, fast: seq<int>, fast': seq<int>)
    requires n < |bs| == |cs| && |fast| == |fast'| == FAST_SIZE
    requires forall v :: 0 <= v < FAST_SIZE ==> fast'[v] == if v % Pow2(bs[n]) == cs[n] then s else fast[v]
    ensures ShortFill(bs, cs, n, s, fast, fast')
  {
  }

  lemma LongFilled(bs: seq<nat>, cs: seq<nat>, n: nat, s: nat, maxbits: nat, index: seq<nat>, index': seq<nat>)
    requires n < |bs| == |cs| && |index| == |index'| && Pow2(maxbits) <= |index|
    requires forall w :: 0 <= w < |index| ==> index'[w] == if w < Pow2(maxbits) && w % Pow2(bs[n]) == cs[n] then s else index[w]
    ensures LongFill(bs, cs, n, s, maxbits, index, index')
  {
  }
}
