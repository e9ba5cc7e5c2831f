/** The lookup tables of the Huffman decoder: for every window of bits they name
    the one symbol whose codeword it begins with. */
module TorLookup {
  import opened Bytes
  import opened AnsCoder
  import opened TorTree
  import opened TorCodes

  const FAST: nat := 11
  const FAST_SIZE: nat := 2048
  const MAX_BITS: nat := 28

  // ----- one word, one leaf -----

  predicate Reaches(bs: seq<nat>, cs: seq<nat>, x: nat, w: nat)
    requires x < |bs| == |cs|
  {
    w % Pow2(bs[x]) == cs[x]
  }

  lemma {:induction false} SomeHit(bs: seq<nat>, cs: seq<nat>, lo: nat, hi: nat, w: nat)
    requires lo <= hi <= |bs| == |cs| && Hits(bs, cs, lo, hi, w) > 0
    ensures exists x :: lo <= x < hi && Reaches(bs, cs, x, w)
    decreases hi - lo
  {
    if !Reaches(bs, cs, lo, w) {
      SomeHit(bs, cs, lo + 1, hi, w);
    }
  }

  lemma {:induction false} HitCounts(bs: seq<nat>, cs: seq<nat>, lo: nat, hi: nat, x: nat, w: nat)
    requires lo <= x < hi <= |bs| == |cs| && Reaches(bs, cs, x, w)
    ensures Hits(bs, cs, lo, hi, w) > 0
    decreases hi - lo
  {
    if lo < x {
      HitCounts(bs, cs, lo + 1, hi, x, w);
    }
  }

  /** No word reaches two leaves: no codeword begins another. */
  lemma OneLeaf(b: nat, bs: seq<nat>, cs: seq<nat>, x: nat, y: nat, w: nat)
    requires Coding(b, bs, cs) && x < b && y < b && Reaches(bs, cs, x, w) && Reaches(bs, cs, y, w)
    ensures x == y
  {
    if x < y {
      HitsAppend(bs, cs, 0, x + 1, b, w);
      HitCounts(bs, cs, 0, x + 1, x, w);
      HitCounts(bs, cs, x + 1, b, y, w);
    } else if y < x {
      HitsAppend(bs, cs, 0, y + 1, b, w);
      HitCounts(bs, cs, 0, y + 1, y, w);
      HitCounts(bs, cs, y + 1, b, x, w);
    }
  }

  lemma TheLeaf(b: nat, bs: seq<nat>, cs: seq<nat>, w: nat) returns (x: nat)
    requires Coding(b, bs, cs)
    ensures x < b && Reaches(bs, cs, x, w)
  {
    assert Hits(bs, cs, 0, b, w) == 1;
    SomeHit(bs, cs, 0, b, w);
    x :| x < b && Reaches(bs, cs, x, w);
  }

  // ----- low bits of low bits -----

  lemma Remainder(x: nat, p: nat, s: nat, t: nat)
    requires t < p && x == s * p + t
    ensures x % p == t
  {
    DivUnique(s, t, p);
  }

  lemma ModOfMod(w: nat, p: nat, m: nat)
    requires p > 0 && p * m > 0
    ensures w % (p * m) % p == w % p
  {
    var q, r := Quotients(w, p * m);
    var s, t := Quotients(r, p);
    Regroup(p, m, q, s, t);
    Product(m, q);
    Remainder(r, p, s, t);
    Remainder(w, p, m * q + s, t);
  }

  lemma Regroup(p: nat, m: nat, q: nat, s: nat, t: nat)
    ensures p * m * q + (p * s + t) == (m * q + s) * p + t && p * s == s * p
  {
    assert p * m * q == (m * q) * p;
    assert (m * q) * p + s * p == (m * q + s) * p;
  }

  lemma ModMod(w: nat, a: nat, k: nat)
    requires k <= a
    ensures w % Pow2(a) % Pow2(k) == w % Pow2(k)
  {
    hide Pow2;
    Pow2Add(k, a - k);
    ModOfMod(w, Pow2(k), Pow2(a - k));
  }

  lemma SmallMod(c: nat, k: nat)
    requires c < Pow2(k)
    ensures c % Pow2(k) == c
  {
    hide Pow2;
    Remainder(c, Pow2(k), 0, c);
  }

  // ----- the tables -----

  predicate IsShort(bs: seq<nat>, x: nat)
    requires x < |bs|
  {
    bs[x] <= FAST
  }

  /** The tables after the first n leaves; sym[x] is leaf x's symbol. */
  ghost predicate Filled(bs: seq<nat>, cs: seq<nat>, sym: seq<nat>, n: nat, maxbits: nat, fast: seq<int>, index: seq<nat>) {
    && n <= |sym| <= |bs| == |cs| && |fast| == FAST_SIZE && Pow2(maxbits) <= |index|
    && (forall x, v {:trigger Reaches(bs, cs, x, v)} :: 0 <= x < n && IsShort(bs, x) && 0 <= v < FAST_SIZE && Reaches(bs, cs, x, v) ==> fast[v] == sym[x])
    && (forall x :: 0 <= x < n && !IsShort(bs, x) ==> fast[cs[x] % FAST_SIZE] == -1)
    && (forall x, w {:trigger Reaches(bs, cs, x, w)} :: 0 <= x < n && !IsShort(bs, x) && 0 <= w < Pow2(maxbits) && Reaches(bs, cs, x, w) ==> index[w] == sym[x])
  }

  /** sym */
  function Lookup(fast: seq<int>, index: seq<nat>, code: nat): int
    requires |fast| == FAST_SIZE
  {
    var x := fast[code % FAST_SIZE];
    if x >= 0 then x else if code >= |index| then -1 else index[code]
  }

  lemma FastSize()
    ensures Pow2(FAST) == FAST_SIZE
  {
    assert Pow2(5) == 32 && Pow2(10) == 32 * Pow2(5) && Pow2(11) == 2 * Pow2(10);
  }

  /** Every window of maxbits bits is looked up to the symbol of the leaf it
      reaches. Nothing left over from an earlier tree is ever read. */
  lemma LookupRight(b: nat, bs: seq<nat>, cs: seq<nat>, sym: seq<nat>, maxbits: nat, fast: seq<int>, index: seq<nat>, x: nat, w: nat)
    requires Coding(b, bs, cs) && |sym| == b && Filled(bs, cs, sym, b, maxbits, fast, index)
    requires w < Pow2(maxbits) && x < b && Reaches(bs, cs, x, w)
    ensures Lookup(fast, index, w) == sym[x]
  {
    FastSize();
    var v := w % FAST_SIZE;
    if IsShort(bs, x) {
      ModMod(w, FAST, bs[x]);
      assert Reaches(bs, cs, x, v);
    } else {
      ModMod(w, bs[x], FAST);
      assert cs[x] % FAST_SIZE == v;
    }
  }

  // A short leaf and a long one never meet in the fast table.
  lemma ShortLong(b: nat, bs: seq<nat>, cs: seq<nat>, x: nat, y: nat)
    requires Coding(b, bs, cs) && x < b && y < b && IsShort(bs, x) && !IsShort(bs, y)
    ensures !Reaches(bs, cs, x, cs[y] % FAST_SIZE)
  {
    FastSize();
    if Reaches(bs, cs, x, cs[y] % FAST_SIZE) {
      ModMod(cs[y], FAST, bs[x]);
      SmallMod(cs[y], bs[y]);
      OneLeaf(b, bs, cs, x, y, cs[y]);
    }
  }

  // What filling in leaf n's slots does to the tables.
  ghost predicate ShortFill(bs: seq<nat>, cs: seq<nat>, n: nat, s: nat, fast: seq<int>, fast': seq<int>)
    requires n < |bs| == |cs|
  {
    && |fast| == |fast'| == FAST_SIZE
    && forall v {:trigger fast'[v]} :: 0 <= v < FAST_SIZE ==> fast'[v] == if Reaches(bs, cs, n, v) then s else fast[v]
  }

  ghost predicate LongFill(bs: seq<nat>, cs: seq<nat>, n: nat, s: nat, maxbits: nat, index: seq<nat>, index': seq<nat>)
    requires n < |bs| == |cs|
  {
    && |index| == |index'| && Pow2(maxbits) <= |index|
    && forall w {:trigger index'[w]} :: 0 <= w < |index| ==> index'[w] == if w < Pow2(maxbits) && Reaches(bs, cs, n, w) then s else index[w]
  }

  lemma ShortKeeps(b: nat, bs: seq<nat>, cs: seq<nat>, sym: seq<nat>, n: nat, maxbits: nat, fast: seq<int>, index: seq<nat>, fast': seq<int>)
    requires Coding(b, bs, cs) && |sym| == b && n < b && Filled(bs, cs, sym, n, maxbits, fast, index)
    requires IsShort(bs, n) && ShortFill(bs, cs, n, sym[n], fast, fast')
    ensures Filled(bs, cs, sym, n + 1, maxbits, fast', index)
  {
    hide Coding;
    CodingSize(b, bs, cs);
    forall x, v {:trigger Reaches(bs, cs, x, v)} | 0 <= x < n + 1 && IsShort(bs, x) && 0 <= v < FAST_SIZE && Reaches(bs, cs, x, v)
      ensures fast'[v] == sym[x]
    {
      if x < n && Reaches(bs, cs, n, v) {
        OneLeaf(b, bs, cs, x, n, v);
      }
    }
    forall x | 0 <= x < n + 1 && !IsShort(bs, x)
      ensures fast'[cs[x] % FAST_SIZE] == -1
    {
      ShortLong(b, bs, cs, n, x);
    }
  }

  lemma LongKeeps(b: nat, bs: seq<nat>, cs: seq<nat>, sym: seq<nat>, n: nat, maxbits: nat, fast: seq<int>, index: seq<nat>, index': seq<nat>)
    requires Coding(b, bs, cs) && |sym| == b && n < b && Filled(bs, cs, sym, n, maxbits, fast, index)
    requires !IsShort(bs, n) && LongFill(bs, cs, n, sym[n], maxbits, index, index')
    ensures Filled(bs, cs, sym, n + 1, maxbits, fast[cs[n] % FAST_SIZE := -1], index')
  {
    hide Coding;
    CodingSize(b, bs, cs);
    var fast' := fast[cs[n] % FAST_SIZE := -1];
    forall x, v {:trigger Reaches(bs, cs, x, v)} | 0 <= x < n + 1 && IsShort(bs, x) && 0 <= v < FAST_SIZE && Reaches(bs, cs, x, v)
      ensures fast'[v] == sym[x]
    {
      ShortLong(b, bs, cs, x, n);
    }
    forall x, w {:trigger Reaches(bs, cs, x, w)} | 0 <= x < n + 1 && !IsShort(bs, x) && 0 <= w < Pow2(maxbits) && Reaches(bs, cs, x, w)
      ensures index'[w] == sym[x]
    {
      if x < n && Reaches(bs, cs, n, w) {
        OneLeaf(b, bs, cs, x, n, w);
      }
    }
  }

  lemma CodingSize(b: nat, bs: seq<nat>, cs: seq<nat>)
    requires Coding(b, bs, cs)
    ensures 0 < b <= |bs| == |cs|
  {
  }

  // The words below a bound that end in a codeword are evenly spaced.
  lemma Spaced(c: nat, k: nat, j: nat)
    requires c < Pow2(k)
    ensures (c + j * Pow2(k)) % Pow2(k) == c && (c + j * Pow2(k)) / Pow2(k) == j
  {
    DivUnique(j, c, Pow2(k));
  }
}
