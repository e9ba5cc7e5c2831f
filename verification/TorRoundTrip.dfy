/** Tornado's Huffman coding there and back: the decoder keeps in step with the
    writer over any number of rebuilds. */
module TorRoundTrip {
  import opened Bytes
  import opened AnsCoder
  import Counting
  import opened TorCodes
  import opened TorSort
  import opened TorTree
  import opened TorLookup
  import opened TorHuffman
  import opened TorBytes
  import opened TorWriter
  import opened TorDecoder

  lemma SymsNext(toks: seq<Token>, syms: seq<nat>, done: seq<nat>, s: nat)
    requires syms == done + Syms(toks) && Skip(toks) != [] && Skip(toks)[0] == Sym(s)
    ensures syms == done + [s] + Syms(Skip(toks)[1..])
  {
    SkipSyms(toks);
  }

  /** Repeated calls read back what was written in step, rebuilds included, as far
      as the words go; with more than 32 bits to spare they go far enough. */
  method DecodeAll(d: HuffDec, n: nat, ghost toks: seq<Token>, ghost rest: nat, ghost bits: nat, ghost credit: nat)
    returns (syms: seq<nat>, ghost last: seq<Token>, ghost k: nat)
    requires d.Valid(credit) && !d.failed && credit <= CREDIT && d.Reads(toks, rest, bits) && Paced(toks, credit) && n == |Syms(toks)|
    modifies d`failed, d.bit, d.bit.bytes, d.bit.bytes.buf, d.tree, d.tree.counter, d.tree.bits, d.tree.fast, d.tree.index
    ensures |syms| <= n && syms == Syms(toks)[..|syms|]
    ensures old(d.bit.Left()) > 32 + bits ==> |syms| == n
    ensures |syms| == n ==> syms == Syms(toks) && Syms(last) == [] && d.bit.Valid() && d.Reads(last, rest, k)
  {
    hide Pow2, Coding, Filled, Lengths, Spells, Funded, IsTree, Writes, Yield, Paced, Syms, Skip;
    syms := [];
    ghost var left: nat := credit;
    last, k := toks, bits;
    while |syms| < n
      invariant |syms| <= n && Syms(toks) == syms + Syms(last) && !d.failed && left <= CREDIT
      invariant d.Valid(left) && d.Reads(last, rest, k) && Paced(last, left)
      invariant d.bit.Left() - k == old(d.bit.Left()) - bits
      invariant d.tree.index == old(d.tree.index) || fresh(d.tree.index)
    {
      SkipSyms(last);
      PacedSkip(last, left);
      var o;
      ghost var was := last;
      ghost var k0 := k;
      o, left, k := d.DecodeSym(left, last, rest, k);
      if !o.Symbol? {
        k := k0;
        return;
      }
      SymsNext(was, Syms(toks), syms, o.s);
      last := Skip(was)[1..];
      syms := syms + [o.s];
    }
    assert syms == Syms(toks);
  }

  lemma {:induction false} PacedSkip(toks: seq<Token>, c: nat)
    requires Paced(toks, c) && Syms(toks) != [] && c <= CREDIT
    ensures Skip(toks) != []
  {
    SkipSyms(toks);
  }

  // ----- numbers as input bytes -----

  lemma {:induction false} JoinedMore(a: seq<nat>, b: seq<nat>)
    ensures Joined(a + b) == Joined(a) + Pow2(32 * |a|) * Joined(b)
  {
    hide Pow2;
    if a == [] {
      assert a + b == b;
      Pow0();
    } else {
      assert (a + b)[1..] == a[1..] + b && (a + b)[0] == a[0];
      JoinedMore(a[1..], b);
      Pow2Add(32, 32 * (|a| - 1));
      Pow32();
      Nested(a[0], Joined(a[1..]), Pow2(32 * (|a| - 1)), Joined(b));
    }
  }

  lemma Nested(w: nat, x: nat, p: nat, y: nat)
    ensures w + U32 * (x + p * y) == (w + U32 * x) + (U32 * p) * y
  {
  }

  lemma Pow0()
    ensures Pow2(0) == 1
  {
  }

  // Behind the first words the buffer may hold anything.
  lemma YieldMore(src: seq<byte>, n: nat, more: nat) returns (behind: seq<nat>)
    ensures Yield(src, n + more) == Yield(src, n) + behind
  {
    behind := Yield(src, n + more)[n..];
    forall k | 0 <= k < n
      ensures Yield(src, n + more)[k] == Yield(src, n)[k]
    {
      YieldAt(src, n, k);
      YieldAt(src, n + more, k);
    }
    assert Yield(src, n + more)[..n] == Yield(src, n);
  }

  // The part of v above a power, as a number.
  function Upper(v: nat, p: nat): nat
    requires p > 0
  {
    v / p
  }

  lemma LeSplit(v: nat, w: nat)
    requires w > 0
    ensures Le(v, 4 * w) == Le(v % U32, 4) + Le(v / U32, 4 * (w - 1))
  {
    PowU32U64();
    LeAt(v, 4 * w, 4);
  }

  lemma LeStep(v: nat, w: nat)
    requires w > 0
    ensures Le(v, w) == [v % 256] + Le(v / 256, w - 1)
  {
  }

  lemma LeNone(v: nat)
    ensures Le(v, 0) == [] && Pow256(0) == 1
  {
  }

  lemma LowerSize(k: nat)
    requires k > 0
    ensures Pow256(k) == 256 * Pow256(k - 1)
  {
  }

  // The low bytes, and what is above them.
  lemma {:induction false} LeAt(v: nat, w: nat, k: nat)
    requires k <= w
    ensures Le(v, w) == Le(v % Pow256(k), k) + Le(Upper(v, Pow256(k)), w - k)
  {
    hide Le, Pow256;
    if k == 0 {
      LeNone(v % 1);
    } else {
      LowerSize(k);
      LeAt(v / 256, w - 1, k - 1);
      Digits(v, Pow256(k - 1));
      LeDigit(v, w, v % Pow256(k), k, v / 256 % Pow256(k - 1), Upper(v, Pow256(k)));
    }
  }

  lemma LeDigit(v: nat, w: nat, low: nat, k: nat, less: nat, high: nat)
    requires 0 < k <= w && low % 256 == v % 256 && low / 256 == less
    requires Le(v / 256, w - 1) == Le(less, k - 1) + Le(high, w - k)
    ensures Le(v, w) == Le(low, k) + Le(high, w - k)
  {
    hide Le;
    LeStep(v, w);
    LeStep(low, k);
  }

  lemma Digits(v: nat, p: nat)
    requires p > 0
    ensures v % (256 * p) % 256 == v % 256 && v % (256 * p) / 256 == v / 256 % p && v / (256 * p) == v / 256 / p
  {
    var q, r := v / 256, v % 256;
    var q', r' := q / p, q % p;
    assert v == q * 256 + r && q == q' * p + r';
    assert r' * 256 + r < 256 * p;
    assert v == q' * (256 * p) + (r' * 256 + r) by {
      assert (q' * p + r') * 256 == q' * (256 * p) + r' * 256;
    }
    DivUnique(q', r' * 256 + r, 256 * p);
  }

  /** The words of a number's bytes are the number. */
  lemma {:induction false} YieldBack(v: nat, w: nat)
    requires v < Pow2(32 * w)
    ensures Joined(Yield(Le(v, 4 * w), w)) == v
  {
    hide Pow2, Le, UnLe;
    if w == 0 {
      Pow0();
    } else {
      var src, up := Le(v, 4 * w), Le(v / U32, 4 * (w - 1));
      LeSplit(v, w);
      Pow2Add(32, 32 * (w - 1));
      Pow32();
      Shorter(v, U32, Pow2(32 * (w - 1)));
      YieldBack(v / U32, w - 1);
      YieldTail(src, up, w);
      YieldFirst(src, v % U32, w);
      var words := Yield(src, w);
      assert words[1..] == Yield(up, w - 1);
    }
  }

  lemma YieldFirst(src: seq<byte>, x: nat, w: nat)
    requires w > 0 && |src| == 4 * w && x < U32 && src[..4] == Le(x, 4)
    ensures Yield(src, w)[0] == x
  {
    hide Le, UnLe;
    YieldAt(src, w, 0);
    BytesInside(src, 0, 4);
    PowU32U64();
    UnLeLe(x, 4);
    assert src[0..4] == src[..4];
  }

  lemma YieldTail(src: seq<byte>, up: seq<byte>, w: nat)
    requires w > 0 && |src| == 4 * w && src[4..] == up
    ensures |Yield(src, w)| == w && Yield(src, w)[1..] == Yield(up, w - 1)
  {
    hide UnLe;
    forall k: nat | k < w - 1
      ensures Yield(src, w)[1..][k] == Yield(up, w - 1)[k]
    {
      YieldAt(src, w, k + 1);
      YieldAt(up, w - 1, k);
      BytesInside(src, 4 * (k + 1), 4);
      BytesInside(up, 4 * k, 4);
      assert src[4 * (k + 1)..4 * (k + 1) + 4] == up[4 * k..4 * k + 4];
    }
  }

  // ----- there and back -----

  lemma Enough(v: nat, bits: nat, w: nat)
    requires v < Pow2(bits) && bits <= 32 * w
    ensures v < Pow2(32 * w)
  {
    hide Pow2;
    Pow2Mono(bits, 32 * w);
  }

  // The bytes of what was written, and whatever lies behind them.
  lemma ReadsSource(cs: seq<nat>, t: Built, toks: seq<Token>, v: nat, bits: nat, w: nat, horizon: nat) returns (rest: nat)
    requires Writes(cs, t, toks, v, 0, bits) && v < Pow2(bits) && bits <= 32 * w && w <= horizon
    ensures Writes(cs, t, toks, Joined(Yield(Le(v, 4 * w), horizon)), rest, bits)
  {
    hide Pow2, Writes, Le, Joined, Yield;
    Enough(v, bits, w);
    YieldBack(v, w);
    var behind := YieldMore(Le(v, 4 * w), w, horizon - w);
    YieldSize(Le(v, 4 * w), w);
    JoinedMore(Yield(Le(v, 4 * w), w), behind);
    Stacked(bits, 32 * w, Joined(behind));
    rest := Pow2(32 * w - bits) * Joined(behind);
    WritesUnder(cs, t, toks, v, bits, rest);
  }

  lemma YieldSize(src: seq<byte>, n: nat)
    ensures |Yield(src, n)| == n
  {
  }

  /** Whatever the writer puts into bytes, a new decoder reads back: all symbols, over
      all rebuilds, from a byte input that goes on behind its end. */
  method ThereAndBack(n: nat, toks: seq<Token>) returns (ok: bool, src: seq<byte>, syms: seq<nat>)
    requires 2 <= n <= MAX_HUF && Writable(toks, n) && Paced(toks, CREDIT)
    ensures ok <==> Buildable(Ones(n), toks)
    ensures ok ==> syms == Syms(toks)
  {
    hide Pow2, Coding, Filled, Lengths, Spells, Funded, IsTree, Writes, Yield, Paced, Syms, Aged, Factor, Fib, Le, Shallow, Buildable;
    var cs := Ones(n);
    OnesFunded(n);
    FundedReady(cs, CREDIT);
    var buf;
    ghost var t;
    buf, t := Leaves(cs);
    CodingSize(n, t.bs, t.cs);
    FirstShallow(t, n);
    var v, bits;
    ok, v, bits := Write(cs, buf, t, toks, CREDIT);
    if !ok {
      return false, [], [];
    }
    var w := bits / 32 + 1;
    src := Le(v, 4 * w);
    ghost var rest := ReadsSource(cs, t, toks, v, bits, w, w + 2);
    var d := new HuffDec(src, n, w + 2);
    IsTreeOnly(cs, t, d.tree.t);
    ghost var last, k;
    syms, last, k := DecodeAll(d, |Syms(toks)|, toks, rest, bits, CREDIT);
  }

  lemma OnesFunded(n: nat)
    requires 2 <= n <= MAX_HUF
    ensures Funded(Ones(n), CREDIT) && |Ones(n)| == n && Counting.Sum(Ones(n)) == n
  {
    SumOnes(Ones(n));
  }

  lemma FirstShallow(t: Built, n: nat)
    requires |t.bs| > 0 && Fib(t.bs[0]) <= n <= MAX_HUF
    ensures Shallow(t)
  {
    hide Fib;
    FibTop(t.bs[0]);
  }
}
