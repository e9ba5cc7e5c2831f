/** The bit writer, and why what it writes can be read back one bit at a time: no
    codeword begins another. */
module VorbisBits {
  import opened Bytes
  import opened AnsCoder
  import opened VorbisCodes

  type Bits = seq<nat>

  // The low n bits of v, least significant first.
  function Low(v: nat, n: nat): (r: Bits)
    ensures |r| == n
  {
    if n == 0 then [] else [v % 2] + Low(v / 2, n - 1)
  }

  /** The path to a node of depth l, in a tree of words of w bits: most significant bit first. */
  function Path(c: nat, l: nat, w: nat): (r: Bits)
    requires l <= w
    ensures |r| == l
    decreases w
  {
    if l == 0 then [] else
      var p: nat := Pow2(w - 1);
      [TopBit(c, p)] + Path(c % p, l - 1, w - 1)
  }

  /** A reversed word, written from its low end, is the path from the top. */
  lemma {:induction false} LowReverse(c: nat, l: nat, w: nat)
    requires l <= w && c < Pow2(w)
    ensures Low(Reverse(c, w), l) == Path(c, l, w)
    decreases w
  {
    if l > 0 {
      var p := Pow2(w - 1);
      TopIsBit(c, p);
      LowReverse(c % p, l - 1, w - 1);
    }
  }

  lemma TopIsBit(c: nat, p: nat)
    requires p > 0 && c < 2 * p
    ensures TopBit(c, p) == (if c >= p then 1 else 0) && c % p == if c >= p then c - p else c
  {
    if c >= p {
      DivUnique(1, c - p, p);
    } else {
      DivUnique(0, c, p);
    }
  }

  // ----- the word a stream of bits begins with -----

  predicate Binary(bits: Bits) {
    forall k :: 0 <= k < |bits| ==> bits[k] <= 1
  }

  // The first w bits as a number; past the end they count as 0.
  function Word(bits: Bits, w: nat): nat
    decreases w
  {
    if w == 0 || bits == [] then 0 else bits[0] * Pow2(w - 1) + Word(bits[1..], w - 1)
  }

  lemma {:induction false} WordBound(bits: Bits, w: nat)
    requires Binary(bits)
    ensures Word(bits, w) < Pow2(w)
    decreases w
  {
    if w > 0 && bits != [] {
      WordBound(bits[1..], w - 1);
      assert bits[0] == 0 || bits[0] == 1;
    }
  }

  /** A stream that begins with the path to a node begins with a word under that node. */
  lemma {:induction false} PathWord(c: nat, l: nat, w: nat, bits: Bits)
    requires l <= w && c < Pow2(w) && c % Pow2(w - l) == 0 && Binary(bits) && Path(c, l, w) <= bits
    ensures c <= Word(bits, w) < c + Pow2(w - l)
    decreases w
  {
    if l == 0 {
      WordBound(bits, w);
      ZeroMultiple(c, Pow2(w));
    } else {
      var p := Pow2(w - 1);
      TopIsBit(c, p);
      Pow2Add(w - l, l - 1);
      RestAligned(c, p, Pow2(w - l), Pow2(l - 1));
      assert Path(c, l, w)[1..] == Path(c % p, l - 1, w - 1);
      assert bits[0] == Path(c, l, w)[0];
      PathWord(c % p, l - 1, w - 1, bits[1..]);
    }
  }

  lemma ZeroMultiple(c: nat, p: nat)
    requires c < p && c % p == 0
    ensures c == 0
  {
    DivUnique(0, c, p);
  }

  lemma RestAligned(c: nat, p: nat, s: nat, m: nat)
    requires s > 0 && p == s * m && c < 2 * p && c % s == 0 && (c % p == if c >= p then c - p else c)
    ensures (c % p) % s == 0
  {
    var q := c / s;
    assert c == s * q;
    if c >= p {
      assert s * q - s * m == s * (q - m);
      Stride(q, m, s);
      assert q >= m by {
        assert q * s == s * q && m * s == s * m;
      }
      Multiple(c - p, s, q - m);
    }
  }

  // ----- reading a codeword -----

  /** The bits begin with the codeword of s. */
  predicate Reads(lengths: seq<nat>, raw: seq<nat>, bits: Bits, s: nat) {
    s < |lengths| && s < |raw| && 0 < lengths[s] <= W && Path(raw[s], lengths[s], W) <= bits
  }

  lemma {:induction false} UsedHas(lengths: seq<nat>, raw: seq<nat>, i: nat, s: nat, v: nat)
    requires i <= |lengths| && i <= |raw| && s < i && 0 < lengths[s] <= W && Under(raw[s], lengths[s], v) == 1
    ensures Used(lengths, raw, i, v) >= 1
  {
    if s < i - 1 {
      UsedHas(lengths, raw, i - 1, s, v);
    }
  }

  lemma {:induction false} UsedTwice(lengths: seq<nat>, raw: seq<nat>, i: nat, s: nat, t: nat, v: nat)
    requires i <= |lengths| && i <= |raw| && s < t < i
    requires 0 < lengths[s] <= W && Under(raw[s], lengths[s], v) == 1 && 0 < lengths[t] <= W && Under(raw[t], lengths[t], v) == 1
    ensures Used(lengths, raw, i, v) >= 2
  {
    if t < i - 1 {
      UsedTwice(lengths, raw, i - 1, s, t, v);
    } else {
      UsedHas(lengths, raw, i - 1, s, v);
    }
  }

  lemma ReadsUnder(lengths: seq<nat>, raw: seq<nat>, av: seq<nat>, bits: Bits, s: nat)
    requires Good(lengths, raw, |lengths|, av) && Binary(bits) && Reads(lengths, raw, bits, s)
    ensures Word(bits, W) < U32 && Under(raw[s], lengths[s], Word(bits, W)) == 1
  {
    hide Word, Path;
    Pow32();
    SpanMono(lengths[s], W);
    WordBound(bits, W);
    assert Aligned(raw[s], lengths[s]);
    PathWord(raw[s], lengths[s], W, bits);
  }

  /** No stream begins with two codewords: codewords are prefix-free. */
  lemma ReadsOne(lengths: seq<nat>, raw: seq<nat>, av: seq<nat>, bits: Bits, s: nat, t: nat)
    requires |raw| == |lengths| && Good(lengths, raw, |lengths|, av) && Partition(lengths, raw, |lengths|, av)
    requires Binary(bits) && Reads(lengths, raw, bits, s) && Reads(lengths, raw, bits, t)
    ensures s == t
  {
    hide Word, Path, Used, Free;
    var v := Word(bits, W);
    ReadsUnder(lengths, raw, av, bits, s);
    ReadsUnder(lengths, raw, av, bits, t);
    assert Used(lengths, raw, |lengths|, v) + Free(av, W, v) == 1;
    if s < t {
      UsedTwice(lengths, raw, |lengths|, s, t, v);
    } else if t < s {
      UsedTwice(lengths, raw, |lengths|, t, s, v);
    }
  }

  // ----- symbols written one after another -----

  predicate Codable(lengths: seq<nat>, raw: seq<nat>, syms: seq<nat>) {
    |raw| == |lengths| && forall k :: 0 <= k < |syms| ==> syms[k] < |lengths| && 0 < lengths[syms[k]] <= W
  }

  function Codewords(lengths: seq<nat>, raw: seq<nat>, syms: seq<nat>): Bits
    requires Codable(lengths, raw, syms)
  {
    if syms == [] then [] else Path(raw[syms[0]], lengths[syms[0]], W) + Codewords(lengths, raw, syms[1..])
  }

  // The bits are the codewords of `syms`, one after another.
  predicate Parses(lengths: seq<nat>, raw: seq<nat>, bits: Bits, syms: seq<nat>)
    decreases |syms|
  {
    if syms == [] then bits == []
    else Reads(lengths, raw, bits, syms[0]) && Parses(lengths, raw, bits[lengths[syms[0]]..], syms[1..])
  }

  lemma {:induction false} PathBinary(c: nat, l: nat, w: nat)
    requires l <= w && c < Pow2(w)
    ensures Binary(Path(c, l, w))
    decreases w
  {
    if l > 0 {
      TopIsBit(c, Pow2(w - 1));
      PathBinary(c % Pow2(w - 1), l - 1, w - 1);
    }
  }

  lemma {:induction false} CodewordsBinary(lengths: seq<nat>, raw: seq<nat>, av: seq<nat>, syms: seq<nat>)
    requires Codable(lengths, raw, syms) && Good(lengths, raw, |lengths|, av)
    ensures Binary(Codewords(lengths, raw, syms))
  {
    if syms != [] {
      var s := syms[0];
      Pow32();
      SpanMono(lengths[s], W);
      assert Aligned(raw[s], lengths[s]);
      PathBinary(raw[s], lengths[s], W);
      CodewordsBinary(lengths, raw, av, syms[1..]);
    }
  }

  lemma ReadsNothing(lengths: seq<nat>, raw: seq<nat>)
    ensures forall s :: !Reads(lengths, raw, [], s)
  {
  }

  /** Whatever was written is read back, and nothing else can be. */
  lemma {:induction false} ReadBack(lengths: seq<nat>, raw: seq<nat>, av: seq<nat>, syms: seq<nat>, found: seq<nat>)
    requires Codable(lengths, raw, syms) && Good(lengths, raw, |lengths|, av) && Partition(lengths, raw, |lengths|, av)
    ensures Parses(lengths, raw, Codewords(lengths, raw, syms), found) <==> found == syms
  {
    hide Partition, Good, Path;
    var bits := Codewords(lengths, raw, syms);
    CodewordsBinary(lengths, raw, av, syms);
    if syms == [] {
      ReadsNothing(lengths, raw);
    } else {
      var s := syms[0];
      var l := lengths[s];
      assert bits[..l] == Path(raw[s], l, W) && bits[l..] == Codewords(lengths, raw, syms[1..]);
      assert Reads(lengths, raw, bits, s);
      if found != [] {
        ReadBack(lengths, raw, av, syms[1..], found[1..]);
        if Reads(lengths, raw, bits, found[0]) {
          ReadsOne(lengths, raw, av, bits, s, found[0]);
        }
        assert found == [found[0]] + found[1..] && syms == [s] + syms[1..];
      } else {
        assert |bits| >= l;
      }
    }
  }

  // ----- reading one bit at a time -----

  // The codeword of s.
  predicate Spells(lengths: seq<nat>, raw: seq<nat>, bits: Bits, s: nat) {
    s < |lengths| && s < |raw| && 0 < lengths[s] <= W && Path(raw[s], lengths[s], W) == bits
  }

  // The symbol below i whose codeword these bits are.
  function SymbolOf(lengths: seq<nat>, raw: seq<nat>, bits: Bits, i: nat): (r: Option<nat>)
    ensures r.Some? ==> r.value < i && Spells(lengths, raw, bits, r.value)
    ensures r.None? ==> forall s: nat :: s < i ==> !Spells(lengths, raw, bits, s)
  {
    if i == 0 then None
    else if Spells(lengths, raw, bits, i - 1) then Some(i - 1)
    else SymbolOf(lengths, raw, bits, i - 1)
  }

  /** A decoder that takes bit after bit, and gives a symbol as soon as the bits since
      the last one are a codeword. It has no answer when bits are left over. */
  function Walk(lengths: seq<nat>, raw: seq<nat>, held: Bits, bits: Bits): Option<seq<nat>>
    requires |lengths| == |raw|
    decreases |bits|
  {
    if bits == [] then if held == [] then Some([]) else None
    else
      var now := held + [bits[0]];
      match SymbolOf(lengths, raw, now, |lengths|)
      case None => Walk(lengths, raw, now, bits[1..])
      case Some(s) =>
        match Walk(lengths, raw, [], bits[1..])
        case None => None
        case Some(found) => Some([s] + found)
  }

  // No codeword ends within the bits held.
  ghost predicate Open(lengths: seq<nat>, raw: seq<nat>, held: Bits) {
    forall s: nat :: !Reads(lengths, raw, held, s)
  }

  lemma NotYet(lengths: seq<nat>, raw: seq<nat>, held: Bits, b: nat, s: nat)
    requires |lengths| == |raw| && !Reads(lengths, raw, held, s) && !Spells(lengths, raw, held + [b], s)
    ensures !Reads(lengths, raw, held + [b], s)
  {
    hide Path;
    var now := held + [b];
    if s < |lengths| && 0 < lengths[s] <= W {
      Shorter(Path(raw[s], lengths[s], W), held, b);
    }
  }

  // A prefix that is not the whole is a prefix of what was there before.
  lemma Shorter(p: Bits, held: Bits, b: nat)
    requires p != held + [b]
    ensures p <= held + [b] ==> p <= held
  {
    if p <= held + [b] {
      assert |p| <= |held|;
      assert p == (held + [b])[..|p|] == held[..|p|];
    }
  }

  lemma Beyond(lengths: seq<nat>, raw: seq<nat>, bits: Bits, s: nat)
    requires s >= |lengths|
    ensures !Spells(lengths, raw, bits, s)
  {
  }

  lemma StillOpen(lengths: seq<nat>, raw: seq<nat>, held: Bits, b: nat)
    requires |lengths| == |raw| && Open(lengths, raw, held) && SymbolOf(lengths, raw, held + [b], |lengths|).None?
    ensures Open(lengths, raw, held + [b])
  {
    hide Path, SymbolOf, Reads, Spells;
    forall s: nat
      ensures !Reads(lengths, raw, held + [b], s)
    {
      if s >= |lengths| {
        Beyond(lengths, raw, held + [b], s);
      }
      NotYet(lengths, raw, held, b, s);
    }
  }

  // A codeword is complete: what is left over is the rest.
  lemma Completes(lengths: seq<nat>, raw: seq<nat>, av: seq<nat>, now: Bits, rest: Bits, s: nat, found: seq<nat>)
    requires |raw| == |lengths| && Good(lengths, raw, |lengths|, av) && Partition(lengths, raw, |lengths|, av) && Binary(now + rest)
    requires Spells(lengths, raw, now, s)
    ensures Parses(lengths, raw, now + rest, found) <==> found != [] && found[0] == s && Parses(lengths, raw, rest, found[1..])
  {
    hide Path, Good, Partition, Binary;
    assert Reads(lengths, raw, now + rest, s);
    assert (now + rest)[|now|..] == rest;
    if found != [] && Reads(lengths, raw, now + rest, found[0]) {
      ReadsOne(lengths, raw, av, now + rest, s, found[0]);
    }
  }

  /** It finds a list of symbols exactly when the bits are their codewords. */
  lemma {:induction false} WalkParses(lengths: seq<nat>, raw: seq<nat>, av: seq<nat>, held: Bits, bits: Bits, found: seq<nat>)
    requires |raw| == |lengths| && Good(lengths, raw, |lengths|, av) && Partition(lengths, raw, |lengths|, av)
    requires Binary(held + bits) && Open(lengths, raw, held)
    ensures Walk(lengths, raw, held, bits) == Some(found) <==> Parses(lengths, raw, held + bits, found)
    decreases |bits|
  {
    hide Path, Good, Partition, SymbolOf, Reads, Spells;
    if bits == [] {
      assert held + bits == held;
    } else {
      var now, rest := held + [bits[0]], bits[1..];
      assert held + bits == now + rest;
      assert forall k :: 0 <= k < |rest| ==> rest[k] == (now + rest)[|now| + k];
      match SymbolOf(lengths, raw, now, |lengths|)
      case None =>
        StillOpen(lengths, raw, held, bits[0]);
        WalkParses(lengths, raw, av, now, rest, found);
      case Some(s) =>
        Completes(lengths, raw, av, now, rest, s, found);
        ReadsNothing(lengths, raw);
        assert [] + rest == rest;
        if found != [] {
          WalkParses(lengths, raw, av, [], rest, found[1..]);
          assert [found[0]] + found[1..] == found;
        }
    }
  }

  /** What was written is read back, bit by bit. */
  lemma WalkBack(lengths: seq<nat>, raw: seq<nat>, av: seq<nat>, syms: seq<nat>)
    requires Codable(lengths, raw, syms) && Good(lengths, raw, |lengths|, av) && Partition(lengths, raw, |lengths|, av)
    ensures Walk(lengths, raw, [], Codewords(lengths, raw, syms)) == Some(syms)
  {
    hide Path, Good, Partition, Reads, Walk, Parses;
    var bits := Codewords(lengths, raw, syms);
    CodewordsBinary(lengths, raw, av, syms);
    ReadsNothing(lengths, raw);
    assert [] + bits == bits;
    ReadBack(lengths, raw, av, syms, syms);
    WalkParses(lengths, raw, av, [], bits, syms);
  }

  // ----- the writer -----

  // x with bit k set to b, where it was clear: byte OR.
  function OrBit(x: nat, b: nat, k: nat): nat {
    if x / Pow2(k) % 2 == 1 then x else x + b * Pow2(k)
  }

  function BitAt(data: seq<byte>, k: nat): nat
    requires k / 8 < |data|
  {
    data[k / 8] / Pow2(k % 8) % 2
  }

  predicate Packed(data: seq<byte>, n: nat) {
    |data| == (n + 7) / 8 && (n % 8 != 0 ==> data[|data| - 1] < Pow2(n % 8))
  }

  function BitsOf(data: seq<byte>, n: nat): (r: Bits)
    requires Packed(data, n)
    ensures |r| == n
  {
    seq(n, k requires 0 <= k < n => BitAt(data, k))
  }

  /** Setting the next bit of a byte leaves the bits below it alone. */
  lemma NextBit(x: nat, b: nat, k: nat)
    requires x < Pow2(k) && b <= 1
    ensures OrBit(x, b, k) == x + b * Pow2(k) < Pow2(k + 1)
    ensures OrBit(x, b, k) / Pow2(k) % 2 == b
    ensures forall j :: 0 <= j < k ==> OrBit(x, b, k) / Pow2(j) % 2 == x / Pow2(j) % 2
  {
    var p := Pow2(k);
    DivUnique(0, x, p);
    DivUnique(b, x, p);
    forall j | 0 <= j < k
      ensures (x + b * p) / Pow2(j) % 2 == x / Pow2(j) % 2
    {
      LowerBit(x, b, k, j);
    }
  }

  lemma LowerBit(x: nat, b: nat, k: nat, j: nat)
    requires j < k && b <= 1
    ensures (x + b * Pow2(k)) / Pow2(j) % 2 == x / Pow2(j) % 2
  {
    hide Pow2;
    var h: nat := Pow2(k - j - 1);
    Pow2Add(j, k - j);
    Pow2Next(k - j - 1);
    if b == 1 {
      EvenMore(x, Pow2(j), h);
    }
  }

  lemma EvenMore(x: nat, s: nat, h: nat)
    requires s > 0
    ensures (x + s * (2 * h)) / s % 2 == x / s % 2
  {
    var q, r := x / s, x % s;
    assert x == s * q + r;
    MoreOf(s, q, r, 2 * h);
    assert (q + 2 * h) % 2 == q % 2;
  }

  lemma Pow2Next(k: nat)
    ensures Pow2(k + 1) == 2 * Pow2(k)
  {
  }

  lemma MoreOf(s: nat, q: nat, r: nat, m: nat)
    requires r < s
    ensures (s * q + r + s * m) / s == q + m
  {
    assert s * q + r + s * m == (q + m) * s + r;
    DivUnique(q + m, r, s);
  }

  lemma Pow2Byte(k: nat)
    requires k <= 8
    ensures Pow2(k) <= 256
  {
    Pow2Mono(k, 8);
    assert Pow2(5) == 32 && Pow2(8) == 8 * Pow2(5);
  }

  // The bits below the last byte, and those below k in it.
  lemma BitKept(d: seq<byte>, data': seq<byte>, b: nat, n: nat, k: nat)
    requires |d| > 0 && |data'| == |d| && data'[..|d| - 1] == d[..|d| - 1] && n / 8 == |d| - 1 && k < n
    requires forall j :: 0 <= j < n % 8 ==> data'[|d| - 1] / Pow2(j) % 2 == d[|d| - 1] / Pow2(j) % 2
    ensures BitAt(data', k) == BitAt(d, k)
  {
    hide Pow2;
    if k / 8 < |d| - 1 {
      assert data'[k / 8] == data'[..|d| - 1][k / 8] == d[k / 8];
    } else {
      assert k % 8 < n % 8;
    }
  }

  lemma BitsJoin(data: seq<byte>, data': seq<byte>, n: nat, b: nat)
    requires Packed(data, n) && Packed(data', n + 1) && BitAt(data', n) == b
    requires forall k: nat :: k < n ==> BitAt(data', k) == BitAt(data, k)
    ensures BitsOf(data', n + 1) == BitsOf(data, n) + [b]
  {
    hide BitAt;
  }

  lemma SameBit(data: seq<byte>, d: seq<byte>, k: nat)
    requires k / 8 < |data| <= |d| && d[..|data|] == data
    ensures BitAt(d, k) == BitAt(data, k)
  {
    assert d[k / 8] == d[..|data|][k / 8];
  }

  lemma PackedMore(d: seq<byte>, data': seq<byte>, b: nat, n: nat)
    requires |d| == n / 8 + 1 && d[|d| - 1] < Pow2(n % 8) && b <= 1
    requires |data'| == |d| && data'[|d| - 1] == OrBit(d[|d| - 1], b, n % 8)
    ensures Packed(data', n + 1) && BitAt(data', n) == b
    ensures forall j :: 0 <= j < n % 8 ==> data'[|d| - 1] / Pow2(j) % 2 == d[|d| - 1] / Pow2(j) % 2
  {
    hide Pow2, OrBit;
    NextBit(d[|d| - 1], b, n % 8);
  }

  /** One more bit at the end of a packed sequence. */
  lemma BitAppends(data: seq<byte>, n: nat, b: nat, data': seq<byte>)
    requires Packed(data, n) && b <= 1
    requires var d := if n % 8 == 0 then data + [0] else data;
             |data'| == |d| && data'[..|d| - 1] == d[..|d| - 1] && data'[|d| - 1] == OrBit(d[|d| - 1], b, n % 8)
    ensures Packed(data', n + 1) && BitsOf(data', n + 1) == BitsOf(data, n) + [b]
  {
    hide OrBit, BitsOf, BitAt;
    var d := if n % 8 == 0 then data + [0] else data;
    assert d[|d| - 1] < Pow2(n % 8);
    PackedMore(d, data', b, n);
    forall k: nat | k < n
      ensures BitAt(data', k) == BitAt(data, k)
    {
      BitKept(d, data', b, n, k);
      assert BitAt(d, k) == BitAt(data, k) by { SameBit(data, d, k); }
    }
    BitsJoin(data, data', n, b);
  }

  class BitWriter {
    var data: seq<byte>
    var n: nat

    predicate Valid()
      reads this
    {
      Packed(data, n)
    }

    function View(): Bits
      reads this
      requires Valid()
    {
      BitsOf(data, n)
    }

    constructor ()
      ensures Valid() && View() == []
    {
      data, n := [], 0;
    }

    /** write: the low bits of v, least significant first. */
    method Write(v0: nat, count: nat)
      requires Valid()
      modifies this
      ensures Valid() && View() == old(View()) + Low(v0, count)
    {
      hide Packed, BitsOf;
      var v := v0;
      var i := 0;
      while i < count
        invariant 0 <= i <= count && Valid() && View() + Low(v, count - i) == old(View()) + Low(v0, count)
      {
        ghost var bits := View();
        PutBit(v % 2);
        assert bits + Low(v, count - i) == bits + [v % 2] + Low(v / 2, count - i - 1);
        v := v / 2;
        i := i + 1;
      }
      assert View() + [] == View();
    }

    method PutBit(b: nat)
      requires Valid() && b <= 1
      modifies this
      ensures Valid() && View() == old(View()) + [b]
    {
      hide Pow2, OrBit, BitsOf;
      ghost var was: seq<byte> := data;
      if n % 8 == 0 {
        data := data + [0];
      }
      Fits(was, n, b);
      data := data[|data| - 1 := OrBit(data[|data| - 1], b, n % 8)];
      BitAppends(was, n, b, data);
      n := n + 1;
    }

    lemma Fits(was: seq<byte>, n: nat, b: nat)
      requires Packed(was, n) && b <= 1
      ensures var x: nat := if n % 8 == 0 then 0 else was[|was| - 1]; OrBit(x, b, n % 8) < 256
    {
      hide Pow2, OrBit;
      var x: nat := if n % 8 == 0 then 0 else was[|was| - 1];
      NextBit(x, b, n % 8);
      Pow2Byte(n % 8 + 1);
    }

    /** codebook.write: the codeword of a symbol, or an error for one that has none. */
    method WriteSymbol(lengths: seq<nat>, codes: seq<nat>, symbol: int, ghost raw: seq<nat>, ghost av: seq<nat>) returns (ok: bool)
      requires Valid() && |codes| == |lengths| == |raw| && Good(lengths, raw, |lengths|, av)
      requires forall i :: 0 <= i < |lengths| && lengths[i] > 0 ==> codes[i] == Reverse(raw[i], W)
      modifies this
      ensures ok <==> 0 <= symbol < |lengths| && lengths[symbol] > 0
      ensures Valid() && View() == old(View()) + if ok then Path(raw[symbol], lengths[symbol], W) else []
    {
      hide Packed, BitsOf, Path, Reverse;
      if symbol < 0 || symbol >= |lengths| || lengths[symbol] == 0 {
        assert View() + [] == View();
        return false;
      }
      assert Aligned(raw[symbol], lengths[symbol]);
      SpanMono(lengths[symbol], W);
      Pow32();
      LowReverse(raw[symbol], lengths[symbol], W);
      Write(codes[symbol], lengths[symbol]);
      ok := true;
    }
  }

  lemma {:induction false} CodewordsSnoc(lengths: seq<nat>, raw: seq<nat>, syms: seq<nat>, s: nat)
    requires Codable(lengths, raw, syms + [s])
    ensures Codable(lengths, raw, syms) && s < |lengths| == |raw| && 0 < lengths[s] <= W
    ensures Codewords(lengths, raw, syms + [s]) == Codewords(lengths, raw, syms) + Path(raw[s], lengths[s], W)
  {
    hide Path;
    assert (syms + [s])[|syms|] == s;
    assert forall k :: 0 <= k < |syms| ==> (syms + [s])[k] == syms[k];
    if syms == [] {
      assert [s][1..] == [] && [] + [s] == [s];
    } else {
      assert (syms + [s])[1..] == syms[1..] + [s] && (syms + [s])[0] == syms[0];
      CodewordsSnoc(lengths, raw, syms[1..], s);
    }
  }

  /** Symbols written through the bit writer with the codewords of a book are what
      the decoder finds in its bits. */
  method WriteAll(lengths: seq<nat>, codes: seq<nat>, syms: seq<nat>, ghost raw: seq<nat>, ghost av: seq<nat>) returns (ok: bool, w: BitWriter)
    requires |codes| == |lengths| == |raw| && Good(lengths, raw, |lengths|, av) && Partition(lengths, raw, |lengths|, av)
    requires forall i :: 0 <= i < |lengths| && lengths[i] > 0 ==> codes[i] == Reverse(raw[i], W)
    ensures fresh(w) && w.Valid()
    ensures ok <==> forall k :: 0 <= k < |syms| ==> syms[k] < |lengths| && lengths[syms[k]] > 0
    ensures ok ==> Walk(lengths, raw, [], w.View()) == Some(syms)
  {
    hide Path, Good, Partition, Reverse, Packed, BitsOf, Walk, Codewords;
    w := new BitWriter();
    NoCodewords(lengths, raw);
    GoodLengths(lengths, raw, av);
    for i := 0 to |syms|
      invariant fresh(w) && w.Valid() && Codable(lengths, raw, syms[..i]) && w.View() == Codewords(lengths, raw, syms[..i])
    {
      ok := w.WriteSymbol(lengths, codes, syms[i], raw, av);
      if !ok {
        return;
      }
      assert syms[..i + 1] == syms[..i] + [syms[i]];
      CodewordsSnoc(lengths, raw, syms[..i], syms[i]);
    }
    assert syms[..|syms|] == syms;
    WalkBack(lengths, raw, av, syms);
    ok := true;
  }

  lemma NoCodewords(lengths: seq<nat>, raw: seq<nat>)
    requires |raw| == |lengths|
    ensures Codable(lengths, raw, []) && Codewords(lengths, raw, []) == []
  {
  }

  lemma GoodLengths(lengths: seq<nat>, raw: seq<nat>, av: seq<nat>)
    requires |raw| == |lengths| && Good(lengths, raw, |lengths|, av)
    ensures forall s :: 0 <= s < |lengths| && lengths[s] > 0 ==> lengths[s] <= W
  {
    forall s | 0 <= s < |lengths| && lengths[s] > 0
      ensures lengths[s] <= W
    {
      assert Aligned(raw[s], lengths[s]);
    }
  }
}
