/** Vorbis codebooks: codewords are assigned so that they and the free nodes of
    the tree always divide up all 32-bit words between them. */
module VorbisCodes {
  import opened Counting
  import opened Bytes
  import opened AnsCoder

  const W: nat := 32

  // How many words begin with a codeword of n bits.
  function Span(n: nat): nat
    requires n <= W
  {
    Pow2(W - n)
  }

  /** Word v lies under the node with code c and depth n. */
  function Under(c: nat, n: nat, v: nat): nat
    requires n <= W
  {
    One(c <= v < c + Span(n))
  }

  /** A node is its two children. */
  lemma Split(c: nat, n: nat, v: nat)
    requires 0 < n <= W
    ensures Span(n - 1) == 2 * Span(n)
    ensures Under(c, n - 1, v) == Under(c, n, v) + Under(c + Span(n), n, v)
  {
  }

  // ----- codewords given out -----

  function Used(lengths: seq<nat>, raw: seq<nat>, i: nat, v: nat): nat
    requires i <= |lengths| && i <= |raw|
  {
    if i == 0 then 0
    else Used(lengths, raw, i - 1, v) + if 0 < lengths[i - 1] <= W then Under(raw[i - 1], lengths[i - 1], v) else 0
  }

  /** The Kraft sum, in words. */
  function Kraft(lengths: seq<nat>, i: nat): nat
    requires i <= |lengths|
  {
    if i == 0 then 0 else Kraft(lengths, i - 1) + if 0 < lengths[i - 1] <= W then Span(lengths[i - 1]) else 0
  }

  lemma {:induction false} KraftMono(lengths: seq<nat>, i: nat, j: nat)
    requires i <= j <= |lengths|
    ensures Kraft(lengths, i) <= Kraft(lengths, j)
  {
    if i < j {
      KraftMono(lengths, i, j - 1);
    }
  }

  lemma {:induction false} UsedSame(lengths: seq<nat>, raw: seq<nat>, raw': seq<nat>, i: nat, v: nat)
    requires i <= |lengths| && i <= |raw| && i <= |raw'| && forall j :: 0 <= j < i ==> raw[j] == raw'[j]
    ensures Used(lengths, raw, i, v) == Used(lengths, raw', i, v)
  {
    if i > 0 {
      UsedSame(lengths, raw, raw', i - 1, v);
    }
  }

  // ----- free nodes, at most one of each depth -----

  function Node(av: seq<nat>, n: nat, v: nat): nat
    requires n < |av| == W + 1
  {
    if av[n] == 0 then 0 else Under(av[n], n, v)
  }

  function Free(av: seq<nat>, n: nat, v: nat): nat
    requires n < |av| == W + 1
  {
    if n == 0 then 0 else Free(av, n - 1, v) + Node(av, n, v)
  }

  function Room(av: seq<nat>, n: nat): nat
    requires n < |av| == W + 1
  {
    if n == 0 then 0 else Room(av, n - 1) + if av[n] == 0 then 0 else Span(n)
  }

  lemma {:induction false} FreeUpdate(av: seq<nat>, k: nat, x: nat, n: nat, v: nat)
    requires 0 < k < |av| == W + 1 && n <= W
    ensures Free(av[k := x], n, v) == if n < k then Free(av, n, v) else Free(av, n, v) - Node(av, k, v) + Node(av[k := x], k, v)
    ensures Node(av, k, v) <= Free(av, k, v)
    ensures Room(av[k := x], n) == if n < k then Room(av, n) else Room(av, n) - (if av[k] == 0 then 0 else Span(k)) + if x == 0 then 0 else Span(k)
  {
    if n > 0 {
      FreeUpdate(av, k, x, n - 1, v);
    }
  }

  lemma {:induction false} NoneFree(av: seq<nat>, n: nat, v: nat)
    requires n < |av| == W + 1 && forall k :: 1 <= k <= n ==> av[k] == 0
    ensures Free(av, n, v) == 0 && Room(av, n) == 0
  {
    if n > 0 {
      NoneFree(av, n - 1, v);
    }
  }

  /** When the free nodes are all deeper than l, not even a node of depth l is free in all. */
  lemma {:induction false} LittleRoom(av: seq<nat>, l: nat, n: nat)
    requires l <= n < |av| == W + 1 && forall k :: 1 <= k <= l ==> av[k] == 0
    ensures Room(av, n) + Span(n) <= Span(l)
    decreases n - l
  {
    if n == l {
      NoneFree(av, l, 0);
    } else {
      LittleRoom(av, l, n - 1);
    }
  }

  lemma {:induction false} RoomHas(av: seq<nat>, k: nat, n: nat)
    requires 0 < k <= n < |av| == W + 1 && av[k] != 0
    ensures Room(av, n) >= Span(k)
  {
    if k < n {
      RoomHas(av, k, n - 1);
    }
  }

  lemma {:induction false} SpanMono(k: nat, l: nat)
    requires k <= l <= W
    ensures Span(k) >= Span(l) > 0
  {
    Pow2Mono(W - l, W - k);
  }

  // ----- the state of the assignment -----

  predicate Aligned(c: nat, n: nat)
    requires n <= W
  {
    c % Span(n) == 0 && c + Span(n) <= U32
  }

  lemma AlignedSplit(c: nat, n: nat)
    requires 0 < n <= W && Aligned(c, n - 1)
    ensures Aligned(c, n) && Aligned(c + Span(n), n)
  {
    hide Span;
    SpanHalves(n);
    HalfMultiple(c, Span(n));
  }

  lemma SpanHalves(n: nat)
    requires 0 < n <= W
    ensures Span(n - 1) == 2 * Span(n) && Span(n) > 0
  {
  }

  lemma HalfMultiple(c: nat, s: nat)
    requires s > 0 && c % (2 * s) == 0
    ensures c % s == 0 && (c + s) % s == 0
  {
    var p := 2 * s;
    var q := c / p;
    assert c == q * p;
    Regrouped(q, s);
    DivUnique(2 * q, 0, s);
    DivUnique(2 * q + 1, 0, s);
  }

  lemma Multiple(c: nat, s: nat, q: nat)
    requires s > 0
    ensures c == s * q ==> c % s == 0
  {
    DivUnique(q, 0, s);
    assert q * s + 0 == s * q;
  }

  lemma Regrouped(q: nat, s: nat)
    ensures q * (2 * s) == (2 * q) * s && (2 * q + 1) * s == (2 * q) * s + s
  {
  }

  ghost predicate Good(lengths: seq<nat>, raw: seq<nat>, i: nat, av: seq<nat>) {
    && i <= |lengths| && i <= |raw| && |av| == W + 1
    && (forall j :: 0 <= j < i ==> lengths[j] <= W && (lengths[j] > 0 ==> Aligned(raw[j], lengths[j])))
    && (forall n :: 1 <= n <= W && av[n] != 0 ==> Aligned(av[n], n))
  }

  /** Codewords, free nodes and the node (c, n) in hand divide up all words. */
  ghost predicate Divided(lengths: seq<nat>, raw: seq<nat>, i: nat, av: seq<nat>, c: nat, n: nat)
    requires i <= |lengths| && i <= |raw| && |av| == W + 1 && n <= W
  {
    && (forall v: nat :: v < U32 ==> Used(lengths, raw, i, v) + Free(av, W, v) + Under(c, n, v) == 1)
    && Kraft(lengths, i) + Room(av, W) + Span(n) == U32
  }

  /** Codewords and free nodes divide up all words, once there is a codeword. */
  ghost predicate Partition(lengths: seq<nat>, raw: seq<nat>, i: nat, av: seq<nat>)
    requires i <= |lengths| && i <= |raw| && |av| == W + 1
  {
    && (forall v: nat :: v < U32 ==> Used(lengths, raw, i, v) + Free(av, W, v) == 1)
    && Kraft(lengths, i) + Room(av, W) == U32
  }

  lemma TakeNode(lengths: seq<nat>, raw: seq<nat>, i: nat, av: seq<nat>, n: nat)
    requires i <= |lengths| && i <= |raw| && |av| == W + 1 && Partition(lengths, raw, i, av) && 0 < n <= W && av[n] != 0
    ensures Divided(lengths, raw, i, av[n := 0], av[n], n)
  {
    forall v: nat | v < U32
      ensures Used(lengths, raw, i, v) + Free(av[n := 0], W, v) + Under(av[n], n, v) == 1
    {
      FreeUpdate(av, n, 0, W, v);
    }
    FreeUpdate(av, n, 0, W, 0);
    RoomHas(av, n, W);
  }

  lemma Carve(lengths: seq<nat>, raw: seq<nat>, i: nat, av: seq<nat>, c: nat, k: nat)
    requires i <= |lengths| && i <= |raw| && |av| == W + 1 && 0 < k <= W && av[k] == 0 && Divided(lengths, raw, i, av, c, k - 1)
    ensures Divided(lengths, raw, i, av[k := c + Span(k)], c, k)
  {
    SpanMono(k, k);
    forall v: nat | v < U32
      ensures Used(lengths, raw, i, v) + Free(av[k := c + Span(k)], W, v) + Under(c, k, v) == 1
    {
      FreeUpdate(av, k, c + Span(k), W, v);
      Split(c, k, v);
    }
    FreeUpdate(av, k, c + Span(k), W, 0);
    Split(c, k, 0);
  }

  lemma GiveCode(lengths: seq<nat>, raw: seq<nat>, i: nat, av: seq<nat>, c: nat)
    requires i < |lengths| && i < |raw| && |av| == W + 1 && 0 < lengths[i] <= W && Divided(lengths, raw, i, av, c, lengths[i])
    ensures Partition(lengths, raw[i := c], i + 1, av)
  {
    forall v: nat | v < U32
      ensures Used(lengths, raw[i := c], i + 1, v) + Free(av, W, v) == 1
    {
      UsedSame(lengths, raw, raw[i := c], i, v);
    }
  }

  // Codebooks without a codeword so far.
  lemma {:induction false} NothingUsed(lengths: seq<nat>, raw: seq<nat>, i: nat, v: nat)
    requires i <= |lengths| && i <= |raw| && forall j :: 0 <= j < i ==> lengths[j] == 0
    ensures Used(lengths, raw, i, v) == 0 && Kraft(lengths, i) == 0
  {
    if i > 0 {
      NothingUsed(lengths, raw, i - 1, v);
    }
  }

  lemma WholeTree(lengths: seq<nat>, raw: seq<nat>, i: nat, av: seq<nat>)
    requires i <= |lengths| && i <= |raw| && |av| == W + 1 && (forall j :: 0 <= j < i ==> lengths[j] == 0) && forall k :: 1 <= k <= W ==> av[k] == 0
    ensures Divided(lengths, raw, i, av, 0, 0) && Aligned(0, 0)
  {
    Pow32();
    forall v: nat | v < U32
      ensures Used(lengths, raw, i, v) + Free(av, W, v) + Under(0, 0, v) == 1
    {
      NothingUsed(lengths, raw, i, v);
      NoneFree(av, W, v);
    }
    NothingUsed(lengths, raw, i, 0);
    NoneFree(av, W, 0);
  }

  // ----- the first available prefix -----

  /** The deeper a free node, the lower it lies. */
  ghost predicate Stair(av: seq<nat>) {
    |av| == W + 1 && forall j, k :: 1 <= j < k <= W && av[j] != 0 && av[k] != 0 ==> av[k] + Span(k) <= av[j]
  }

  // ... and the node in hand lies between the deeper and the others.
  ghost predicate Between(av: seq<nat>, c: nat, n: nat)
    requires n <= W
  {
    && Stair(av)
    && (forall j :: 1 <= j <= n && av[j] != 0 ==> c + Span(n) <= av[j])
    && (forall k :: n < k <= W && av[k] != 0 ==> av[k] + Span(k) <= c)
  }

  lemma TakeStair(av: seq<nat>, n: nat)
    requires Stair(av) && 0 < n <= W && av[n] != 0
    ensures Between(av[n := 0], av[n], n)
  {
    hide Span;
  }

  lemma CarveStair(av: seq<nat>, c: nat, k: nat)
    requires 0 < k <= W && Between(av, c, k - 1) && av[k] == 0
    ensures Between(av[k := c + Span(k)], c, k)
  {
    hide Span;
    SpanHalves(k);
  }

  lemma BetweenStair(av: seq<nat>, c: nat, n: nat)
    requires n <= W && Between(av, c, n)
    ensures Stair(av)
  {
  }

  lemma EmptyStair(av: seq<nat>)
    requires |av| == W + 1 && forall k :: 1 <= k <= W ==> av[k] == 0
    ensures Between(av, 0, 0)
  {
    hide Span;
  }

  /** A prefix of the length of entry i that no entry before it has taken any word of. */
  ghost predicate Open(lengths: seq<nat>, raw: seq<nat>, i: nat, c: nat)
    requires i < |lengths| && i <= |raw| && lengths[i] <= W
  {
    Aligned(c, lengths[i]) && forall v: nat :: c <= v < c + Span(lengths[i]) ==> Used(lengths, raw, i, v) == 0
  }

  /** Entry i has the first of them. */
  ghost predicate FirstOpen(lengths: seq<nat>, raw: seq<nat>, i: nat)
    requires i < |lengths| && i < |raw| && lengths[i] <= W
  {
    Open(lengths, raw, i, raw[i]) && forall c: nat :: Open(lengths, raw, i, c) ==> raw[i] <= c
  }

  lemma OpenSame(lengths: seq<nat>, raw: seq<nat>, raw': seq<nat>, i: nat, c: nat)
    requires i < |lengths| && i <= |raw| && i <= |raw'| && lengths[i] <= W && forall j :: 0 <= j < i ==> raw[j] == raw'[j]
    ensures Open(lengths, raw, i, c) <==> Open(lengths, raw', i, c)
  {
    hide Aligned, Span;
    forall v: nat
      ensures Used(lengths, raw, i, v) == Used(lengths, raw', i, v)
    {
      UsedSame(lengths, raw, raw', i, v);
    }
  }

  lemma FirstOpenStays(lengths: seq<nat>, raw: seq<nat>, raw': seq<nat>, i: nat)
    requires i < |lengths| && i < |raw| && i < |raw'| && lengths[i] <= W && FirstOpen(lengths, raw, i)
    requires forall j :: 0 <= j <= i ==> raw[j] == raw'[j]
    ensures FirstOpen(lengths, raw', i)
  {
    hide Open;
    forall c: nat
      ensures Open(lengths, raw, i, c) <==> Open(lengths, raw', i, c)
    {
      OpenSame(lengths, raw, raw', i, c);
    }
  }

  // Word v is in the free node of depth k.
  predicate Inside(av: seq<nat>, k: nat, v: nat)
    requires k <= W < |av|
  {
    av[k] != 0 && av[k] <= v < av[k] + Span(k)
  }

  lemma {:induction false} NotFree(av: seq<nat>, n: nat, v: nat)
    requires n <= W && |av| == W + 1 && forall k :: 0 < k <= n ==> !Inside(av, k, v)
    ensures Free(av, n, v) == 0
  {
    hide Span;
    if n > 0 {
      assert !Inside(av, n, v);
      NotFree(av, n - 1, v);
    }
  }

  lemma {:induction false} InsideFree(av: seq<nat>, k: nat, n: nat, v: nat)
    requires 0 < k <= n <= W && |av| == W + 1 && Inside(av, k, v)
    ensures Free(av, n, v) > 0
  {
    hide Span;
    if k < n {
      InsideFree(av, k, n - 1, v);
    }
  }

  lemma MultiplesApart(a: nat, c: nat, s: nat)
    requires s > 0 && a % s == 0 && c % s == 0 && a < c
    ensures a + s <= c
  {
    var p, q := a / s, c / s;
    assert a == s * p && c == s * q;
    if q <= p {
      Scaled(q, p, s);
    } else {
      Scaled(p + 1, q, s);
      assert s * (p + 1) == s * p + s;
    }
  }

  /** Free nodes of different depths, all deeper than l, never make up a node of depth l. */
  lemma {:induction false} Hole(av: seq<nat>, l: nat, c: nat) returns (v: nat)
    requires |av| == W + 1 && l <= W && c % Span(l) == 0 && forall k :: l < k <= W && av[k] != 0 ==> av[k] % Span(k) == 0
    ensures c <= v < c + Span(l) && forall k :: l < k <= W ==> !Inside(av, k, v)
    decreases W - l
  {
    hide Span;
    SpanMono(l, l);
    if l == W {
      v := c;
    } else {
      SpanHalves(l + 1);
      HalfMultiple(c, Span(l + 1));
      var s, a := Span(l + 1), av[l + 1];
      v := Hole(av, l + 1, if a == c then c + s else c);
      if a != 0 && a < c {
        MultiplesApart(a, c, s);
      }
      if a > c {
        MultiplesApart(c, a, s);
      }
    }
  }

  /** The deepest free node that is not too deep begins with the first open prefix. */
  lemma DeepestFirst(lengths: seq<nat>, raw: seq<nat>, i: nat, av: seq<nat>, n: nat)
    requires i < |lengths| && i < |raw| && 0 < lengths[i] <= W && Good(lengths, raw, i, av) && Partition(lengths, raw, i, av) && Stair(av)
    requires 0 < n <= lengths[i] && av[n] != 0 && forall k :: n < k <= lengths[i] ==> av[k] == 0
    ensures FirstOpen(lengths, raw[i := av[n]], i)
  {
    hide Span, Open, Aligned, Partition, Stair;
    var raw' := raw[i := av[n]];
    NodeOpen(lengths, raw, i, av, n);
    OpenSame(lengths, raw, raw', i, av[n]);
    forall d: nat | Open(lengths, raw', i, d)
      ensures av[n] <= d
    {
      OpenSame(lengths, raw, raw', i, d);
      if d < av[n] {
        NoneBefore(lengths, raw, i, av, n, d);
      }
    }
  }

  lemma NodeOpen(lengths: seq<nat>, raw: seq<nat>, i: nat, av: seq<nat>, n: nat)
    requires i < |lengths| && i < |raw| && 0 < lengths[i] <= W && Good(lengths, raw, i, av) && Partition(lengths, raw, i, av)
    requires 0 < n <= lengths[i] && av[n] != 0
    ensures Open(lengths, raw, i, av[n])
  {
    hide Span, Kraft, Room;
    SpanMono(n, lengths[i]);
    AlignedDown(av[n], n, lengths[i]);
    forall v: nat | av[n] <= v < av[n] + Span(lengths[i])
      ensures Used(lengths, raw, i, v) == 0
    {
      InsideFree(av, n, W, v);
    }
  }

  // A prefix before that node has words that no free node has.
  lemma NoneBefore(lengths: seq<nat>, raw: seq<nat>, i: nat, av: seq<nat>, n: nat, d: nat)
    requires i < |lengths| && i < |raw| && 0 < lengths[i] <= W && Good(lengths, raw, i, av) && Partition(lengths, raw, i, av) && Stair(av)
    requires 0 < n <= lengths[i] && av[n] != 0 && forall k :: n < k <= lengths[i] ==> av[k] == 0
    requires d < av[n]
    ensures !Open(lengths, raw, i, d)
  {
    hide Span, Kraft, Room;
    var l, c := lengths[i], av[n];
    if Aligned(d, l) {
      SpanMono(l, l);
      AlignedDown(c, n, l);
      MultiplesApart(d, c, Span(l));
      var v := Hole(av, l, d);
      forall k | 0 < k <= W
        ensures !Inside(av, k, v)
      {
        assert k < n && av[k] != 0 ==> c + Span(n) <= av[k];
      }
      NotFree(av, W, v);
      assert Used(lengths, raw, i, v) == 1;
    }
  }

  lemma AlignedDown(c: nat, n: nat, l: nat)
    requires n <= l <= W && Aligned(c, n)
    ensures Aligned(c, l)
    decreases l - n
  {
    hide Span;
    if n < l {
      AlignedSplit(c, n + 1);
      AlignedDown(c, n + 1, l);
    }
  }

  // The first codeword of all is 0.
  lemma ZeroFirst(lengths: seq<nat>, raw: seq<nat>, i: nat)
    requires i < |lengths| && i < |raw| && 0 < lengths[i] <= W && forall j :: 0 <= j < i ==> lengths[j] == 0
    ensures FirstOpen(lengths, raw[i := 0], i)
  {
    hide Span, Aligned;
    WholeSpan();
    AlignedDown(0, 0, lengths[i]);
    var raw' := raw[i := 0];
    forall v: nat
      ensures Used(lengths, raw', i, v) == 0
    {
      NothingUsed(lengths, raw', i, v);
    }
  }

  lemma WholeSpan()
    ensures Span(0) == U32 && Aligned(0, 0)
  {
    Pow32();
  }

  // bits.Reverse32, for words of any width.
  function Reverse(x: nat, w: nat): nat
    decreases w
  {
    if w == 0 then 0 else
      var p: nat := Pow2(w - 1);
      TopBit(x, p) + 2 * Reverse(x % p, w - 1)
  }

  function TopBit(x: nat, p: nat): nat
    requires p > 0
  {
    x / p
  }

  /** What the lengths must satisfy: none too long, and no more codewords than there is room for. */
  predicate Feasible(lengths: seq<nat>) {
    (forall i :: 0 <= i < |lengths| ==> lengths[i] <= W) && Kraft(lengths, |lengths|) <= U32
  }

  /** The node in hand is split down to the length wanted; the other halves are free. */
  method SplitDown(available: array<nat>, code: nat, from: nat, length: nat, ghost lengths: seq<nat>, ghost raw: seq<nat>, ghost i: nat)
    requires available.Length == W + 1 && from <= length <= W && Good(lengths, raw, i, available[..]) && Aligned(code, from)
    requires Divided(lengths, raw, i, available[..], code, from)
    requires forall k :: from < k <= length ==> available[k] == 0
    requires Between(available[..], code, from)
    modifies available
    ensures Good(lengths, raw, i, available[..]) && Aligned(code, length) && Divided(lengths, raw, i, available[..], code, length)
    ensures Stair(available[..])
  {
    hide Divided, Aligned, Span, Between, Stair;
    var n := from + 1;
    while n <= length
      invariant from + 1 <= n <= length + 1 && Good(lengths, raw, i, available[..]) && Aligned(code, n - 1)
      invariant Divided(lengths, raw, i, available[..], code, n - 1) && Between(available[..], code, n - 1)
      invariant forall k :: n <= k <= length ==> available[k] == 0
    {
      ghost var av: seq<nat> := available[..];
      Carve(lengths, raw, i, av, code, n);
      CarveStair(av, code, n);
      AlignedSplit(code, n);
      SpanIs(n);
      available[n] := code + Pow2(32 - n);
      assert available[..] == av[n := code + Span(n)];
      n := n + 1;
    }
    BetweenStair(available[..], code, length);
  }

  lemma SpanIs(n: nat)
    requires n <= W
    ensures Span(n) == Pow2(32 - n)
  {
  }

  /** buildCodes: each entry gets the deepest free node that is not too deep, split
      down to its length. It fails exactly when the lengths are not feasible. */
  method BuildCodes(lengths: seq<nat>) returns (ok: bool, codes: seq<nat>, ghost raw: seq<nat>, ghost av: seq<nat>)
    ensures ok <==> Feasible(lengths)
    ensures ok ==> |codes| == |raw| == |lengths| && Good(lengths, raw, |lengths|, av)
    ensures ok ==> forall i :: 0 <= i < |lengths| && lengths[i] > 0 ==> codes[i] == Reverse(raw[i], W) && FirstOpen(lengths, raw, i)
    ensures ok && (exists i :: 0 <= i < |lengths| && lengths[i] > 0) ==> Partition(lengths, raw, |lengths|, av)
  {
    hide Divided, Partition, Span, Reverse, Aligned, Kraft, Stair, Between, FirstOpen;
    codes := seq(|lengths|, _ => 0);
    raw := codes;
    var available := new nat[W + 1](_ => 0);
    var first := true;
    for i := 0 to |lengths|
      invariant |codes| == |raw| == |lengths| && available.Length == W + 1 && fresh(available)
      invariant Good(lengths, raw, i, available[..])
      invariant first ==> (forall j :: 0 <= j < i ==> lengths[j] == 0) && forall k :: 1 <= k <= W ==> available[k] == 0
      invariant !first ==> Partition(lengths, raw, i, available[..]) && exists j :: 0 <= j < i && lengths[j] > 0
      invariant forall j :: 0 <= j < i && lengths[j] > 0 ==> codes[j] == Reverse(raw[j], W) && FirstOpen(lengths, raw, j)
      invariant !first ==> Stair(available[..])
      invariant forall j :: i <= j < |lengths| ==> codes[j] == 0
    {
      var length := lengths[i];
      if length == 0 {
        if !first {
          SkipEntry(lengths, raw, i, available[..]);
        }
        continue;
      }
      if length > 32 {
        return false, codes, raw, available[..];
      }
      var n, code := 0, 0;
      if first {
        first := false;
        WholeTree(lengths, raw, i, available[..]);
        EmptyStair(available[..]);
        ZeroFirst(lengths, raw, i);
        ReverseZero();
      } else {
        n := length;
        while n > 0 && available[n] == 0
          invariant 0 <= n <= length && forall k :: n < k <= length ==> available[k] == 0
        {
          n := n - 1;
        }
        if n == 0 {
          Oversubscribed(lengths, raw, i, available[..]);
          return false, codes, raw, available[..];
        }
        code := available[n];
        DeepestFirst(lengths, raw, i, available[..], n);
        TakeStair(available[..], n);
        TakeNode(lengths, raw, i, available[..], n);
        ghost var now: seq<nat> := available[..];
        available[n] := 0;
        assert available[..] == now[n := 0];
        codes := codes[i := Reverse(code, W)];
      }
      SplitDown(available, code, n, length, lengths, raw, i);
      GiveCode(lengths, raw, i, available[..], code);
      AllStay(lengths, raw, raw[i := code], i);
      raw := raw[i := code];
    }
    av := available[..];
    Fits(lengths, raw, first, av);
    ok := true;
  }

  lemma AllStay(lengths: seq<nat>, raw: seq<nat>, raw': seq<nat>, i: nat)
    requires i <= |lengths| && i <= |raw| && i <= |raw'| && (forall j :: 0 <= j < i ==> lengths[j] <= W && raw[j] == raw'[j])
    requires forall j :: 0 <= j < i && lengths[j] > 0 ==> FirstOpen(lengths, raw, j)
    ensures forall j :: 0 <= j < i && lengths[j] > 0 ==> FirstOpen(lengths, raw', j)
  {
    hide FirstOpen;
    forall j | 0 <= j < i && lengths[j] > 0
      ensures FirstOpen(lengths, raw', j)
    {
      FirstOpenStays(lengths, raw, raw', j);
    }
  }

  lemma SkipEntry(lengths: seq<nat>, raw: seq<nat>, i: nat, av: seq<nat>)
    requires i < |lengths| && i < |raw| && |av| == W + 1 && lengths[i] == 0 && Partition(lengths, raw, i, av)
    ensures Partition(lengths, raw, i + 1, av)
  {
  }

  lemma ReverseZero()
    ensures Reverse(0, W) == 0
  {
    ReverseNothing(W);
  }

  lemma {:induction false} ReverseNothing(w: nat)
    ensures Reverse(0, w) == 0
  {
    if w > 0 {
      ReverseNothing(w - 1);
      DivUnique(0, 0, Pow2(w - 1));
    }
  }

  /** Without a free node short enough, the Kraft sum would exceed the whole tree. */
  lemma Oversubscribed(lengths: seq<nat>, raw: seq<nat>, i: nat, av: seq<nat>)
    requires i < |lengths| && i < |raw| && |av| == W + 1 && 0 < lengths[i] <= W && Partition(lengths, raw, i, av)
    requires forall k :: 1 <= k <= lengths[i] ==> av[k] == 0
    ensures !Feasible(lengths)
  {
    LittleRoom(av, lengths[i], W);
    SpanMono(W, W);
    KraftMono(lengths, i + 1, |lengths|);
  }

  lemma Fits(lengths: seq<nat>, raw: seq<nat>, first: bool, av: seq<nat>)
    requires Good(lengths, raw, |lengths|, av)
    requires if first then forall j :: 0 <= j < |lengths| ==> lengths[j] == 0 else Partition(lengths, raw, |lengths|, av)
    ensures Feasible(lengths)
  {
    if first {
      NothingUsed(lengths, raw, |lengths|, 0);
    }
  }
}
