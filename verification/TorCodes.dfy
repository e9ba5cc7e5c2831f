/** Codewords from the merged tree: every node splits the words that reach it
    between its children, so each word reaches exactly one leaf. */
module TorCodes {
  import opened Counting
  import opened Bytes
  import opened AnsCoder
  import opened TorTree

  /** Word w, least significant bit first, reaches node x. */
  function Hit(bs: seq<nat>, cs: seq<nat>, x: nat, w: nat): nat
    requires x < |bs| == |cs|
  {
    One(w % Pow2(bs[x]) == cs[x])
  }

  function Hits(bs: seq<nat>, cs: seq<nat>, lo: nat, hi: nat, w: nat): nat
    requires lo <= hi <= |bs| == |cs|
    decreases hi - lo
  {
    if lo == hi then 0 else Hit(bs, cs, lo, w) + Hits(bs, cs, lo + 1, hi, w)
  }

  // A node's share of all words.
  function Share(k: nat): real {
    1.0 / (Pow2(k) as real)
  }

  function Shares(bs: seq<nat>, lo: nat, hi: nat): real
    requires lo <= hi <= |bs|
    decreases hi - lo
  {
    if lo == hi then 0.0 else Share(bs[lo]) + Shares(bs, lo + 1, hi)
  }

  lemma {:induction false} HitsSnoc(bs: seq<nat>, cs: seq<nat>, lo: nat, hi: nat, w: nat)
    requires lo <= hi < |bs| == |cs|
    ensures Hits(bs, cs, lo, hi + 1, w) == Hits(bs, cs, lo, hi, w) + Hit(bs, cs, hi, w)
    ensures Shares(bs, lo, hi + 1) == Shares(bs, lo, hi) + Share(bs[hi])
    decreases hi - lo
  {
    if lo < hi {
      HitsSnoc(bs, cs, lo + 1, hi, w);
    }
  }

  lemma {:induction false} HitsSame(bs: seq<nat>, cs: seq<nat>, bs': seq<nat>, cs': seq<nat>, lo: nat, hi: nat, w: nat)
    requires lo <= hi <= |bs| == |cs| == |bs'| == |cs'| && forall x :: lo <= x < hi ==> bs'[x] == bs[x] && cs'[x] == cs[x]
    ensures Hits(bs', cs', lo, hi, w) == Hits(bs, cs, lo, hi, w) && Shares(bs', lo, hi) == Shares(bs, lo, hi)
    decreases hi - lo
  {
    if lo < hi {
      HitsSame(bs, cs, bs', cs', lo + 1, hi, w);
    }
  }

  lemma FromParts(w: nat, p: nat, h: nat, r: nat)
    requires r < p
    ensures w == h * (2 * p) + r ==> w % (2 * p) == r
    ensures w == h * (2 * p) + (p + r) ==> w % (2 * p) == p + r
  {
    DivUnique(h, r, 2 * p);
    DivUnique(h, p + r, 2 * p);
  }

  lemma Halves(p: nat, q: nat)
    ensures q % 2 == 0 ==> p * q == (q / 2) * (2 * p)
    ensures q % 2 == 1 ==> p * q == (q / 2) * (2 * p) + p
  {
    var h := q / 2;
    assert p * (2 * h) == h * (2 * p);
    assert q == 2 * h || q == 2 * h + 1;
    assert p * (2 * h + 1) == p * (2 * h) + p;
  }

  lemma Quotients(w: nat, p: nat) returns (q: nat, r: nat)
    requires p > 0
    ensures w == p * q + r && r == w % p && r < p
  {
    q, r := w / p, w % p;
  }

  lemma ModTwice(w: nat, p: nat)
    requires p > 0
    ensures w % (2 * p) == w % p || w % (2 * p) == p + w % p
  {
    var q, r := Quotients(w, p);
    Halves(p, q);
    FromParts(w, p, q / 2, r);
  }

  /** The words with the low k bits c are those with the next bit 0 and those with it 1. */
  lemma Split(w: nat, k: nat, c: nat)
    requires c < Pow2(k)
    ensures One(w % Pow2(k) == c) == One(w % Pow2(k + 1) == c) + One(w % Pow2(k + 1) == c + Pow2(k))
  {
    ModTwice(w, Pow2(k));
    assert Pow2(k + 1) == 2 * Pow2(k);
    assert w % Pow2(k) < Pow2(k);
  }

  lemma ShareSplit(k: nat)
    ensures Share(k) == Share(k + 1) + Share(k + 1)
  {
    var p := Pow2(k) as real;
    assert Pow2(k + 1) as real == 2.0 * p;
    assert 1.0 / (2.0 * p) + 1.0 / (2.0 * p) == 1.0 / p;
  }

  /** The leaves and inner nodes still to be split share out all words. */
  ghost predicate Partition(bs: seq<nat>, cs: seq<nat>, b: nat, h: Heads, hi: nat) {
    && h.p1 <= b && b + 2 <= h.p2 <= hi <= |bs| == |cs|
    && (forall w: nat :: Hits(bs, cs, h.p1, b, w) + Hits(bs, cs, h.p2, hi, w) == 1)
    && Shares(bs, h.p1, b) + Shares(bs, h.p2, hi) == 1.0
  }

  // The values given to the children of node i.
  function Given(bs: seq<nat>, i: nat, l: nat, r: nat): seq<nat>
    requires i < |bs| && l < |bs| && r < |bs|
  {
    bs[l := bs[i] + 1][r := bs[i] + 1]
  }

  function Coded(bs: seq<nat>, cs: seq<nat>, i: nat, l: nat, r: nat): seq<nat>
    requires i < |bs| == |cs| && l < |bs| && r < |bs|
  {
    cs[l := cs[i]][r := cs[i] + Pow2(bs[i])]
  }

  // What a merge took, from the heads before and after it.
  function Kids(h: Heads, h': Heads): (nat, nat) {
    if h'.p1 == h.p1 + 2 then (h.p1, h.p1 + 1)
    else if h'.p2 == h.p2 + 2 then (h.p2, h.p2 + 1)
    else (h.p1, h.p2)
  }

  lemma KidsAre(node: Node, h: Heads, h': Heads)
    requires Takes(node, h, h')
    ensures Kids(h, h') == (node.left, node.right)
  {
  }

  /** The lengths and codewords after n more inner nodes have been split. */
  function CodesDown(hs: seq<Heads>, b: nat, n: nat, bs: seq<nat>, cs: seq<nat>): (seq<nat>, seq<nat>) {
    if n == 0 || n >= |hs| then (bs, cs)
    else
      var i, k := b + 1 + n, Kids(hs[n - 1], hs[n]);
      if |bs| != |cs| || i >= |bs| || k.0 >= |bs| || k.1 >= |bs| then (bs, cs)
      else CodesDown(hs, b, n - 1, Given(bs, i, k.0, k.1), Coded(bs, cs, i, k.0, k.1))
  }

  function Zeros(n: nat): seq<nat> { seq(n, _ => 0) }

  /** The lengths and codewords of a merged tree in a buffer of that size. */
  function CodesOf(hs: seq<Heads>, b: nat, size: nat): (seq<nat>, seq<nat>)
    requires b > 0
  {
    CodesDown(hs, b, b - 1, Zeros(size), Zeros(size))
  }

  lemma DownStep(hs: seq<Heads>, b: nat, n: nat, node: Node, bs: seq<nat>, cs: seq<nat>)
    requires 0 < n < |hs| && Takes(node, hs[n - 1], hs[n]) && |bs| == |cs| && b + 1 + n < |bs| && node.left < |bs| && node.right < |bs|
    ensures var i := b + 1 + n;
            CodesDown(hs, b, n, bs, cs) == CodesDown(hs, b, n - 1, Given(bs, i, node.left, node.right), Coded(bs, cs, i, node.left, node.right))
  {
    hide Given, Coded, Kids;
    KidsAre(node, hs[n - 1], hs[n]);
  }

  // The nodes a merge took from one queue, for one word.
  lemma TakenHits(bs: seq<nat>, cs: seq<nat>, node: Node, h: Heads, h': Heads, b: nat, w: nat)
    requires Takes(node, h, h') && h'.p1 <= b && b + 2 <= h.p2 && h'.p2 <= |bs| == |cs|
    ensures node.left < |bs| && node.right < |bs|
    ensures Hits(bs, cs, h.p1, h'.p1, w) + Hits(bs, cs, h.p2, h'.p2, w) == Hit(bs, cs, node.left, w) + Hit(bs, cs, node.right, w)
    ensures Shares(bs, h.p1, h'.p1) + Shares(bs, h.p2, h'.p2) == Share(bs[node.left]) + Share(bs[node.right])
  {
    HitsTwo(bs, cs, h.p1, h'.p1, w);
    HitsTwo(bs, cs, h.p2, h'.p2, w);
  }

  lemma HitsTwo(bs: seq<nat>, cs: seq<nat>, lo: nat, hi: nat, w: nat)
    requires lo <= hi <= |bs| == |cs| && hi <= lo + 2
    ensures hi == lo ==> Hits(bs, cs, lo, hi, w) == 0 && Shares(bs, lo, hi) == 0.0
    ensures hi == lo + 1 ==> Hits(bs, cs, lo, hi, w) == Hit(bs, cs, lo, w) && Shares(bs, lo, hi) == Share(bs[lo])
    ensures hi == lo + 2 ==> Hits(bs, cs, lo, hi, w) == Hit(bs, cs, lo, w) + Hit(bs, cs, lo + 1, w) && Shares(bs, lo, hi) == Share(bs[lo]) + Share(bs[lo + 1])
  {
    if hi == lo + 2 {
      assert Hits(bs, cs, lo + 1, hi, w) == Hit(bs, cs, lo + 1, w) + Hits(bs, cs, lo + 2, hi, w);
      assert Shares(bs, lo + 1, hi) == Share(bs[lo + 1]) + Shares(bs, lo + 2, hi);
    }
  }

  lemma {:induction false} HitsAppend(bs: seq<nat>, cs: seq<nat>, lo: nat, mid: nat, hi: nat, w: nat)
    requires lo <= mid <= hi <= |bs| == |cs|
    ensures Hits(bs, cs, lo, hi, w) == Hits(bs, cs, lo, mid, w) + Hits(bs, cs, mid, hi, w)
    ensures Shares(bs, lo, hi) == Shares(bs, lo, mid) + Shares(bs, mid, hi)
    decreases mid - lo
  {
    if lo < mid {
      HitsAppend(bs, cs, lo + 1, mid, hi, w);
    }
  }

  /** Splitting the last inner node keeps the partition, for each word. */
  lemma SplitWord(bs: seq<nat>, cs: seq<nat>, b: nat, node: Node, h: Heads, h': Heads, i: nat, w: nat)
    requires Takes(node, h, h') && h'.p1 <= b && b + 2 <= h.p2 && h'.p2 <= i < |bs| == |cs| && cs[i] < Pow2(bs[i])
    ensures node.left < i && node.right < i
    ensures var bs', cs' := Given(bs, i, node.left, node.right), Coded(bs, cs, i, node.left, node.right);
            && Hits(bs', cs', h.p1, b, w) + Hits(bs', cs', h.p2, i, w) == Hits(bs, cs, h'.p1, b, w) + Hits(bs, cs, h'.p2, i + 1, w)
            && Shares(bs', h.p1, b) + Shares(bs', h.p2, i) == Shares(bs, h'.p1, b) + Shares(bs, h'.p2, i + 1)
  {
    hide Share, Pow2;
    var l, r := node.left, node.right;
    var bs', cs' := Given(bs, i, l, r), Coded(bs, cs, i, l, r);
    HitsAppend(bs', cs', h.p1, h'.p1, b, w);
    HitsAppend(bs', cs', h.p2, h'.p2, i, w);
    TakenHits(bs', cs', node, h, h', b, w);
    HitsSame(bs, cs, bs', cs', h'.p1, b, w);
    HitsSame(bs, cs, bs', cs', h'.p2, i, w);
    HitsSnoc(bs, cs, h'.p2, i, w);
    assert bs'[l] == bs[i] + 1 && bs'[r] == bs[i] + 1 && cs'[l] == cs[i] && cs'[r] == cs[i] + Pow2(bs[i]);
    Split(w, bs[i], cs[i]);
    ShareSplit(bs[i]);
  }

  lemma SplitKeeps(bs: seq<nat>, cs: seq<nat>, b: nat, node: Node, h: Heads, h': Heads, i: nat)
    requires Takes(node, h, h') && h'.p1 <= b && b + 2 <= h.p2 && h'.p2 <= i < |bs| == |cs| && cs[i] < Pow2(bs[i])
    requires Partition(bs, cs, b, h', i + 1)
    ensures node.left < i && node.right < i
    ensures Partition(Given(bs, i, node.left, node.right), Coded(bs, cs, i, node.left, node.right), b, h, i)
  {
    hide Takes, Given, Coded, Hits, Shares, Share, Pow2;
    SplitWord(bs, cs, b, node, h, h', i, 0);
    Sizes2(bs, cs, i, node.left, node.right);
    TakesUp(node, h, h');
    forall w: nat
      ensures var bs', cs' := Given(bs, i, node.left, node.right), Coded(bs, cs, i, node.left, node.right);
              Hits(bs', cs', h.p1, b, w) + Hits(bs', cs', h.p2, i, w) == 1
    {
      SplitWord(bs, cs, b, node, h, h', i, w);
    }
  }

  lemma Sizes2(bs: seq<nat>, cs: seq<nat>, i: nat, l: nat, r: nat)
    requires i < |bs| == |cs| && l < |bs| && r < |bs|
    ensures |Given(bs, i, l, r)| == |Coded(bs, cs, i, l, r)| == |bs|
  {
  }

  lemma TakesUp(node: Node, h: Heads, h': Heads)
    requires Takes(node, h, h')
    ensures h.p1 <= h'.p1 && h.p2 <= h'.p2
  {
  }

  // ----- depths -----

  /** The further to the front of its queue, the deeper a node: the first leaf is
      deepest. `cap` is the depth given last. */
  ghost predicate Levels(bs: seq<nat>, b: nat, h: Heads, hi: nat, root: nat, cap: nat) {
    && h.p1 <= b && h.p2 <= hi <= root + 1 <= |bs| && b <= |bs|
    && (forall x, y :: h.p1 <= x <= y < b ==> bs[x] >= bs[y])
    && (forall x, y :: h.p2 <= x <= y <= root ==> bs[x] >= bs[y])
    && (forall x :: h.p1 <= x < b ==> bs[x] <= cap)
    && (forall x :: h.p2 <= x <= root ==> bs[x] <= cap)
    && (forall x :: h.p2 <= x < hi ==> bs[x] + 1 >= cap)
  }

  lemma LevelsStep(bs: seq<nat>, b: nat, node: Node, h: Heads, h': Heads, i: nat, root: nat, cap: nat)
    requires Levels(bs, b, h', i + 1, root, cap) && Takes(node, h, h') && h'.p2 <= i <= root && b + 2 <= h.p2
    ensures node.left < |bs| && node.right < |bs| && Levels(Given(bs, i, node.left, node.right), b, h, i, root, bs[i] + 1)
  {
  }

  // Nothing is deeper than the root is high.
  ghost predicate Low(bs: seq<nat>, b: nat, hts: seq<nat>, h: Heads, root: nat) {
    && h.p1 <= b && h.p2 <= root < |bs| && b <= |bs|
    && (forall x :: h.p1 <= x < b ==> bs[x] <= Height(b, hts, root))
    && (forall x :: h.p2 <= x <= root ==> bs[x] + Height(b, hts, x) <= Height(b, hts, root))
  }

  lemma LowStep(buf: seq<Node>, bs: seq<nat>, b: nat, hts: seq<nat>, h: Heads, h': Heads, t: nat, root: nat)
    requires Low(bs, b, hts, h', root) && t < |hts| && b + 2 + t < |buf| && Tall(buf, b, hts, t)
    requires Takes(buf[b + 2 + t], h, h') && h'.p2 <= b + 2 + t <= root && b + 2 <= h.p2
    ensures var node := buf[b + 2 + t]; node.left < |bs| && node.right < |bs| && Low(Given(bs, b + 2 + t, node.left, node.right), b, hts, h, root)
  {
    assert Height(b, hts, b + 2 + t) == hts[t];
  }

  // Codewords fit their lengths.
  ghost predicate Short(bs: seq<nat>, cs: seq<nat>, b: nat, h: Heads, hi: nat) {
    && |bs| == |cs| && h.p1 <= b <= |bs| && h.p2 <= hi <= |bs|
    && (forall x :: h.p1 <= x < b ==> cs[x] < Pow2(bs[x]))
    && (forall x :: h.p2 <= x < hi ==> cs[x] < Pow2(bs[x]))
  }

  lemma ShortStep(bs: seq<nat>, cs: seq<nat>, b: nat, node: Node, h: Heads, h': Heads, i: nat)
    requires Short(bs, cs, b, h', i + 1) && Takes(node, h, h') && h'.p2 <= i && b + 2 <= h.p2
    ensures node.left < |bs| && node.right < |bs|
    ensures Short(Given(bs, i, node.left, node.right), Coded(bs, cs, i, node.left, node.right), b, h, i)
  {
    assert Pow2(bs[i] + 1) == 2 * Pow2(bs[i]);
  }

  // ----- the loop -----

  // 1 << k in 32 bits.
  function Shl(k: nat): nat { if k < 32 then Pow2(k) else 0 }

  lemma CodeWraps(c: nat, k: nat)
    ensures (c + Pow2(k)) % U32 == (c % U32 + Shl(k)) % U32
  {
    if k >= 32 {
      Pow2Add(k - 32, 32);
      Pow32();
      ModFar(c, Pow2(k - 32));
    } else {
      ModNear(c, Pow2(k));
    }
  }

  lemma ModFar(c: nat, m: nat)
    ensures (c + m * U32) % U32 == c % U32 == (c % U32 + 0) % U32
  {
    var q, r := c / U32, c % U32;
    assert c + m * U32 == (q + m) * U32 + r;
    DivUnique(q + m, r, U32);
  }

  lemma ModNear(c: nat, p: nat)
    ensures (c + p) % U32 == (c % U32 + p) % U32
  {
    var q, r := c / U32, c % U32;
    var q', r' := (r + p) / U32, (r + p) % U32;
    assert c + p == (q + q') * U32 + r';
    DivUnique(q + q', r', U32);
  }

  // The merged tree, as the assignment finds it.
  ghost predicate Tree(was: seq<Node>, b: nat, hs: seq<Heads>, hts: seq<nat>, root: nat) {
    && Merged(was, b, hs) && |hs| == b >= 2 && hs[b - 1] == Heads(b, 2 * b) && root == 2 * b < |was|
    && |hts| == b - 1 && (forall t {:trigger Tall(was, b, hts, t)} :: 0 <= t < |hts| ==> Tall(was, b, hts, t))
    && Fib(Height(b, hts, root)) <= FENCE
  }

  /** With n inner nodes still to be split. */
  ghost predicate Stage(b: nat, h: Heads, hts: seq<nat>, n: nat, bs: seq<nat>, cs: seq<nat>, root: nat, cap: nat) {
    && Partition(bs, cs, b, h, b + 2 + n) && Levels(bs, b, h, b + 2 + n, root, cap)
    && Low(bs, b, hts, h, root) && Short(bs, cs, b, h, b + 2 + n)
  }

  lemma RootLow(was: seq<Node>, b: nat, hs: seq<Heads>, hts: seq<nat>, root: nat)
    requires Tree(was, b, hs, hts, root)
    ensures Height(b, hts, root) < 62
  {
    FibGrows(31);
    Pow31();
    FibMonoBack(Height(b, hts, root));
  }

  lemma Pow31()
    ensures Pow2(31) == FENCE + 1
  {
    Pow2Values();
    Pow2Add(16, 15);
  }

  lemma FibMonoBack(h: nat)
    ensures h >= 62 ==> Fib(62) <= Fib(h)
  {
    if h >= 62 {
      FibMono(62, h);
    }
  }

  lemma FirstPartition(bs: seq<nat>, cs: seq<nat>, b: nat, root: nat)
    requires b + 2 <= root < |bs| == |cs| && bs[root] == 0 && cs[root] == 0
    ensures Partition(bs, cs, b, Heads(b, root), root + 1)
  {
    hide Pow2;
    assert Pow2(0) == 1 && Share(0) == 1.0 by { One0(); }
    forall w: nat
      ensures Hits(bs, cs, b, b, w) + Hits(bs, cs, root, root + 1, w) == 1
    {
      HitsTwo(bs, cs, root, root + 1, w);
    }
    HitsTwo(bs, cs, root, root + 1, 0);
  }

  lemma One0()
    ensures Pow2(0) == 1 && Share(0) == 1.0
  {
  }

  lemma FirstStage(was: seq<Node>, b: nat, hs: seq<Heads>, hts: seq<nat>, root: nat, bs: seq<nat>, cs: seq<nat>)
    requires Tree(was, b, hs, hts, root) && |bs| == |cs| == |was| && bs[root] == 0 && cs[root] == 0
    ensures Stage(b, hs[b - 1], hts, b - 1, bs, cs, root, 1)
  {
    hide Partition, Merged, Fib, Tall, Share, Pow2;
    One0();
    FirstPartition(bs, cs, b, root);
  }

  // How node i splits: it is the last of the n, and its children are before it.
  lemma NodeSplits(was: seq<Node>, b: nat, hs: seq<Heads>, hts: seq<nat>, root: nat, n: nat, i: nat)
    requires Tree(was, b, hs, hts, root) && 0 < n < |hs| && i == b + 1 + n
    ensures i <= root && was[i].left < i && was[i].right < i && Takes(was[i], hs[n - 1], hs[n]) && Tall(was, b, hts, n - 1)
    ensures hs[n].p1 <= b && b + 2 <= hs[n - 1].p2 && hs[n].p2 <= i
  {
    assert Merge1(was, b, hs, n - 1);
    HeadsAt(was, b, hs, n - 1);
    HeadsAt(was, b, hs, n);
    assert Tall(was, b, hts, n - 1);
  }

  lemma NextStage(was: seq<Node>, b: nat, h: Heads, h': Heads, hts: seq<nat>, root: nat, n: nat, i: nat, bs: seq<nat>, cs: seq<nat>, cap: nat)
    requires Stage(b, h', hts, n, bs, cs, root, cap) && 0 < n <= |hts| && i == b + 1 + n <= root < |was| == |bs| == |cs|
    requires Takes(was[i], h, h') && Tall(was, b, hts, n - 1) && h'.p1 <= b && b + 2 <= h.p2 && h'.p2 <= i
    requires was[i].left < i && was[i].right < i
    ensures Stage(b, h, hts, n - 1, Given(bs, i, was[i].left, was[i].right), Coded(bs, cs, i, was[i].left, was[i].right), root, bs[i] + 1)
    ensures bs[i] <= Height(b, hts, root) && cs[i] < Pow2(bs[i])
  {
    hide Takes, Partition, Levels, Low, Short, Given, Coded, Tall, Height, Pow2;
    CodeFits(bs, cs, b, h', i);
    SplitKeeps(bs, cs, b, was[i], h, h', i);
    LevelsStep(bs, b, was[i], h, h', i, root, cap);
    LowStep(was, bs, b, hts, h, h', n - 1, root);
    ShortStep(bs, cs, b, was[i], h, h', i);
    LowAt(bs, b, hts, h', root, i);
  }

  lemma CodeFits(bs: seq<nat>, cs: seq<nat>, b: nat, h: Heads, i: nat)
    requires Short(bs, cs, b, h, i + 1) && h.p2 <= i
    ensures cs[i] < Pow2(bs[i])
  {
  }

  lemma LowAt(bs: seq<nat>, b: nat, hts: seq<nat>, h: Heads, root: nat, x: nat)
    requires Low(bs, b, hts, h, root) && h.p2 <= x <= root
    ensures bs[x] <= Height(b, hts, root)
  {
  }

  // The buffer is the merged tree, with the codewords given so far in 8 and 32 bits.
  ghost predicate Carries(buf: seq<Node>, was: seq<Node>, bs: seq<nat>, cs: seq<nat>, b: nat, h: Heads, root: nat) {
    && |buf| == |was| == |bs| == |cs| && b <= root < |buf|
    && (forall x {:trigger buf[x]} :: 0 <= x < |buf| ==> buf[x] == was[x].(bits := buf[x].bits, code := buf[x].code))
    && (forall x {:trigger bs[x]} {:trigger cs[x]} :: h.p1 <= x < b || h.p2 <= x <= root ==> buf[x].bits == bs[x] && buf[x].code == cs[x] % U32)
  }

  lemma CarriesStep(buf: seq<Node>, was: seq<Node>, bs: seq<nat>, cs: seq<nat>, b: nat, h: Heads, h': Heads, root: nat, i: nat)
    requires Carries(buf, was, bs, cs, b, h', root) && h'.p2 <= i <= root && was[i].left < i && was[i].right < i && bs[i] < 62
    requires Takes(was[i], h, h') && h'.p1 <= b && b + 2 <= h.p2
    ensures var l, r := was[i].left, was[i].right;
            Carries(buf[l := buf[l].(bits := bs[i] + 1, code := cs[i] % U32)][r := buf[r].(bits := bs[i] + 1, code := (cs[i] % U32 + Shl(bs[i])) % U32)],
                    was, Given(bs, i, l, r), Coded(bs, cs, i, l, r), b, h, root)
  {
    CodeWraps(cs[i], bs[i]);
  }

  /** What the codewords of the leaves are: every word reaches one leaf, the leaves'
      shares add up, and no leaf is deeper than the first. */
  ghost predicate Coding(b: nat, bs: seq<nat>, cs: seq<nat>) {
    && 0 < b <= |bs| == |cs|
    && (forall w: nat :: Hits(bs, cs, 0, b, w) == 1)
    && Shares(bs, 0, b) == 1.0
    && (forall x :: 0 <= x < b ==> cs[x] < Pow2(bs[x]) && bs[x] <= bs[0])
    && bs[0] < 62
  }

  lemma LastStage(was: seq<Node>, b: nat, hs: seq<Heads>, hts: seq<nat>, root: nat, bs: seq<nat>, cs: seq<nat>, cap: nat)
    requires Tree(was, b, hs, hts, root) && Stage(b, hs[0], hts, 0, bs, cs, root, cap)
    ensures Coding(b, bs, cs) && bs[0] <= Height(b, hts, root)
  {
    hide Tall, Fib, Hits, Shares, Height;
    RootLow(was, b, hs, hts, root);
    forall w: nat
      ensures Hits(bs, cs, 0, b, w) == 1
    {
      HitsTwo(bs, cs, b + 2, b + 2, w);
      assert Hits(bs, cs, hs[0].p1, b, w) + Hits(bs, cs, hs[0].p2, b + 2, w) == 1;
    }
    HitsTwo(bs, cs, b + 2, b + 2, 0);
  }

  lemma CarriesFirst(buf: seq<Node>, was: seq<Node>, b: nat, root: nat, bs: seq<nat>, cs: seq<nat>)
    requires b + 2 <= root < |was| == |bs| == |cs| && bs[root] == 0 && cs[root] == 0 && buf == was[root := was[root].(bits := 0, code := 0)]
    ensures Carries(buf, was, bs, cs, b, Heads(b, root), root)
  {
  }

  lemma CarriesAt(buf: seq<Node>, was: seq<Node>, bs: seq<nat>, cs: seq<nat>, b: nat, h: Heads, root: nat, i: nat)
    requires Carries(buf, was, bs, cs, b, h, root) && h.p2 <= i <= root
    ensures buf[i].bits == bs[i] && buf[i].code == cs[i] % U32 && buf[i].left == was[i].left && buf[i].right == was[i].right
  {
    assert bs[i] >= 0;
  }

  lemma NoInner(was: seq<Node>, b: nat, hs: seq<Heads>, hts: seq<nat>, root: nat)
    requires Tree(was, b, hs, hts, root)
    ensures hs[0] == Heads(0, b + 2) && b + 2 <= root
  {
  }

  /** The codeword loop of build, from the root down. */
  method Assign(buf: array<Node>, b: nat, p2: nat, ghost hs: seq<Heads>, ghost hts: seq<nat>) returns (ghost bs: seq<nat>, ghost cs: seq<nat>)
    requires Tree(buf[..], b, hs, hts, p2)
    modifies buf
    ensures Coding(b, bs, cs) && |bs| == buf.Length && bs[0] <= Height(b, hts, p2)
    ensures (bs, cs) == CodesOf(hs, b, buf.Length)
    ensures forall x :: 0 <= x < b ==> buf[x] == old(buf[x]).(bits := bs[x], code := cs[x] % U32)
  {
    hide Merged, Fib, Tall, Stage, Carries, Takes, Coding, Height, Given, Coded, Shl, CodesDown;
    ghost var was := buf[..];
    NoInner(was, b, hs, hts, p2);
    bs, cs := Zeros(buf.Length), Zeros(buf.Length);
    ghost var goal := CodesOf(hs, b, buf.Length);
    buf[p2] := buf[p2].(bits := 0, code := 0);
    FirstStage(was, b, hs, hts, p2, bs, cs);
    CarriesFirst(buf[..], was, b, p2, bs, cs);
    RootLow(was, b, hs, hts, p2);
    ghost var cap: nat := 1;
    var i := p2;
    while i >= b + 2
      invariant b + 1 <= i <= p2 && |bs| == |cs| == |was| == buf.Length && Tree(was, b, hs, hts, p2)
      invariant CodesDown(hs, b, i - b - 1, bs, cs) == goal
      invariant Stage(b, hs[i - b - 1], hts, i - b - 1, bs, cs, p2, cap) && Carries(buf[..], was, bs, cs, b, hs[i - b - 1], p2)
    {
      ghost var n := i - b - 1;
      NodeSplits(was, b, hs, hts, p2, n, i);
      NextStage(was, b, hs[n - 1], hs[n], hts, p2, n, i, bs, cs, cap);
      CarriesAt(buf[..], was, bs, cs, b, hs[n], p2, i);
      CarriesStep(buf[..], was, bs, cs, b, hs[n - 1], hs[n], p2, i);
      var parentBits, parentCode, l, r := buf[i].bits, buf[i].code, buf[i].left, buf[i].right;
      ghost var now := buf[..];
      buf[l] := buf[l].(bits := (parentBits + 1) % 256, code := parentCode);
      buf[r] := buf[r].(bits := (parentBits + 1) % 256, code := (parentCode + Shl(parentBits)) % U32);
      assert buf[..] == now[l := now[l].(bits := bs[i] + 1, code := cs[i] % U32)][r := now[r].(bits := bs[i] + 1, code := (cs[i] % U32 + Shl(bs[i])) % U32)];
      GivenSize(bs, cs, i, l, r);
      DownStep(hs, b, n, was[i], bs, cs);
      cap := bs[i] + 1;
      cs := Coded(bs, cs, i, l, r);
      bs := Given(bs, i, l, r);
      i := i - 1;
    }
    DownEnd(hs, b, bs, cs);
    LastStage(was, b, hs, hts, p2, bs, cs, cap);
    CarriesAll(buf[..], was, bs, cs, b, p2);
  }

  lemma DownEnd(hs: seq<Heads>, b: nat, bs: seq<nat>, cs: seq<nat>)
    ensures CodesDown(hs, b, 0, bs, cs) == (bs, cs)
  {
  }

  lemma GivenSize(bs: seq<nat>, cs: seq<nat>, i: nat, l: nat, r: nat)
    requires i < |bs| == |cs| && l < |bs| && r < |bs|
    ensures |Given(bs, i, l, r)| == |Coded(bs, cs, i, l, r)| == |bs|
  {
  }

  lemma CarriesAll(buf: seq<Node>, was: seq<Node>, bs: seq<nat>, cs: seq<nat>, b: nat, root: nat)
    requires Carries(buf, was, bs, cs, b, Heads(0, b + 2), root)
    ensures |buf| == |was| == |bs| == |cs| && b <= |buf| && forall x :: 0 <= x < b ==> buf[x] == was[x].(bits := bs[x], code := cs[x] % U32)
  {
    forall x | 0 <= x < b
      ensures buf[x] == was[x].(bits := bs[x], code := cs[x] % U32)
    {
      assert bs[x] >= 0;
    }
  }
}
