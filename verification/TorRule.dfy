/** The rebuilt tree said without the loops that make it: which nodes are merged,
    what they weigh, and how codewords grow from the root. */
module TorRule {
  import opened AnsCoder
  import opened TorTree
  import opened TorCodes

  // Merge t takes two nodes off the queues.
  predicate Move1(b: nat, hs: seq<Heads>, t: nat)
    requires t + 1 < |hs|
  {
    var h, h' := hs[t], hs[t + 1];
    && h.p1 <= b && b + 2 <= h.p2 && h'.p1 <= b && h'.p2 <= b + 2 + t
    && (h' == Heads(h.p1 + 2, h.p2) || h' == Heads(h.p1, h.p2 + 2) || h' == Heads(h.p1 + 1, h.p2 + 1))
  }

  ghost predicate Moves(b: nat, hs: seq<Heads>) {
    |hs| == b >= 2 && forall t {:trigger Move1(b, hs, t)} :: 0 <= t < |hs| - 1 ==> Move1(b, hs, t)
  }

  // The children of the t-th inner node get their parent's word, with a 0 or a 1 behind it.
  predicate Splits(bs: seq<nat>, cs: seq<nat>, i: nat, l: nat, r: nat) {
    && i < |bs| == |cs| && l < |bs| && r < |bs| && bs[l] == bs[r] == bs[i] + 1
    && cs[l] == cs[i] && cs[r] == cs[i] + Pow2(bs[i])
  }

  // Nodes that the first n merges have not taken.
  predicate Left(b: nat, h: Heads, x: nat) {
    (h.p1 <= x < b + 2) || h.p2 <= x
  }

  lemma KidsPlace(b: nat, hs: seq<Heads>, t: nat)
    requires t + 1 < |hs| && Move1(b, hs, t)
    ensures var k := Kids(hs[t], hs[t + 1]);
            && k.0 != k.1 && k.0 < b + 2 + t && k.1 < b + 2 + t
            && Left(b, hs[t], k.0) && Left(b, hs[t], k.1) && !Left(b, hs[t + 1], k.0) && !Left(b, hs[t + 1], k.1)
            && forall x :: Left(b, hs[t + 1], x) ==> Left(b, hs[t], x)
  {
  }

  lemma {:induction false} DownKeeps(hs: seq<Heads>, b: nat, n: nat, bs: seq<nat>, cs: seq<nat>, x: nat)
    requires Moves(b, hs) && n < |hs| && |bs| == |cs| > 2 * b && x < |bs| && Left(b, hs[n], x)
    ensures var r := CodesDown(hs, b, n, bs, cs); |r.0| == |r.1| == |bs| && r.0[x] == bs[x] && r.1[x] == cs[x]
  {
    hide Left, Kids;
    if n > 0 {
      assert Move1(b, hs, n - 1);
      KidsPlace(b, hs, n - 1);
      var i, k := b + 1 + n, Kids(hs[n - 1], hs[n]);
      DownKeeps(hs, b, n - 1, Given(bs, i, k.0, k.1), Coded(bs, cs, i, k.0, k.1), x);
    }
  }

  lemma {:induction false} DownSplits(hs: seq<Heads>, b: nat, n: nat, bs: seq<nat>, cs: seq<nat>, t: nat)
    requires Moves(b, hs) && t < n < |hs| && |bs| == |cs| > 2 * b
    ensures var r, k := CodesDown(hs, b, n, bs, cs), Kids(hs[t], hs[t + 1]);
            |r.0| == |r.1| == |bs| && Splits(r.0, r.1, b + 2 + t, k.0, k.1)
  {
    hide Left, Kids, CodesDown;
    assert Move1(b, hs, n - 1);
    KidsPlace(b, hs, n - 1);
    var i, k := b + 1 + n, Kids(hs[n - 1], hs[n]);
    var bs', cs' := Given(bs, i, k.0, k.1), Coded(bs, cs, i, k.0, k.1);
    DownNext(hs, b, n, bs, cs);
    if t == n - 1 {
      BeyondLeft(b, hs[n - 1], i);
      DownKeeps(hs, b, n - 1, bs', cs', i);
      DownKeeps(hs, b, n - 1, bs', cs', k.0);
      DownKeeps(hs, b, n - 1, bs', cs', k.1);
    } else {
      DownSplits(hs, b, n - 1, bs', cs', t);
    }
  }

  lemma DownNext(hs: seq<Heads>, b: nat, n: nat, bs: seq<nat>, cs: seq<nat>)
    requires 0 < n < |hs| && |bs| == |cs| && b + 1 + n < |bs|
    requires var k := Kids(hs[n - 1], hs[n]); k.0 < |bs| && k.1 < |bs|
    ensures var i, k := b + 1 + n, Kids(hs[n - 1], hs[n]);
            CodesDown(hs, b, n, bs, cs) == CodesDown(hs, b, n - 1, Given(bs, i, k.0, k.1), Coded(bs, cs, i, k.0, k.1))
  {
    hide Kids, Given, Coded;
  }

  lemma BeyondLeft(b: nat, h: Heads, i: nat)
    requires h.p2 <= i
    ensures Left(b, h, i)
  {
  }

  /** What holds of the nodes of a tree: cnt are the weights, leaves first, bs and cs
      the lengths and codewords. */
  ghost predicate Grown(leaves: seq<nat>, cnt: seq<nat>, hs: seq<Heads>, bs: seq<nat>, cs: seq<nat>) {
    var b := |leaves|;
    && b >= 2 && |cnt| == 2 * b + 1 && |bs| == |cs| > 2 * b && (forall x :: 0 <= x < b ==> cnt[x] == leaves[x])
    && |hs| == b && hs[0] == Heads(0, b + 2) && hs[b - 1] == Heads(b, 2 * b)
    && bs[2 * b] == 0 && cs[2 * b] == 0
    && forall t {:trigger Grown1(b, cnt, hs, bs, cs, t)} :: 0 <= t < b - 1 ==> Grown1(b, cnt, hs, bs, cs, t)
  }

  // The t-th merge.
  predicate Grown1(b: nat, cnt: seq<nat>, hs: seq<Heads>, bs: seq<nat>, cs: seq<nat>, t: nat)
    requires t + 1 < |hs| && b + 2 + t <= |cnt|
  {
    var i, k := b + 2 + t, Kids(hs[t], hs[t + 1]);
    && Rule(cnt[..i], b, i, hs[t], hs[t + 1])
    && i < |cnt| && k.0 < i && k.1 < i && cnt[i] == cnt[k.0] + cnt[k.1]
    && Splits(bs, cs, i, k.0, k.1)
  }

  lemma MovesOf(buf: seq<Node>, b: nat, hs: seq<Heads>, t: nat)
    requires Merged(buf, b, hs) && t + 1 < |hs|
    ensures Move1(b, hs, t) && b + 2 + t < |buf| && Kids(hs[t], hs[t + 1]) == (buf[b + 2 + t].left, buf[b + 2 + t].right)
  {
    assert Merge1(buf, b, hs, t);
    HeadsAt(buf, b, hs, t);
  }

  /** The merged buffer and its codewords make such a tree. */
  lemma GrownIs(buf: seq<Node>, b: nat, hs: seq<Heads>, size: nat, bs: seq<nat>, cs: seq<nat>)
    requires Merged(buf, b, hs) && Ruled(buf, b, hs) && |hs| == b >= 2 && hs[b - 1] == Heads(b, 2 * b)
    requires 2 * b < size && 2 * b < |buf| && (bs, cs) == CodesOf(hs, b, size)
    ensures Grown(Counts(buf, b), Counts(buf, 2 * b + 1), hs, bs, cs)
  {
    hide Rule, Kids, Splits, CodesDown, Merged, Ruled, Left;
    var cnt := Counts(buf, 2 * b + 1);
    forall t {:trigger Move1(b, hs, t)} | 0 <= t < |hs| - 1
      ensures Move1(b, hs, t)
    {
      MovesOf(buf, b, hs, t);
    }
    RootKept(b, hs, size);
    forall t {:trigger Grown1(b, cnt, hs, bs, cs, t)} | 0 <= t < b - 1
      ensures Grown1(b, cnt, hs, bs, cs, t)
    {
      MovesOf(buf, b, hs, t);
      RulesAt(buf, b, hs, t);
      DownSplits(hs, b, b - 1, Zeros(size), Zeros(size), t);
      assert cnt[..b + 2 + t] == Counts(buf, b + 2 + t);
    }
    FirstHeads(buf, b, hs);
  }

  lemma FirstHeads(buf: seq<Node>, b: nat, hs: seq<Heads>)
    requires Merged(buf, b, hs)
    ensures hs[0] == Heads(0, b + 2)
  {
  }

  lemma RulesAt(buf: seq<Node>, b: nat, hs: seq<Heads>, t: nat)
    requires Ruled(buf, b, hs) && t + 1 < |hs|
    ensures Rules1(buf, b, hs, t)
  {
  }

  lemma RootKept(b: nat, hs: seq<Heads>, size: nat)
    requires Moves(b, hs) && hs[b - 1] == Heads(b, 2 * b) && size > 2 * b
    ensures var r := CodesOf(hs, b, size); |r.0| == |r.1| == size && r.0[2 * b] == 0 && r.1[2 * b] == 0
  {
    DownKeeps(hs, b, b - 1, Zeros(size), Zeros(size), 2 * b);
  }

  // ----- there is only one -----

  // The same weights for leaves and for the inner nodes below n.
  predicate Alike(a: seq<nat>, c: seq<nat>, b: nat, n: nat) {
    |a| == |c| && forall x :: 0 <= x < |a| && (x < b || b + 2 <= x < n) ==> a[x] == c[x]
  }

  lemma SameRule(a: seq<nat>, c: seq<nat>, b: nat, i: nat, h: Heads, h1: Heads, h2: Heads)
    requires Alike(a, c, b, i) && b + 2 <= h.p2 && i <= |a| && Rule(a[..i], b, i, h, h1) && Rule(c[..i], b, i, h, h2)
    ensures h1 == h2
  {
  }

  lemma {:induction false} SameMerges(leaves: seq<nat>, a: seq<nat>, hs: seq<Heads>, bs: seq<nat>, cs: seq<nat>,
                                      a': seq<nat>, hs': seq<Heads>, bs': seq<nat>, cs': seq<nat>, t: nat)
    requires Grown(leaves, a, hs, bs, cs) && Grown(leaves, a', hs', bs', cs') && t < |leaves|
    ensures Alike(a, a', |leaves|, |leaves| + 2 + t) && forall k :: 0 <= k <= t ==> hs[k] == hs'[k] && hs[k].p2 >= |leaves| + 2
  {
    hide Rule, Kids, Splits;
    var b := |leaves|;
    if t > 0 {
      SameMerges(leaves, a, hs, bs, cs, a', hs', bs', cs', t - 1);
      assert Grown1(b, a, hs, bs, cs, t - 1) && Grown1(b, a', hs', bs', cs', t - 1);
      SameRule(a, a', b, b + 1 + t, hs[t - 1], hs[t], hs'[t]);
      RuleMoves(a[..b + 1 + t], b, b + 1 + t, hs[t - 1], hs[t]);
    }
  }

  lemma RuleMoves(cnt: seq<nat>, b: nat, p3: nat, h: Heads, h': Heads)
    requires Rule(cnt, b, p3, h, h') && h.p2 >= b + 2
    ensures h'.p2 >= b + 2
    ensures var k := Kids(h, h');
            (k.0 < b || b + 2 <= k.0 < p3) && (k.1 < b || b + 2 <= k.1 < p3)
  {
  }

  lemma RuleTakes(cnt: seq<nat>, b: nat, p3: nat, h: Heads, h': Heads, x: nat)
    requires Rule(cnt, b, p3, h, h') && (h.p1 <= x < h'.p1 || h.p2 <= x < h'.p2)
    ensures x < p3 && var k := Kids(h, h'); x == k.0 || x == k.1
  {
  }

  // The merge that takes node x.
  lemma {:induction false} Taken(leaves: seq<nat>, cnt: seq<nat>, hs: seq<Heads>, bs: seq<nat>, cs: seq<nat>, n: nat, x: nat) returns (t: nat)
    requires Grown(leaves, cnt, hs, bs, cs) && n < |leaves| && (x < hs[n].p1 || |leaves| + 2 <= x < hs[n].p2)
    ensures t < n && x < |leaves| + 2 + t && var k := Kids(hs[t], hs[t + 1]); x == k.0 || x == k.1
  {
    hide Rule, Kids, Splits;
    var b := |leaves|;
    SameMerges(leaves, cnt, hs, bs, cs, cnt, hs, bs, cs, n);
    assert n > 0;
    assert Grown1(b, cnt, hs, bs, cs, n - 1);
    RuleMoves(cnt[..b + 1 + n], b, b + 1 + n, hs[n - 1], hs[n]);
    if x < hs[n - 1].p1 || b + 2 <= x < hs[n - 1].p2 {
      t := Taken(leaves, cnt, hs, bs, cs, n - 1, x);
    } else {
      t := n - 1;
      RuleTakes(cnt[..b + 1 + n], b, b + 1 + n, hs[t], hs[n], x);
    }
  }

  /** The weights of the leaves fix all weights, lengths and codewords. */
  lemma {:induction false} GrownOnly(leaves: seq<nat>, a: seq<nat>, hs: seq<Heads>, bs: seq<nat>, cs: seq<nat>,
                                     a': seq<nat>, hs': seq<Heads>, bs': seq<nat>, cs': seq<nat>, x: nat)
    requires Grown(leaves, a, hs, bs, cs) && Grown(leaves, a', hs', bs', cs') && (x < |leaves| || |leaves| + 2 <= x <= 2 * |leaves|)
    ensures hs == hs' && bs[x] == bs'[x] && cs[x] == cs'[x]
    decreases if x < |leaves| then 2 * |leaves| + 1 else 2 * |leaves| - x
  {
    hide Rule, Kids;
    var b := |leaves|;
    SameMerges(leaves, a, hs, bs, cs, a', hs', bs', cs', b - 1);
    assert hs == hs';
    if x != 2 * b {
      var t := Taken(leaves, a, hs, bs, cs, b - 1, x);
      GrownOnly(leaves, a, hs, bs, cs, a', hs', bs', cs', b + 2 + t);
      assert Grown1(b, a, hs, bs, cs, t) && Grown1(b, a', hs', bs', cs', t);
    }
  }
}
