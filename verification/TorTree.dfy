/** The tree of the adaptive Huffman decoder, merged from two queues: leaves in
    order of their counts, and the nodes made from them. */
module TorTree {
  import opened AnsCoder

  /** Leaves come first; after a gap of two come the inner nodes, as they are made.
      A leaf's `left` is its symbol. */
  datatype Node = Node(cnt: nat, code: nat, left: nat, right: nat, bits: nat)

  const FENCE: nat := 0x7fff_ffff

  // ----- the two queues -----

  // The next leaf and the next inner node to be merged.
  datatype Heads = Heads(p1: nat, p2: nat)

  /** A node made from the heads of the queues: two leaves, two inner nodes, or one of each. */
  predicate Takes(node: Node, h: Heads, h': Heads) {
    || (h' == Heads(h.p1 + 2, h.p2) && node.left == h.p1 && node.right == h.p1 + 1)
    || (h' == Heads(h.p1, h.p2 + 2) && node.left == h.p2 && node.right == h.p2 + 1)
    || (h' == Heads(h.p1 + 1, h.p2 + 1) && node.left == h.p1 && node.right == h.p2)
  }

  predicate Merge1(buf: seq<Node>, b: nat, hs: seq<Heads>, t: nat)
    requires t + 1 < |hs| && b + 2 + t < |buf|
  {
    Takes(buf[b + 2 + t], hs[t], hs[t + 1]) && hs[t + 1].p1 <= b && hs[t + 1].p2 <= b + 2 + t
  }

  /** hs: the heads before each merge, and after the last. */
  ghost predicate Merged(buf: seq<Node>, b: nat, hs: seq<Heads>) {
    && |hs| >= 1 && hs[0] == Heads(0, b + 2) && b + 1 + |hs| <= |buf|
    && forall t {:trigger Merge1(buf, b, hs, t)} :: 0 <= t < |hs| - 1 ==> Merge1(buf, b, hs, t)
  }

  lemma {:induction false} HeadsAt(buf: seq<Node>, b: nat, hs: seq<Heads>, t: nat)
    requires Merged(buf, b, hs) && t < |hs|
    ensures hs[t].p1 <= b && b + 2 <= hs[t].p2 <= b + 2 + t && hs[t].p1 + hs[t].p2 == b + 2 + 2 * t
  {
    if t > 0 {
      HeadsAt(buf, b, hs, t - 1);
      assert Merge1(buf, b, hs, t - 1);
    }
  }

  // ----- counts -----

  function Sum(buf: seq<Node>, lo: nat, hi: nat): nat
    requires lo <= hi <= |buf|
    decreases hi - lo
  {
    if lo == hi then 0 else buf[lo].cnt + Sum(buf, lo + 1, hi)
  }

  lemma {:induction false} SumSnoc(buf: seq<Node>, lo: nat, hi: nat)
    requires lo <= hi < |buf|
    ensures Sum(buf, lo, hi + 1) == Sum(buf, lo, hi) + buf[hi].cnt
    decreases hi - lo
  {
    if lo < hi {
      SumSnoc(buf, lo + 1, hi);
    }
  }

  lemma {:induction false} SumSame(buf: seq<Node>, buf': seq<Node>, lo: nat, hi: nat)
    requires lo <= hi <= |buf| && |buf| == |buf'| && forall i :: lo <= i < hi ==> buf'[i].cnt == buf[i].cnt
    ensures Sum(buf', lo, hi) == Sum(buf, lo, hi)
    decreases hi - lo
  {
    if lo < hi {
      SumSame(buf, buf', lo + 1, hi);
    }
  }

  lemma {:induction false} SumPart(buf: seq<Node>, lo: nat, hi: nat, i: nat)
    requires lo <= i < hi <= |buf|
    ensures buf[i].cnt <= Sum(buf, lo, hi)
    decreases hi - lo
  {
    if lo < i {
      SumPart(buf, lo + 1, hi, i);
    }
  }

  // ----- heights -----

  // The least count of a node of height h.
  function Fib(h: nat): (r: nat)
    ensures r > 0
  {
    if h == 0 then 1 else if h == 1 then 2 else Fib(h - 1) + Fib(h - 2)
  }

  lemma {:induction false} FibMono(a: nat, b: nat)
    requires a <= b
    ensures Fib(a) <= Fib(b)
  {
    if a < b {
      FibMono(a, b - 1);
    }
  }

  lemma {:induction false} FibGrows(k: nat)
    ensures Fib(2 * k) >= Pow2(k)
  {
    if k > 0 {
      FibGrows(k - 1);
      FibMono(2 * k - 2, 2 * k - 1);
    }
  }

  // Heights of the inner nodes, by their order.
  function Height(b: nat, hts: seq<nat>, x: nat): nat {
    if b + 2 <= x < b + 2 + |hts| then hts[x - b - 2] else 0
  }

  predicate Tall(buf: seq<Node>, b: nat, hts: seq<nat>, t: nat)
    requires t < |hts| && b + 2 + t < |buf|
  {
    var n := buf[b + 2 + t];
    n.left < b + 2 + t && n.right < b + 2 + t && hts[t] > Height(b, hts, n.left) && hts[t] > Height(b, hts, n.right) && n.cnt >= Fib(hts[t])
  }

  // ----- between two merges -----

  predicate Sorted(buf: seq<Node>, lo: nat, hi: nat)
    requires lo <= hi <= |buf|
  {
    forall i, j :: lo <= i <= j < hi ==> buf[i].cnt <= buf[j].cnt
  }

  predicate AtLeast(buf: seq<Node>, lo: nat, hi: nat, least: nat)
    requires lo <= hi <= |buf|
  {
    forall i :: lo <= i < hi ==> least <= buf[i].cnt
  }

  predicate AtMost(buf: seq<Node>, lo: nat, hi: nat, most: nat)
    requires lo <= hi <= |buf|
  {
    forall i :: lo <= i < hi ==> buf[i].cnt <= most
  }

  predicate Fences(buf: seq<Node>, lo: nat, hi: nat)
    requires lo <= hi <= |buf|
  {
    forall i :: lo <= i < hi ==> buf[i].cnt == FENCE
  }

  predicate Bounds(buf: seq<Node>, b: nat, p1: nat, p2: nat, p3: nat) {
    b >= 2 && p1 <= b && b + 2 <= p2 <= p3 <= 2 * b + 1 && 2 * b + 4 <= |buf|
  }

  /** What has not been merged yet: both queues are in order, nothing in them is
      below what has been merged, and the rest of the buffer is fences. */
  predicate Queues(buf: seq<Node>, b: nat, p1: nat, p2: nat, p3: nat, last: nat, total: nat) {
    && Bounds(buf, b, p1, p2, p3) && total <= FENCE
    && Sorted(buf, 0, b) && Sorted(buf, b + 2, p3)
    && AtLeast(buf, 0, b, 1) && AtLeast(buf, p1, b, last) && AtLeast(buf, p2, p3, last) && AtLeast(buf, b + 2, p3, 1)
    && AtMost(buf, b + 2, p3, 2 * last)
    && Fences(buf, b, b + 2) && Fences(buf, p3, 2 * b + 4)
    && Sum(buf, p1, b) + Sum(buf, p2, p3) == total
  }

  // The two nodes to be merged, and the heads afterwards.
  datatype Pick = Pick(x: nat, y: nat, p1: nat, p2: nat)

  function Choice(buf: seq<Node>, p1: nat, p2: nat): Pick
    requires p1 + 1 < |buf| && p2 + 1 < |buf|
  {
    if buf[p1 + 1].cnt < buf[p2].cnt then Pick(p1, p1 + 1, p1 + 2, p2)
    else if buf[p1].cnt > buf[p2 + 1].cnt then Pick(p2, p2 + 1, p1, p2 + 2)
    else Pick(p1, p2, p1 + 1, p2 + 1)
  }

  // With two nodes left or more, each is below the fence.
  lemma BelowFence(buf: seq<Node>, b: nat, p1: nat, p2: nat, p3: nat, last: nat, total: nat, x: nat)
    requires Queues(buf, b, p1, p2, p3, last, total) && (b - p1) + (p3 - p2) >= 2
    requires p1 <= x < b || p2 <= x < p3
    ensures buf[x].cnt < FENCE
  {
    if p1 <= x < b {
      SumSplit(buf, p1, x, b);
      if x > p1 { SumPart(buf, p1, x, p1); }
      else if x + 1 < b { SumPart(buf, x + 1, b, x + 1); }
      else { SumPart(buf, p2, p3, p2); }
    } else {
      SumSplit(buf, p2, x, p3);
      if x > p2 { SumPart(buf, p2, x, p2); }
      else if x + 1 < p3 { SumPart(buf, x + 1, p3, x + 1); }
      else { SumPart(buf, p1, b, p1); }
    }
  }

  lemma {:induction false} SumSplit(buf: seq<Node>, lo: nat, x: nat, hi: nat)
    requires lo <= x < hi <= |buf|
    ensures Sum(buf, lo, hi) == Sum(buf, lo, x) + buf[x].cnt + Sum(buf, x + 1, hi)
    decreases hi - lo
  {
    if lo < x {
      SumSplit(buf, lo + 1, x, hi);
    }
  }

  /** The choice takes two nodes that are there, and no smaller one is left. */
  lemma ChoiceReal(buf: seq<Node>, b: nat, p1: nat, p2: nat, p3: nat, last: nat, total: nat)
    requires Queues(buf, b, p1, p2, p3, last, total) && (b - p1) + (p3 - p2) >= 2
    ensures var c := Choice(buf, p1, p2);
            && p1 <= c.p1 <= b && p2 <= c.p2 <= p3 && (c.p1 - p1) + (c.p2 - p2) == 2
            && last <= buf[c.x].cnt && last <= buf[c.y].cnt && c.x != c.y
            && (c.x < b || b + 2 <= c.x < p3) && (c.y < b || b + 2 <= c.y < p3)
            && Sum(buf, c.p1, b) + Sum(buf, c.p2, p3) + buf[c.x].cnt + buf[c.y].cnt == total
  {
    hide FENCE, Sum;
    if p1 < b { BelowFence(buf, b, p1, p2, p3, last, total, p1); }
    if p1 + 1 < b { BelowFence(buf, b, p1, p2, p3, last, total, p1 + 1); }
    if p2 < p3 { BelowFence(buf, b, p1, p2, p3, last, total, p2); }
    if p2 + 1 < p3 { BelowFence(buf, b, p1, p2, p3, last, total, p2 + 1); }
    Below(buf, b, p1, p2, p3, last, total);
    SumHeads(buf, p1, b);
    SumHeads(buf, p2, p3);
  }

  // No count is above the fence.
  lemma Below(buf: seq<Node>, b: nat, p1: nat, p2: nat, p3: nat, last: nat, total: nat)
    requires Queues(buf, b, p1, p2, p3, last, total)
    ensures forall i :: p1 <= i < b + 2 || p2 <= i < 2 * b + 4 ==> buf[i].cnt <= FENCE
  {
    forall i | p1 <= i < b + 2 || p2 <= i < 2 * b + 4
      ensures buf[i].cnt <= FENCE
    {
      if p1 <= i < b { SumPart(buf, p1, b, i); }
      if p2 <= i < p3 { SumPart(buf, p2, p3, i); }
    }
  }

  lemma SumHeads(buf: seq<Node>, lo: nat, hi: nat)
    requires lo <= hi <= |buf|
    ensures lo < hi ==> Sum(buf, lo, hi) == buf[lo].cnt + Sum(buf, lo + 1, hi)
    ensures lo + 1 < hi ==> Sum(buf, lo, hi) == buf[lo].cnt + buf[lo + 1].cnt + Sum(buf, lo + 2, hi)
  {
  }

  function Larger(x: nat, y: nat): nat { if x < y then y else x }

  // What the choice leaves is no smaller than what it takes.
  lemma ChoiceSmallest(buf: seq<Node>, b: nat, p1: nat, p2: nat, p3: nat, last: nat, total: nat)
    requires Queues(buf, b, p1, p2, p3, last, total) && (b - p1) + (p3 - p2) >= 2
    requires var c := Choice(buf, p1, p2); c.p1 <= b && c.p2 <= p3 && (c.p1 - p1) + (c.p2 - p2) == 2
    ensures var c := Choice(buf, p1, p2);
            var m := Larger(buf[c.x].cnt, buf[c.y].cnt); AtLeast(buf, c.p1, b, m) && AtLeast(buf, c.p2, p3, m)
  {
    hide FENCE, Sum;
  }

  function Made(buf: seq<Node>, c: Pick, at: Node): Node
    requires c.x < |buf| && c.y < |buf|
  {
    at.(cnt := buf[c.x].cnt + buf[c.y].cnt, left := c.x, right := c.y)
  }

  // What holds of a choice.
  predicate Chosen(buf: seq<Node>, b: nat, p1: nat, p2: nat, p3: nat, last: nat, total: nat, c: Pick)
    requires Bounds(buf, b, p1, p2, p3)
  {
    && p1 <= c.p1 <= b && p2 <= c.p2 <= p3 && (c.p1 - p1) + (c.p2 - p2) == 2 && c.x != c.y
    && (c.x < b || b + 2 <= c.x < p3) && (c.y < b || b + 2 <= c.y < p3)
    && last <= buf[c.x].cnt && last <= buf[c.y].cnt
    && Sum(buf, c.p1, b) + Sum(buf, c.p2, p3) + buf[c.x].cnt + buf[c.y].cnt == total
    && var m := Larger(buf[c.x].cnt, buf[c.y].cnt); AtLeast(buf, c.p1, b, m) && AtLeast(buf, c.p2, p3, m)
  }

  lemma ChoiceChosen(buf: seq<Node>, b: nat, p1: nat, p2: nat, p3: nat, last: nat, total: nat)
    requires Queues(buf, b, p1, p2, p3, last, total) && (b - p1) + (p3 - p2) >= 2
    ensures Chosen(buf, b, p1, p2, p3, last, total, Choice(buf, p1, p2))
  {
    hide FENCE, Choice, Sum, AtLeast, Fences, Sorted, AtMost;
    ChoiceReal(buf, b, p1, p2, p3, last, total);
    ChoiceSmallest(buf, b, p1, p2, p3, last, total);
  }

  /** A merge keeps the queues in order. */
  lemma MergeKeeps(buf: seq<Node>, b: nat, p1: nat, p2: nat, p3: nat, last: nat, total: nat, c: Pick)
    requires Queues(buf, b, p1, p2, p3, last, total) && Chosen(buf, b, p1, p2, p3, last, total, c) && p3 <= 2 * b
    ensures Queues(buf[p3 := Made(buf, c, buf[p3])], b, c.p1, c.p2, p3 + 1, Larger(buf[c.x].cnt, buf[c.y].cnt), total)
  {
    hide FENCE, Sum, Sorted, AtLeast, AtMost, Fences, Larger, Made;
    var m, node := Larger(buf[c.x].cnt, buf[c.y].cnt), Made(buf, c, buf[p3]);
    MadeCount(buf, b, c, p3);
    var buf' := buf[p3 := node];
    SumSame(buf, buf', c.p1, b);
    SumSame(buf, buf', c.p2, p3);
    SumSnoc(buf', c.p2, p3);
    AllBelow(buf, b, c, p3, last, m);
    OutsideSame(buf, 0, b, p3, node);
    OutsideSame(buf, c.p1, b, p3, node);
    OutsideSame(buf, b, b + 2, p3, node);
    FencesLess(buf, p3, 2 * b + 4, node);
    AtLeastSnoc(buf, c.p2, p3, node, m);
    AtLeastSnoc(buf, b + 2, p3, node, 1);
  }

  lemma MadeCount(buf: seq<Node>, b: nat, c: Pick, p3: nat)
    requires b + 2 <= p3 < |buf| && c.x < p3 && c.y < p3 && Sorted(buf, 0, b) && AtLeast(buf, 0, b, 1) && AtLeast(buf, b + 2, p3, 1)
    requires (c.x < b || b + 2 <= c.x < p3) && (c.y < b || b + 2 <= c.y < p3)
    ensures var node := Made(buf, c, buf[p3]); node.cnt == buf[c.x].cnt + buf[c.y].cnt && node.cnt >= 1 && node.cnt >= Larger(buf[c.x].cnt, buf[c.y].cnt)
  {
  }

  // Writing a node leaves the ranges it is not in.
  lemma OutsideSame(buf: seq<Node>, lo: nat, hi: nat, at: nat, node: Node)
    requires lo <= hi <= at < |buf|
    ensures Sorted(buf, lo, hi) ==> Sorted(buf[at := node], lo, hi)
    ensures forall least {:trigger AtLeast(buf, lo, hi, least)} :: AtLeast(buf, lo, hi, least) ==> AtLeast(buf[at := node], lo, hi, least)
    ensures Fences(buf, lo, hi) ==> Fences(buf[at := node], lo, hi)
  {
  }

  lemma FencesLess(buf: seq<Node>, lo: nat, hi: nat, node: Node)
    requires lo < hi <= |buf| && Fences(buf, lo, hi)
    ensures Fences(buf[lo := node], lo + 1, hi)
  {
  }

  lemma AtLeastSnoc(buf: seq<Node>, lo: nat, hi: nat, node: Node, least: nat)
    requires lo <= hi < |buf| && AtLeast(buf, lo, hi, least) && least <= node.cnt
    ensures AtLeast(buf[hi := node], lo, hi + 1, least)
  {
  }

  // The new node is no smaller than any made before.
  lemma AllBelow(buf: seq<Node>, b: nat, c: Pick, p3: nat, last: nat, m: nat)
    requires b + 2 <= p3 < |buf| && c.x < |buf| && c.y < |buf| && m == Larger(buf[c.x].cnt, buf[c.y].cnt)
    requires last <= buf[c.x].cnt && last <= buf[c.y].cnt && AtMost(buf, b + 2, p3, 2 * last) && Sorted(buf, b + 2, p3)
    ensures Sorted(buf[p3 := Made(buf, c, buf[p3])], b + 2, p3 + 1)
    ensures AtMost(buf[p3 := Made(buf, c, buf[p3])], b + 2, p3 + 1, 2 * m)
  {
  }

  // ----- the history of the merges -----

  /** Each inner node is higher than what it was made from, and heavy for its height. */
  ghost predicate Heavy(buf: seq<Node>, b: nat, hts: seq<nat>, last: nat) {
    && b + 2 + |hts| <= |buf|
    && forall t {:trigger hts[t]} :: 0 <= t < |hts| ==> Tall(buf, b, hts, t) && Light(hts[t], last)
  }

  predicate Light(h: nat, last: nat) {
    h > 0 && Fib(h - 1) <= last
  }

  lemma HeavyStep(buf: seq<Node>, b: nat, hts: seq<nat>, last: nat, c: Pick, p3: nat)
    requires Heavy(buf, b, hts, last) && p3 == b + 2 + |hts| < |buf| && c.x < p3 && c.y < p3
    requires last <= buf[c.x].cnt && last <= buf[c.y].cnt && 1 <= buf[c.x].cnt && 1 <= buf[c.y].cnt
    ensures var h := 1 + Larger(Height(b, hts, c.x), Height(b, hts, c.y));
            Heavy(buf[p3 := Made(buf, c, buf[p3])], b, hts + [h], Larger(buf[c.x].cnt, buf[c.y].cnt))
  {
    hide Heavy, Tall, Height, Made, Fib;
    var hx, hy := Height(b, hts, c.x), Height(b, hts, c.y);
    Weighs(buf, b, hts, last, c.x);
    Weighs(buf, b, hts, last, c.y);
    NewFib(hx, hy, buf[c.x].cnt, buf[c.y].cnt);
    NewTall(buf, b, hts, c, p3);
    HeavyMore(buf, b, hts, last, 1 + Larger(hx, hy), p3, Made(buf, c, buf[p3]), Larger(buf[c.x].cnt, buf[c.y].cnt));
  }

  lemma HeavyMore(buf: seq<Node>, b: nat, hts: seq<nat>, last: nat, h: nat, p3: nat, node: Node, m: nat)
    requires Heavy(buf, b, hts, last) && p3 == b + 2 + |hts| < |buf| && last <= m
    requires Tall(buf[p3 := node], b, hts + [h], |hts|) && Light(h, m)
    ensures Heavy(buf[p3 := node], b, hts + [h], m)
  {
    hide Tall, Height, Light;
    var hts' := hts + [h];
    forall t {:trigger hts'[t]} | 0 <= t < |hts'|
      ensures Tall(buf[p3 := node], b, hts', t) && Light(hts'[t], m)
    {
      if t < |hts| {
        assert hts'[t] == hts[t];
        OlderTall(buf, b, hts, t, h, p3, node);
        LightMore(hts[t], last, m);
      } else {
        assert hts'[t] == h;
      }
    }
  }

  lemma LightMore(h: nat, last: nat, m: nat)
    requires Light(h, last) && last <= m
    ensures Light(h, m)
  {
  }

  lemma NewTall(buf: seq<Node>, b: nat, hts: seq<nat>, c: Pick, p3: nat)
    requires p3 == b + 2 + |hts| < |buf| && c.x < p3 && c.y < p3
    requires var h := 1 + Larger(Height(b, hts, c.x), Height(b, hts, c.y)); Fib(h) <= buf[c.x].cnt + buf[c.y].cnt
    ensures var h := 1 + Larger(Height(b, hts, c.x), Height(b, hts, c.y)); Tall(buf[p3 := Made(buf, c, buf[p3])], b, hts + [h], |hts|)
  {
    hide Fib;
  }

  // The heights of a node's children do not change when more nodes come.
  lemma OlderTall(buf: seq<Node>, b: nat, hts: seq<nat>, t: nat, h: nat, p3: nat, node: Node)
    requires t < |hts| && p3 == b + 2 + |hts| < |buf| && Tall(buf, b, hts, t)
    ensures Tall(buf[p3 := node], b, hts + [h], t)
  {
  }

  lemma Weighs(buf: seq<Node>, b: nat, hts: seq<nat>, last: nat, x: nat)
    requires Heavy(buf, b, hts, last) && x < b + 2 + |hts| <= |buf| && 1 <= buf[x].cnt
    ensures Fib(Height(b, hts, x)) <= buf[x].cnt
    ensures Height(b, hts, x) > 0 ==> Fib(Height(b, hts, x) - 1) <= last
  {
    if b + 2 <= x {
      assert hts[x - b - 2] > 0;
    }
  }

  lemma NewFib(hx: nat, hy: nat, x: nat, y: nat)
    requires Fib(hx) <= x && Fib(hy) <= y && (hx > 0 ==> Fib(hx - 1) <= y) && (hy > 0 ==> Fib(hy - 1) <= x)
    ensures Fib(1 + Larger(hx, hy)) <= x + y && Fib(Larger(hx, hy)) <= Larger(x, y)
  {
  }

  lemma Merge1Step(buf: seq<Node>, b: nat, hs: seq<Heads>, p3: nat, node: Node, h: Heads, t: nat)
    requires Merged(buf, b, hs) && p3 == b + 1 + |hs| < |buf| && Takes(node, hs[|hs| - 1], h) && h.p1 <= b && h.p2 <= p3
    requires t < |hs|
    ensures Merge1(buf[p3 := node], b, hs + [h], t)
  {
    var hs' := hs + [h];
    if t < |hs| - 1 {
      assert hs[t] == hs'[t] && hs[t + 1] == hs'[t + 1];
      assert Merge1(buf, b, hs, t);
    } else {
      assert hs'[t] == hs[|hs| - 1] && hs'[t + 1] == h;
    }
  }

  lemma MergedStep(buf: seq<Node>, b: nat, hs: seq<Heads>, p3: nat, node: Node, h: Heads)
    requires Merged(buf, b, hs) && p3 == b + 1 + |hs| < |buf| && Takes(node, hs[|hs| - 1], h) && h.p1 <= b && h.p2 <= p3
    ensures Merged(buf[p3 := node], b, hs + [h])
  {
    var hs' := hs + [h];
    forall t: nat {:trigger Merge1(buf[p3 := node], b, hs', t)} | 0 <= t < |hs'| - 1
      ensures Merge1(buf[p3 := node], b, hs', t)
    {
      Merge1Step(buf, b, hs, p3, node, h, t);
    }
    assert hs'[0] == Heads(0, b + 2);
  }

  lemma ChoiceTakes(buf: seq<Node>, b: nat, p1: nat, p2: nat, p3: nat, at: Node)
    requires p1 + 1 < |buf| && p2 + 1 < |buf|
    ensures var c := Choice(buf, p1, p2); c.x < |buf| && c.y < |buf| && Takes(Made(buf, c, at), Heads(p1, p2), Heads(c.p1, c.p2))
  {
  }

  // The sizes of the two queues after each merge.
  lemma Sizes(buf: seq<Node>, b: nat, hs: seq<Heads>)
    requires Merged(buf, b, hs) && b >= 2
    ensures var h := hs[|hs| - 1]; var p3 := b + 1 + |hs|;
            && h.p1 <= b && b + 2 <= h.p2 <= p3 && (b - h.p1) + (p3 - h.p2) == 2 * b + 2 - p3
            && (|hs| > 1 ==> h.p2 < p3)
  {
    HeadsAt(buf, b, hs, |hs| - 1);
    if |hs| > 1 {
      assert Merge1(buf, b, hs, |hs| - 2);
    }
  }

  // ----- which nodes are merged -----

  /** The rule of a merge, by the counts of the nodes below p3. The lightest come
      first: two leaves when no inner node waits or the second leaf is lighter than
      the first inner node; else two inner nodes when no leaf waits or the second
      inner node is lighter than the first leaf; else one of each. */
  predicate Rule(cnt: seq<nat>, b: nat, p3: nat, h: Heads, h': Heads) {
    && h.p1 <= b < h.p2 <= p3 <= |cnt|
    && var leaves := h.p1 + 1 < b && (h.p2 == p3 || cnt[h.p1 + 1] < cnt[h.p2]);
       var inner := h.p2 + 1 < p3 && (h.p1 == b || cnt[h.p2 + 1] < cnt[h.p1]);
       if leaves then h' == Heads(h.p1 + 2, h.p2)
       else if inner then h' == Heads(h.p1, h.p2 + 2)
       else h.p1 < b && h.p2 < p3 && h' == Heads(h.p1 + 1, h.p2 + 1)
  }

  // Merge t follows the rule, and its node weighs what the two weigh.
  predicate Rules1(buf: seq<Node>, b: nat, hs: seq<Heads>, t: nat)
    requires t + 1 < |hs| && b + 2 + t < |buf|
  {
    var n := buf[b + 2 + t];
    && Rule(Counts(buf, b + 2 + t), b, b + 2 + t, hs[t], hs[t + 1])
    && n.left < b + 2 + t && n.right < b + 2 + t && n.cnt == buf[n.left].cnt + buf[n.right].cnt
  }

  /** Each merge has followed the rule. */
  ghost predicate Ruled(buf: seq<Node>, b: nat, hs: seq<Heads>) {
    && b + 1 + |hs| <= |buf|
    && forall t {:trigger Rules1(buf, b, hs, t)} :: 0 <= t < |hs| - 1 ==> Rules1(buf, b, hs, t)
  }

  // With two nodes left or more, the fences do not count.
  lemma ChoiceRule(buf: seq<Node>, b: nat, p1: nat, p2: nat, p3: nat, last: nat, total: nat)
    requires Queues(buf, b, p1, p2, p3, last, total) && (b - p1) + (p3 - p2) >= 2
    ensures var c := Choice(buf, p1, p2); Rule(Counts(buf, p3), b, p3, Heads(p1, p2), Heads(c.p1, c.p2))
  {
    hide FENCE, Sum, Sorted, AtLeast, AtMost;
    if p1 < b { BelowFence(buf, b, p1, p2, p3, last, total, p1); }
    if p1 + 1 < b { BelowFence(buf, b, p1, p2, p3, last, total, p1 + 1); }
    if p2 < p3 { BelowFence(buf, b, p1, p2, p3, last, total, p2); }
    if p2 + 1 < p3 { BelowFence(buf, b, p1, p2, p3, last, total, p2 + 1); }
  }

  lemma Rules1Step(buf: seq<Node>, b: nat, hs: seq<Heads>, p3: nat, node: Node, h: Heads, t: nat)
    requires Ruled(buf, b, hs) && p3 == b + 1 + |hs| < |buf| && hs != [] && t < |hs|
    requires Rule(Counts(buf, p3), b, p3, hs[|hs| - 1], h)
    requires node.left < p3 && node.right < p3 && node.cnt == buf[node.left].cnt + buf[node.right].cnt
    ensures Rules1(buf[p3 := node], b, hs + [h], t)
  {
    var hs', buf' := hs + [h], buf[p3 := node];
    assert Counts(buf', b + 2 + t) == Counts(buf, b + 2 + t);
    if t < |hs| - 1 {
      assert hs[t] == hs'[t] && hs[t + 1] == hs'[t + 1];
      assert Rules1(buf, b, hs, t);
    } else {
      assert hs'[t] == hs[|hs| - 1] && hs'[t + 1] == h;
    }
  }

  lemma RuledStep(buf: seq<Node>, b: nat, hs: seq<Heads>, p3: nat, at: Node, h: Heads, c: Pick)
    requires Ruled(buf, b, hs) && p3 == b + 1 + |hs| < |buf| && hs != [] && c.x < p3 && c.y < p3
    requires Rule(Counts(buf, p3), b, p3, hs[|hs| - 1], h)
    ensures Ruled(buf[p3 := Made(buf, c, at)], b, hs + [h])
  {
    hide Rule;
    var hs', buf' := hs + [h], buf[p3 := Made(buf, c, at)];
    forall t: nat {:trigger Rules1(buf', b, hs', t)} | 0 <= t < |hs'| - 1
      ensures Rules1(buf', b, hs', t)
    {
      Rules1Step(buf, b, hs, p3, Made(buf, c, at), h, t);
    }
  }

  // ----- the counts decide the merges -----

  function Counts(buf: seq<Node>, n: nat): (r: seq<nat>)
    requires n <= |buf|
    ensures |r| == n
  {
    seq(n, i requires 0 <= i < n => buf[i].cnt)
  }

  function ChoiceOf(c: seq<nat>, p1: nat, p2: nat): Pick
    requires p1 + 1 < |c| && p2 + 1 < |c|
  {
    if c[p1 + 1] < c[p2] then Pick(p1, p1 + 1, p1 + 2, p2)
    else if c[p1] > c[p2 + 1] then Pick(p2, p2 + 1, p1, p2 + 2)
    else Pick(p1, p2, p1 + 1, p2 + 1)
  }

  /** The heads of the queues from here to the end of the merging. */
  function Merging(c: seq<nat>, b: nat, p1: nat, p2: nat, p3: nat): seq<Heads>
    decreases 2 * b + 1 - p3
  {
    if (p1 == b && p3 == p2 + 1) || p3 > 2 * b || p1 + 1 >= |c| || p2 + 1 >= |c| || p3 >= |c| then [Heads(p1, p2)]
    else
      var k := ChoiceOf(c, p1, p2);
      [Heads(p1, p2)] + Merging(c[p3 := c[k.x] + c[k.y]], b, k.p1, k.p2, p3 + 1)
  }

  // The heads so far, with those to come, are `goal`.
  ghost predicate OnCourse(hs: seq<Heads>, buf: seq<Node>, b: nat, p1: nat, p2: nat, p3: nat, goal: seq<Heads>) {
    && hs != [] && hs[|hs| - 1] == Heads(p1, p2) && 2 * b + 4 <= |buf|
    && hs[..|hs| - 1] + Merging(Counts(buf, 2 * b + 4), b, p1, p2, p3) == goal
  }

  lemma CourseStart(buf: seq<Node>, b: nat)
    requires 2 * b + 4 <= |buf|
    ensures OnCourse([Heads(0, b + 2)], buf, b, 0, b + 2, b + 2, Merging(Counts(buf, 2 * b + 4), b, 0, b + 2, b + 2))
  {
  }

  lemma CourseStep(hs: seq<Heads>, buf: seq<Node>, b: nat, p1: nat, p2: nat, p3: nat, goal: seq<Heads>, c: Pick)
    requires OnCourse(hs, buf, b, p1, p2, p3, goal) && !(p1 == b && p3 == p2 + 1) && p1 <= b && p2 <= p3 <= 2 * b && c == Choice(buf, p1, p2)
    ensures c.x < |buf| && c.y < |buf| && OnCourse(hs + [Heads(c.p1, c.p2)], buf[p3 := Made(buf, c, buf[p3])], b, c.p1, c.p2, p3 + 1, goal)
  {
    var n := 2 * b + 4;
    var was := Counts(buf, n);
    var buf' := buf[p3 := Made(buf, c, buf[p3])];
    assert ChoiceOf(was, p1, p2) == c;
    assert Counts(buf', n) == was[p3 := was[c.x] + was[c.y]];
    var hs' := hs + [Heads(c.p1, c.p2)];
    assert hs'[..|hs'| - 1] == hs == hs[..|hs| - 1] + [Heads(p1, p2)];
    Reassociate(hs[..|hs| - 1], [Heads(p1, p2)], Merging(Counts(buf', n), b, c.p1, c.p2, p3 + 1));
  }

  lemma Reassociate(a: seq<Heads>, b: seq<Heads>, c: seq<Heads>)
    ensures a + b + c == a + (b + c)
  {
  }

  lemma CourseEnd(hs: seq<Heads>, buf: seq<Node>, b: nat, p1: nat, p2: nat, p3: nat, goal: seq<Heads>)
    requires OnCourse(hs, buf, b, p1, p2, p3, goal) && p1 == b && p3 == p2 + 1
    ensures hs == goal
  {
    assert hs == hs[..|hs| - 1] + [Heads(p1, p2)];
  }

  /** The merging loop of build. It ends with one node, the root, and never takes
      a fence for a node. */
  method MergeAll(buf: array<Node>, b: nat, ghost total: nat) returns (root: nat, ghost hs: seq<Heads>, ghost hts: seq<nat>, ghost last: nat)
    requires Queues(buf[..], b, 0, b + 2, b + 2, 0, total)
    modifies buf
    ensures root == 2 * b < buf.Length && Merged(buf[..], b, hs) && |hs| == b && hs[b - 1] == Heads(b, 2 * b)
    ensures Heavy(buf[..], b, hts, last) && |hts| == b - 1 && buf[root].cnt == total <= FENCE && Ruled(buf[..], b, hs)
    ensures 2 * b + 4 <= buf.Length && hs == Merging(Counts(old(buf[..]), 2 * b + 4), b, 0, b + 2, b + 2)
    ensures forall i :: 0 <= i < b ==> buf[i] == old(buf[i])
  {
    hide Queues, Heavy, Merged, Choice, Takes, Made, Chosen, Bounds, OnCourse, Merging, Counts, Rule, Ruled;
    var p1: nat, p2: nat, p3: nat := 0, b + 2, b + 2;
    hs, hts, last := [Heads(0, b + 2)], [], 0;
    Beginning(buf[..], b, total);
    Room(buf[..], b, p1, p2, p3, last, total);
    CourseStart(buf[..], b);
    ghost var goal := Merging(Counts(buf[..], 2 * b + 4), b, 0, b + 2, b + 2);
    while !(p1 == b && p3 - p2 == 1)
      invariant Queues(buf[..], b, p1, p2, p3, last, total)
      invariant Merged(buf[..], b, hs) && |hs| == p3 - b - 1 && p3 > b + 1 && hs[|hs| - 1] == Heads(p1, p2)
      invariant Heavy(buf[..], b, hts, last) && |hts| == |hs| - 1
      invariant forall i :: 0 <= i < b ==> buf[i] == old(buf[i])
      invariant b >= 2 && p3 <= 2 * b + 1 && 2 * b + 4 <= buf.Length && p1 <= b && p2 <= p3
      invariant OnCourse(hs, buf[..], b, p1, p2, p3, goal) && Ruled(buf[..], b, hs)
      decreases 2 * b + 1 - p3
    {
      ghost var was, c := buf[..], Choice(buf[..], p1, p2);
      Sizes(buf[..], b, hs);
      ChoiceChosen(buf[..], b, p1, p2, p3, last, total);
      ChosenBounds(buf[..], b, p1, p2, p3, last, total, c);
      MergeKeeps(buf[..], b, p1, p2, p3, last, total, c);
      HeavyStep(buf[..], b, hts, last, c, p3);
      CourseStep(hs, buf[..], b, p1, p2, p3, goal, c);
      ChoiceTakes(buf[..], b, p1, p2, p3, buf[p3]);
      ChoiceRule(buf[..], b, p1, p2, p3, last, total);
      RuledStep(buf[..], b, hs, p3, buf[p3], Heads(c.p1, c.p2), c);
      MergedStep(buf[..], b, hs, p3, Made(was, c, buf[p3]), Heads(c.p1, c.p2));
      hts := hts + [1 + Larger(Height(b, hts, c.x), Height(b, hts, c.y))];
      hs := hs + [Heads(c.p1, c.p2)];
      last := Larger(was[c.x].cnt, was[c.y].cnt);
      p1, p2 := MergeTwo(buf, p1, p2, p3);
      assert buf[..] == was[p3 := Made(was, c, was[p3])];
      p3 := p3 + 1;
      Room(buf[..], b, p1, p2, p3, last, total);
    }
    CourseEnd(hs, buf[..], b, p1, p2, p3, goal);
    Sizes(buf[..], b, hs);
    RootCount(buf[..], b, p1, p2, p3, last, total);
    root := p2;
  }

  // One turn of the loop.
  method MergeTwo(buf: array<Node>, p1: nat, p2: nat, p3: nat) returns (q1: nat, q2: nat)
    requires p1 + 1 < buf.Length && p2 + 1 < buf.Length && p3 < buf.Length
    modifies buf
    ensures var c := Choice(old(buf[..]), p1, p2);
            c.x < buf.Length && c.y < buf.Length && q1 == c.p1 && q2 == c.p2 && buf[..] == old(buf[..])[p3 := Made(old(buf[..]), c, old(buf[p3]))]
  {
    if buf[p1 + 1].cnt < buf[p2].cnt {
      buf[p3] := buf[p3].(cnt := buf[p1].cnt + buf[p1 + 1].cnt, left := p1, right := p1 + 1);
      q1, q2 := p1 + 2, p2;
    } else if buf[p1].cnt > buf[p2 + 1].cnt {
      buf[p3] := buf[p3].(cnt := buf[p2].cnt + buf[p2 + 1].cnt, left := p2, right := p2 + 1);
      q1, q2 := p1, p2 + 2;
    } else {
      buf[p3] := buf[p3].(cnt := buf[p1].cnt + buf[p2].cnt, left := p1, right := p2);
      q1, q2 := p1 + 1, p2 + 1;
    }
  }

  lemma Beginning(buf: seq<Node>, b: nat, total: nat)
    requires Queues(buf, b, 0, b + 2, b + 2, 0, total)
    ensures Merged(buf, b, [Heads(0, b + 2)]) && Heavy(buf, b, [], 0) && Ruled(buf, b, [Heads(0, b + 2)])
  {
  }

  lemma Room(buf: seq<Node>, b: nat, p1: nat, p2: nat, p3: nat, last: nat, total: nat)
    requires Queues(buf, b, p1, p2, p3, last, total)
    ensures Bounds(buf, b, p1, p2, p3) && b >= 2 && p3 <= 2 * b + 1 && 2 * b + 4 <= |buf| && p1 <= b && b + 2 <= p2 <= p3 && total <= FENCE
  {
  }

  lemma ChosenBounds(buf: seq<Node>, b: nat, p1: nat, p2: nat, p3: nat, last: nat, total: nat, c: Pick)
    requires Queues(buf, b, p1, p2, p3, last, total) && Chosen(buf, b, p1, p2, p3, last, total, c)
    ensures c.x < p3 && c.y < p3 && c.p1 <= b && c.p2 <= p3 && p3 < |buf| && buf[c.x].cnt >= 1 && buf[c.y].cnt >= 1
    ensures last <= buf[c.x].cnt && last <= buf[c.y].cnt
  {
  }

  lemma RootCount(buf: seq<Node>, b: nat, p1: nat, p2: nat, p3: nat, last: nat, total: nat)
    requires Queues(buf, b, p1, p2, p3, last, total) && p1 == b && p3 - p2 == 1
    ensures p2 < |buf| && buf[p2].cnt == total <= FENCE
  {
    SumHeads(buf, p2, p3);
    assert Sum(buf, p2 + 1, p3) == 0 && Sum(buf, b, b) == 0;
  }
}
