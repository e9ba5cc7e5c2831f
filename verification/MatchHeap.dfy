/** The match heap of the Future-LZ kernel: a treap with parent pointers that
    orders matches by destination, then by insertion number. A node's address is
    its insertion number, and the fields of all nodes form one store. */
module MatchHeap {
  import opened Bytes

  datatype Match = Match(src: nat, dest: nat, length: nat)

  const NIL := -1

  datatype Node = Node(m: Match, pri: nat, index: nat, left: int, right: int, parent: int)

  // The order of the heap; the two ends bound whole subtrees.
  datatype Key = Key(dest: int, stamp: int)

  predicate Lt(a: Key, b: Key) {
    a.dest < b.dest || (a.dest == b.dest && a.stamp < b.stamp)
  }

  predicate In(lo: Key, k: Key, hi: Key) {
    Lt(lo, k) && Lt(k, hi)
  }

  // The open interval of keys a subtree may hold.
  datatype Span = Span(lo: Key, hi: Key)

  const ALL := Span(Key(-1, 0), Key(0x1_0000_0000_0000_0000, 0))

  type Store = map<int, Node>

  function K(c: Store, n: int): Key
    requires n in c
  {
    Key(c[n].m.dest, n)
  }

  predicate LeftOk(c: Store, sp: map<int, Span>, n: int)
    requires n in c && c.Keys == sp.Keys
  {
    var x := c[n].left;
    x != NIL ==> x in c && c[x].parent == n && sp[x] == Span(sp[n].lo, K(c, n))
  }

  predicate RightOk(c: Store, sp: map<int, Span>, n: int)
    requires n in c && c.Keys == sp.Keys
  {
    var x := c[n].right;
    x != NIL ==> x in c && c[x].parent == n && sp[x] == Span(K(c, n), sp[n].hi)
  }

  predicate UpOk(c: Store, root: int, n: int)
    requires n in c
  {
    var x := c[n].parent;
    && (x == NIL <==> n == root)
    && (x != NIL ==> x in c && (c[x].left == n || c[x].right == n))
  }

  // Links agree in both directions and narrow the span.
  predicate Local(c: Store, sp: map<int, Span>, root: int, n: int)
    requires n in c && c.Keys == sp.Keys
  {
    && In(sp[n].lo, K(c, n), sp[n].hi)
    && LeftOk(c, sp, n)
    && RightOk(c, sp, n)
    && UpOk(c, root, n)
  }

  predicate Empty(c: Store, lo: Key, hi: Key) {
    forall x :: x in c ==> !In(lo, K(c, x), hi)
  }

  // A missing child means that no node has a key on that side.
  predicate Full(c: Store, sp: map<int, Span>, n: int)
    requires n in c && c.Keys == sp.Keys
  {
    && (c[n].left == NIL ==> Empty(c, sp[n].lo, K(c, n)))
    && (c[n].right == NIL ==> Empty(c, K(c, n), sp[n].hi))
  }

  predicate AtMost(a: Key, b: Key) {
    a == b || Lt(a, b)
  }

  // The span (lo, hi) lies in one of the two halves of another node's span.
  predicate Inside(lo: Key, hi: Key, lo': Key, own': Key, hi': Key) {
    (AtMost(lo', lo) && AtMost(hi, own')) || (AtMost(own', lo) && AtMost(hi, hi'))
  }

  // Subtrees are nested or apart.
  predicate Nested(a: Span, own: Key, b: Span, own': Key) {
    || Inside(a.lo, a.hi, b.lo, own', b.hi)
    || Inside(b.lo, b.hi, a.lo, own, a.hi)
    || AtMost(a.hi, b.lo) || AtMost(b.hi, a.lo)
  }

  predicate Rel(c: Store, sp: map<int, Span>, x: int, y: int)
    requires x in c && y in c && c.Keys == sp.Keys
  {
    x == y || Nested(sp[x], K(c, x), sp[y], K(c, y))
  }

  predicate Tree(c: Store, sp: map<int, Span>, root: int) {
    && c.Keys == sp.Keys && NIL !in c
    && (root == NIL <==> c == map[])
    && (root != NIL ==> root in c && sp[root] == ALL)
    && (forall n :: n in c ==> Local(c, sp, root, n))
    && (forall n :: n in c ==> Full(c, sp, n))
    && (forall n :: n in c ==> c[n].m.dest < 0x1_0000_0000_0000_0000)
    && (forall n, x :: n in c && x in c ==> Rel(c, sp, n, x))
  }

  // x takes n's place below n's parent.
  function Replace(c: Store, n: int, x: int): Store
    requires n in c && (c[n].parent != NIL ==> c[n].parent in c)
  {
    var p := c[n].parent;
    if p == NIL then c
    else if c[p].left == n then c[p := c[p].(left := x)]
    else c[p := c[p].(right := x)]
  }

  function Adopt(c: Store, x: int, parent: int): Store
    requires x != NIL ==> x in c
  {
    if x == NIL then c else c[x := c[x].(parent := parent)]
  }

  /** rotateLeft: the right child takes the place of n. */
  function RotL(c: Store, n: int): Store
    requires n in c && c[n].right in c && NIL !in c
    requires c[c[n].right].left != NIL ==> c[c[n].right].left in c
    requires c[n].parent != NIL ==> c[n].parent in c
  {
    var r := c[n].right;
    var l := c[r].left;
    var c1 := Replace(Adopt(c, l, n), n, r);
    c1[r := c1[r].(parent := c[n].parent, left := n)][n := c1[n].(right := l, parent := r)]
  }

  function RotLSpans(c: Store, sp: map<int, Span>, n: int): map<int, Span>
    requires n in c && n in sp && c[n].right in c && c[n].right in sp
  {
    var r := c[n].right;
    sp[r := Span(sp[n].lo, sp[r].hi)][n := Span(sp[n].lo, K(c, r))]
  }

  // The four nodes a left turn at n touches.
  lemma RotLShape(c: Store, sp: map<int, Span>, root: int, n: int)
    requires Tree(c, sp, root) && n in c && c[n].right != NIL
    ensures c[n].right in c && NIL !in c
    ensures var r := c[n].right; var l, p := c[r].left, c[n].parent;
            && Local(c, sp, root, n) && Local(c, sp, root, r)
            && (l != NIL ==> l in c && Local(c, sp, root, l)) && (p != NIL ==> p in c && Local(c, sp, root, p))
            && n != r && l != n && l != r && p != n && p != r && (p != NIL ==> p != l)
  {
    var r := c[n].right;
    assert Local(c, sp, root, n) && Local(c, sp, root, r);
    var l, p := c[r].left, c[n].parent;
    if l != NIL {
      assert Local(c, sp, root, l);
    }
    if p != NIL {
      assert Local(c, sp, root, p);
    }
  }

  lemma RotLAt(c: Store, sp: map<int, Span>, root: int, n: int, x: int)
    requires Tree(c, sp, root) && n in c && c[n].right != NIL && x in c
    ensures c[n].right in c
    ensures var r := c[n].right; var l, p := c[r].left, c[n].parent;
            && (l != NIL ==> l in c) && (p != NIL ==> p in c)
            && RotL(c, n).Keys == c.Keys
            && RotL(c, n)[x] ==
               if x == n then c[n].(right := l, parent := r)
               else if x == r then c[r].(parent := p, left := n)
               else if x == l then c[l].(parent := n)
               else if x == p then (if c[p].left == n then c[p].(left := r) else c[p].(right := r))
               else c[x]
  {
    hide Tree, Local, LeftOk, RightOk, UpOk, In, Full;
    RotLShape(c, sp, root, n);
  }

  lemma RotLDown(c: Store, sp: map<int, Span>, root: int, n: int, x: int)
    requires Tree(c, sp, root) && n in c && c[n].right != NIL && x in c
    ensures c[n].right in c && NIL !in c && RotL(c, n).Keys == c.Keys
    ensures LeftOk(RotL(c, n), RotLSpans(c, sp, n), x) && RightOk(RotL(c, n), RotLSpans(c, sp, n), x)
    ensures var s := RotLSpans(c, sp, n)[x]; In(s.lo, K(RotL(c, n), x), s.hi)
  {
    hide Tree, Full, Empty, RotL;
    RotLShape(c, sp, root, n);
    RotLAt(c, sp, root, n, x);
    Locals(c, sp, root, x);
    var l, r := c[x].left, c[x].right;
    if l != NIL { RotLAt(c, sp, root, n, l); Locals(c, sp, root, l); }
    if r != NIL { RotLAt(c, sp, root, n, r); Locals(c, sp, root, r); }
    RotLAt(c, sp, root, n, n);
    RotLAt(c, sp, root, n, c[n].right);
    if c[c[n].right].left != NIL { RotLAt(c, sp, root, n, c[c[n].right].left); }
  }

  lemma RotLUp(c: Store, sp: map<int, Span>, root: int, n: int, x: int)
    requires Tree(c, sp, root) && n in c && c[n].right != NIL && x in c
    ensures c[n].right in c && NIL !in c && RotL(c, n).Keys == c.Keys
    ensures UpOk(RotL(c, n), if root == n then c[n].right else root, x)
  {
    hide Tree, Full, Empty, RotL, In;
    RotLShape(c, sp, root, n);
    RotLAt(c, sp, root, n, x);
    Locals(c, sp, root, x);
    var p := RotL(c, n)[x].parent;
    if p != NIL { RotLAt(c, sp, root, n, p); Locals(c, sp, root, p); }
  }

  lemma RotLFull(c: Store, sp: map<int, Span>, root: int, n: int, x: int)
    requires Tree(c, sp, root) && n in c && c[n].right != NIL && x in c
    ensures c[n].right in c && NIL !in c && RotL(c, n).Keys == c.Keys
    ensures Full(RotL(c, n), RotLSpans(c, sp, n), x)
  {
    hide Tree, RotL;
    RotLShape(c, sp, root, n);
    RotLAt(c, sp, root, n, x);
    Locals(c, sp, root, x);
    Locals(c, sp, root, c[n].right);
    forall y | y in c
      ensures K(RotL(c, n), y) == K(c, y)
    {
      RotLAt(c, sp, root, n, y);
    }
  }

  lemma RotLRel(c: Store, sp: map<int, Span>, root: int, n: int, x: int, y: int)
    requires Tree(c, sp, root) && n in c && c[n].right != NIL && x in c && y in c
    ensures c[n].right in c && NIL !in c && RotL(c, n).Keys == c.Keys
    ensures Rel(RotL(c, n), RotLSpans(c, sp, n), x, y)
  {
    hide Tree, RotL, Inside, Nested, AtMost, Lt, Empty;
    var r := c[n].right;
    RotLShape(c, sp, root, n);
    RotLAt(c, sp, root, n, x);
    RotLAt(c, sp, root, n, y);
    Locals(c, sp, root, x);
    Locals(c, sp, root, y);
    Rels(c, sp, root, x, y);
    Rels(c, sp, root, n, x);
    Rels(c, sp, root, n, y);
    Rels(c, sp, root, r, x);
    Rels(c, sp, root, r, y);
    NestedSym(sp[n], K(c, n), sp[x], K(c, x));
    NestedSym(sp[r], K(c, r), sp[x], K(c, x));
    if x != n && x != r {
      TurnNested(sp[n], K(c, n), sp[r], K(c, r), sp[x], K(c, x));
    }
    if y != n && y != r {
      TurnNested(sp[n], K(c, n), sp[r], K(c, r), sp[y], K(c, y));
    }
    var s' := RotLSpans(c, sp, n);
    NestedSym(s'[n], K(c, n), s'[x], K(c, x));
    NestedSym(s'[r], K(c, r), s'[x], K(c, x));
    TurnPair(sp[n], K(c, n), sp[r], K(c, r));
    NestedSym(s'[n], K(c, n), s'[r], K(c, r));
  }

  /** A left turn keeps the tree and moves nothing but links. */
  lemma RotLKeeps(c: Store, sp: map<int, Span>, root: int, n: int)
    requires Tree(c, sp, root) && n in c && c[n].right != NIL
    ensures c[n].right in c && NIL !in c
    ensures Tree(RotL(c, n), RotLSpans(c, sp, n), if root == n then c[n].right else root)
    ensures SameMatches(c, RotL(c, n))
    ensures RotL(c, n)[n].parent == c[n].right
  {
    hide RotL, LeftOk, RightOk, UpOk, In, Full, Nested;
    var r := c[n].right;
    RotLShape(c, sp, root, n);
    RotLAt(c, sp, root, n, n);
    forall x | x in c
      ensures Local(RotL(c, n), RotLSpans(c, sp, n), if root == n then r else root, x)
      ensures Full(RotL(c, n), RotLSpans(c, sp, n), x)
      ensures Same(c[x], RotL(c, n)[x])
    {
      RotLAt(c, sp, root, n, x);
      Locals(c, sp, root, x);
      RotLDown(c, sp, root, n, x);
      RotLUp(c, sp, root, n, x);
      RotLFull(c, sp, root, n, x);
    }
    forall x, y | x in c && y in c
      ensures Rel(RotL(c, n), RotLSpans(c, sp, n), x, y)
    {
      RotLRel(c, sp, root, n, x, y);
    }
    RootSpan(c, sp, root, n);
  }

  lemma RootSpan(c: Store, sp: map<int, Span>, root: int, n: int)
    requires Tree(c, sp, root) && n in c && c[n].right != NIL
    ensures c[n].right in c && root in c
    ensures RotLSpans(c, sp, n)[if root == n then c[n].right else root] == ALL
  {
    RotLShape(c, sp, root, n);
  }

  /** rotateRight: the left child takes the place of n. */
  function RotR(c: Store, n: int): Store
    requires n in c && c[n].left in c && NIL !in c
    requires c[c[n].left].right != NIL ==> c[c[n].left].right in c
    requires c[n].parent != NIL ==> c[n].parent in c
  {
    var r := c[n].left;
    var l := c[r].right;
    var c1 := Replace(Adopt(c, l, n), n, r);
    c1[r := c1[r].(parent := c[n].parent, right := n)][n := c1[n].(left := l, parent := r)]
  }

  function RotRSpans(c: Store, sp: map<int, Span>, n: int): map<int, Span>
    requires n in c && n in sp && c[n].left in c && c[n].left in sp
  {
    var r := c[n].left;
    sp[r := Span(sp[r].lo, sp[n].hi)][n := Span(K(c, r), sp[n].hi)]
  }

  // The four nodes a right turn at n touches.
  lemma RotRShape(c: Store, sp: map<int, Span>, root: int, n: int)
    requires Tree(c, sp, root) && n in c && c[n].left != NIL
    ensures c[n].left in c && NIL !in c
    ensures var r := c[n].left; var l, p := c[r].right, c[n].parent;
            && Local(c, sp, root, n) && Local(c, sp, root, r)
            && (l != NIL ==> l in c && Local(c, sp, root, l)) && (p != NIL ==> p in c && Local(c, sp, root, p))
            && n != r && l != n && l != r && p != n && p != r && (p != NIL ==> p != l)
  {
    var r := c[n].left;
    assert Local(c, sp, root, n) && Local(c, sp, root, r);
    var l, p := c[r].right, c[n].parent;
    if l != NIL {
      assert Local(c, sp, root, l);
    }
    if p != NIL {
      assert Local(c, sp, root, p);
    }
  }

  lemma RotRAt(c: Store, sp: map<int, Span>, root: int, n: int, x: int)
    requires Tree(c, sp, root) && n in c && c[n].left != NIL && x in c
    ensures c[n].left in c
    ensures var r := c[n].left; var l, p := c[r].right, c[n].parent;
            && (l != NIL ==> l in c) && (p != NIL ==> p in c)
            && RotR(c, n).Keys == c.Keys
            && RotR(c, n)[x] ==
               if x == n then c[n].(left := l, parent := r)
               else if x == r then c[r].(parent := p, right := n)
               else if x == l then c[l].(parent := n)
               else if x == p then (if c[p].left == n then c[p].(left := r) else c[p].(right := r))
               else c[x]
  {
    hide Tree, Local, LeftOk, RightOk, UpOk, In, Full;
    RotRShape(c, sp, root, n);
  }

  lemma RotRDown(c: Store, sp: map<int, Span>, root: int, n: int, x: int)
    requires Tree(c, sp, root) && n in c && c[n].left != NIL && x in c
    ensures c[n].left in c && NIL !in c && RotR(c, n).Keys == c.Keys
    ensures LeftOk(RotR(c, n), RotRSpans(c, sp, n), x) && RightOk(RotR(c, n), RotRSpans(c, sp, n), x)
    ensures var s := RotRSpans(c, sp, n)[x]; In(s.lo, K(RotR(c, n), x), s.hi)
  {
    hide Tree, Full, Empty, RotR;
    RotRShape(c, sp, root, n);
    RotRAt(c, sp, root, n, x);
    Locals(c, sp, root, x);
    var l, r := c[x].right, c[x].left;
    if l != NIL { RotRAt(c, sp, root, n, l); Locals(c, sp, root, l); }
    if r != NIL { RotRAt(c, sp, root, n, r); Locals(c, sp, root, r); }
    RotRAt(c, sp, root, n, n);
    RotRAt(c, sp, root, n, c[n].left);
    if c[c[n].left].right != NIL { RotRAt(c, sp, root, n, c[c[n].left].right); }
  }

  lemma RotRUp(c: Store, sp: map<int, Span>, root: int, n: int, x: int)
    requires Tree(c, sp, root) && n in c && c[n].left != NIL && x in c
    ensures c[n].left in c && NIL !in c && RotR(c, n).Keys == c.Keys
    ensures UpOk(RotR(c, n), if root == n then c[n].left else root, x)
  {
    hide Tree, Full, Empty, RotR, In;
    RotRShape(c, sp, root, n);
    RotRAt(c, sp, root, n, x);
    Locals(c, sp, root, x);
    var p := RotR(c, n)[x].parent;
    if p != NIL { RotRAt(c, sp, root, n, p); Locals(c, sp, root, p); }
  }

  lemma RotRFull(c: Store, sp: map<int, Span>, root: int, n: int, x: int)
    requires Tree(c, sp, root) && n in c && c[n].left != NIL && x in c
    ensures c[n].left in c && NIL !in c && RotR(c, n).Keys == c.Keys
    ensures Full(RotR(c, n), RotRSpans(c, sp, n), x)
  {
    hide Tree, RotR;
    RotRShape(c, sp, root, n);
    RotRAt(c, sp, root, n, x);
    Locals(c, sp, root, x);
    Locals(c, sp, root, c[n].left);
    forall y | y in c
      ensures K(RotR(c, n), y) == K(c, y)
    {
      RotRAt(c, sp, root, n, y);
    }
  }

  lemma RotRRel(c: Store, sp: map<int, Span>, root: int, n: int, x: int, y: int)
    requires Tree(c, sp, root) && n in c && c[n].left != NIL && x in c && y in c
    ensures c[n].left in c && NIL !in c && RotR(c, n).Keys == c.Keys
    ensures Rel(RotR(c, n), RotRSpans(c, sp, n), x, y)
  {
    hide Tree, RotR, Inside, Nested, AtMost, Lt, Empty;
    var r := c[n].left;
    RotRShape(c, sp, root, n);
    RotRAt(c, sp, root, n, x);
    RotRAt(c, sp, root, n, y);
    Locals(c, sp, root, x);
    Locals(c, sp, root, y);
    Rels(c, sp, root, x, y);
    Rels(c, sp, root, n, x);
    Rels(c, sp, root, n, y);
    Rels(c, sp, root, r, x);
    Rels(c, sp, root, r, y);
    NestedSym(sp[n], K(c, n), sp[x], K(c, x));
    NestedSym(sp[r], K(c, r), sp[x], K(c, x));
    if x != n && x != r {
      TurnNested(sp[n], K(c, n), sp[r], K(c, r), sp[x], K(c, x));
    }
    if y != n && y != r {
      TurnNested(sp[n], K(c, n), sp[r], K(c, r), sp[y], K(c, y));
    }
    var s' := RotRSpans(c, sp, n);
    NestedSym(s'[n], K(c, n), s'[x], K(c, x));
    NestedSym(s'[r], K(c, r), s'[x], K(c, x));
    TurnPair(sp[n], K(c, n), sp[r], K(c, r));
    NestedSym(s'[n], K(c, n), s'[r], K(c, r));
  }

  /** A right turn keeps the tree and moves nothing but links. */
  lemma RotRKeeps(c: Store, sp: map<int, Span>, root: int, n: int)
    requires Tree(c, sp, root) && n in c && c[n].left != NIL
    ensures c[n].left in c && NIL !in c
    ensures Tree(RotR(c, n), RotRSpans(c, sp, n), if root == n then c[n].left else root)
    ensures SameMatches(c, RotR(c, n))
    ensures RotR(c, n)[n].parent == c[n].left
  {
    hide RotR, LeftOk, RightOk, UpOk, In, Full;
    var r := c[n].left;
    RotRShape(c, sp, root, n);
    RotRAt(c, sp, root, n, n);
    forall x | x in c
      ensures Local(RotR(c, n), RotRSpans(c, sp, n), if root == n then r else root, x)
      ensures Full(RotR(c, n), RotRSpans(c, sp, n), x)
      ensures Same(c[x], RotR(c, n)[x])
    {
      RotRAt(c, sp, root, n, x);
      Locals(c, sp, root, x);
      RotRDown(c, sp, root, n, x);
      RotRUp(c, sp, root, n, x);
      RotRFull(c, sp, root, n, x);
    }
    forall x, y | x in c && y in c
      ensures Rel(RotR(c, n), RotRSpans(c, sp, n), x, y)
    {
      RotRRel(c, sp, root, n, x, y);
    }
    RootSpanR(c, sp, root, n);
  }

  lemma RootSpanR(c: Store, sp: map<int, Span>, root: int, n: int)
    requires Tree(c, sp, root) && n in c && c[n].left != NIL
    ensures c[n].left in c && root in c
    ensures RotRSpans(c, sp, n)[if root == n then c[n].left else root] == ALL
  {
    RotRShape(c, sp, root, n);
  }

  lemma Rels(c: Store, sp: map<int, Span>, root: int, x: int, y: int)
    requires Tree(c, sp, root) && x in c && y in c
    ensures c.Keys == sp.Keys && Rel(c, sp, x, y)
  {
  }

  lemma NestedSym(a: Span, ka: Key, b: Span, kb: Key)
    ensures Nested(a, ka, b, kb) == Nested(b, kb, a, ka)
  {
  }

  lemma TurnPair(n: Span, kn: Key, r: Span, kr: Key)
    requires In(n.lo, kn, n.hi) && In(r.lo, kr, r.hi)
    ensures r == Span(kn, n.hi) ==> Nested(Span(n.lo, kr), kn, n, kr)
    ensures r == Span(n.lo, kn) ==> Nested(Span(kr, n.hi), kn, n, kr)
  {
  }

  // A turn at n, whose child is r, leaves every third span nested or apart.
  lemma TurnNested(n: Span, kn: Key, r: Span, kr: Key, y: Span, ky: Key)
    requires In(n.lo, kn, n.hi) && In(r.lo, kr, r.hi) && In(y.lo, ky, y.hi)
    requires Nested(n, kn, y, ky) && Nested(r, kr, y, ky)
    ensures r == Span(kn, n.hi) ==> Nested(n, kr, y, ky) && Nested(Span(n.lo, kr), kn, y, ky)
    ensures r == Span(n.lo, kn) ==> Nested(n, kr, y, ky) && Nested(Span(kr, n.hi), kn, y, ky)
  {
  }

  lemma Locals(c: Store, sp: map<int, Span>, root: int, x: int)
    requires Tree(c, sp, root) && x in c
    ensures c.Keys == sp.Keys && NIL !in c && Local(c, sp, root, x) && Full(c, sp, x)
    ensures c[x].m.dest < 0x1_0000_0000_0000_0000
  {
  }

  predicate Same(a: Node, b: Node) {
    a.m == b.m && a.pri == b.pri && a.index == b.index
  }

  // Only links differ.
  predicate SameMatches(c: Store, c': Store) {
    c.Keys == c'.Keys && forall x :: x in c ==> Same(c[x], c'[x])
  }

  // ----- priorities -----

  predicate Heaped(c: Store, x: int)
    requires x in c
  {
    c[x].parent in c ==> c[x].pri <= c[c[x].parent].pri
  }

  predicate Ordered(c: Store) {
    forall x :: x in c ==> Heaped(c, x)
  }

  // The children of n would be in order below n's parent.
  predicate Grand(c: Store, n: int)
    requires n in c
  {
    forall x :: x in c && c[x].parent == n && c[n].parent in c ==> c[x].pri <= c[c[n].parent].pri
  }

  // In order but for n, which may have to rise.
  predicate Rising(c: Store, n: int) {
    n in c && Grand(c, n) && forall x :: x in c && x != n ==> Heaped(c, x)
  }

  // In order but for n, which may have to sink.
  predicate Sinking(c: Store, n: int) {
    n in c && Grand(c, n) && forall x :: x in c && x != n && c[x].parent != n ==> Heaped(c, x)
  }

  lemma RiseL(c: Store, sp: map<int, Span>, root: int, p: int)
    requires Tree(c, sp, root) && p in c && c[p].right != NIL && Rising(c, c[p].right)
    requires c[p].pri < c[c[p].right].pri
    ensures NIL !in c && Rising(RotL(c, p), c[p].right)
  {
    hide RotL, Full, In, Tree;
    RotLShape(c, sp, root, p);
    var n, c' := c[p].right, RotL(c, p);
    RotLAt(c, sp, root, p, p);
    RotLAt(c, sp, root, p, n);
    assert Heaped(c, p);
    if c[n].left != NIL { assert Heaped(c, c[n].left); }
    forall x | x in c'
      ensures x != n ==> Heaped(c', x)
      ensures c'[x].parent == n && c'[n].parent in c' ==> c'[x].pri <= c'[c'[n].parent].pri
    {
      RotLAt(c, sp, root, p, x);
      Locals(c, sp, root, x);
      assert x != n ==> Heaped(c, x);
      if c[x].parent in c { RotLAt(c, sp, root, p, c[x].parent); }
      if c[p].parent in c { RotLAt(c, sp, root, p, c[p].parent); }
    }
  }

  lemma SinkL(c: Store, sp: map<int, Span>, root: int, n: int)
    requires Tree(c, sp, root) && n in c && c[n].right != NIL && Sinking(c, n)
    requires c[n].left in c ==> c[c[n].left].pri <= c[c[n].right].pri
    ensures NIL !in c && Sinking(RotL(c, n), n)
  {
    hide RotL, Full, In, Tree;
    RotLShape(c, sp, root, n);
    var r, c' := c[n].right, RotL(c, n);
    RotLAt(c, sp, root, n, n);
    RotLAt(c, sp, root, n, r);
    if c[r].left != NIL { assert Heaped(c, c[r].left); }
    forall x | x in c'
      ensures x != n && c'[x].parent != n ==> Heaped(c', x)
      ensures c'[x].parent == n ==> c'[x].pri <= c'[r].pri
    {
      RotLAt(c, sp, root, n, x);
      Locals(c, sp, root, x);
      assert x != n && c[x].parent != n ==> Heaped(c, x);
      if c[x].parent in c { RotLAt(c, sp, root, n, c[x].parent); }
      if c[n].parent in c { RotLAt(c, sp, root, n, c[n].parent); }
    }
  }

  lemma RiseR(c: Store, sp: map<int, Span>, root: int, p: int)
    requires Tree(c, sp, root) && p in c && c[p].left != NIL && Rising(c, c[p].left)
    requires c[p].pri < c[c[p].left].pri
    ensures NIL !in c && Rising(RotR(c, p), c[p].left)
  {
    hide RotR, Full, In, Tree;
    RotRShape(c, sp, root, p);
    var n, c' := c[p].left, RotR(c, p);
    RotRAt(c, sp, root, p, p);
    RotRAt(c, sp, root, p, n);
    assert Heaped(c, p);
    if c[n].right != NIL { assert Heaped(c, c[n].right); }
    forall x | x in c'
      ensures x != n ==> Heaped(c', x)
      ensures c'[x].parent == n && c'[n].parent in c' ==> c'[x].pri <= c'[c'[n].parent].pri
    {
      RotRAt(c, sp, root, p, x);
      Locals(c, sp, root, x);
      assert x != n ==> Heaped(c, x);
      if c[x].parent in c { RotRAt(c, sp, root, p, c[x].parent); }
      if c[p].parent in c { RotRAt(c, sp, root, p, c[p].parent); }
    }
  }

  lemma SinkR(c: Store, sp: map<int, Span>, root: int, n: int)
    requires Tree(c, sp, root) && n in c && c[n].left != NIL && Sinking(c, n)
    requires c[n].right in c ==> c[c[n].right].pri <= c[c[n].left].pri
    ensures NIL !in c && Sinking(RotR(c, n), n)
  {
    hide RotR, Full, In, Tree;
    RotRShape(c, sp, root, n);
    var r, c' := c[n].left, RotR(c, n);
    RotRAt(c, sp, root, n, n);
    RotRAt(c, sp, root, n, r);
    if c[r].right != NIL { assert Heaped(c, c[r].right); }
    forall x | x in c'
      ensures x != n && c'[x].parent != n ==> Heaped(c', x)
      ensures c'[x].parent == n ==> c'[x].pri <= c'[r].pri
    {
      RotRAt(c, sp, root, n, x);
      Locals(c, sp, root, x);
      assert x != n && c[x].parent != n ==> Heaped(c, x);
      if c[x].parent in c { RotRAt(c, sp, root, n, c[x].parent); }
      if c[n].parent in c { RotRAt(c, sp, root, n, c[n].parent); }
    }
  }

  // ----- a new leaf, a leaf removed -----

  /** n hangs below cur, on the side its key belongs. */
  function Attach(c: Store, n: int, node: Node, cur: int, left: bool): Store
    requires cur in c
  {
    var c1 := c[n := node.(left := NIL, right := NIL, parent := cur)];
    if left then c1[cur := c[cur].(left := n)] else c1[cur := c[cur].(right := n)]
  }

  function AttachSpans(c: Store, sp: map<int, Span>, n: int, cur: int, left: bool): map<int, Span>
    requires cur in c && cur in sp
  {
    sp[n := if left then Span(sp[cur].lo, K(c, cur)) else Span(K(c, cur), sp[cur].hi)]
  }

  // The gaps beside two nested owners overlap nowhere, if neither holds the other's owner.
  lemma Disjoint(lo: Key, own: Key, hi: Key, lo': Key, own': Key, hi': Key, k: Key)
    requires In(lo, own, hi) && In(lo', own', hi') && Nested(Span(lo, hi), own, Span(lo', hi'), own')
    ensures !In(lo, own', own) && !In(lo', own, own') ==> !(In(lo, k, own) && In(lo', k, own'))
    ensures !In(lo, own', own) && !In(own', own, hi') ==> !(In(lo, k, own) && In(own', k, hi'))
    ensures !In(own, own', hi) && !In(lo', own, own') ==> !(In(own, k, hi) && In(lo', k, own'))
    ensures !In(own, own', hi) && !In(own', own, hi') ==> !(In(own, k, hi) && In(own', k, hi'))
  {
  }

  // A span inside the gap beside `own` is nested wherever `own` is.
  lemma GapNested(lo: Key, own: Key, hi: Key, y: Span, ky: Key, k: Key)
    requires In(lo, own, hi) && In(y.lo, ky, y.hi) && Nested(Span(lo, hi), own, y, ky)
    ensures !In(lo, ky, own) && In(lo, k, own) ==> Nested(Span(lo, own), k, y, ky)
    ensures !In(own, ky, hi) && In(own, k, hi) ==> Nested(Span(own, hi), k, y, ky)
  {
  }

  // The gap below cur is the only one that holds the new key.
  lemma OneGap(c: Store, sp: map<int, Span>, root: int, k: Key, s: Span, cur: int, left: bool, x: int)
    requires Tree(c, sp, root) && cur in c && x in c && In(s.lo, k, s.hi)
    requires s == if left then Span(sp[cur].lo, K(c, cur)) else Span(K(c, cur), sp[cur].hi)
    requires (if left then c[cur].left else c[cur].right) == NIL
    ensures c[x].left == NIL && !(left && x == cur) ==> !In(sp[x].lo, k, K(c, x))
    ensures c[x].right == NIL && !(!left && x == cur) ==> !In(K(c, x), k, sp[x].hi)
    ensures x != cur ==> Nested(s, k, sp[x], K(c, x))
  {
    hide Tree, LeftOk, RightOk, UpOk, In, Nested;
    Locals(c, sp, root, cur);
    Locals(c, sp, root, x);
    assert !In(s.lo, K(c, x), s.hi);
    assert c[x].left == NIL ==> !In(sp[x].lo, K(c, cur), K(c, x));
    assert c[x].right == NIL ==> !In(K(c, x), K(c, cur), sp[x].hi);
    if x != cur {
      Rels(c, sp, root, cur, x);
      Disjoint(sp[cur].lo, K(c, cur), sp[cur].hi, sp[x].lo, K(c, x), sp[x].hi, k);
      GapNested(sp[cur].lo, K(c, cur), sp[cur].hi, sp[x], K(c, x), k);
    } else {
      Asym(k, K(c, x));
    }
  }

  lemma Asym(k: Key, own: Key)
    ensures forall lo, hi :: !(In(lo, k, own) && In(own, k, hi))
  {
  }

  predicate Fits(c: Store, sp: map<int, Span>, n: int, node: Node, cur: int, left: bool)
    requires c.Keys == sp.Keys
  {
    && cur in c && n !in c && n != NIL && node.m.dest < 0x1_0000_0000_0000_0000
    && (if left then c[cur].left else c[cur].right) == NIL
    && var s := AttachSpans(c, sp, n, cur, left)[n]; In(s.lo, Key(node.m.dest, n), s.hi)
  }

  lemma AttachLocal(c: Store, sp: map<int, Span>, root: int, n: int, node: Node, cur: int, left: bool, x: int)
    requires Tree(c, sp, root) && Fits(c, sp, n, node, cur, left) && (x in c || x == n)
    ensures Local(Attach(c, n, node, cur, left), AttachSpans(c, sp, n, cur, left), root, x)
  {
    hide Tree, Full, In;
    TreeHas(c, sp, root);
    Locals(c, sp, root, cur);
    if x in c { Locals(c, sp, root, x); }
  }

  lemma AttachFull(c: Store, sp: map<int, Span>, root: int, n: int, node: Node, cur: int, left: bool, x: int)
    requires Tree(c, sp, root) && Fits(c, sp, n, node, cur, left) && (x in c || x == n)
    ensures Full(Attach(c, n, node, cur, left), AttachSpans(c, sp, n, cur, left), x)
  {
    hide Tree, LeftOk, RightOk, UpOk;
    TreeHas(c, sp, root);
    Locals(c, sp, root, cur);
    var k, s := Key(node.m.dest, n), AttachSpans(c, sp, n, cur, left)[n];
    var c' := Attach(c, n, node, cur, left);
    assert forall y :: y in c ==> K(c', y) == K(c, y);
    assert K(c', n) == k;
    if x in c {
      Locals(c, sp, root, x);
      OneGap(c, sp, root, k, s, cur, left, x);
    } else {
      assert Empty(c, s.lo, s.hi);
    }
  }

  lemma AttachRel(c: Store, sp: map<int, Span>, root: int, n: int, node: Node, cur: int, left: bool, x: int, y: int)
    requires Tree(c, sp, root) && Fits(c, sp, n, node, cur, left) && (x in c || x == n) && (y in c || y == n)
    ensures Rel(Attach(c, n, node, cur, left), AttachSpans(c, sp, n, cur, left), x, y)
  {
    hide Tree, LeftOk, RightOk, UpOk, Nested, Full;
    TreeHas(c, sp, root);
    Locals(c, sp, root, cur);
    var k, s := Key(node.m.dest, n), AttachSpans(c, sp, n, cur, left)[n];
    LeafNested(sp[cur], K(c, cur), s, k);
    NestedSym(s, k, sp[cur], K(c, cur));
    if x in c {
      OneGap(c, sp, root, k, s, cur, left, x);
      NestedSym(s, k, sp[x], K(c, x));
    }
    if y in c {
      OneGap(c, sp, root, k, s, cur, left, y);
      NestedSym(s, k, sp[y], K(c, y));
    }
    if x in c && y in c {
      Rels(c, sp, root, x, y);
    }
  }

  lemma LeafNested(cur: Span, kc: Key, s: Span, k: Key)
    ensures s == Span(cur.lo, kc) || s == Span(kc, cur.hi) ==> Nested(s, k, cur, kc)
  {
  }

  lemma AttachKeeps(c: Store, sp: map<int, Span>, root: int, n: int, node: Node, cur: int, left: bool)
    requires Tree(c, sp, root) && Fits(c, sp, n, node, cur, left)
    ensures Tree(Attach(c, n, node, cur, left), AttachSpans(c, sp, n, cur, left), root)
  {
    hide Attach, AttachSpans, Local, Full, Rel, Fits;
    AttachShape(c, sp, n, node, cur, left);
    var c', sp' := Attach(c, n, node, cur, left), AttachSpans(c, sp, n, cur, left);
    forall x | x in c'
      ensures Local(c', sp', root, x) && Full(c', sp', x)
    {
      if x in c { Locals(c, sp, root, x); }
      AttachLocal(c, sp, root, n, node, cur, left, x);
      AttachFull(c, sp, root, n, node, cur, left, x);
    }
    forall x, y | x in c' && y in c'
      ensures Rel(c', sp', x, y)
    {
      AttachRel(c, sp, root, n, node, cur, left, x, y);
    }
  }

  lemma AttachShape(c: Store, sp: map<int, Span>, n: int, node: Node, cur: int, left: bool)
    requires c.Keys == sp.Keys && Fits(c, sp, n, node, cur, left)
    ensures cur in c && n !in c && n != NIL && node.m.dest < 0x1_0000_0000_0000_0000
    ensures Attach(c, n, node, cur, left).Keys == c.Keys + {n} == AttachSpans(c, sp, n, cur, left).Keys
    ensures forall x :: x in c ==> Same(c[x], Attach(c, n, node, cur, left)[x]) && AttachSpans(c, sp, n, cur, left)[x] == sp[x]
    ensures Attach(c, n, node, cur, left)[n] == node.(left := NIL, right := NIL, parent := cur)
  {
  }

  lemma TreeHas(c: Store, sp: map<int, Span>, root: int)
    requires Tree(c, sp, root)
    ensures c.Keys == sp.Keys && NIL !in c
    ensures root == NIL <==> c == map[]
    ensures root != NIL ==> root in c && sp[root] == ALL
  {
  }

  lemma AttachRises(c: Store, sp: map<int, Span>, root: int, n: int, node: Node, cur: int, left: bool)
    requires Tree(c, sp, root) && Fits(c, sp, n, node, cur, left) && Ordered(c)
    ensures Rising(Attach(c, n, node, cur, left), n)
  {
    hide Tree, Fits, Full, In;
    TreeHas(c, sp, root);
    AttachShape(c, sp, n, node, cur, left);
    var c' := Attach(c, n, node, cur, left);
    forall x | x in c'
      ensures x != n ==> Heaped(c', x)
      ensures c'[x].parent == n ==> false
    {
      if x in c {
        Locals(c, sp, root, x);
        assert Heaped(c, x);
      }
    }
  }

  /** Taking the leaf n out. */
  function Detach(c: Store, n: int): Store
    requires n in c && (c[n].parent != NIL ==> c[n].parent in c)
  {
    Replace(c, n, NIL) - {n}
  }

  lemma DetachShape(c: Store, sp: map<int, Span>, root: int, n: int)
    requires Tree(c, sp, root) && n in c && c[n].left == NIL && c[n].right == NIL
    ensures c[n].parent != NIL ==> c[n].parent in c && c[n].parent != n
    ensures Detach(c, n).Keys == c.Keys - {n} == (sp - {n}).Keys
    ensures forall x :: x in Detach(c, n) ==> Same(c[x], Detach(c, n)[x]) && K(Detach(c, n), x) == K(c, x) && (sp - {n})[x] == sp[x]
    ensures forall x :: x in Detach(c, n) ==> 
              (Detach(c, n)[x] ==
                 if x == c[n].parent then (if c[x].left == n then c[x].(left := NIL) else c[x].(right := NIL)) else c[x])
  {
    hide Tree, In, Rel, Full;
    TreeHas(c, sp, root);
    Locals(c, sp, root, n);
    if c[n].parent != NIL {
      Locals(c, sp, root, c[n].parent);
    }
  }

  lemma DetachAt(c: Store, sp: map<int, Span>, root: int, n: int, x: int)
    requires Tree(c, sp, root) && n in c && c[n].left == NIL && c[n].right == NIL && x in c && x != n
    ensures c[n].parent != NIL ==> c[n].parent in c
    ensures Detach(c, n).Keys == c.Keys - {n} == (sp - {n}).Keys
    ensures Local(Detach(c, n), sp - {n}, if c[n].parent == NIL then NIL else root, x) && Full(Detach(c, n), sp - {n}, x)
  {
    hide Tree, In, Rel, Detach;
    DetachShape(c, sp, root, n);
    Locals(c, sp, root, n);
    Locals(c, sp, root, x);
    if c[n].parent == NIL {
      Alone(c, sp, root, n);
    }
    GapFrom(c, sp, n);
    if c[x].left != NIL { Locals(c, sp, root, c[x].left); }
    if c[x].right != NIL { Locals(c, sp, root, c[x].right); }
  }

  lemma DetachKeeps(c: Store, sp: map<int, Span>, root: int, n: int)
    requires Tree(c, sp, root) && n in c && c[n].left == NIL && c[n].right == NIL
    ensures c[n].parent != NIL ==> c[n].parent in c
    ensures Tree(Detach(c, n), sp - {n}, if c[n].parent == NIL then NIL else root)
    ensures forall x :: x in Detach(c, n) ==> Same(c[x], Detach(c, n)[x])
    ensures Detach(c, n).Keys == c.Keys - {n}
  {
    hide Tree, In, Rel, Detach, Local, Full;
    TreeHas(c, sp, root);
    DetachShape(c, sp, root, n);
    var c', sp', root' := Detach(c, n), sp - {n}, if c[n].parent == NIL then NIL else root;
    if c[n].parent == NIL {
      Alone(c, sp, root, n);
    } else {
      RootStays(c, sp, root, n);
    }
    forall x | x in c'
      ensures Local(c', sp', root', x) && Full(c', sp', x) && c'[x].m.dest < 0x1_0000_0000_0000_0000
    {
      Locals(c, sp, root, x);
      DetachAt(c, sp, root, n, x);
    }
    forall x, y | x in c' && y in c'
      ensures Rel(c', sp', x, y)
    {
      Rels(c, sp, root, x, y);
      RelFrame(c, sp, c', sp', x, y);
    }
    TreeFrom(c', sp', root');
  }

  lemma RootStays(c: Store, sp: map<int, Span>, root: int, n: int)
    requires Tree(c, sp, root) && n in c && c[n].parent != NIL
    ensures root in c && root != n && root != NIL
  {
    Locals(c, sp, root, n);
  }

  lemma TreeFrom(c: Store, sp: map<int, Span>, root: int)
    requires c.Keys == sp.Keys && NIL !in c
    requires root == NIL <==> c == map[]
    requires root != NIL ==> root in c && sp[root] == ALL
    requires forall x :: x in c ==> Local(c, sp, root, x) && Full(c, sp, x) && c[x].m.dest < 0x1_0000_0000_0000_0000
    requires forall x, y :: x in c && y in c ==> Rel(c, sp, x, y)
    ensures Tree(c, sp, root)
  {
  }

  lemma RelFrame(c: Store, sp: map<int, Span>, c': Store, sp': map<int, Span>, x: int, y: int)
    requires c.Keys == sp.Keys && c'.Keys == sp'.Keys && x in c && y in c && x in c' && y in c'
    requires sp[x] == sp'[x] && sp[y] == sp'[y] && K(c, x) == K(c', x) && K(c, y) == K(c', y)
    ensures Rel(c, sp, x, y) == Rel(c', sp', x, y)
  {
  }

  // A leaf is alone in its span.
  lemma GapFrom(c: Store, sp: map<int, Span>, n: int)
    requires n in c && c.Keys == sp.Keys && Full(c, sp, n) && c[n].left == NIL && c[n].right == NIL
    ensures forall x :: x in c && x != n ==> !In(sp[n].lo, K(c, x), sp[n].hi)
  {
  }

  // A root without children is the whole tree.
  lemma Alone(c: Store, sp: map<int, Span>, root: int, n: int)
    requires Tree(c, sp, root) && n in c && c[n].left == NIL && c[n].right == NIL && c[n].parent == NIL
    ensures c.Keys == {n}
  {
    hide Rel, LeftOk, RightOk;
    Locals(c, sp, root, n);
    GapFrom(c, sp, n);
    forall x | x in c
      ensures x == n
    {
      Locals(c, sp, root, x);
    }
  }

  lemma DetachOrdered(c: Store, sp: map<int, Span>, root: int, n: int)
    requires Tree(c, sp, root) && Sinking(c, n) && c[n].left == NIL && c[n].right == NIL
    ensures c[n].parent != NIL ==> c[n].parent in c
    ensures Ordered(Detach(c, n))
  {
    hide Tree, In, Full;
    Locals(c, sp, root, n);
    var c' := Detach(c, n);
    forall x | x in c'
      ensures Heaped(c', x)
    {
      Locals(c, sp, root, x);
      assert c[x].parent != n ==> Heaped(c, x);
    }
  }

  // ----- neighbours -----

  // What the matches and saved data of the heap look like from outside.
  datatype Entry = Entry(m: Match, index: nat)

  function VK(v: map<int, Entry>, x: int): Key
    requires x in v
  {
    Key(v[x].m.dest, x)
  }

  /** p is the last node before n, NIL when n is first. */
  predicate IsPrev(v: map<int, Entry>, n: int, p: int)
    requires n in v
  {
    if p == NIL then forall x :: x in v ==> !Lt(VK(v, x), VK(v, n))
    else p in v && Lt(VK(v, p), VK(v, n)) && forall x :: x in v ==> !In(VK(v, p), VK(v, x), VK(v, n))
  }

  /** s is the first node after n, NIL when n is last. */
  predicate IsNext(v: map<int, Entry>, n: int, s: int)
    requires n in v
  {
    if s == NIL then forall x :: x in v ==> !Lt(VK(v, n), VK(v, x))
    else s in v && Lt(VK(v, n), VK(v, s)) && forall x :: x in v ==> !In(VK(v, n), VK(v, x), VK(v, s))
  }

  predicate IsFirst(v: map<int, Entry>, n: int) {
    if n == NIL then v == map[] else n in v && forall x :: x in v && x != n ==> Lt(VK(v, n), VK(v, x))
  }

  predicate IsLast(v: map<int, Entry>, n: int) {
    if n == NIL then v == map[] else n in v && forall x :: x in v && x != n ==> Lt(VK(v, x), VK(v, n))
  }

  // The nodes whose keys lie in a span.
  ghost function Within(c: Store, s: Span): set<int> {
    set x | x in c && In(s.lo, K(c, x), s.hi)
  }

  lemma UpIn(c: Store, sp: map<int, Span>, root: int, n: int)
    requires Tree(c, sp, root) && n in c
    ensures c[n].parent != NIL ==> c[n].parent in c && (c[c[n].parent].left == n || c[c[n].parent].right == n)
    ensures NIL !in c
  {
  }

  lemma WithinSub(c: Store, s: Span)
    ensures Within(c, s) <= c.Keys
  {
  }

  lemma Risen(c: Store, n: int)
    requires Rising(c, n) && (c[n].parent in c ==> c[n].pri <= c[c[n].parent].pri)
    ensures Ordered(c)
  {
  }

  lemma Single(n: int, node: Node)
    requires 0 <= n && node.left == NIL && node.right == NIL && node.parent == NIL && node.m.dest < 0x1_0000_0000_0000_0000
    ensures Tree(map[n := node], map[n := ALL], n) && Ordered(map[n := node])
    ensures Entries(map[n := node]) == map[n := Entry(node.m, node.index)] == Entries(map[])[n := Entry(node.m, node.index)]
  {
    assert n in map[n := node] && Entries(map[]) == map[];
  }

  lemma AttachEntries(c: Store, sp: map<int, Span>, n: int, node: Node, cur: int, left: bool)
    requires c.Keys == sp.Keys && Fits(c, sp, n, node, cur, left)
    ensures cur in c && Entries(Attach(c, n, node, cur, left)) == Entries(c)[n := Entry(node.m, node.index)]
  {
  }

  lemma DetachEntries(c: Store, c': Store, n: int)
    requires n in c && c'.Keys == c.Keys - {n} && forall x :: x in c' ==> Same(c[x], c'[x])
    ensures Entries(c') == Entries(c) - {n}
  {
    forall x | x in c'
      ensures Entries(c)[x] == Entries(c')[x]
    {
      assert Same(c[x], c'[x]);
    }
  }

  lemma DetachEq(c: Store, n: int)
    requires n in c && (c[n].parent != NIL ==> c[n].parent in c)
    ensures var p := c[n].parent;
            (if p == NIL then c else if c[p].left == n then c[p := c[p].(left := NIL)] else c[p := c[p].(right := NIL)]) - {n} == Detach(c, n)
  {
  }

  lemma Settled(c: Store, n: int)
    requires Ordered(c) && n in c
    ensures Sinking(c, n)
  {
    assert Heaped(c, n);
    forall x | x in c && c[x].parent == n
      ensures c[x].pri <= c[n].pri
    {
      assert Heaped(c, x);
    }
  }

  lemma SameRefl(c: Store)
    ensures SameMatches(c, c)
  {
  }

  lemma Kids(c: Store, sp: map<int, Span>, root: int, n: int)
    requires Tree(c, sp, root) && n in c
    ensures c[n].left != NIL ==> c[n].left in c
    ensures c[n].right != NIL ==> c[n].right in c
    ensures NIL !in c
  {
    Locals(c, sp, root, n);
  }

  lemma RangeAll(c: Store, sp: map<int, Span>, root: int)
    requires Tree(c, sp, root)
    ensures forall x :: x in c ==> In(ALL.lo, K(c, x), ALL.hi)
    ensures root != NIL ==> root in sp && Within(c, sp[root]) == c.Keys
  {
  }

  lemma IndexKeeps(c: Store, sp: map<int, Span>, root: int, n: int, index: nat)
    requires Tree(c, sp, root) && Ordered(c) && n in c
    ensures Tree(c[n := c[n].(index := index)], sp, root) && Ordered(c[n := c[n].(index := index)])
  {
    hide Tree, Rel, In;
    TreeHas(c, sp, root);
    var c' := c[n := c[n].(index := index)];
    forall x | x in c
      ensures Local(c', sp, root, x) && Full(c', sp, x) && c'[x].m.dest < 0x1_0000_0000_0000_0000 && Heaped(c', x)
    {
      Locals(c, sp, root, x);
      assert Heaped(c, x);
    }
    forall x, y | x in c && y in c
      ensures Rel(c', sp, x, y)
    {
      Rels(c, sp, root, x, y);
      RelFrame(c, sp, c', sp, x, y);
    }
    TreeFrom(c', sp, root);
  }

  // A child's span holds fewer nodes.
  lemma ChildShrinks(c: Store, sp: map<int, Span>, root: int, n: int, x: int)
    requires Tree(c, sp, root) && n in c && x in c && c[x].parent == n
    ensures n in sp && x in sp && Within(c, sp[x]) < Within(c, sp[n])
  {
    hide Tree, Full, Rel;
    Locals(c, sp, root, n);
    Locals(c, sp, root, x);
    hide LeftOk, RightOk;
    assert n in Within(c, sp[n]) && n !in Within(c, sp[x]);
  }

  ghost function Entries(c: Store): map<int, Entry> {
    map x | x in c :: Entry(c[x].m, c[x].index)
  }

  lemma SameEntries(c: Store, c': Store)
    requires SameMatches(c, c')
    ensures Entries(c) == Entries(c')
  {
    forall x | x in c
      ensures Entries(c)[x] == Entries(c')[x]
    {
      assert Same(c[x], c'[x]);
    }
  }

  // c' is what rotateLeft leaves of c.
  predicate TurnedL(c: Store, sp: map<int, Span>, n: int, c': Store, sp': map<int, Span>) {
    && n in c && c[n].right in c && NIL !in c && c.Keys == sp.Keys
    && (c[c[n].right].left != NIL ==> c[c[n].right].left in c)
    && (c[n].parent != NIL ==> c[n].parent in c)
    && c' == RotL(c, n) && SameMatches(c, c') && c'[n].parent == c[n].right
    && sp' == RotLSpans(c, sp, n)
  }

  // The assignments of rotateLeft, in their order, amount to RotL.
  lemma TurnLSteps(c: Store, n: int)
    requires n in c && NIL !in c && c[n].right in c
    requires var r := c[n].right; var l, p := c[r].left, c[n].parent;
             && (l != NIL ==> l in c) && (p != NIL ==> p in c)
             && n != r && l != n && l != r && p != n && p != r && (p != NIL ==> p != l)
    ensures var r := c[n].right; var l, p := c[r].left, c[n].parent;
            var c1 := c[n := c[n].(right := l)];
            var c2 := if l != NIL then c1[l := c1[l].(parent := n)] else c1;
            var c3 := c2[r := c2[r].(parent := p)];
            var c4 := if p == NIL then c3 else if c3[p].left == n then c3[p := c3[p].(left := r)] else c3[p := c3[p].(right := r)];
            var c5 := c4[r := c4[r].(left := n)];
            c5[n := c5[n].(parent := r)] == RotL(c, n)
  {
  }

  // After those assignments the tree is a turned tree.
  lemma TurnLDone(c: Store, sp: map<int, Span>, root: int, n: int)
    requires Tree(c, sp, root) && n in c && c[n].right != NIL
    ensures c.Keys == sp.Keys && NIL !in c && c[n].right in c
    ensures var r := c[n].right; var l, p := c[r].left, c[n].parent;
            && (l != NIL ==> l in c) && (p != NIL ==> p in c)
            && n != r && l != n && l != r && p != n && p != r && (p != NIL ==> p != l)
    ensures var r := c[n].right; var l, p := c[r].left, c[n].parent;
            var c1 := c[n := c[n].(right := l)];
            var c2 := if l != NIL then c1[l := c1[l].(parent := n)] else c1;
            var c3 := c2[r := c2[r].(parent := p)];
            var c4 := if p == NIL then c3 else if c3[p].left == n then c3[p := c3[p].(left := r)] else c3[p := c3[p].(right := r)];
            var c5 := c4[r := c4[r].(left := n)];
            var c6 := c5[n := c5[n].(parent := r)];
            var sp' := RotLSpans(c, sp, n);
            c6.Keys == c.Keys && Tree(c6, sp', if p == NIL then r else root) && TurnedL(c, sp, n, c6, sp')
  {
    hide Tree, LeftOk, RightOk, In, Full, RotL, RotLSpans;
    TreeHas(c, sp, root);
    RotLShape(c, sp, root, n);
    RotLKeeps(c, sp, root, n);
    TurnLSteps(c, n);
    TurnLKeys(c, sp, root, n);
  }

  lemma TurnLKeys(c: Store, sp: map<int, Span>, root: int, n: int)
    requires Tree(c, sp, root) && n in c && c[n].right != NIL
    ensures c[n].right in c && NIL !in c && RotL.requires(c, n)
    ensures RotL(c, n).Keys == c.Keys && (root == n <==> c[n].parent == NIL)
  {
    hide RotL;
    RotLAt(c, sp, root, n, n);
    Locals(c, sp, root, n);
  }

  // c' is what rotateRight leaves of c.
  predicate TurnedR(c: Store, sp: map<int, Span>, n: int, c': Store, sp': map<int, Span>) {
    && n in c && c[n].left in c && NIL !in c && c.Keys == sp.Keys
    && (c[c[n].left].right != NIL ==> c[c[n].left].right in c)
    && (c[n].parent != NIL ==> c[n].parent in c)
    && c' == RotR(c, n) && SameMatches(c, c') && c'[n].parent == c[n].left
    && sp' == RotRSpans(c, sp, n)
  }

  // The assignments of rotateRight, in their order, amount to RotR.
  lemma TurnRSteps(c: Store, n: int)
    requires n in c && NIL !in c && c[n].left in c
    requires var r := c[n].left; var l, p := c[r].right, c[n].parent;
             && (l != NIL ==> l in c) && (p != NIL ==> p in c)
             && n != r && l != n && l != r && p != n && p != r && (p != NIL ==> p != l)
    ensures var r := c[n].left; var l, p := c[r].right, c[n].parent;
            var c1 := c[n := c[n].(left := l)];
            var c2 := if l != NIL then c1[l := c1[l].(parent := n)] else c1;
            var c3 := c2[r := c2[r].(parent := p)];
            var c4 := if p == NIL then c3 else if c3[p].left == n then c3[p := c3[p].(left := r)] else c3[p := c3[p].(right := r)];
            var c5 := c4[r := c4[r].(right := n)];
            c5[n := c5[n].(parent := r)] == RotR(c, n)
  {
  }

  // After those assignments the tree is a turned tree.
  lemma TurnRDone(c: Store, sp: map<int, Span>, root: int, n: int)
    requires Tree(c, sp, root) && n in c && c[n].left != NIL
    ensures c.Keys == sp.Keys && NIL !in c && c[n].left in c
    ensures var r := c[n].left; var l, p := c[r].right, c[n].parent;
            && (l != NIL ==> l in c) && (p != NIL ==> p in c)
            && n != r && l != n && l != r && p != n && p != r && (p != NIL ==> p != l)
    ensures var r := c[n].left; var l, p := c[r].right, c[n].parent;
            var c1 := c[n := c[n].(left := l)];
            var c2 := if l != NIL then c1[l := c1[l].(parent := n)] else c1;
            var c3 := c2[r := c2[r].(parent := p)];
            var c4 := if p == NIL then c3 else if c3[p].left == n then c3[p := c3[p].(left := r)] else c3[p := c3[p].(right := r)];
            var c5 := c4[r := c4[r].(right := n)];
            var c6 := c5[n := c5[n].(parent := r)];
            var sp' := RotRSpans(c, sp, n);
            c6.Keys == c.Keys && Tree(c6, sp', if p == NIL then r else root) && TurnedR(c, sp, n, c6, sp')
  {
    hide Tree, LeftOk, RightOk, In, Full, RotR, RotRSpans;
    TreeHas(c, sp, root);
    RotRShape(c, sp, root, n);
    RotRKeeps(c, sp, root, n);
    TurnRSteps(c, n);
    TurnRKeys(c, sp, root, n);
  }

  lemma TurnRKeys(c: Store, sp: map<int, Span>, root: int, n: int)
    requires Tree(c, sp, root) && n in c && c[n].left != NIL
    ensures c[n].left in c && NIL !in c && RotR.requires(c, n)
    ensures RotR(c, n).Keys == c.Keys && (root == n <==> c[n].parent == NIL)
  {
    hide RotR;
    RotRAt(c, sp, root, n, n);
    Locals(c, sp, root, n);
  }

  // A turn hands n's span to its child and shrinks n's own.
  lemma PromotedL(c: Store, sp: map<int, Span>, root: int, n: int, c': Store, sp': map<int, Span>)
    requires Tree(c, sp, root) && TurnedL(c, sp, n, c', sp')
    ensures var r := c[n].right;
            && r in c && r in sp && n in sp && r in sp' && n in sp' && c.Keys == c'.Keys
            && Within(c, sp[r]) < Within(c', sp'[r]) == Within(c, sp[n])
            && Within(c', sp'[n]) < Within(c, sp[n])
  {
    hide Tree, RotL, Full, Rel;
    var r := c[n].right;
    Locals(c, sp, root, n);
    Locals(c, sp, root, r);
    ChildShrinks(c, sp, root, n, r);
    assert forall x :: x in c ==> Same(c[x], c'[x]) && K(c, x) == K(c', x);
    assert r in Within(c, sp[n]) && r !in Within(c', sp'[n]);
  }

  // A turn hands n's span to its child and shrinks n's own.
  lemma PromotedR(c: Store, sp: map<int, Span>, root: int, n: int, c': Store, sp': map<int, Span>)
    requires Tree(c, sp, root) && TurnedR(c, sp, n, c', sp')
    ensures var r := c[n].left;
            && r in c && r in sp && n in sp && r in sp' && n in sp' && c.Keys == c'.Keys
            && Within(c, sp[r]) < Within(c', sp'[r]) == Within(c, sp[n])
            && Within(c', sp'[n]) < Within(c, sp[n])
  {
    hide Tree, RotR, Full, Rel;
    var r := c[n].left;
    Locals(c, sp, root, n);
    Locals(c, sp, root, r);
    ChildShrinks(c, sp, root, n, r);
    assert forall x :: x in c ==> Same(c[x], c'[x]) && K(c, x) == K(c', x);
    assert r in Within(c, sp[n]) && r !in Within(c', sp'[n]);
  }

  ghost function Without(v: map<int, Entry>, xs: seq<int>): map<int, Entry> {
    map x | x in v && x !in xs :: v[x]
  }

  lemma WithoutNone(v: map<int, Entry>)
    ensures Without(v, []) == v
  {
  }

  lemma WithoutOne(v: map<int, Entry>, xs: seq<int>, i: nat)
    requires i < |xs|
    ensures Without(v, xs[..i]) - {xs[i]} == Without(v, xs[..i + 1])
  {
    assert xs[..i + 1] == xs[..i] + [xs[i]];
  }

  lemma WithoutDest(c: Store, xs: seq<int>, dest: nat)
    requires forall x :: x in xs <==> x in c && c[x].m.dest == dest
    ensures var v := Entries(c); Without(v, xs) == map x | x in v && v[x].m.dest != dest :: v[x]
  {
    var v := Entries(c);
    assert forall x :: x in v ==> (x in xs <==> v[x].m.dest == dest);
    var w := map x | x in v && v[x].m.dest != dest :: v[x];
    assert forall x :: x in w <==> x in v && x !in xs;
  }

  // The assignments that hang a leaf below cur.
  lemma AttachDone(c: Store, sp: map<int, Span>, root: int, n: int, node: Node, cur: int, left: bool)
    requires Tree(c, sp, root) && Fits(c, sp, n, node, cur, left) && Ordered(c)
    ensures c.Keys == sp.Keys && cur in c && n !in c && cur in sp && n != cur
    ensures var c1 := c[n := node.(left := NIL, right := NIL, parent := cur)];
            var c2 := c1[cur := if left then c1[cur].(left := n) else c1[cur].(right := n)];
            && c2.Keys == c.Keys + {n} && Tree(c2, AttachSpans(c, sp, n, cur, left), root) && Rising(c2, n)
            && Entries(c2) == Entries(c)[n := Entry(node.m, node.index)]
  {
    hide Tree, Fits, Ordered, AttachSpans, Rising, Entries;
    TreeHas(c, sp, root);
    AttachKeeps(c, sp, root, n, node, cur, left);
    AttachRises(c, sp, root, n, node, cur, left);
    AttachShape(c, sp, n, node, cur, left);
    AttachEntries(c, sp, n, node, cur, left);
  }

  class Heap {
    var root: int
    var seqno: nat
    var rng: bv32
    var store: Store
    ghost var spans: map<int, Span>

    ghost predicate Linked()
      reads this
    {
      Tree(store, spans, root) && forall x :: x in store ==> 0 <= x < seqno
    }

    ghost predicate Valid()
      reads this
    {
      Linked() && Ordered(store)
    }

    ghost function View(): map<int, Entry>
      reads this
    {
      Entries(store)
    }

    constructor (rng: bv32)
      ensures Valid() && View() == map[] && seqno == 0
    {
      root, seqno, this.rng, store, spans := NIL, 0, rng, map[], map[];
    }

    /** The xorshift generator of priorities. */
    method Pri() returns (p: nat)
      modifies `rng
    {
      var x := rng;
      if x == 0 {
        x := 0x9e3779b9;
      }
      x := x ^ (x << 13);
      x := x ^ (x >> 17);
      x := x ^ (x << 5);
      rng := x;
      p := x as nat;
    }

    method RotateLeft(n: int)
      requires Linked() && n in store && store[n].right != NIL
      modifies `root, `store, `spans
      ensures Linked() && TurnedL(old(store), old(spans), n, store, spans)
    {
      hide Tree, TurnedL, RotLSpans;
      TurnLDone(store, spans, root, n);
      spans := RotLSpans(store, spans, n);
      var r := store[n].right;
      store := store[n := store[n].(right := store[r].left)];
      if store[r].left != NIL {
        store := store[store[r].left := store[store[r].left].(parent := n)];
      }
      store := store[r := store[r].(parent := store[n].parent)];
      var p := store[n].parent;
      if p == NIL {
        root := r;
      } else if store[p].left == n {
        store := store[p := store[p].(left := r)];
      } else {
        store := store[p := store[p].(right := r)];
      }
      store := store[r := store[r].(left := n)];
      store := store[n := store[n].(parent := r)];
    }

    method RotateRight(n: int)
      requires Linked() && n in store && store[n].left != NIL
      modifies `root, `store, `spans
      ensures Linked() && TurnedR(old(store), old(spans), n, store, spans)
    {
      hide Tree, TurnedR, RotRSpans;
      TurnRDone(store, spans, root, n);
      spans := RotRSpans(store, spans, n);
      var r := store[n].left;
      store := store[n := store[n].(left := store[r].right)];
      if store[r].right != NIL {
        store := store[store[r].right := store[store[r].right].(parent := n)];
      }
      store := store[r := store[r].(parent := store[n].parent)];
      var p := store[n].parent;
      if p == NIL {
        root := r;
      } else if store[p].left == n {
        store := store[p := store[p].(left := r)];
      } else {
        store := store[p := store[p].(right := r)];
      }
      store := store[r := store[r].(right := n)];
      store := store[n := store[n].(parent := r)];
    }

    /** The empty place where key (m.dest, n) belongs: below `cur`, on the left or not. */
    method Descend(m: Match, n: int) returns (cur: int, left: bool)
      requires Linked() && root != NIL && n == seqno && m.dest < U64
      ensures Linked() && forall node: Node :: node.m == m ==> Fits(store, spans, n, node, cur, left)
    {
      hide Tree, Full, Rel;
      TreeHas(store, spans, root);
      ghost var k := Key(m.dest, n);
      cur, left := root, false;
      while true
        invariant cur in store && In(spans[cur].lo, k, spans[cur].hi)
        decreases Within(store, spans[cur])
      {
        Locals(store, spans, root, cur);
        var x := store[cur];
        if Lt(Key(m.dest, n), K(store, cur)) {
          if x.left == NIL {
            return cur, true;
          }
          ChildShrinks(store, spans, root, cur, x.left);
          cur := x.left;
        } else {
          if x.right == NIL {
            return cur, false;
          }
          ChildShrinks(store, spans, root, cur, x.right);
          cur := x.right;
        }
      }
    }

    /** Rotates n up until its parent's priority is no lower. */
    method Rise(n: int)
      requires Linked() && Rising(store, n)
      modifies `root, `store, `spans
      ensures Valid() && SameMatches(old(store), store)
    {
      hide Tree, RotL, RotR, RotLSpans, RotRSpans, Grand, Within;
      TreeHas(store, spans, root);
      UpIn(store, spans, root, n);
      while store[n].parent != NIL && store[n].pri > store[store[n].parent].pri
        invariant Linked() && Rising(store, n) && SameMatches(old(store), store) && n in spans
        invariant store[n].parent != NIL ==> store[n].parent in store
        decreases store.Keys - Within(store, spans[n])
      {
        var p := store[n].parent;
        ghost var c, sp, r := store, spans, root;
        UpIn(store, spans, root, n);
        UpIn(store, spans, root, p);
        if store[p].left == n {
          RiseR(store, spans, root, p);
          RotateRight(p);
          PromotedR(c, sp, r, p, store, spans);
        } else {
          RiseL(store, spans, root, p);
          RotateLeft(p);
          PromotedL(c, sp, r, p, store, spans);
        }
        WithinSub(store, spans[n]);
        UpIn(store, spans, root, n);
      }
      Risen(store, n);
    }

    method Insert(m: Match, index: nat) returns (n: int)
      requires Valid() && m.dest < U64
      modifies this
      ensures Valid() && n == old(seqno) && seqno == old(seqno) + 1 && n !in old(store)
      ensures View() == old(View())[n := Entry(m, index)]
    {
      hide Tree, Ordered, Rising, Attach, AttachSpans, Fits, Entries, SameMatches;
      TreeHas(store, spans, root);
      var pri := Pri();
      n := seqno;
      seqno := seqno + 1;
      var node := Node(m, pri, index, NIL, NIL, NIL);
      if root == NIL {
        root := n;
        store := map[n := node];
        spans := map[n := ALL];
        Single(n, node);
        return;
      }
      seqno := n;
      var cur, left := Descend(m, n);
      AttachDone(store, spans, root, n, node, cur, left);
      spans := AttachSpans(store, spans, n, cur, left);
      store := store[n := node.(parent := cur)];
      store := store[cur := if left then store[cur].(left := n) else store[cur].(right := n)];
      seqno := n + 1;
      ghost var c1 := store;
      Rise(n);
      SameEntries(c1, store);
    }

    /** Rotates n down to a leaf and cuts it off; an address not in the heap is left alone. */
    method EraseNode(n: int)
      requires Valid()
      modifies `root, `store, `spans
      ensures Valid() && View() == old(View()) - {n}
    {
      hide Tree, Full, Local, Rel, Grand, Heaped, RotL, RotR, RotLSpans, RotRSpans, Within, Detach;
      if n !in store {
        return;
      }
      Settled(store, n);
      SameRefl(store);
      TreeHas(store, spans, root);
      Kids(store, spans, root, n);
      while store[n].left != NIL || store[n].right != NIL
        invariant Linked() && Sinking(store, n) && SameMatches(old(store), store) && n in spans
        invariant store[n].left != NIL ==> store[n].left in store
        invariant store[n].right != NIL ==> store[n].right in store
        decreases Within(store, spans[n])
      {
        ghost var c, sp, r := store, spans, root;
        Kids(store, spans, root, n);
        if store[n].left == NIL || (store[n].right != NIL && store[store[n].right].pri > store[store[n].left].pri) {
          SinkL(store, spans, root, n);
          RotateLeft(n);
          PromotedL(c, sp, r, n, store, spans);
        } else {
          SinkR(store, spans, root, n);
          RotateRight(n);
          PromotedR(c, sp, r, n, store, spans);
        }
        Kids(store, spans, root, n);
      }
      SameEntries(old(store), store);
      UpIn(store, spans, root, n);
      DetachKeeps(store, spans, root, n);
      DetachOrdered(store, spans, root, n);
      DetachEntries(store, Detach(store, n), n);
      DetachEq(store, n);
      spans := spans - {n};
      var p := store[n].parent;
      if p == NIL {
        root := NIL;
      } else if store[p].left == n {
        store := store[p := store[p].(left := NIL)];
      } else {
        store := store[p := store[p].(right := NIL)];
      }
      store := store - {n};
    }

    /** The node before n: the rightmost of its left subtree, or the first
        ancestor it is not to the left of. */
    method Prev(n: int) returns (p: int)
      requires Linked() && n in store
      ensures NIL !in store && View().Keys == store.Keys && IsPrev(View(), n, p)
    {
      hide Tree, Rel;
      TreeHas(store, spans, root);
      Locals(store, spans, root, n);
      if store[n].left != NIL {
        var x := store[n].left;
        Locals(store, spans, root, x);
        while store[x].right != NIL
          invariant x in store && spans[x].hi == K(store, n)
          invariant Local(store, spans, root, x) && Full(store, spans, x)
          decreases Within(store, spans[x])
        {
          ChildShrinks(store, spans, root, x, store[x].right);
          x := store[x].right;
          Locals(store, spans, root, x);
        }
        return x;
      }
      var cur := n;
      while store[cur].parent != NIL && cur == store[store[cur].parent].left
        invariant cur in store && spans[cur].lo == spans[n].lo && Local(store, spans, root, cur)
        decreases store.Keys - Within(store, spans[cur])
      {
        Locals(store, spans, root, store[cur].parent);
        ChildShrinks(store, spans, root, store[cur].parent, cur);
        WithinSub(store, spans[store[cur].parent]);
        cur := store[cur].parent;
      }
      p := store[cur].parent;
      if p != NIL {
        Locals(store, spans, root, p);
      } else {
        RangeAll(store, spans, root);
      }
    }

    /** The node after n. */
    method Next(n: int) returns (p: int)
      requires Linked() && n in store
      ensures NIL !in store && View().Keys == store.Keys && IsNext(View(), n, p)
    {
      hide Tree, Rel;
      TreeHas(store, spans, root);
      Locals(store, spans, root, n);
      if store[n].right != NIL {
        var x := store[n].right;
        Locals(store, spans, root, x);
        while store[x].left != NIL
          invariant x in store && spans[x].lo == K(store, n)
          invariant Local(store, spans, root, x) && Full(store, spans, x)
          decreases Within(store, spans[x])
        {
          ChildShrinks(store, spans, root, x, store[x].left);
          x := store[x].left;
          Locals(store, spans, root, x);
        }
        return x;
      }
      var cur := n;
      while store[cur].parent != NIL && cur == store[store[cur].parent].right
        invariant cur in store && spans[cur].hi == spans[n].hi && Local(store, spans, root, cur)
        decreases store.Keys - Within(store, spans[cur])
      {
        Locals(store, spans, root, store[cur].parent);
        ChildShrinks(store, spans, root, store[cur].parent, cur);
        WithinSub(store, spans[store[cur].parent]);
        cur := store[cur].parent;
      }
      p := store[cur].parent;
      if p != NIL {
        Locals(store, spans, root, p);
      } else {
        RangeAll(store, spans, root);
      }
    }

    method Rightmost() returns (x: int)
      requires Linked()
      ensures NIL !in store && View().Keys == store.Keys && IsLast(View(), x)
    {
      hide Tree, Rel;
      TreeHas(store, spans, root);
      x := root;
      if x != NIL {
        Locals(store, spans, root, x);
      }
      while x != NIL && store[x].right != NIL
        invariant x == NIL <==> root == NIL
        invariant x != NIL ==> x in store && spans[x].hi == ALL.hi && Local(store, spans, root, x) && Full(store, spans, x)
        decreases if x == NIL then {} else Within(store, spans[x])
      {
        ChildShrinks(store, spans, root, x, store[x].right);
        x := store[x].right;
        Locals(store, spans, root, x);
      }
      RangeAll(store, spans, root);
    }

    method Begin() returns (x: int)
      requires Linked()
      ensures NIL !in store && View().Keys == store.Keys && IsFirst(View(), x)
    {
      hide Tree, Rel;
      TreeHas(store, spans, root);
      x := root;
      if x != NIL {
        Locals(store, spans, root, x);
      }
      while x != NIL && store[x].left != NIL
        invariant x == NIL <==> root == NIL
        invariant x != NIL ==> x in store && spans[x].lo == ALL.lo && Local(store, spans, root, x) && Full(store, spans, x)
        decreases if x == NIL then {} else Within(store, spans[x])
      {
        ChildShrinks(store, spans, root, x, store[x].left);
        x := store[x].left;
        Locals(store, spans, root, x);
      }
      RangeAll(store, spans, root);
    }

    /** The node before `base`, where NIL stands for the end. */
    method Pred(base: int) returns (p: int)
      requires Linked() && (base != NIL ==> base in store)
      ensures NIL !in store && View().Keys == store.Keys && if base == NIL then IsLast(View(), p) else IsPrev(View(), base, p)
    {
      if base == NIL {
        p := Rightmost();
      } else {
        p := Prev(base);
      }
    }

    /** The nodes of n's subtree with destination `dest`. */
    method Walk(n: int, dest: nat) returns (doomed: seq<int>)
      requires Linked() && (n != NIL ==> n in store && n in spans)
      ensures n == NIL ==> doomed == []
      ensures n != NIL ==> forall x :: x in doomed <==> x in Within(store, spans[n]) && store[x].m.dest == dest
      decreases if n == NIL then {} else {NIL} + Within(store, spans[n])
    {
      hide Tree, Rel;
      if n == NIL {
        return [];
      }
      TreeHas(store, spans, root);
      Locals(store, spans, root, n);
      WithinSub(store, spans[n]);
      var x := store[n];
      if x.left != NIL { ChildShrinks(store, spans, root, n, x.left); }
      if x.right != NIL { ChildShrinks(store, spans, root, n, x.right); }
      var a, b := [], [];
      if x.m.dest >= dest {
        a := Walk(x.left, dest);
      }
      if x.m.dest <= dest {
        b := Walk(x.right, dest);
      }
      doomed := if x.m.dest == dest then a + [n] + b else if x.m.dest > dest then a else b;
    }

    /** Removes every match that goes to `dest`. */
    method EraseDest(dest: nat)
      requires Valid()
      modifies `root, `store, `spans
      ensures Valid() && View() == map x | x in old(View()) && old(View())[x].m.dest != dest :: old(View())[x]
    {
      hide Tree, Ordered, Without, Entries, Within;
      ghost var c, was := store, View();
      TreeHas(store, spans, root);
      var doomed := Walk(root, dest);
      RangeAll(store, spans, root);
      var i := 0;
      WithoutNone(was);
      while i < |doomed|
        invariant 0 <= i <= |doomed|
        invariant Valid()
        invariant View() == Without(was, doomed[..i])
      {
        EraseNode(doomed[i]);
        WithoutOne(was, doomed, i);
        i := i + 1;
      }
      assert doomed[..i] == doomed;
      WithoutDest(c, doomed, dest);
    }

    /** Forgets the chain a match was saved in: its data went elsewhere. */
    method SetIndex(n: int, index: nat)
      requires Valid() && n in store
      modifies `store
      ensures Valid() && View() == old(View())[n := Entry(old(store)[n].m, index)]
    {
      IndexKeeps(store, spans, root, n, index);
      store := store[n := store[n].(index := index)];
    }
  }
}
