/** Why a forgotten reader matters whose effect lasts: an order the dependencies
    allow in which it reads what the later writer left, and files that show it. */
module RecipeNeeds {
  import opened RecipeOrder
  import opened RecipeRuns
  import opened RecipeLive
  import opened Permutations

  // ----- an order with j in front of i -----

  // j and what it waits for.
  ghost predicate Needed(ls: seq<Leaf>, j: nat, k: nat) { k == j || Before(ls, k, j) }

  /** The leaves below n that j needs, or those it does not need, in recipe order. */
  ghost function Keep(ls: seq<Leaf>, j: nat, n: nat, needed: bool): (r: seq<nat>)
    ensures forall a :: 0 <= a < |r| ==> r[a] < n && (Needed(ls, j, r[a]) <==> needed)
    ensures forall a, b :: 0 <= a < b < |r| ==> r[a] < r[b]
  {
    if n == 0 then [] else Keep(ls, j, n - 1, needed) + if Needed(ls, j, n - 1) == needed then [n - 1] else []
  }

  lemma {:induction false} KeepAll(ls: seq<Leaf>, j: nat, n: nat)
    ensures |Keep(ls, j, n, true)| + |Keep(ls, j, n, false)| == n
  {
    hide Needed;
    if n > 0 {
      KeepAll(ls, j, n - 1);
    }
  }

  /** What comes up to m stays in front. */
  lemma {:induction false} KeepFrom(ls: seq<Leaf>, j: nat, m: nat, n: nat, needed: bool)
    requires m <= n
    ensures var a, b := Keep(ls, j, m, needed), Keep(ls, j, n, needed);
            |a| <= |b| && b[..|a|] == a && forall x :: |a| <= x < |b| ==> m <= b[x]
  {
    hide Needed;
    if m < n {
      KeepFrom(ls, j, m, n - 1, needed);
    }
  }

  ghost function Hasty(ls: seq<Leaf>, j: nat): seq<nat> {
    Keep(ls, j, |ls|, true) + Keep(ls, j, |ls|, false)
  }

  lemma HastyAllowed(ls: seq<Leaf>, j: nat)
    requires j < |ls|
    ensures Perm(Hasty(ls, j), |ls|) && Allowed(ls, Hasty(ls, j))
  {
    hide Needed, Dep, Keep;
    KeepAll(ls, j, |ls|);
    var d, r, order := Keep(ls, j, |ls|, true), Keep(ls, j, |ls|, false), Hasty(ls, j);
    forall a, b | 0 <= a < b < |order|
      ensures order[a] != order[b] && !Dep(ls, order[b], order[a])
    {
      DepUp(ls, order[b], order[a]);
      if a < |d| <= b {
        assert order[a] == d[a] && order[b] == r[b - |d|];
        if Dep(ls, order[b], order[a]) {
          NeedsItsNeeds(ls, j, order[b], order[a]);
        }
      }
    }
  }

  lemma NeedsItsNeeds(ls: seq<Leaf>, j: nat, i: nat, k: nat)
    requires j < |ls| && Dep(ls, i, k) && Needed(ls, j, k)
    ensures Needed(ls, j, i)
  {
    hide DepSet;
    assert Before(ls, i, k);
    if k != j {
      BeforeTwice(ls, i, k, j);
    }
  }

  // ----- how an effect lasts -----

  // A leaf of a chain, and the file in which it hands on what it has read.
  datatype Link = Link(leaf: nat, out: Path)

  /** Each leaf hands on to the next; what the last one leaves stays: at a file that
      nobody else writes, when it may write anything. */
  ghost predicate Chain(ls: seq<Leaf>, c: seq<Link>, z: Path) {
    && c != []
    && (forall a :: 0 <= a < |c| - 1 ==> Reaches(ls, c[a].leaf, c[a].out, c[a + 1].leaf))
    && var l := c[|c| - 1]; l.leaf < |ls| && if ls[l.leaf].glob then l.out == z else Survives(ls, l.leaf, l.out)
  }

  lemma LiveChain(ls: seq<Leaf>, i: nat, z: Path) returns (c: seq<Link>)
    requires Live(ls, i)
    ensures Chain(ls, c, z) && c[0].leaf == i
    decreases |ls| - i
  {
    if ls[i].glob {
      c := [Link(i, z)];
    } else {
      var o :| LiveAt(ls, i, o);
      if Survives(ls, i, o) {
        c := [Link(i, o)];
      } else {
        var k :| Reaches(ls, i, o, k) && Live(ls, k);
        var rest := LiveChain(ls, k, z);
        c := [Link(i, o)] + rest;
        Linked(ls, i, o, rest, z);
      }
    }
  }

  lemma Linked(ls: seq<Leaf>, i: nat, o: Path, rest: seq<Link>, z: Path)
    requires Chain(ls, rest, z) && Reaches(ls, i, o, rest[0].leaf)
    ensures Chain(ls, [Link(i, o)] + rest, z)
  {
    var c := [Link(i, o)] + rest;
    forall a | 0 <= a < |c| - 1
      ensures Reaches(ls, c[a].leaf, c[a].out, c[a + 1].leaf)
    {
      assert a > 0 ==> c[a] == rest[a - 1] && c[a + 1] == rest[a];
    }
  }

  lemma {:induction false} ChainUp(ls: seq<Leaf>, c: seq<Link>, z: Path, a: nat, b: nat)
    requires Chain(ls, c, z) && a <= b < |c|
    ensures a < b ==> c[a].leaf < c[b].leaf
    ensures c[a].leaf <= c[b].leaf < |ls|
  {
    if b + 1 < |c| {
      assert Reaches(ls, c[b].leaf, c[b].out, c[b + 1].leaf);
    }
    if a < b {
      ChainUp(ls, c, z, a, b - 1);
      assert Reaches(ls, c[b - 1].leaf, c[b - 1].out, c[b].leaf);
    }
  }

  /** The leaves of the chain wait for its first one. */
  lemma {:induction false} ChainWaits(ls: seq<Leaf>, c: seq<Link>, z: Path, a: nat)
    requires Chain(ls, c, z) && 0 < a < |c|
    ensures Before(ls, c[0].leaf, c[a].leaf)
  {
    hide Before;
    var x, y := c[a - 1], c[a];
    assert Reaches(ls, x.leaf, x.out, y.leaf);
    TouchFirst(ls, x.out, x.leaf, y.leaf);
    if a > 1 {
      ChainWaits(ls, c, z, a - 1);
      BeforeTwice(ls, c[0].leaf, x.leaf, y.leaf);
    }
  }

  // ----- actions that show what was read -----

  function Stamped(s: Files, outs: seq<Path>, v: string): Files {
    map q | q in s.Keys + (set o | o in outs) :: if q in outs then v else s[q]
  }

  function Echoed(s: Files, p: Path, outs: seq<Path>): Files {
    if p in s then Stamped(s, outs, s[p]) else map q | q in s && q !in outs :: s[q]
  }

  // Where leaf k is in the chain, or beyond its end.
  function Index(c: seq<Link>, k: nat): (a: nat)
    ensures a <= |c| && (a < |c| ==> c[a].leaf == k) && forall b :: 0 <= b < a ==> c[b].leaf != k
  {
    if c == [] then 0 else if c[0].leaf == k then 0 else
      var a := Index(c[1..], k);
      assert forall b :: 0 < b < a + 1 ==> c[b] == c[1..][b - 1];
      a + 1
  }

  lemma IndexIs(ls: seq<Leaf>, c: seq<Link>, z: Path, a: nat)
    requires Chain(ls, c, z) && a < |c|
    ensures Index(c, c[a].leaf) == a
  {
    var b := Index(c, c[a].leaf);
    ChainUp(ls, c, z, b, a);
  }

  // What link a reads: p, or what the link before it hands on.
  function From(c: seq<Link>, p: Path, a: nat): Path
    requires a <= |c|
  {
    if a == 0 then p else c[a - 1].out
  }

  // What leaf k writes in these actions.
  function OutsOf(ls: seq<Leaf>, c: seq<Link>, z: Path, k: nat): seq<Path>
    requires k < |ls|
  {
    if !ls[k].glob then ls[k].outputs else if Index(c, k) < |c| then [z] else []
  }

  /** Links echo what they read, the writer leaves "y", all others "x". */
  function Telltale(ls: seq<Leaf>, c: seq<Link>, p: Path, z: Path, j: nat, k: nat): Action
    requires k < |ls|
  {
    var a, outs := Index(c, k), OutsOf(ls, c, z, k);
    if a < |c| then (s: Files) => Echoed(s, From(c, p, a), outs)
    else (s: Files) => Stamped(s, outs, if k == j then "y" else "x")
  }

  function Telltales(ls: seq<Leaf>, c: seq<Link>, p: Path, z: Path, j: nat): (fs: seq<Action>)
    ensures |fs| == |ls|
  {
    seq(|ls|, k requires 0 <= k < |ls| => Telltale(ls, c, p, z, j, k))
  }

  lemma LinkSees(ls: seq<Leaf>, c: seq<Link>, z: Path, p: Path, a: nat)
    requires Chain(ls, c, z) && a < |c| && c[0].leaf < |ls| && Uses(ls[c[0].leaf], p)
    ensures c[a].leaf < |ls| && Sees(ls[c[a].leaf], From(c, p, a))
  {
    ChainUp(ls, c, z, 0, a);
    if a > 0 {
      assert Reaches(ls, c[a - 1].leaf, c[a - 1].out, c[a].leaf);
    }
  }

  lemma TelltaleRespects(ls: seq<Leaf>, c: seq<Link>, p: Path, z: Path, j: nat, k: nat)
    requires k < |ls| && Chain(ls, c, z) && c[0].leaf < |ls| && Uses(ls[c[0].leaf], p)
    ensures Respects(ls[k], Telltale(ls, c, p, z, j, k))
  {
    hide Chain;
    var l, f, a := ls[k], Telltale(ls, c, p, z, j, k), Index(c, k);
    if !l.glob {
      if a < |c| {
        LinkSees(ls, c, z, p, a);
      }
      forall s, t, q | (forall r :: r in l.inputs ==> SameAt(s, t, r)) && q in l.outputs
        ensures SameAt(f(s), f(t), q)
      {
        if a < |c| {
          assert SameAt(s, t, From(c, p, a));
        }
      }
    }
  }

  lemma TelltaleKeeps(ls: seq<Leaf>, c: seq<Link>, p: Path, z: Path, j: nat, k: nat, s: Files, q: Path)
    requires k < |ls| && q !in OutsOf(ls, c, z, k)
    ensures SameAt(Telltale(ls, c, p, z, j, k)(s), s, q)
  {
    hide OutsOf, Index;
  }

  // ----- what the actions leave -----

  // What p holds after some leaves that are not in the chain.
  function Mark(ls: seq<Leaf>, p: Path, j: nat, order: seq<nat>): string
    requires forall a :: 0 <= a < |order| ==> order[a] < |ls|
  {
    if order == [] then "x"
    else
      var k := order[|order| - 1];
      if Writes(ls[k], p) then (if k == j then "y" else "x") else Mark(ls, p, j, order[..|order| - 1])
  }

  lemma {:induction false} MarkHeld(ls: seq<Leaf>, c: seq<Link>, p: Path, z: Path, j: nat, order: seq<nat>)
    requires forall a :: 0 <= a < |order| ==> order[a] < |ls| && Index(c, order[a]) == |c|
    ensures var t := Exec(Telltales(ls, c, p, z, j), order, map[p := "x"]); p in t && t[p] == Mark(ls, p, j, order)
  {
    hide Index;
    if order != [] {
      MarkHeld(ls, c, p, z, j, order[..|order| - 1]);
    }
  }

  lemma {:induction false} MarkEarly(ls: seq<Leaf>, p: Path, j: nat, order: seq<nat>)
    requires forall a :: 0 <= a < |order| ==> order[a] < |ls| && order[a] != j
    ensures Mark(ls, p, j, order) == "x"
  {
    if order != [] {
      MarkEarly(ls, p, j, order[..|order| - 1]);
    }
  }

  lemma {:induction false} MarkLate(ls: seq<Leaf>, p: Path, j: nat, order: seq<nat>, m: nat)
    requires (forall a :: 0 <= a < |order| ==> order[a] < |ls|) && m < |order| && order[m] == j && Writes(ls[j], p)
    requires forall a :: m < a < |order| ==> !Writes(ls[order[a]], p)
    ensures Mark(ls, p, j, order) == "y"
  {
    if m < |order| - 1 {
      MarkLate(ls, p, j, order[..|order| - 1], m);
    }
  }

  // What no leaf from position m on writes, stays.
  lemma {:induction false} Stays(ls: seq<Leaf>, c: seq<Link>, p: Path, z: Path, j: nat, order: seq<nat>, m: nat, q: Path, s: Files)
    requires (forall a :: 0 <= a < |order| ==> order[a] < |ls|) && m <= |order|
    requires forall a :: m <= a < |order| ==> q !in OutsOf(ls, c, z, order[a])
    ensures var fs := Telltales(ls, c, p, z, j); SameAt(Exec(fs, order, s), Exec(fs, order[..m], s), q)
  {
    hide OutsOf, Telltale;
    if m < |order| {
      var n, fs := |order| - 1, Telltales(ls, c, p, z, j);
      Stays(ls, c, p, z, j, order[..n], m, q, s);
      assert order[..n][..m] == order[..m];
      TelltaleKeeps(ls, c, p, z, j, order[n], Exec(fs, order[..n], s), q);
    } else {
      assert order[..m] == order;
    }
  }

  /** From position m on the order is recipe order, begins with the chain, and has all of it. */
  ghost predicate Tail(ls: seq<Leaf>, c: seq<Link>, order: seq<nat>, m: nat) {
    && (forall a :: 0 <= a < |order| ==> order[a] < |ls|)
    && c != [] && m < |order| && order[m] == c[0].leaf
    && (forall x, y :: m <= x < y < |order| ==> order[x] < order[y])
    && forall a :: 0 <= a < |c| ==> exists x :: m <= x < |order| && order[x] == c[a].leaf
  }

  ghost predicate Fresh(ls: seq<Leaf>, z: Path) {
    forall k :: 0 <= k < |ls| ==> z !in ls[k].outputs
  }

  // What a link hands on is not written before the next link, nor after the last.
  lemma NotBetween(ls: seq<Leaf>, c: seq<Link>, z: Path, a: nat, k: nat)
    requires Chain(ls, c, z) && Fresh(ls, z) && a < |c| && c[a].leaf < k < |ls| && (a + 1 < |c| ==> k < c[a + 1].leaf)
    ensures c[a].out !in OutsOf(ls, c, z, k)
  {
    if a + 1 < |c| {
      assert Reaches(ls, c[a].leaf, c[a].out, c[a + 1].leaf);
      assert !Touches(ls[k], c[a].out);
    } else {
      var b := Index(c, k);
      if b < |c| {
        ChainUp(ls, c, z, b, a);
      }
    }
  }

  // A link writes what it hands on.
  lemma HandsOn(ls: seq<Leaf>, c: seq<Link>, z: Path, a: nat)
    requires Chain(ls, c, z) && a < |c| && c[a].leaf < |ls|
    ensures c[a].out in OutsOf(ls, c, z, c[a].leaf)
  {
    if a + 1 < |c| {
      assert Reaches(ls, c[a].leaf, c[a].out, c[a + 1].leaf);
    } else {
      IndexIs(ls, c, z, a);
    }
  }

  /** Each link hands on what the first one read. */
  lemma {:induction false} Carried(ls: seq<Leaf>, c: seq<Link>, p: Path, z: Path, j: nat, order: seq<nat>, m: nat, s: Files, v: string, a: nat, x: nat)
    requires Chain(ls, c, z) && Fresh(ls, z) && Tail(ls, c, order, m) && a < |c| && m <= x < |order| && order[x] == c[a].leaf
    requires var t := Exec(Telltales(ls, c, p, z, j), order[..m], s); p in t && t[p] == v
    ensures var t := Exec(Telltales(ls, c, p, z, j), order[..x + 1], s); c[a].out in t && t[c[a].out] == v
  {
    hide Chain, Tail, OutsOf, Exec, Telltales, Index;
    TailFacts(ls, c, order, m, a);
    if a > 0 {
      var y: nat :| m <= y < |order| && order[y] == c[a - 1].leaf;
      ChainUp(ls, c, z, a - 1, a);
      assert y < x by { TailUp(ls, c, order, m, x, y); }
      Carried(ls, c, p, z, j, order, m, s, v, a - 1, y);
      forall b | y + 1 <= b < x
        ensures c[a - 1].out !in OutsOf(ls, c, z, order[b])
      {
        TailUp(ls, c, order, m, y, b);
        TailUp(ls, c, order, m, b, x);
        NotBetween(ls, c, z, a - 1, order[b]);
      }
      Stays(ls, c, p, z, j, order[..x], y + 1, c[a - 1].out, s);
      assert order[..x][..y + 1] == order[..y + 1];
    } else {
      TailUp(ls, c, order, m, m, x);
    }
    Hands(ls, c, p, z, j, order, x, s, a);
  }

  lemma TailFacts(ls: seq<Leaf>, c: seq<Link>, order: seq<nat>, m: nat, a: nat)
    requires Tail(ls, c, order, m) && a < |c|
    ensures (forall b :: 0 <= b < |order| ==> order[b] < |ls|) && order[m] == c[0].leaf
    ensures a > 0 ==> exists y :: m <= y < |order| && order[y] == c[a - 1].leaf
  {
  }

  lemma TailUp(ls: seq<Leaf>, c: seq<Link>, order: seq<nat>, m: nat, x: nat, y: nat)
    requires Tail(ls, c, order, m) && m <= x < |order| && m <= y < |order|
    ensures order[x] < order[y] <==> x < y
    ensures order[x] == order[y] <==> x == y
  {
    assert x < y ==> order[x] < order[y];
    assert y < x ==> order[y] < order[x];
  }

  // One link's turn.
  lemma Hands(ls: seq<Leaf>, c: seq<Link>, p: Path, z: Path, j: nat, order: seq<nat>, x: nat, s: Files, a: nat)
    requires Chain(ls, c, z) && a < |c| && x < |order| && (forall b :: 0 <= b < |order| ==> order[b] < |ls|) && order[x] == c[a].leaf
    ensures var fs := Telltales(ls, c, p, z, j); var t, t' := Exec(fs, order[..x], s), Exec(fs, order[..x + 1], s);
            From(c, p, a) in t ==> c[a].out in t' && t'[c[a].out] == t[From(c, p, a)]
  {
    hide Chain, OutsOf, Index;
    IndexIs(ls, c, z, a);
    HandsOn(ls, c, z, a);
    assert order[..x + 1][..x] == order[..x];
  }

  /** In the end, the last link's file shows what p held when the reader ran. */
  lemma Shown(ls: seq<Leaf>, c: seq<Link>, p: Path, z: Path, j: nat, order: seq<nat>, m: nat)
    requires Chain(ls, c, z) && Fresh(ls, z) && Tail(ls, c, order, m)
    requires forall a :: 0 <= a < m ==> order[a] < |ls| && Index(c, order[a]) == |c|
    ensures var t := Exec(Telltales(ls, c, p, z, j), order, map[p := "x"]); var o := c[|c| - 1].out;
            o in t && t[o] == Mark(ls, p, j, order[..m])
  {
    hide Chain, OutsOf, Exec, Telltales, Index, Mark;
    var s, a := map[p := "x"], |c| - 1;
    MarkHeld(ls, c, p, z, j, order[..m]);
    TailFacts(ls, c, order, m, a);
    var x: nat :| m <= x < |order| && order[x] == c[a].leaf;
    Carried(ls, c, p, z, j, order, m, s, Mark(ls, p, j, order[..m]), a, x);
    forall b | x + 1 <= b < |order|
      ensures c[a].out !in OutsOf(ls, c, z, order[b])
    {
      TailUp(ls, c, order, m, x, b);
      NotBetween(ls, c, z, a, order[b]);
    }
    Stays(ls, c, p, z, j, order, x + 1, c[a].out, s);
  }

  // ----- the two orders -----

  // Where the reader and the writer are in the hasty order.
  lemma HastyPlaces(ls: seq<Leaf>, i: nat, j: nat) returns (d: nat, m: nat)
    requires i < j < |ls| && !Before(ls, i, j)
    ensures var order := Hasty(ls, j);
            && d < m < |order| && order[d] == j && order[m] == i
            && (forall a :: 0 <= a <= d ==> Needed(ls, j, order[a]))
            && (forall a :: d < a < m ==> order[a] < i && !Needed(ls, j, order[a]))
            && (forall x, y :: m <= x < y < |order| ==> order[x] < order[y])
  {
    hide Before;
    var n, order := |ls|, Hasty(ls, j);
    var ds, rs := Keep(ls, j, n, true), Keep(ls, j, n, false);
    var d0, r0 := Keep(ls, j, j, true), Keep(ls, j, i, false);
    KeepFrom(ls, j, j + 1, n, true);
    KeepFrom(ls, j, i + 1, n, false);
    assert Keep(ls, j, j + 1, true) == d0 + [j];
    assert Keep(ls, j, i + 1, false) == r0 + [i];
    d, m := |d0|, |ds| + |r0|;
    assert ds[d] == ds[..d + 1][d] == j;
    assert rs[|r0|] == rs[..|r0| + 1][|r0|] == i;
    if d + 1 < |ds| {
      NeededUp(ls, j, ds[d + 1]);
    }
    assert |ds| == d + 1;
  }

  lemma NeededUp(ls: seq<Leaf>, j: nat, k: nat)
    requires Needed(ls, j, k)
    ensures k <= j
  {
  }

  // The writer does not need the chain, which the reader begins.
  lemma ChainUnneeded(ls: seq<Leaf>, c: seq<Link>, z: Path, j: nat, a: nat)
    requires Chain(ls, c, z) && a < |c| && c[0].leaf < j && !Before(ls, c[0].leaf, j)
    ensures !Needed(ls, j, c[a].leaf)
  {
    hide Before, Chain;
    if a > 0 {
      ChainWaits(ls, c, z, a);
      if Needed(ls, j, c[a].leaf) && c[a].leaf != j {
        BeforeTwice(ls, c[0].leaf, c[a].leaf, j);
      }
    }
  }

  // The chain in the hasty order, and nothing of it in front.
  lemma HastyTail(ls: seq<Leaf>, c: seq<Link>, z: Path, i: nat, j: nat, d: nat, m: nat)
    requires Chain(ls, c, z) && c[0].leaf == i < j < |ls| && !Before(ls, i, j) && Perm(Hasty(ls, j), |ls|)
    requires var order := Hasty(ls, j);
             && d < m < |order| && order[m] == i && (forall a :: 0 <= a <= d ==> Needed(ls, j, order[a]))
             && (forall a :: d < a < m ==> order[a] < i) && (forall x, y :: m <= x < y < |order| ==> order[x] < order[y])
    ensures Tail(ls, c, Hasty(ls, j), m) && forall a :: 0 <= a < m ==> Hasty(ls, j)[a] < |ls| && Index(c, Hasty(ls, j)[a]) == |c|
  {
    hide Before, Chain, Needed, Hasty, Keep, Index, Perm;
    var order: seq<nat> := Hasty(ls, j);
    PermBound(order, |ls|);
    ChainStart(ls, c, z);
    forall x | 0 <= x < m
      ensures Index(c, order[x]) == |c|
    {
      var b := Index(c, order[x]);
      if b < |c| {
        ChainUnneeded(ls, c, z, j, b);
        ChainUp(ls, c, z, 0, b);
      }
    }
    forall a | 0 <= a < |c|
      ensures exists x :: m <= x < |order| && order[x] == c[a].leaf
    {
      ChainUp(ls, c, z, 0, a);
      Everyone(order, |ls|, c[a].leaf);
      var x: nat :| x < |ls| && order[x] == c[a].leaf;
      IndexIs(ls, c, z, a);
      assert x >= m;
    }
  }

  lemma SerialTail(ls: seq<Leaf>, c: seq<Link>, z: Path, order: seq<nat>)
    requires Chain(ls, c, z) && |order| == |ls| && forall k :: 0 <= k < |order| ==> order[k] == k
    ensures c != [] && Tail(ls, c, order, c[0].leaf) && forall a :: 0 <= a < c[0].leaf ==> Index(c, order[a]) == |c|
  {
    hide Chain, Index;
    ChainStart(ls, c, z);
    var i := c[0].leaf;
    ChainUp(ls, c, z, 0, 0);
    forall a | 0 <= a < |c|
      ensures exists x :: i <= x < |order| && order[x] == c[a].leaf
    {
      ChainUp(ls, c, z, 0, a);
      assert order[c[a].leaf] == c[a].leaf;
    }
    forall b | 0 <= b < |c|
      ensures c[b].leaf >= i
    {
      ChainUp(ls, c, z, 0, b);
    }
    assert forall x :: 0 <= x < i ==> Index(c, order[x]) <= |c|;
  }

  // ----- a file nobody writes -----

  function Length(ps: seq<Path>): nat {
    if ps == [] then 0 else |ps[0]| + Length(ps[1..])
  }

  lemma {:induction false} NotLonger(ps: seq<Path>, p: Path)
    requires p in ps
    ensures |p| <= Length(ps)
  {
    if p != ps[0] {
      NotLonger(ps[1..], p);
    }
  }

  function AllLength(ls: seq<Leaf>): nat {
    if ls == [] then 0 else Length(ls[0].outputs) + AllLength(ls[1..])
  }

  lemma {:induction false} LengthIn(ls: seq<Leaf>, k: nat)
    requires k < |ls|
    ensures Length(ls[k].outputs) <= AllLength(ls)
  {
    if k > 0 {
      LengthIn(ls[1..], k - 1);
    }
  }

  lemma SomeFresh(ls: seq<Leaf>) returns (z: Path)
    ensures Fresh(ls, z)
  {
    hide Length, AllLength;
    z := seq(AllLength(ls) + 1, _ => 'z');
    forall k | 0 <= k < |ls|
      ensures z !in ls[k].outputs
    {
      LengthIn(ls, k);
      if z in ls[k].outputs {
        NotLonger(ls[k].outputs, z);
      }
    }
  }

  // ----- the exact condition -----

  lemma Unneeded(ls: seq<Leaf>, p: Path, j: nat, k: nat)
    requires k < j < |ls| && Writes(ls[j], p) && !Needed(ls, j, k)
    ensures !Writes(ls[k], p)
  {
    hide Before;
    if Writes(ls[k], p) {
      AfterWrite(ls, p, k, j);
    }
  }

  /** A reader with a lasting effect that is forgotten and kept in order by nothing
      else: some actions and some allowed order end in files that recipe order does
      not leave. */
  lemma ForgottenReader(ls: seq<Leaf>, p: Path, i: nat, u: nat, j: nat) returns (fs: seq<Action>, order: seq<nat>)
    requires Shadowed(ls, p, i, u, j) && !Before(ls, i, j) && Live(ls, i)
    ensures AllRespect(ls, fs) && Perm(order, |ls|) && Allowed(ls, order)
    ensures Exec(fs, order, map[p := "x"]) != Exec(fs, Serial(|ls|), map[p := "x"])
  {
    hide Before, Needed, Exec, Respects, Telltale, Live, Chain, Index, Tail, Keep, Mark, Fresh, Allowed;
    var z := SomeFresh(ls);
    var c := LiveChain(ls, i, z);
    ChainStart(ls, c, z);
    var serial: seq<nat> := Serial(|ls|);
    fs, order := Telltales(ls, c, p, z, j), Hasty(ls, j);
    HastyAllowed(ls, j);
    forall k | 0 <= k < |ls|
      ensures Respects(ls[k], fs[k])
    {
      TelltaleRespects(ls, c, p, z, j, k);
    }
    SerialTail(ls, c, z, serial);
    Shown(ls, c, p, z, j, serial, i);
    MarkEarly(ls, p, j, serial[..i]);
    var d, m := HastyPlaces(ls, i, j);
    HastyTail(ls, c, z, i, j, d, m);
    Shown(ls, c, p, z, j, order, m);
    forall a | d < a < m
      ensures !Writes(ls[order[a]], p)
    {
      Unneeded(ls, p, j, order[a]);
    }
    MarkLate(ls, p, j, order[..m], d);
  }

  lemma ChainStart(ls: seq<Leaf>, c: seq<Link>, z: Path)
    requires Chain(ls, c, z)
    ensures c != []
  {
  }

  ghost predicate EndsAlike(ls: seq<Leaf>, fs: seq<Action>, order: seq<nat>, s: Files)
    requires |fs| == |ls|
  {
    AllRespect(ls, fs) && Perm(order, |ls|) && Allowed(ls, order) ==> Exec(fs, order, s) == Exec(fs, Serial(|ls|), s)
  }

  /** Whatever the leaves do within their inputs and outputs, every allowed order
      leaves the files of recipe order. */
  ghost predicate Deterministic(ls: seq<Leaf>) {
    forall fs: seq<Action>, order, s :: |fs| == |ls| ==> EndsAlike(ls, fs, order, s)
  }

  /** For every recipe, the plan is safe exactly when it keeps the forgotten readers
      in order whose effects last. */
  lemma DeterministicIff(ls: seq<Leaf>)
    ensures Deterministic(ls) <==> LiveOrdered(ls)
  {
    hide Before, AllRespect, Exec, Allowed, Perm, Shadowed, Live;
    if LiveOrdered(ls) {
      forall fs: seq<Action>, order, s | |fs| == |ls|
        ensures EndsAlike(ls, fs, order, s)
      {
        if AllRespect(ls, fs) && Perm(order, |ls|) && Allowed(ls, order) {
          SameAsSerial(ls, fs, order, s);
        }
      }
    }
    if Deterministic(ls) {
      forall p, i: nat, u: nat, j: nat | Shadowed(ls, p, i, u, j) && Live(ls, i)
        ensures Before(ls, i, j)
      {
        if !Before(ls, i, j) {
          NotDeterministic(ls, p, i, u, j);
        }
      }
    }
  }

  lemma NotDeterministic(ls: seq<Leaf>, p: Path, i: nat, u: nat, j: nat)
    requires Shadowed(ls, p, i, u, j) && !Before(ls, i, j) && Live(ls, i)
    ensures !Deterministic(ls)
  {
    hide Before, AllRespect, Exec, Allowed, Perm, Shadowed, Live;
    var fs, order := ForgottenReader(ls, p, i, u, j);
    RespectSize(ls, fs);
    assert !EndsAlike(ls, fs, order, map[p := "x"]);
  }
}
