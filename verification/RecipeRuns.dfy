/** Running a recipe: which steps the dependencies keep in order, and what the steps do. */
module RecipeRuns {
  import opened RecipeOrder
  import opened Permutations

  // ----- what the dependencies order -----

  predicate Writes(l: Leaf, p: Path) { !l.glob && p in l.outputs }
  predicate Uses(l: Leaf, p: Path) { !l.glob && p in l.inputs }

  /** Leaf j waits for leaf i. */
  predicate Dep(ls: seq<Leaf>, i: nat, j: nat) {
    i < j < |ls| && i + 1 in DepSet(ls[..j], ls[j])
  }

  // ... directly or through others.
  ghost predicate Before(ls: seq<Leaf>, i: nat, j: nat)
    decreases j
  {
    i < j < |ls| && (Dep(ls, i, j) || exists k :: i < k < j && Before(ls, i, k) && Dep(ls, k, j))
  }

  lemma {:induction false} BeforeTwice(ls: seq<Leaf>, i: nat, j: nat, k: nat)
    requires Before(ls, i, j) && Before(ls, j, k)
    ensures Before(ls, i, k)
    decreases k
  {
    if !Dep(ls, j, k) {
      var m :| j < m < k && Before(ls, j, m) && Dep(ls, m, k);
      BeforeTwice(ls, i, j, m);
    }
  }

  /** Two leaves that may not be swapped. */
  ghost predicate Conflict(a: Leaf, b: Leaf) {
    a.glob || b.glob || exists p :: Clash(a, b, p)
  }

  predicate Clash(a: Leaf, b: Leaf, p: Path) {
    (Writes(a, p) && (Uses(b, p) || Writes(b, p))) || (Uses(a, p) && Writes(b, p))
  }

  lemma {:induction false} LastWriteIs(ls: seq<Leaf>, p: Path)
    ensures var id := LastWrite(ls, p);
            && (id > 0 ==> Writes(ls[id - 1], p))
            && forall m :: id <= m < |ls| ==> !Writes(ls[m], p)
  {
    if ls != [] && !Writes(ls[|ls| - 1], p) {
      LastWriteIs(ls[..|ls| - 1], p);
    }
  }

  lemma {:induction false} LastUseIs(ls: seq<Leaf>, p: Path)
    ensures var id := LastUse(ls, p);
            && (id > 0 ==> Uses(ls[id - 1], p) && forall m :: id - 1 <= m < |ls| ==> !Writes(ls[m], p))
            && forall m :: id <= m < |ls| && Uses(ls[m], p) ==> exists w :: m <= w < |ls| && Writes(ls[w], p)
  {
    if ls != [] {
      var n := |ls| - 1;
      LastUseIs(ls[..n], p);
      if !Writes(ls[n], p) && !Uses(ls[n], p) {
        var id := LastUse(ls[..n], p);
        forall m | id <= m < |ls| && Uses(ls[m], p)
          ensures exists w :: m <= w < |ls| && Writes(ls[w], p)
        {
          assert Uses(ls[..n][m], p);
          var w :| m <= w < n && Writes(ls[..n][w], p);
          assert Writes(ls[w], p);
        }
      }
    }
  }

  lemma DepOn(ls: seq<Leaf>, i: nat, j: nat)
    requires i < j < |ls|
    ensures ls[i].glob || ls[j].glob ==> Dep(ls, i, j)
    ensures forall p :: (Uses(ls[j], p) || Writes(ls[j], p)) && LastWrite(ls[..j], p) == i + 1 ==> Dep(ls, i, j)
    ensures forall p :: Writes(ls[j], p) && LastUse(ls[..j], p) == i + 1 ==> Dep(ls, i, j)
  {
    hide LastWrite, LastUse;
    if ls[i].glob {
      assert ls[..j][i].glob;
    }
  }

  /** A write comes before every later use or write of the same file. */
  lemma {:induction false} AfterWrite(ls: seq<Leaf>, p: Path, i: nat, j: nat)
    requires i < j < |ls| && Writes(ls[i], p) && (Uses(ls[j], p) || Writes(ls[j], p))
    ensures Before(ls, i, j)
    decreases j
  {
    LastWriteIs(ls[..j], p);
    var w := LastWrite(ls[..j], p) - 1;
    assert w >= i by { assert ls[..j][i] == ls[i]; }
    assert Writes(ls[w], p) by { assert ls[..j][w] == ls[w]; }
    DepOn(ls, w, j);
    if w > i {
      AfterWrite(ls, p, i, w);
    }
  }

  /** An earlier reader of p that a later one hides from the next writer: the
      plan remembers only the last of them. */
  predicate Shadowed(ls: seq<Leaf>, p: Path, i: nat, u: nat, j: nat) {
    && i < u < j < |ls| && Uses(ls[i], p) && Uses(ls[u], p) && Writes(ls[j], p)
    && forall m :: i <= m < j ==> !Writes(ls[m], p)
  }

  ghost predicate ShadowsOrdered(ls: seq<Leaf>) {
    forall p, i, u, j :: Shadowed(ls, p, i, u, j) ==> Before(ls, i, j)
  }

  // At most one reader of a file between two writes of it.
  ghost predicate OneReader(ls: seq<Leaf>) {
    forall p, i, u, j :: !Shadowed(ls, p, i, u, j)
  }

  lemma {:induction false} AfterUse(ls: seq<Leaf>, p: Path, i: nat, j: nat)
    requires i < j < |ls| && Uses(ls[i], p) && Writes(ls[j], p) && ShadowsOrdered(ls)
    ensures Before(ls, i, j)
    decreases j
  {
    if w :| i <= w < j && Writes(ls[w], p) {
      AfterWrite(ls, p, w, j);
      if i < w {
        AfterUse(ls, p, i, w);
        BeforeTwice(ls, i, w, j);
      }
    } else {
      LastUseIs(ls[..j], p);
      var u := LastUse(ls[..j], p) - 1;
      assert ls[..j][i] == ls[i];
      assert u >= i;
      if u == i {
        DepOn(ls, i, j);
      } else {
        assert ls[..j][u] == ls[u];
        assert Shadowed(ls, p, i, u, j);
      }
    }
  }

  /** All conflicting leaves stay in order, as far as the first n go. */
  ghost predicate Ordered(ls: seq<Leaf>) {
    forall i, j :: 0 <= i < j < |ls| && Conflict(ls[i], ls[j]) ==> Before(ls, i, j)
  }

  lemma ConflictOrdered(ls: seq<Leaf>, i: nat, j: nat)
    requires i < j < |ls| && ShadowsOrdered(ls) && Conflict(ls[i], ls[j])
    ensures Before(ls, i, j)
  {
    if ls[i].glob || ls[j].glob {
      DepOn(ls, i, j);
    } else {
      var p :| Clash(ls[i], ls[j], p);
      if Writes(ls[i], p) {
        AfterWrite(ls, p, i, j);
      } else {
        AfterUse(ls, p, i, j);
      }
    }
  }

  /** The dependencies order every conflict exactly when they order the readers
      that were forgotten. */
  lemma OrderedIff(ls: seq<Leaf>)
    ensures Ordered(ls) <==> ShadowsOrdered(ls)
  {
    hide Before, Conflict;
    if ShadowsOrdered(ls) {
      forall i, j | 0 <= i < j < |ls| && Conflict(ls[i], ls[j])
        ensures Before(ls, i, j)
      {
        ConflictOrdered(ls, i, j);
      }
    }
    if Ordered(ls) {
      forall p, i: nat, u: nat, j: nat | Shadowed(ls, p, i, u, j)
        ensures Before(ls, i, j)
      {
        ShadowConflict(ls, p, i, u, j);
      }
    }
  }

  lemma ShadowConflict(ls: seq<Leaf>, p: Path, i: nat, u: nat, j: nat)
    requires Shadowed(ls, p, i, u, j)
    ensures Conflict(ls[i], ls[j])
  {
    assert Clash(ls[i], ls[j], p);
  }

  // ----- what leaves do -----

  type Files = map<Path, string>
  type Action = Files -> Files

  predicate SameAt(s: Files, t: Files, p: Path) {
    (p in s <==> p in t) && (p in s ==> s[p] == t[p])
  }

  /** An action keeps to its leaf: it changes what the leaf writes, from what it reads. */
  ghost predicate Respects(l: Leaf, f: Action) {
    l.glob ||
    ((forall s, p :: p !in l.outputs ==> SameAt(f(s), s, p))
     && (forall s, t, p :: (forall q :: q in l.inputs ==> SameAt(s, t, q)) && p in l.outputs ==> SameAt(f(s), f(t), p)))
  }

  function Exec(fs: seq<Action>, order: seq<nat>, s: Files): Files
    requires forall k :: 0 <= k < |order| ==> order[k] < |fs|
  {
    if order == [] then s else fs[order[|order| - 1]](Exec(fs, order[..|order| - 1], s))
  }

  lemma SameFiles(s: Files, t: Files)
    requires forall p :: SameAt(s, t, p)
    ensures s == t
  {
    assert forall p :: p in s ==> p in t by { forall p | p in s ensures p in t { assert SameAt(s, t, p); } }
    assert forall p :: p in t ==> p in s by { forall p | p in t ensures p in s { assert SameAt(s, t, p); } }
    assert forall p :: p in s ==> s[p] == t[p] by { forall p | p in s ensures s[p] == t[p] { assert SameAt(s, t, p); } }
  }

  // ----- orders the dependencies allow -----

  // No leaf runs before one it waits for.
  predicate Allowed(ls: seq<Leaf>, order: seq<nat>) {
    forall a, b :: 0 <= a < b < |order| ==> !Dep(ls, order[b], order[a])
  }

  function Serial(n: nat): (s: seq<nat>)
    ensures Perm(s, n) && forall k :: 0 <= k < n ==> s[k] == k
  {
    seq(n, k => k)
  }

  /** An allowed order respects chains of dependencies too. */
  lemma {:induction false} AllowedChains(ls: seq<Leaf>, order: seq<nat>, n: nat, a: nat, b: nat)
    requires Perm(order, n) && n <= |ls| && Allowed(ls, order) && a < n && b < n && Before(ls, order[a], order[b])
    ensures a < b
    decreases order[b]
  {
    hide DepSet;
    if !Dep(ls, order[a], order[b]) {
      var k :| order[a] < k < order[b] && Before(ls, order[a], k) && Dep(ls, k, order[b]);
      Everyone(order, n, k);
      var c :| 0 <= c < n && order[c] == k;
      AllowedChains(ls, order, n, a, c);
      assert c < b;
    }
  }

  ghost predicate AllRespect(ls: seq<Leaf>, fs: seq<Action>) {
    |fs| == |ls| && forall k :: 0 <= k < |ls| ==> Respects(ls[k], fs[k])
  }

  // ----- two readers: the first is forgotten -----

  const TWO: seq<Leaf> := [Leaf(["a"], ["b"], false), Leaf(["a"], ["c"], false), Leaf([], ["a"], false)]

  function Copy(from: Path, to: Path): Action {
    (s: Files) => if from in s then s[to := s[from]] else s - {to}
  }

  function Delete(p: Path): Action {
    (s: Files) => s - {p}
  }

  lemma CopyRespects(from: Path, to: Path)
    ensures Respects(Leaf([from], [to], false), Copy(from, to))
  {
    var l, f := Leaf([from], [to], false), Copy(from, to);
    forall s, t, p | (forall q :: q in l.inputs ==> SameAt(s, t, q)) && p in l.outputs
      ensures SameAt(f(s), f(t), p)
    {
      assert from in l.inputs;
      assert SameAt(s, t, from);
    }
  }

  lemma DeleteRespects(p: Path)
    ensures Respects(Leaf([], [p], false), Delete(p))
  {
  }

  lemma TwoDeps()
    ensures Dep(TWO, 1, 2) && !Dep(TWO, 0, 1) && !Dep(TWO, 0, 2)
  {
    var one, two := TWO[..1], TWO[..2];
    assert one[..0] == [] && two[..1] == one;
    assert LastWrite(one, "a") == 0 && LastWrite(one, "c") == 0 && LastUse(one, "c") == 0;
    assert LastWrite(two, "a") == 0 && LastUse(two, "a") == 2;
    assert WritersOf(one, ["a"]) == {0} && WritersOf(one, ["c"]) == {0} && UsersOf(one, ["c"]) == {0};
    assert WritersOf(two, []) == {} && WritersOf(two, ["a"]) == {0} && UsersOf(two, ["a"]) == {2};
    assert Globs(one) == {} && Globs(two) == {};
  }

  lemma ThreeSteps(fs: seq<Action>, a: nat, b: nat, c: nat, s: Files)
    requires a < |fs| && b < |fs| && c < |fs|
    ensures Exec(fs, [a, b, c], s) == fs[c](fs[b](fs[a](s)))
  {
    var x, y, z: seq<nat> := [a], [a, b], [a, b, c];
    assert z[..2] == y && y[..1] == x && x[..0] == [];
    assert Exec(fs, x, s) == fs[a](s);
    assert Exec(fs, y, s) == fs[b](fs[a](s));
  }

  /** copy a b; copy a c; del a: nothing keeps the deletion after the first copy. */
  lemma TwoReaders()
    ensures var fs, order := [Copy("a", "b"), Copy("a", "c"), Delete("a")], [1, 2, 0];
            && AllRespect(TWO, fs) && Perm(order, 3) && Allowed(TWO, order)
            && Exec(fs, order, map["a" := "x"]) != Exec(fs, Serial(3), map["a" := "x"])
  {
    hide Dep, Exec, Respects;
    var fs, s := [Copy("a", "b"), Copy("a", "c"), Delete("a")], map["a" := "x"];
    CopyRespects("a", "b");
    CopyRespects("a", "c");
    DeleteRespects("a");
    TwoDeps();
    DepUp(TWO, 2, 1);
    assert Serial(3) == [0, 1, 2];
    ThreeSteps(fs, 0, 1, 2, s);
    ThreeSteps(fs, 1, 2, 0, s);
    assert "b" in fs[2](fs[1](fs[0](s)));
    assert "b" !in fs[0](fs[2](fs[1](s)));
  }

  lemma PermBound(order: seq<nat>, n: nat)
    requires Perm(order, n)
    ensures |order| == n && forall k :: 0 <= k < |order| ==> order[k] < n
  {
  }

  lemma DepUp(ls: seq<Leaf>, i: nat, j: nat)
    ensures Dep(ls, i, j) ==> i < j
  {
  }
}
