/** Which steps of a recipe have an effect that lasts, and why every order that keeps
    their readers in front of the next writers ends in the same files. */
module RecipeLive {
  import opened RecipeOrder
  import opened RecipeRuns
  import opened Permutations

  // ----- effects that last -----

  // A leaf that may change q, and one that may look at it.
  predicate Touches(l: Leaf, q: Path) { l.glob || q in l.outputs }
  predicate Sees(l: Leaf, q: Path) { l.glob || q in l.inputs }

  /** What leaf i leaves at o is what leaf k finds there, in recipe order. */
  predicate Reaches(ls: seq<Leaf>, i: nat, o: Path, k: nat) {
    i < k < |ls| && Writes(ls[i], o) && Sees(ls[k], o) && forall m :: i < m < k ==> !Touches(ls[m], o)
  }

  /** ... and what is there in the end. */
  predicate Survives(ls: seq<Leaf>, i: nat, o: Path) {
    i < |ls| && Writes(ls[i], o) && forall m :: i < m < |ls| ==> !Touches(ls[m], o)
  }

  /** Something leaf i leaves survives, or reaches a leaf of which the same is true.
      What a glob leaf does is not known, so it counts. */
  ghost predicate Live(ls: seq<Leaf>, i: nat)
    decreases |ls| - i, 1
  {
    i < |ls| && (ls[i].glob || exists o :: LiveAt(ls, i, o))
  }

  ghost predicate LiveAt(ls: seq<Leaf>, i: nat, o: Path)
    decreases |ls| - i, 0
  {
    Survives(ls, i, o) || exists k :: Reaches(ls, i, o, k) && Live(ls, k)
  }

  /** The readers that were forgotten are in order, as far as they have a lasting effect. */
  ghost predicate LiveOrdered(ls: seq<Leaf>) {
    forall p, i, u, j :: Shadowed(ls, p, i, u, j) && Live(ls, i) ==> Before(ls, i, j)
  }

  // ----- live leaves stay in their place -----

  lemma {:induction false} LiveReaderFirst(ls: seq<Leaf>, p: Path, i: nat, j: nat)
    requires i < j < |ls| && Uses(ls[i], p) && Writes(ls[j], p) && LiveOrdered(ls) && Live(ls, i)
    ensures Before(ls, i, j)
    decreases j
  {
    hide Live, LastUse;
    if w :| i <= w < j && Writes(ls[w], p) {
      AfterWrite(ls, p, w, j);
      if i < w {
        LiveReaderFirst(ls, p, i, w);
        BeforeTwice(ls, i, w, j);
      }
    } else {
      LastUseIs(ls[..j], p);
      var u := LastUse(ls[..j], p) - 1;
      assert ls[..j][i] == ls[i];
      assert u >= i;
      if u == i {
        DepOn(ls, i, j);
      } else {
        assert ls[..j][u] == ls[u];
        assert Shadowed(ls, p, i, u, j);
      }
    }
  }

  lemma SeerFirst(ls: seq<Leaf>, q: Path, k: nat, w: nat)
    requires k < w < |ls| && Sees(ls[k], q) && Touches(ls[w], q) && LiveOrdered(ls) && Live(ls, k)
    ensures Before(ls, k, w)
  {
    hide Live, LiveOrdered, DepSet;
    if ls[k].glob || ls[w].glob {
      DepOn(ls, k, w);
    } else {
      LiveReaderFirst(ls, q, k, w);
    }
  }

  lemma TouchFirst(ls: seq<Leaf>, q: Path, w: nat, k: nat)
    requires w < k < |ls| && Touches(ls[w], q) && (Sees(ls[k], q) || Touches(ls[k], q))
    ensures Before(ls, w, k)
  {
    hide DepSet;
    if ls[k].glob || ls[w].glob {
      DepOn(ls, w, k);
    } else {
      AfterWrite(ls, q, w, k);
    }
  }

  // ----- what a file holds is what its last toucher left -----

  lemma {:induction false} Untouched(ls: seq<Leaf>, fs: seq<Action>, order: seq<nat>, c: nat, q: Path, s: Files)
    requires AllRespect(ls, fs) && c <= |order| && (forall a :: 0 <= a < |order| ==> order[a] < |ls|)
    requires forall a :: c <= a < |order| ==> !Touches(ls[order[a]], q)
    ensures SameAt(Exec(fs, order, s), Exec(fs, order[..c], s), q)
  {
    if c < |order| {
      var n := |order| - 1;
      Untouched(ls, fs, order[..n], c, q, s);
      assert order[..n][..c] == order[..c];
      var t := Exec(fs, order[..n], s);
      assert SameAt(fs[order[n]](t), t, q);
    } else {
      assert order[..c] == order;
    }
  }

  lemma LastToucher(ls: seq<Leaf>, q: Path, k: nat) returns (t: nat, none: bool)
    requires k <= |ls|
    ensures !none ==> t < k && Touches(ls[t], q) && forall m :: t < m < k ==> !Touches(ls[m], q)
    ensures none ==> forall m :: 0 <= m < k ==> !Touches(ls[m], q)
  {
    t, none := 0, true;
    for x := 0 to k
      invariant !none ==> t < x && Touches(ls[t], q) && forall m :: t < m < x ==> !Touches(ls[m], q)
      invariant none ==> forall m :: 0 <= m < x ==> !Touches(ls[m], q)
    {
      if Touches(ls[x], q) {
        t, none := x, false;
      }
    }
  }

  /** A place in an order from which q is looked at: leaf k, or the end. */
  ghost predicate Place(ls: seq<Leaf>, order: seq<nat>, b: nat, k: nat, q: Path) {
    (b < |order| && k == order[b] < |ls| && Live(ls, k) && Sees(ls[k], q)) || (b == |order| && k == |ls|)
  }

  // Whoever touches q last before a place has a lasting effect.
  lemma LastIsLive(ls: seq<Leaf>, order: seq<nat>, b: nat, k: nat, q: Path, t: nat)
    requires Place(ls, order, b, k, q) && t < k && Touches(ls[t], q) && forall m :: t < m < k ==> !Touches(ls[m], q)
    ensures Live(ls, t)
  {
    if !ls[t].glob {
      assert k < |ls| ==> Reaches(ls, t, q, k);
      assert LiveAt(ls, t, q);
    }
  }

  // Later leaves that touch q run later.
  lemma LaterTouches(ls: seq<Leaf>, order: seq<nat>, b: nat, k: nat, q: Path, a: nat)
    requires Perm(order, |ls|) && Allowed(ls, order) && LiveOrdered(ls) && Place(ls, order, b, k, q)
    requires a < b && Touches(ls[order[a]], q)
    ensures order[a] < k
  {
    hide Live, LiveOrdered, Dep;
    if order[a] >= k {
      assert order[a] != k;
      SeerFirst(ls, q, k, order[a]);
      AllowedChains(ls, order, |ls|, b, a);
    }
  }

  // The last toucher in recipe order is the last in the order.
  lemma LastStays(ls: seq<Leaf>, order: seq<nat>, b: nat, k: nat, q: Path, t: nat, c: nat)
    requires Perm(order, |ls|) && Allowed(ls, order) && LiveOrdered(ls) && Place(ls, order, b, k, q)
    requires t < k && Touches(ls[t], q) && (forall m :: t < m < k ==> !Touches(ls[m], q)) && c < |order| && order[c] == t
    ensures c < b && forall a :: c < a < b ==> !Touches(ls[order[a]], q)
  {
    hide Live, LiveOrdered, Dep;
    if b < |order| {
      TouchFirst(ls, q, t, k);
      AllowedChains(ls, order, |ls|, c, b);
    }
    forall a | c < a < b
      ensures !Touches(ls[order[a]], q)
    {
      if Touches(ls[order[a]], q) {
        LaterTouches(ls, order, b, k, q, a);
        assert order[a] != t;
        TouchFirst(ls, q, order[a], t);
        AllowedChains(ls, order, |ls|, a, c);
      }
    }
  }

  lemma SerialUpTo(k: nat, n: nat)
    requires k <= n
    ensures Serial(n)[..k] == Serial(k)
  {
  }

  /** What a live leaf sees, and what is there in the end, is what recipe order has there. */
  lemma {:induction false} FindsTheSame(ls: seq<Leaf>, fs: seq<Action>, order: seq<nat>, s: Files, b: nat, k: nat, q: Path)
    requires AllRespect(ls, fs) && Perm(order, |ls|) && Allowed(ls, order) && LiveOrdered(ls) && Place(ls, order, b, k, q)
    ensures SameAt(Exec(fs, order[..b], s), Exec(fs, Serial(k), s), q)
    decreases k, 0
  {
    hide Live, LiveOrdered, Allowed, AllRespect, Exec, Touches, Place;
    PlaceBounds(ls, order, b, k, q);
    RespectSize(ls, fs);
    var t, none := LastToucher(ls, q, k);
    if none {
      forall a | 0 <= a < b
        ensures !Touches(ls[order[..b][a]], q)
      {
        if Touches(ls[order[a]], q) {
          LaterTouches(ls, order, b, k, q, a);
        }
      }
      Untouched(ls, fs, order[..b], 0, q, s);
      Untouched(ls, fs, Serial(k), 0, q, s);
      assert order[..b][..0] == Serial(k)[..0];
    } else {
      LastIsLive(ls, order, b, k, q, t);
      Everyone(order, |ls|, t);
      var c: nat :| c < |ls| && order[c] == t;
      LastStays(ls, order, b, k, q, t, c);
      Untouched(ls, fs, order[..b], c + 1, q, s);
      Untouched(ls, fs, Serial(k), t + 1, q, s);
      assert order[..b][..c + 1] == order[..c + 1];
      SerialUpTo(t + 1, k);
      LeavesTheSame(ls, fs, order, s, c, t, q);
    }
  }

  lemma PlaceBounds(ls: seq<Leaf>, order: seq<nat>, b: nat, k: nat, q: Path)
    requires Place(ls, order, b, k, q)
    ensures b <= |order| && k <= |ls|
  {
  }

  lemma RespectSize(ls: seq<Leaf>, fs: seq<Action>)
    requires AllRespect(ls, fs)
    ensures |fs| == |ls|
  {
  }

  // A live leaf that sees what it sees in recipe order leaves what it leaves there.
  lemma LeavesTheSame(ls: seq<Leaf>, fs: seq<Action>, order: seq<nat>, s: Files, c: nat, t: nat, q: Path)
    requires AllRespect(ls, fs) && Perm(order, |ls|) && Allowed(ls, order) && LiveOrdered(ls) && c < |order| && t == order[c]
    requires Live(ls, t) && Touches(ls[t], q)
    ensures SameAt(Exec(fs, order[..c + 1], s), Exec(fs, Serial(t + 1), s), q)
    decreases t, 1
  {
    hide Live, LiveOrdered, Allowed;
    var x, y := Exec(fs, order[..c], s), Exec(fs, Serial(t), s);
    assert order[..c + 1][..c] == order[..c];
    SerialUpTo(t, t + 1);
    forall r | Sees(ls[t], r)
      ensures SameAt(x, y, r)
    {
      FindsTheSame(ls, fs, order, s, c, t, r);
    }
    if ls[t].glob {
      SameFiles(x, y);
    } else {
      assert Respects(ls[t], fs[t]);
    }
  }

  /** Every allowed order leaves the files recipe order leaves. */
  lemma SameAsSerial(ls: seq<Leaf>, fs: seq<Action>, order: seq<nat>, s: Files)
    requires AllRespect(ls, fs) && Perm(order, |ls|) && Allowed(ls, order) && LiveOrdered(ls)
    ensures Exec(fs, order, s) == Exec(fs, Serial(|ls|), s)
  {
    hide Live, LiveOrdered, Allowed, Exec;
    var n := |ls|;
    assert order[..n] == order;
    forall q
      ensures SameAt(Exec(fs, order, s), Exec(fs, Serial(n), s), q)
    {
      FindsTheSame(ls, fs, order, s, n, n, q);
    }
    SameFiles(Exec(fs, order, s), Exec(fs, Serial(n), s));
  }

  /** With at most one reader of a file between two writes of it, every allowed
      order of the whole recipe is as good as recipe order. */
  lemma OneReaderSerial(ls: seq<Leaf>, fs: seq<Action>, order: seq<nat>, s: Files)
    requires OneReader(ls) && AllRespect(ls, fs) && Perm(order, |ls|) && Allowed(ls, order)
    ensures Exec(fs, order, s) == Exec(fs, Serial(|ls|), s)
  {
    hide Allowed, AllRespect, Exec;
    SameAsSerial(ls, fs, order, s);
  }
}
