/** The walk of virtMem.save over the match heap, iteration by iteration: which
    matches it spills, and when the last of them has the least destination. */
module SpillWalk {
  import opened Bytes
  import opened MatchHeap
  import opened SpillFormat
  import L = SrepLedger

  ghost predicate Before(v: L.View, base: int, cur: int) {
    if base == NIL then IsLast(v, cur) else base in v && IsPrev(v, base, cur)
  }

  // From cur up to base' there is only cur's own destination.
  ghost predicate Skipped(v: L.View, cur: int, base': int)
    requires cur in v
  {
    && (base' != NIL ==> base' in v)
    && forall x :: x in v && Lt(VK(v, cur), VK(v, x)) && (base' == NIL || Lt(VK(v, x), VK(v, base'))) ==> v[x].m.dest == v[cur].m.dest
  }

  // Before an iteration of the walk: the heap, the iterator, the room left, what has been spilled.
  datatype Spot = Spot(v: L.View, base: int, room: int, out: seq<Match>)

  // Where the iterator is left once cur's destination is erased.
  ghost predicate Lands(v: L.View, cur: int, base': int)
    requires cur in v
  {
    Skipped(v, cur, base') && (base' != NIL ==> v[base'].m.dest != v[cur].m.dest && Lt(VK(v, cur), VK(v, base')))
  }

  ghost predicate Looks(v: L.View, base: int, base1: int, cur: int) {
    Before(v, base, base1) && Before(v, base1, cur)
  }

  ghost predicate Passes(s: Spot, s': Spot, base1: int, cur: int) {
    Looks(s.v, s.base, base1, cur) && cur in s.v && s.v[cur].index == 0 && s' == s.(base := base1)
  }

  ghost predicate Takes(s: Spot, s': Spot, base1: int, cur: int) {
    && Looks(s.v, s.base, base1, cur) && cur in s.v && s.v[cur].index != 0 && 24 + s.v[cur].m.length <= s.room
    && s'.v == L.Without(s.v, s.v[cur].m.dest) && Lands(s.v, cur, s'.base)
    && s'.room == s.room - 20 - s.v[cur].m.length && s'.out == s.out + [s.v[cur].m]
  }

  ghost predicate Goes(s: Spot, s': Spot) {
    exists base1, cur :: Passes(s, s', base1, cur) || Takes(s, s', base1, cur)
  }

  ghost predicate Stuck(s: Spot) {
    exists base1, cur :: Looks(s.v, s.base, base1, cur) && (cur == NIL || (cur in s.v && s.v[cur].index != 0 && s.room < 24 + s.v[cur].m.length))
  }

  /** The course of one walk. */
  ghost predicate Trace(ts: seq<Spot>) {
    ts != [] && forall i {:trigger ts[i]} :: 0 < i < |ts| ==> Goes(ts[i - 1], ts[i])
  }

  function Matches(recs: seq<Rec>): seq<Match> {
    seq(|recs|, k requires 0 <= k < |recs| => recs[k].m)
  }

  // A course that has reached a heap, an iterator, and so many bytes in the buffer.
  ghost predicate Arrives(ts: seq<Spot>, v0: L.View, size: nat, v: L.View, base: int, p: nat, recs: seq<Rec>) {
    Trace(ts) && ts[0] == Spot(v0, NIL, size, []) && ts[|ts| - 1] == Spot(v, base, size - p, Matches(recs))
  }

  lemma SetsOut(v: L.View, size: nat)
    ensures Arrives([Spot(v, NIL, size, [])], v, size, v, NIL, 0, [])
  {
  }

  lemma GoesOn(ts: seq<Spot>, v0: L.View, size: nat, v: L.View, base: int, p: nat, recs: seq<Rec>, base1: int, cur: int) returns (ts': seq<Spot>)
    requires Arrives(ts, v0, size, v, base, p, recs) && Looks(v, base, base1, cur) && cur in v && v[cur].index == 0
    ensures Arrives(ts', v0, size, v, base1, p, recs) && ts' == ts + [Spot(v, base1, size - p, Matches(recs))]
  {
    var s := Spot(v, base1, size - p, Matches(recs));
    assert Passes(ts[|ts| - 1], s, base1, cur);
    ts' := ts + [s];
  }

  lemma TakesOn(ts: seq<Spot>, v0: L.View, size: nat, v: L.View, base: int, p: nat, recs: seq<Rec>, base1: int, cur: int, base': int, r: Rec)
    returns (ts': seq<Spot>)
    requires Arrives(ts, v0, size, v, base, p, recs) && Looks(v, base, base1, cur) && cur in v && v[cur].index != 0
    requires p + 24 + v[cur].m.length <= size && Lands(v, cur, base') && r.m == v[cur].m
    ensures Arrives(ts', v0, size, L.Without(v, v[cur].m.dest), base', p + 20 + v[cur].m.length, recs + [r])
    ensures exists s :: ts' == ts + [s] && |s.out| == |recs| + 1
  {
    var s := Spot(L.Without(v, v[cur].m.dest), base', size - p - 20 - v[cur].m.length, Matches(recs + [r]));
    assert Matches(recs + [r]) == Matches(recs) + [r.m];
    assert Takes(ts[|ts| - 1], s, base1, cur);
    ts' := ts + [s];
  }

  // ----- each iteration has one outcome -----

  lemma BeforeOnly(v: L.View, base: int, p: int, q: int)
    requires NIL !in v && Before(v, base, p) && Before(v, base, q)
    ensures p == q
  {
    assert base != NIL && p in v && q in v ==>
        !In(VK(v, p), VK(v, q), VK(v, base)) && !In(VK(v, q), VK(v, p), VK(v, base));
  }

  lemma LandsOnly(v: L.View, cur: int, a: int, b: int)
    requires NIL !in v && cur in v && Lands(v, cur, a) && Lands(v, cur, b)
    ensures a == b
  {
    assert !(a in v && (b == NIL || Lt(VK(v, a), VK(v, b))));
    assert !(b in v && (a == NIL || Lt(VK(v, b), VK(v, a))));
  }

  lemma LooksOnly(s: Spot, base1: int, cur: int)
    requires NIL !in s.v && Looks(s.v, s.base, base1, cur)
    ensures forall b, c :: Looks(s.v, s.base, b, c) ==> b == base1 && c == cur
  {
    forall b, c | Looks(s.v, s.base, b, c)
      ensures b == base1 && c == cur
    {
      BeforeOnly(s.v, s.base, b, base1);
      BeforeOnly(s.v, base1, c, cur);
    }
  }

  lemma TakesOnly(s: Spot, s': Spot, base1: int, cur: int)
    requires NIL !in s.v && Takes(s, s', base1, cur)
    ensures !Stuck(s) && forall t :: Goes(s, t) ==> t == s'
  {
    LooksOnly(s, base1, cur);
    assert NIL !in s.v && cur != NIL;
    forall t | Goes(s, t)
      ensures t == s'
    {
      LandsOnly(s.v, cur, t.base, s'.base);
    }
  }

  lemma PassesOnly(s: Spot, s': Spot, base1: int, cur: int)
    requires NIL !in s.v && Passes(s, s', base1, cur)
    ensures !Stuck(s) && forall t :: Goes(s, t) ==> t == s'
  {
    LooksOnly(s, base1, cur);
  }

  lemma GoesOnly(s: Spot, a: Spot, b: Spot)
    requires NIL !in s.v && Goes(s, a)
    ensures !Stuck(s) && NIL !in a.v && (Goes(s, b) ==> a == b)
  {
    var base1, cur :| Passes(s, a, base1, cur) || Takes(s, a, base1, cur);
    if Passes(s, a, base1, cur) {
      PassesOnly(s, a, base1, cur);
    } else {
      TakesOnly(s, a, base1, cur);
    }
  }

  // ----- when the walk spills on after passing the front -----

  // What a walk has spilled.
  function Taken(ts: seq<Spot>): seq<Match> {
    if ts == [] then [] else ts[|ts| - 1].out
  }

  // The heap a walk leaves.
  function Remains(ts: seq<Spot>): L.View {
    if ts == [] then map[] else ts[|ts| - 1].v
  }

  // The next node before the iterator is none: the walk starts again at the end.
  ghost predicate AtFront(v: L.View, base: int) {
    base != NIL && base in v && IsPrev(v, base, NIL)
  }

  // The walk passes the front, and spills after that.
  ghost predicate SpillsOn(ts: seq<Spot>) {
    ts != [] && exists i :: 0 <= i < |ts| && AtFront(ts[i].v, ts[i].base) && |ts[i].out| < |ts[|ts| - 1].out|
  }

  ghost predicate Turned(ts: seq<Spot>) {
    exists i :: 0 <= i < |ts| - 1 && AtFront(ts[i].v, ts[i].base)
  }

  /** The whole walk over a heap, with so much room. */
  ghost predicate Whole(ts: seq<Spot>, v: L.View, size: nat) {
    Trace(ts) && ts[0] == Spot(v, NIL, size, []) && Stuck(ts[|ts| - 1])
  }

  /** The walk over heap `v` with so much room spills on after passing the front. */
  ghost predicate Late(v: L.View, size: nat) {
    exists ts :: Whole(ts, v, size) && SpillsOn(ts)
  }

  // A course that cannot go on.
  lemma Stops(ts: seq<Spot>, v0: L.View, size: nat, v: L.View, base: int, p: nat, recs: seq<Rec>, base1: int, cur: int)
    requires Arrives(ts, v0, size, v, base, p, recs) && Looks(v, base, base1, cur)
    requires cur == NIL || (cur in v && v[cur].index != 0 && size - p < 24 + v[cur].m.length)
    ensures Whole(ts, v0, size) && Taken(ts) == Matches(recs) && Remains(ts) == v
  {
  }

  lemma {:induction false} OneCourse(a: seq<Spot>, b: seq<Spot>, i: nat)
    requires Trace(a) && Trace(b) && a[0] == b[0] && NIL !in a[0].v && i < |a| && i < |b|
    ensures a[i] == b[i] && NIL !in a[i].v
  {
    hide Goes;
    if i > 0 {
      OneCourse(a, b, i - 1);
      assert Goes(a[i - 1], a[i]) && Goes(b[i - 1], b[i]);
      GoesOnly(a[i - 1], a[i], b[i]);
    }
  }

  lemma NotLonger(a: seq<Spot>, b: seq<Spot>, v: L.View, size: nat)
    requires Whole(a, v, size) && Whole(b, v, size) && NIL !in v
    ensures |a| >= |b|
  {
    hide Goes, Stuck;
    if |a| < |b| {
      var n := |a|;
      OneCourse(a, b, n - 1);
      assert Goes(b[n - 1], b[n]);
      GoesOnly(b[n - 1], b[n], b[n]);
    }
  }

  /** The heap before the call decides the walk. */
  lemma OneWhole(a: seq<Spot>, b: seq<Spot>, v: L.View, size: nat)
    requires Whole(a, v, size) && Whole(b, v, size) && NIL !in v
    ensures a == b
  {
    hide Goes, Stuck;
    NotLonger(a, b, v, size);
    NotLonger(b, a, v, size);
    forall i: nat | i < |a|
      ensures a[i] == b[i]
    {
      OneCourse(a, b, i);
    }
  }

  lemma LateIs(ts: seq<Spot>, v: L.View, size: nat)
    requires Whole(ts, v, size) && NIL !in v
    ensures Late(v, size) <==> SpillsOn(ts)
  {
    hide Whole, SpillsOn;
    if Late(v, size) {
      var us :| Whole(us, v, size) && SpillsOn(us);
      assert us == ts by { OneWhole(us, ts, v, size); }
    }
  }

  lemma {:induction false} OutGrows(ts: seq<Spot>, i: nat, j: nat)
    requires Trace(ts) && i <= j < |ts|
    ensures |ts[i].out| <= |ts[j].out|
  {
    if i < j {
      OutGrows(ts, i, j - 1);
      assert Goes(ts[j - 1], ts[j]);
    }
  }

  /** What the walk's flags say about its course so far. */
  ghost predicate Flags(ts: seq<Spot>, wrapped: bool, late: bool) {
    Trace(ts) && (wrapped <==> Turned(ts)) && (late <==> SpillsOn(ts))
  }

  // One more iteration: the flags follow.
  lemma FlagsOn(ts: seq<Spot>, s: Spot, wrapped: bool, late: bool)
    requires ts != [] && Flags(ts, wrapped, late) && Trace(ts + [s]) && |s.out| >= |ts[|ts| - 1].out|
    ensures var w := wrapped || AtFront(ts[|ts| - 1].v, ts[|ts| - 1].base);
            Flags(ts + [s], w, if |s.out| > |ts[|ts| - 1].out| then w else late)
  {
    hide Trace, AtFront;
    var us, w, n := ts + [s], wrapped || AtFront(ts[|ts| - 1].v, ts[|ts| - 1].base), |ts|;
    assert Turned(us) <==> w by {
      if Turned(us) {
        var i :| 0 <= i < n && AtFront(us[i].v, us[i].base);
        assert i < n - 1 ==> AtFront(ts[i].v, ts[i].base);
      }
      if wrapped {
        var i :| 0 <= i < n - 1 && AtFront(ts[i].v, ts[i].base);
        assert AtFront(us[i].v, us[i].base);
      }
      if AtFront(ts[n - 1].v, ts[n - 1].base) {
        assert AtFront(us[n - 1].v, us[n - 1].base);
      }
    }
    if |s.out| > |ts[n - 1].out| {
      if w {
        var i :| 0 <= i < n && AtFront(us[i].v, us[i].base);
        OutGrows(ts, i, n - 1);
        assert us[i] == ts[i];
      }
      if SpillsOn(us) {
        var i :| 0 <= i < |us| && AtFront(us[i].v, us[i].base) && |us[i].out| < |us[|us| - 1].out|;
        assert i < n;
      }
    } else {
      if SpillsOn(us) {
        var i :| 0 <= i < |us| && AtFront(us[i].v, us[i].base) && |us[i].out| < |us[|us| - 1].out|;
        assert us[i] == ts[i];
      }
      if late {
        var i :| 0 <= i < n && AtFront(ts[i].v, ts[i].base) && |ts[i].out| < |ts[n - 1].out|;
        assert us[i] == ts[i];
      }
    }
  }

  // The course so far and its flags, after passing over cur.
  lemma PassesOn(ts: seq<Spot>, v0: L.View, size: nat, v: L.View, base: int, p: nat, recs: seq<Rec>, base1: int, cur: int, wrapped: bool, late: bool)
    returns (ts': seq<Spot>)
    requires Flags(ts, wrapped, late) && Arrives(ts, v0, size, v, base, p, recs)
    requires Looks(v, base, base1, cur) && cur in v && v[cur].index == 0
    ensures Arrives(ts', v0, size, v, base1, p, recs)
    ensures Flags(ts', wrapped || AtFront(v, base), late)
  {
    hide Goes, AtFront, Looks;
    ts' := GoesOn(ts, v0, size, v, base, p, recs, base1, cur);
    FlagsOn(ts, Spot(v, base1, size - p, Matches(recs)), wrapped, late);
  }

  lemma SpillsNext(ts: seq<Spot>, v0: L.View, size: nat, v: L.View, base: int, p: nat, recs: seq<Rec>, base1: int, cur: int, base': int, r: Rec,
                   wrapped: bool, late: bool)
    returns (ts': seq<Spot>)
    requires Flags(ts, wrapped, late) && Arrives(ts, v0, size, v, base, p, recs)
    requires Looks(v, base, base1, cur) && cur in v && v[cur].index != 0
    requires p + 24 + v[cur].m.length <= size && Lands(v, cur, base') && r.m == v[cur].m
    ensures Arrives(ts', v0, size, L.Without(v, v[cur].m.dest), base', p + 20 + v[cur].m.length, recs + [r])
    ensures var w := wrapped || AtFront(v, base); Flags(ts', w, w)
  {
    hide Goes, AtFront, Looks, Lands;
    ts' := TakesOn(ts, v0, size, v, base, p, recs, base1, cur, base', r);
    var s :| ts' == ts + [s] && |s.out| == |recs| + 1;
    FlagsOn(ts, s, wrapped, late);
  }

  lemma FlagsLate(ts: seq<Spot>, wrapped: bool, late: bool)
    requires Flags(ts, wrapped, late)
    ensures late <==> SpillsOn(ts)
  {
  }

  lemma FlagsStart(v: L.View, size: nat)
    ensures Flags([Spot(v, NIL, size, [])], false, false)
  {
  }

  lemma FrontIs(v: L.View, base: int, base1: int)
    requires (base != NIL ==> base in v) && Before(v, base, base1) && NIL !in v
    ensures AtFront(v, base) <==> base != NIL && base1 == NIL
  {
  }
}
