/** The Future-LZ kernel: blocks are decoded in order, and a match whose
    destination lies in a later block waits, with its bytes, in the match heap,
    in chunks, or in a spilled block. */
module SrepKernel {
  import opened Bytes
  import opened ChunkMemory
  import opened MatchHeap
  import opened SpillFormat
  import opened SrepHistory
  import opened SpillWalk
  import L = SrepLedger

  // Every node before `base` (NIL for the end) is before `bound`.
  ghost predicate Below(v: L.View, base: int, bound: Key) {
    && (base != NIL ==> base in v)
    && forall x :: x in v && (base == NIL || Lt(VK(v, x), VK(v, base))) ==> Lt(VK(v, x), bound)
  }

  lemma RecordWritten(d: seq<byte>, d1: seq<byte>, d2: seq<byte>, d3: seq<byte>, d4: seq<byte>, p: nat, r: Rec)
    requires p + 20 + |r.data| <= |d|
    requires d1 == Splice(d, p, Le(r.m.length, 4)) && d2 == Splice(d1, p + 4, Le(r.m.src, 8))
    requires d3 == Splice(d2, p + 12, Le(r.m.dest, 8)) && d4 == Splice(d3, p + 20, r.data)
    ensures d4[..p + 20 + |r.data|] == d[..p] + Header(r.m) + r.data
  {
    hide Splice, Le;
    var a, b, c := Le(r.m.length, 4), Le(r.m.src, 8), Le(r.m.dest, 8);
    SpliceTwice(d, p, a, b);
    SpliceTwice(d, p, a + b, c);
    SpliceTwice(d, p, Header(r.m), r.data);
    SplicePrefix(d, p, Header(r.m) + r.data);
    assert d[..p] + (Header(r.m) + r.data) == d[..p] + Header(r.m) + r.data;
  }

  lemma BeforeSkips(v: L.View, base: int, cur: int)
    requires cur in v && NIL !in v && Before(v, base, cur)
    ensures Skipped(v, cur, base) && (base != NIL ==> Lt(VK(v, cur), VK(v, base)))
  {
  }

  ghost function After(v: L.View, base: int): set<int> {
    set x | x in v && base in v && !Lt(VK(v, x), VK(v, base))
  }

  lemma NextSkips(v: L.View, cur: int, base: int, n: int)
    requires cur in v && base in v && NIL !in v && Skipped(v, cur, base) && IsNext(v, base, n)
    requires v[base].m.dest == v[cur].m.dest && Lt(VK(v, cur), VK(v, base))
    ensures Skipped(v, cur, n) && (n != NIL ==> n in v && Lt(VK(v, cur), VK(v, n)))
    ensures After(v, n) < After(v, base)
  {
    assert base in After(v, base) && base !in After(v, n);
    forall x | x in v && Lt(VK(v, cur), VK(v, x)) && (n == NIL || Lt(VK(v, x), VK(v, n)))
      ensures v[x].m.dest == v[cur].m.dest
    {
      assert n != NIL ==> !In(VK(v, base), VK(v, x), VK(v, n));
    }
  }

  // Forgetting cur's chain changes no key.
  lemma Reindexed(v: L.View, base: int, cur: int)
    requires cur in v && Before(v, base, cur)
    ensures Before(v[cur := Entry(v[cur].m, 0)], base, cur)
  {
    var v' := v[cur := Entry(v[cur].m, 0)];
    assert forall x :: x in v ==> VK(v', x) == VK(v, x);
  }

  // The heap looks the same to the iterator once cur's chain is forgotten.
  lemma LandsSame(v: L.View, cur: int, base': int)
    requires cur in v && Lands(v[cur := Entry(v[cur].m, 0)], cur, base')
    ensures Lands(v, cur, base')
  {
    var v' := v[cur := Entry(v[cur].m, 0)];
    assert forall x :: x in v ==> VK(v', x) == VK(v, x) && v'[x].m == v[x].m;
  }

  lemma SkippedBelow(v: L.View, cur: int, base': int)
    requires cur in v && Skipped(v[cur := Entry(v[cur].m, 0)], cur, base')
    requires base' != NIL ==> base' in v && v[base'].m.dest != v[cur].m.dest
    requires base' != NIL ==> Lt(VK(v, cur), VK(v[cur := Entry(v[cur].m, 0)], base'))
    ensures Below(L.Without(v, v[cur].m.dest), base', VK(v, cur))
    ensures base' != NIL ==> Lt(VK(v, cur), VK(L.Without(v, v[cur].m.dest), base'))
  {
    var v' := v[cur := Entry(v[cur].m, 0)];
    assert forall x :: x in v ==> VK(v', x) == VK(v, x);
  }

  lemma ErasedView(v: L.View, cur: int)
    requires cur in v
    ensures var v' := v[cur := Entry(v[cur].m, 0)]; var d := v[cur].m.dest;
            (map x | x in v' && v'[x].m.dest != d :: v'[x]) == L.Without(v, d)
  {
  }

  lemma CanSpillNow(v: L.View, st: L.Saved, blocks: seq<Option<seq<byte>>>, g: L.Ledger, b: nat, cur: int)
    requires L.Inv(v, st, blocks, g, b, 0) && b in g.recs && cur in v && v[cur].index != 0
    ensures L.CanSpill(v, st, blocks, g, b, cur)
    ensures v[cur].index in st && |st[v[cur].index]| == v[cur].m.length && v[cur].m.dest in g.pending
  {
    assert L.HeldOk(v, st, g, cur);
  }

  lemma ToDiskFacts(v: L.View, st: L.Saved, g: L.Ledger, b: nat, cur: int)
    requires cur in v && v[cur].index in st && b in g.recs
    ensures var g' := L.ToDisk(v, st, g, b, cur);
            g'.recs == g.recs[b := g.recs[b] + [Rec(v[cur].m, st[v[cur].index])]] && g'.pending == g.pending && g'.mark == g.mark
  {
  }

  // ----- the walk of save -----

  function LastDest(recs: seq<Rec>): nat
    requires recs != []
  {
    recs[|recs| - 1].m.dest
  }

  // The last record spilled has the least destination.
  ghost predicate LastLow(recs: seq<Rec>) {
    recs != [] ==> forall j :: 0 <= j < |recs| ==> LastDest(recs) <= recs[j].m.dest
  }

  /** The walk before it passes the front of the heap: it goes down, so the
      records it leaves behind do too. */
  ghost predicate Descending(v: L.View, base: int, recs: seq<Rec>, bound: Key) {
    && Below(v, base, bound)
    && (recs != [] ==> bound.dest == LastDest(recs))
    && (base != NIL && IsFirst(v, base) ==> recs != [] && Lt(bound, VK(v, base)))
    && LastLow(recs)
  }

  /** The walk after it passed the front: what is left lies beyond record w. */
  ghost predicate Wrapped(v: L.View, recs: seq<Rec>, w: nat, late: bool) {
    && w < |recs|
    && (forall x :: x in v ==> recs[w].m.dest <= v[x].m.dest)
    && (!late ==> LastLow(recs))
    && (late ==> recs[w].m.dest < LastDest(recs))
  }

  ghost function Phase(v: L.View, base: int): nat {
    if base == NIL then 1 else if IsFirst(v, base) then 2 else 0
  }

  ghost function HeldNodes(v: L.View): set<int> {
    set x | x in v && v[x].index != 0
  }

  ghost function Earlier(v: L.View, base: int): set<int> {
    set x | x in v && base in v && Lt(VK(v, x), VK(v, base))
  }

  lemma FrontPhase(v: L.View, base: int)
    requires NIL !in v && base in v && IsPrev(v, base, NIL)
    ensures Phase(v, base) == 2 && Phase(v, NIL) == 1
  {
    forall x | x in v && x != base
      ensures Lt(VK(v, base), VK(v, x))
    {
    }
  }

  // One step of the walk towards the front, with a node `cur` before the new base.
  lemma WalkDown(v: L.View, base: int, base1: int, cur: int)
    requires NIL !in v && (base != NIL ==> base in v) && Before(v, base, base1) && base1 != NIL
    requires IsPrev(v, base1, cur) && cur != NIL
    ensures cur in v && !IsFirst(v, base1)
    ensures Phase(v, base1) == 0
    ensures Phase(v, base) > 0 || Earlier(v, base1) < Earlier(v, base)
  {
    if base != NIL {
      assert base1 in Earlier(v, base) && base1 !in Earlier(v, base1);
    }
  }

  lemma StillDescending(v: L.View, base: int, base1: int, cur: int, recs: seq<Rec>, bound: Key)
    requires NIL !in v && Descending(v, base, recs, bound) && Before(v, base, base1) && base1 != NIL
    requires IsPrev(v, base1, cur) && cur != NIL
    ensures Descending(v, base1, recs, bound) && cur in v && Lt(VK(v, cur), bound)
  {
    assert Lt(VK(v, cur), VK(v, base1));
    assert base == NIL || Lt(VK(v, base1), VK(v, base));
  }

  // Stepping off the front: everything left lies beyond the last record.
  lemma PassFront(v: L.View, base: int, recs: seq<Rec>, bound: Key)
    requires NIL !in v && base != NIL && base in v && Descending(v, base, recs, bound) && IsPrev(v, base, NIL)
    ensures recs != [] && Wrapped(v, recs, |recs| - 1, false)
    ensures Phase(v, base) == 2
  {
    forall x | x in v && x != base
      ensures Lt(VK(v, base), VK(v, x))
    {
    }
  }

  lemma SpillDescends(v: L.View, v': L.View, base: int, recs: seq<Rec>, bound: Key, cur: int, base': int, r: Rec)
    requires Descending(v, base, recs, bound) && cur in v && Lt(VK(v, cur), bound)
    requires v[cur].m == r.m && Below(v', base', VK(v, cur)) && (base' != NIL ==> Lt(VK(v, cur), VK(v', base')))
    ensures Descending(v', base', recs + [r], VK(v, cur))
  {
  }

  lemma SpillWrapped(v: L.View, v': L.View, recs: seq<Rec>, w: nat, late: bool, cur: int, r: Rec)
    requires Wrapped(v, recs, w, late) && cur in v && v[cur].m == r.m
    requires v' == L.Without(v, v[cur].m.dest) && r.m.dest != recs[w].m.dest
    ensures Wrapped(v', recs + [r], w, true)
  {
  }

  lemma SpillShrinks(v: L.View, cur: int)
    requires cur in v && v[cur].index != 0
    ensures HeldNodes(L.Without(v, v[cur].m.dest)) < HeldNodes(v)
  {
    assert cur in HeldNodes(v) && cur !in HeldNodes(L.Without(v, v[cur].m.dest));
  }

  // A held match and a spilled one never share a destination.
  lemma Distinct(v: L.View, st: L.Saved, blocks: seq<Option<seq<byte>>>, g: L.Ledger, b: nat, cur: int, w: nat)
    requires L.Inv(v, st, blocks, g, b, 0) && b in g.recs && w < |g.recs[b]| && cur in v && v[cur].index != 0
    ensures v[cur].m.dest != g.recs[b][w].m.dest
  {
    assert L.HeldOk(v, st, g, cur) && L.RecsOk(g, b, 0);
  }

  // Nodes that are not pending matches stay; nothing but held matches and marks
  // is new, and what is new is numbered from `first` on.
  ghost predicate Shrunk(v: L.View, v': L.View, pending: map<nat, Rec>, first: nat) {
    && (forall x :: x in v && v[x].m.dest !in pending ==> x in v' && v'[x] == v[x])
    && (forall x :: x in v' ==> if x in v then v'[x] == v[x] else first <= x && (v'[x].index == 0 ==> v'[x].m.length == 0))
  }

  lemma LastRec(v: L.View, st: L.Saved, blocks: seq<Option<seq<byte>>>, g: L.Ledger, b: nat)
    requires L.Inv(v, st, blocks, g, b, 0) && b in g.recs && g.recs[b] != []
    ensures LastDest(g.recs[b]) < U64
  {
    assert L.RecsOk(g, b, 0);
  }

  lemma EndsWith(d: seq<byte>, d': seq<byte>, p: nat, recs: seq<Rec>)
    requires p + 4 <= |d| && d' == Splice(d, p, Le(0, 4)) && d[..p] == Serialize(recs)
    ensures d'[..p + 4] == Spilled(recs)
  {
    SplicePrefix(d, p, Le(0, 4));
  }

  lemma NewMark(v: L.View, st: L.Saved, blocks: seq<Option<seq<byte>>>, g: L.Ledger, b: nat, n: int)
    requires b in g.recs && g.recs[b] != [] && b in g.mark && g.mark[b] == n && n !in v
    requires L.Inv(L.Marked(v, b, n, LastDest(g.recs[b])), st, blocks, g, -1, 0)
    ensures var v' := L.Marked(v, b, n, LastDest(g.recs[b]));
            L.MarkOk(v', g, b) && (L.Low(v', g, b) <==> LastLow(g.recs[b])) && forall p: map<nat, Rec>, s: nat :: s <= n ==> Shrunk(v, v', p, s)
  {
    hide L.HeldOk, L.OwnOk, L.PlaceOk, L.RecsOk, L.DiskOk, Shrunk, LastDest;
    assert L.MarkOk(L.Marked(v, b, n, LastDest(g.recs[b])), g, b);
    NewMarkSmall(v, b, n, LastDest(g.recs[b]));
    LastLowIs(g.recs[b]);
  }

  lemma LastLowIs(recs: seq<Rec>)
    requires recs != []
    ensures LastLow(recs) <==> forall k :: 0 <= k < |recs| ==> LastDest(recs) <= recs[k].m.dest
  {
  }

  lemma NewMarkSmall(v: L.View, b: nat, n: int, d: nat)
    requires n !in v
    ensures forall p: map<nat, Rec>, s: nat :: s <= n ==> Shrunk(v, L.Marked(v, b, n, d), p, s)
  {
  }

  lemma FreshNumber(v: L.View, st: L.Saved, blocks: seq<Option<seq<byte>>>, g: L.Ledger, b: nat)
    requires L.Inv(v, st, blocks, g, -1, 0) && (b < |blocks| ==> blocks[b].None?)
    ensures b !in g.recs
  {
  }

  lemma ShrunkRefl(v: L.View, pending: map<nat, Rec>, s: nat)
    ensures Shrunk(v, v, pending, s)
  {
  }

  lemma RecFacts(v: L.View, st: L.Saved, blocks: seq<Option<seq<byte>>>, g: L.Ledger, b: nat, j: nat)
    requires L.Inv(v, st, blocks, g, b, j) && b in g.recs && j < |g.recs[b]|
    ensures RecOk(g.recs[b][j])
  {
    assert L.RecsOk(g, b, j);
  }

  lemma ShrunkGrows(v0: L.View, v: L.View, pending: map<nat, Rec>, s: nat, n: int, m: Match, i: nat)
    requires Shrunk(v0, v, pending, s) && n !in v && i != 0 && s <= n && forall x :: x in v0 ==> x < s
    ensures Shrunk(v0, v[n := Entry(m, i)], pending, s)
  {
  }

  lemma AllRecOk(g: L.Ledger, b: nat)
    requires b in g.recs && L.RecsOk(g, b, 0)
    ensures forall r :: r in g.recs[b] ==> RecOk(r)
  {
  }

  lemma ReadsFirst(s: seq<byte>, recs: seq<Rec>)
    requires s == Spilled(recs)
    ensures ReadsAt(s, 0, recs, 0)
  {
    assert recs[0..] == recs && s[0..] == s;
  }

  lemma ShrunkTwice(v: L.View, v1: L.View, v2: L.View, pending: map<nat, Rec>, s: nat, s1: nat)
    requires Shrunk(v, v1, pending, s) && Shrunk(v1, v2, pending, s1) && s <= s1 && forall x :: x in v ==> x < s
    ensures Shrunk(v, v2, pending, s)
  {
  }

  lemma StartWalk(c: Store, sp: map<int, Span>, root: int, k: Walk)
    requires Tree(c, sp, root) && k == Walk(NIL, ALL.hi, false, 0, false)
    ensures WalkOk(Entries(c), [], k) && NIL !in c
    ensures forall p: map<nat, Rec>, s: nat :: Shrunk(Entries(c), Entries(c), p, s)
    ensures Serialize([]) == []
  {
    RangeAll(c, sp, root);
  }

  lemma ShrinkStep(v0: L.View, v: L.View, pending: map<nat, Rec>, cur: int, s: nat)
    requires Shrunk(v0, v, pending, s) && cur in v && v[cur].m.dest in pending
    ensures Shrunk(v0, L.Without(v, v[cur].m.dest), pending, s)
  {
  }

  lemma Unmoved(v: L.View, g: L.Ledger)
    ensures L.Settled(v, g, v, g) && L.Refilled(v, v)
  {
  }

  lemma StillThere(past: Past, v: L.View, st: L.Saved, blocks: seq<Option<seq<byte>>>, g: L.Ledger, mark: int)
    requires L.Inv(v, st, blocks, g, -1, 0) && L.Settled(past.v, past.g, v, g) && Shrunk(past.v, v, g.pending, past.seqno)
    requires mark in past.v && past.v[mark].index == 0 && past.v[mark].m.length == 0
    ensures L.Marks(past.v, past.g) ==>
              L.Placed(g, past.v[mark].m.dest, past.v[mark].m.src) && past.v[mark].m.src in g.mark && g.mark[past.v[mark].m.src] == mark
  {
    hide L.Inv, L.Settled, L.Marks, L.Placed;
    if L.Marks(past.v, past.g) {
      L.MarkPlaced(v, st, blocks, g, past.v, past.g, mark);
    }
  }

  // The ledger and the heap before a save.
  datatype Past = Past(g: L.Ledger, v: L.View, seqno: nat)

  /** Where the walk of save is: its iterator, the key of the last match
      spilled, and, once it has passed the front, the record it passed it with. */
  datatype Walk = Walk(base: int, bound: Key, wrapped: bool, w: nat, late: bool)

  ghost predicate WalkOk(v: L.View, recs: seq<Rec>, k: Walk) {
    && (k.base != NIL ==> k.base in v)
    && (if k.wrapped then Wrapped(v, recs, k.w, k.late) else !k.late && Descending(v, k.base, recs, k.bound))
  }

  // The next match the walk looks at.
  ghost predicate Reaches(v: L.View, k: Walk, cur: int) {
    cur in v && Before(v, k.base, cur) && (!k.wrapped ==> Lt(VK(v, cur), k.bound))
  }

  ghost predicate Closer(v: L.View, base: int, base': int) {
    Phase(v, base') < Phase(v, base) || (Phase(v, base') == Phase(v, base) && Earlier(v, base') < Earlier(v, base))
  }

  lemma WalkOn(v: L.View, recs: seq<Rec>, k: Walk, base1: int, cur: int) returns (k': Walk)
    requires NIL !in v && WalkOk(v, recs, k) && Before(v, k.base, base1) && Before(v, base1, cur)
    ensures cur != NIL ==> k'.base == base1 && WalkOk(v, recs, k') && Reaches(v, k', cur) && Closer(v, k.base, base1)
    ensures k'.late == k.late && k'.wrapped == (k.wrapped || (k.base != NIL && base1 == NIL))
  {
    hide Wrapped, Descending;
    k' := k.(base := base1);
    if k.base != NIL && base1 == NIL {
      FrontPhase(v, k.base);
      if !k.wrapped {
        PassFront(v, k.base, recs, k.bound);
        k' := k'.(wrapped := true, w := |recs| - 1);
      }
    }
    if cur != NIL && base1 != NIL {
      WalkDown(v, k.base, base1, cur);
      if !k.wrapped {
        StillDescending(v, k.base, base1, cur, recs, k.bound);
      }
    }
  }

  lemma WalkSpills(v: L.View, v': L.View, recs: seq<Rec>, k: Walk, cur: int, base': int, r: Rec) returns (k': Walk)
    requires WalkOk(v, recs, k) && Reaches(v, k, cur) && v[cur].m == r.m && v' == L.Without(v, v[cur].m.dest)
    requires Below(v', base', VK(v, cur)) && (base' != NIL ==> Lt(VK(v, cur), VK(v', base')))
    requires k.wrapped && k.w < |recs| ==> r.m.dest != recs[k.w].m.dest
    ensures k'.base == base' && WalkOk(v', recs + [r], k') && k'.late == k.wrapped && k'.wrapped == k.wrapped
  {
    if k.wrapped {
      SpillWrapped(v, v', recs, k.w, k.late, cur, r);
      k' := k.(base := base', late := true);
    } else {
      SpillDescends(v, v', k.base, recs, k.bound, cur, base', r);
      k' := k.(base := base', bound := VK(v, cur));
    }
  }

  lemma EndWalk(v: L.View, recs: seq<Rec>, k: Walk)
    requires WalkOk(v, recs, k)
    ensures recs != [] ==> (LastLow(recs) <==> !k.late)
    ensures k.wrapped ==> k.w < |recs|
  {
  }

  lemma HeldLength(v: L.View, st: L.Saved, blocks: seq<Option<seq<byte>>>, g: L.Ledger, x: int)
    requires L.Inv(v, st, blocks, g, -1, 0) && x in v && v[x].index != 0
    ensures v[x].index in st && |st[v[x].index]| == v[x].m.length && v[x].m.length > 0
  {
    assert L.HeldOk(v, st, g, x);
  }

  lemma MatchAhead(h: History, g: L.Ledger, v: L.View, locals: map<nat, int>, start: nat, end: nat, d: nat)
    requires Mid(h, g, v, locals, start, end) && d in g.pending
    ensures g.pending[d].m.src < g.pending[d].m.dest && g.pending[d].m in h.matches
  {
  }

  lemma SpliceParts(d: seq<byte>, at: nat, data: seq<byte>, d': seq<byte>)
    requires at + |data| <= |d| && d' == Splice(d, at, data[..|data|])
    ensures |d'| == |d| && d'[at..at + |data|] == data
    ensures forall j :: 0 <= j < at ==> d'[j] == d[j]
  {
    assert data[..|data|] == data;
  }

  /** copyLZ: byte by byte, so that a copy may read what it has just written. */
  method CopyLZ(out: array<byte>, at: nat, from: nat, n: nat)
    requires from < at && at + n <= out.Length
    modifies out
    ensures forall j :: 0 <= j < out.Length && !(at <= j < at + n) ==> out[j] == old(out[j])
    ensures forall j :: at <= j < at + n ==> out[j] == out[j - at + from]
  {
    var i := 0;
    while i < n
      invariant 0 <= i <= n
      invariant forall j :: 0 <= j < out.Length && !(at <= j < at + i) ==> out[j] == old(out[j])
      invariant forall j :: at <= j < at + i ==> out[j] == out[j - at + from]
    {
      out[at + i] := out[from + i];
      i := i + 1;
    }
  }

  // A heap node without bytes that is due in the block is one of its own matches.
  lemma LocalFacts(v: L.View, st: L.Saved, blocks: seq<Option<seq<byte>>>, h: History, g: L.Ledger, locals: map<nat, int>, start: nat, end: nat, x: int)
    requires L.Inv(v, st, blocks, g, -1, 0) && Mid(h, g, v, locals, start, end)
    requires x in v && v[x].index == 0 && v[x].m.length > 0 && v[x].m.dest < end < U64 && start <= v[x].m.src
    ensures v[x].m.dest in locals && locals[v[x].m.dest] == x && v[x].m.src < v[x].m.dest && L.Spare(v, g, x) && v[x].m in h.matches
  {
    var d := v[x].m.dest;
    assert v[x].m in h.matches;
    forall e | e in g.pending && e in g.place
      ensures g.place[e] != L.Barred(x)
    {
      assert L.PlaceOk(v, g, e, -1, 0);
    }
    forall b | b in g.recs && b in g.mark
      ensures g.mark[b] != x
    {
      assert L.MarkOk(v, g, b);
    }
  }

  // Copying within the block is copying within the stream.
  lemma SameBlock(o: seq<byte>, d: seq<byte>, d0: seq<byte>, start: nat, at: nat, from: nat, n: nat, data: seq<byte>)
    requires |o| == start + at && |d| == |d0| && at + n <= |d| && from < at && o[start..] == d0[..at]
    requires forall j :: 0 <= j < at ==> d[j] == d0[j]
    requires forall j :: at <= j < at + n ==> d[j] == d[j - at + from]
    requires data == d[at..at + n]
    ensures forall k :: 0 <= k < n ==> data[k] == (o + data)[start + from + k]
  {
    forall k | 0 <= k < n
      ensures data[k] == (o + data)[start + from + k]
    {
      assert d[at + k] == d[from + k];
      if from + k < at {
        assert o[start + from + k] == o[start..][from + k];
      } else {
        assert data[from + k - at] == d[from + k];
      }
    }
  }

  // ----- a block being decoded -----

  // The history, and the local matches still in the heap.
  datatype Tale = Tale(h: History, locals: map<nat, int>)

  /** The history before the block's first byte, the block's literals, its range. */
  datatype Frame = Frame(past: History, lits: seq<byte>, start: nat, end: nat)

  ghost predicate Decoded(t: Tale, f: Frame, out: seq<byte>, outPos: nat, inPos: nat) {
    && outPos <= |out| && inPos <= |f.lits| && f.start == |f.past.o| && f.end == f.start + |out|
    && t.h.o == f.past.o + out[..outPos] && t.h.lits == f.past.lits + f.lits[..inPos] && t.h.matches == f.past.matches
  }

  lemma DecodedBounds(t: Tale, f: Frame, out: seq<byte>, outPos: nat, inPos: nat)
    requires Decoded(t, f, out, outPos, inPos)
    ensures outPos <= |out| && inPos <= |f.lits| && f.end == f.start + |out| && |t.h.o| == f.start + outPos
    ensures t.h.o[f.start..] == out[..outPos] && t.h.matches == f.past.matches
  {
  }

  lemma GapDecoded(t: Tale, f: Frame, d: seq<byte>, d': seq<byte>, outPos: nat, inPos: nat, more: seq<byte>)
    requires Decoded(t, f, d, outPos, inPos) && |d'| == |d| && outPos + |more| <= |d| && inPos + |more| <= |f.lits|
    requires d'[outPos..outPos + |more|] == more && f.lits[inPos..inPos + |more|] == more
    requires forall j :: 0 <= j < outPos ==> d'[j] == d[j]
    ensures Decoded(t.(h := Gapped(t.h, more)), f, d', outPos + |more|, inPos + |more|)
  {
    assert d'[..outPos + |more|] == d[..outPos] + more;
    assert f.lits[..inPos + |more|] == f.lits[..inPos] + more;
  }

  lemma CopyDecoded(t: Tale, f: Frame, d: seq<byte>, d': seq<byte>, outPos: nat, inPos: nat, m: Match, t': Tale)
    requires Decoded(t, f, d, outPos, inPos) && |d'| == |d| && outPos + m.length <= |d|
    requires forall j :: 0 <= j < outPos ==> d'[j] == d[j]
    requires t'.h == Copied(t.h, m, d'[outPos..outPos + m.length])
    ensures Decoded(t', f, d', outPos + m.length, inPos)
  {
    assert d'[..outPos + m.length] == d[..outPos] + d'[outPos..outPos + m.length];
  }

  /** A block has just come back for destination d: the next match is due there
      or before, and is no mark. */
  ghost predicate Ready(v: L.View, g: L.Ledger, d: nat) {
    && L.Marks(v, g) && d in g.pending && d in g.place && g.place[d].Held?
    && forall y :: y in v && v[y].index == 0 ==> d <= v[y].m.dest
  }

  lemma ReadyFirst(v: L.View, st: L.Saved, blocks: seq<Option<seq<byte>>>, g: L.Ledger, d: nat, x: int)
    requires L.Inv(v, st, blocks, g, -1, 0) && Ready(v, g, d) && x in v && IsFirst(v, x)
    ensures v[x].m.length != 0
  {
    assert L.PlaceOk(v, g, d, -1, 0);
    assert v[x].m.dest <= v[g.place[d].node].m.dest;
    if v[x].m.length == 0 {
      EmptyNode(v, st, blocks, g, x);
    }
  }

  // Only a node without bytes can have length 0.
  lemma EmptyNode(v: L.View, st: L.Saved, blocks: seq<Option<seq<byte>>>, g: L.Ledger, x: int)
    requires L.Inv(v, st, blocks, g, -1, 0) && x in v && v[x].m.length == 0
    ensures v[x].index == 0
  {
    assert L.HeldOk(v, st, g, x);
  }

  lemma MarkSpare(v: L.View, v': L.View, st: L.Saved, blocks: seq<Option<seq<byte>>>, g: L.Ledger, x: int, s: nat)
    requires L.Inv(v', st, blocks, g, -1, 0) && Shrunk(v, v', g.pending, s)
    requires x in v && v[x].index == 0 && v[x].m.length == 0 && v[x].m.src !in g.recs
    ensures x in v' ==> L.Spare(v', g, x)
  {
    if x in v' {
      forall e | e in g.pending && e in g.place
        ensures g.place[e] != L.Barred(x)
      {
        assert L.PlaceOk(v', g, e, -1, 0);
      }
      forall b | b in g.recs && b in g.mark
        ensures g.mark[b] != x
      {
        assert L.MarkOk(v', g, b);
      }
    }
  }

  lemma ShrunkCalm(v: L.View, v': L.View, pending: map<nat, Rec>, s: nat, x: int)
    requires Shrunk(v, v', pending, s) && x in v && v[x].m.length == 0
    ensures Calm(v, v' - {x}, pending)
  {
  }

  lemma BackReady(v: L.View, x: int, v': L.View, g': L.Ledger)
    requires x in v && IsFirst(v, x) && L.Back(v, x, v', g')
    ensures Ready(v' - {x}, g', v[x].m.dest)
  {
    hide L.Marks;
  }

  lemma ReadyMarks(v: L.View, g: L.Ledger, d: nat)
    ensures Ready(v, g, d) ==> L.Marks(v, g)
  {
  }

  lemma SavedCalm(v: L.View, v': L.View, pending: map<nat, Rec>, s: nat)
    requires Shrunk(v, v', pending, s)
    ensures Calm(v, v', pending)
  {
  }

  lemma SameSlice(o: seq<byte>, out: seq<byte>, start: nat, m: Match)
    requires start + |out| == |o| && o[start..] == out && InBlock(m, start, |o|)
    ensures out[m.src - start..m.src - start + m.length] == o[m.src..m.src + m.length]
  {
    assert o[start..][m.src - start..m.src - start + m.length] == o[m.src..m.src + m.length];
  }

  // What decoding a block can come to; Exhausted is no answer of the source's.
  datatype Verdict = Done | Broken | Exhausted

  // ----- the matches of a block -----

  predicate NoneEmpty(matches: seq<Match>) {
    forall k :: 0 <= k < |matches| ==> matches[k].length > 0
  }

  // The first n matches that leave the block.
  ghost function Far(matches: seq<Match>, n: nat, blockEnd: nat): set<Match>
    requires n <= |matches|
  {
    set k | 0 <= k < n && matches[k].dest >= blockEnd :: matches[k]
  }

  ghost predicate FreshFar(h: History, matches: seq<Match>, blockEnd: nat) {
    && (forall k :: 0 <= k < |matches| && matches[k].dest >= blockEnd ==> matches[k].dest !in Seen(h))
    && (forall j, k :: 0 <= j < k < |matches| ==> matches[j].dest != matches[k].dest)
  }

  lemma FarStep(h: History, matches: seq<Match>, i: nat, blockEnd: nat)
    requires i < |matches| && FreshFar(h, matches, blockEnd)
    ensures Far(matches, i + 1, blockEnd) == Far(matches, i, blockEnd) + (if matches[i].dest >= blockEnd then {matches[i]} else {})
    ensures matches[i].dest >= blockEnd ==> matches[i].dest !in Seen(h.(matches := h.matches + Far(matches, i, blockEnd)))
  {
  }

  // Destinations beyond the block are still new once the others have entered.
  lemma NearLeavesFar(h: History, matches: seq<Match>, blockEnd: nat)
    requires Fresh(h, matches)
    ensures forall h': History :: h'.matches == h.matches + Near(matches, |matches|, blockEnd) ==> FreshFar(h', matches, blockEnd)
    ensures Near(matches, |matches|, blockEnd) + Far(matches, |matches|, blockEnd) == All(matches)
  {
  }

  // ----- from block to block -----

  lemma NothingTold(v: L.View, g: L.Ledger)
    requires v == map[0 := Entry(Match(U64 - 1, U64 - 1, NO_LENGTH), 0)] && g == L.Ledger(map[], map[], map[], map[], map[])
    ensures Told(History({}, [], [], [], {}), g, v) && L.Marks(v, g)
    ensures L.Inv(v, map[], [], g, -1, 0) && L.AllLow(v, map[], [], g, -1, 0)
  {
  }

  lemma ToldMid(h: History, g: L.Ledger, v: L.View, end: nat)
    ensures Told(h, g, v) ==> Mid(h, g, v, map[], |h.o|, end)
    ensures Mid(h, g, v, map[], |h.o|, end) ==> Told(h, g, v)
    ensures Sound(h) ==> |h.o| == |h.origin|
  {
  }

  lemma LocalNode(h: History, g: L.Ledger, v: L.View, locals: map<nat, int>, start: nat, d: nat) returns (x: int)
    requires Mid(h, g, v, locals, start, |h.o|) && d in locals
    ensures x in v && v[x].m.dest == d < |h.o|
  {
    x := locals[d];
  }

  lemma LocalsGone(h: History, g: L.Ledger, v: L.View, locals: map<nat, int>, start: nat)
    requires Mid(h, g, v, locals, start, |h.o|) && start <= |h.o| && forall x :: x in v ==> |h.o| <= v[x].m.dest
    ensures Mid(h, g, v, map[], |h.o|, |h.o|)
  {
    hide Sound, Applied;
    assert locals == map[] by {
      forall d | d in locals ensures false {
        var x := LocalNode(h, g, v, locals, start, d);
      }
    }
  }

  /** With nothing pending before the end of the output, all matches up to there have been applied. */
  lemma AheadApplied(h: History, g: L.Ledger, v: L.View)
    requires Told(h, g, v) && L.Ahead(g, |h.o|)
    ensures Complete(h)
  {
    hide Applied, Sound;
  }

  lemma Opening(t: Tale, f: Frame, g: L.Ledger, v: L.View, out: seq<byte>)
    requires Mid(t.h, g, v, t.locals, f.start, f.end) && f.past == t.h && f.start == |t.h.o| && f.end == f.start + |out|
    ensures Decoded(t, f, out, 0, 0)
  {
  }

  // What the end of the block leaves for the matches to put off.
  lemma Closing(t: Tale, f: Frame, g: L.Ledger, v: L.View, st: L.Saved, blocks: seq<Option<seq<byte>>>, out: seq<byte>, h: History, matches: seq<Match>)
    requires Mid(t.h, g, v, t.locals, f.start, f.end) && Decoded(t, f, out, |out|, |f.lits|) && forall x :: x in v ==> f.end <= v[x].m.dest
    requires Fresh(h, matches) && t.h.matches == h.matches + Near(matches, |matches|, f.end)
    ensures Mid(t.h, g, v, map[], |t.h.o|, |t.h.o|) && |t.h.o| == f.end && t.h.o[f.start..] == out
    ensures FreshFar(t.h, matches, f.end)
    ensures t.h.matches + Far(matches, |matches|, f.end) == h.matches + All(matches)
    ensures t.h.o == f.past.o + out && t.h.lits == f.past.lits + f.lits
  {
    hide Mid, Fresh, FreshFar;
    assert out[..|out|] == out && f.lits[..|f.lits|] == f.lits;
    DecodedBounds(t, f, out, |out|, |f.lits|);
    LocalsGone(t.h, g, v, t.locals, f.start);
    NearLeavesFar(h, matches, f.end);
  }

  ghost function All(matches: seq<Match>): set<Match> {
    set k | 0 <= k < |matches| :: matches[k]
  }

  /** The destinations are new to the stream, and distinct. */
  ghost predicate Fresh(h: History, matches: seq<Match>) {
    && (forall k :: 0 <= k < |matches| ==> matches[k].dest !in Seen(h))
    && (forall j, k :: 0 <= j < k < |matches| ==> matches[j].dest != matches[k].dest)
  }

  // The first n matches that stay in the block.
  ghost function Near(matches: seq<Match>, n: nat, blockEnd: nat): set<Match>
    requires n <= |matches|
  {
    set k | 0 <= k < n && matches[k].dest < blockEnd :: matches[k]
  }

  lemma NearStep(h: History, matches: seq<Match>, i: nat, blockEnd: nat)
    requires i < |matches| && Fresh(h, matches)
    ensures Near(matches, i + 1, blockEnd) == Near(matches, i, blockEnd) + (if matches[i].dest < blockEnd then {matches[i]} else {})
    ensures matches[i].dest !in Seen(h.(matches := h.matches + Near(matches, i, blockEnd)))
  {
  }

  // ----- a block nothing is due in -----

  /** What holds matches in memory: heap, its next stamp, chunks in use, budget. */
  datatype Load = Load(v: L.View, seqno: nat, used: nat, useful: nat)

  function Chunks(ms: seq<Match>): nat {
    if ms == [] then 0 else Chunks(ms[..|ms| - 1]) + (ms[|ms| - 1].length + 59) / 60
  }

  /** The matches have been added with bytes, in order, and nothing else has changed. */
  ghost predicate Loaded(a: Load, ms: seq<Match>, b: Load) {
    && b.useful == a.useful && b.used == a.used + Chunks(ms) && b.seqno == a.seqno + |ms|
    && (forall x :: x in b.v <==> x in a.v || a.seqno <= x < a.seqno + |ms|)
    && (forall x :: x in a.v ==> x in b.v && b.v[x] == a.v[x])
    && forall k {:trigger ms[k]} :: 0 <= k < |ms| ==> b.v[a.seqno + k].m == ms[k] && b.v[a.seqno + k].index != 0
  }

  ghost predicate Added(a: Load, m: Match, b: Load) {
    && b.useful == a.useful && b.used == a.used + (m.length + 59) / 60 && b.seqno == a.seqno + 1 && a.seqno !in a.v
    && exists i: nat :: i != 0 && b.v == a.v[a.seqno := Entry(m, i)]
  }

  lemma LoadedNone(a: Load)
    ensures Loaded(a, [], a)
  {
  }

  /** What the first i matches put off have done to the heap and the chunks. */
  ghost predicate Borne(a: Load, ms: seq<Match>, i: nat, end: nat, size: nat, b: Load)
    requires i <= |ms|
  {
    && (Roomy(a, ms, end) ==> Loaded(a, ms[..i], b))
    && (Crowded(a, ms, end, size) ==> if i == 0 then b == a else Squeezed(a, ms[0], size, b))
  }

  lemma BorneNone(a: Load, ms: seq<Match>, end: nat, size: nat)
    ensures Borne(a, ms, 0, end, size, a)
  {
    LoadedNone(a);
    assert ms[..0] == [];
  }

  // The next match fits, or takes the one save there is.
  lemma BorneFits(a: Load, ms: seq<Match>, i: nat, end: nat, size: nat, b: Load)
    requires i < |ms| && Borne(a, ms, i, end, size, b)
    ensures ms[i].dest < end ==> Borne(a, ms, i + 1, end, size, b)
    ensures Roomy(a, ms, end) || Crowded(a, ms, end, size) ==> 0 < ms[i].length != NO_LENGTH
    ensures Roomy(a, ms, end) ==> ms[i].length <= b.useful - b.used * 60 && b.useful > b.used * 60
    ensures Crowded(a, ms, end, size) ==> Tight(b, ms[i].length, size)
  {
    hide Tight, Loaded, Squeezed;
    if Roomy(a, ms, end) {
      RoomyNext(a, ms, i, b, end);
    }
  }

  lemma BorneMore(a: Load, ms: seq<Match>, i: nat, end: nat, size: nat, b: Load, c: Load)
    requires i < |ms| && Borne(a, ms, i, end, size, b)
    requires Roomy(a, ms, end) ==> Added(b, ms[i], c)
    requires Crowded(a, ms, end, size) ==> Squeezed(b, ms[i], size, c)
    ensures Borne(a, ms, i + 1, end, size, c)
  {
    hide Tight, Loaded, Squeezed, Added, Roomy;
    if Roomy(a, ms, end) {
      LoadedMore(a, ms[..i], b, ms[i], c);
      assert ms[..i] + [ms[i]] == ms[..i + 1];
    }
  }

  lemma BorneAll(a: Load, ms: seq<Match>, end: nat, size: nat, b: Load)
    requires Borne(a, ms, |ms|, end, size, b)
    ensures Roomy(a, ms, end) ==> Loaded(a, ms, b)
    ensures Crowded(a, ms, end, size) ==> Squeezed(a, ms[0], size, b)
  {
    hide Tight, Loaded, Squeezed, Roomy;
    assert ms[..|ms|] == ms;
  }

  lemma AheadMore(g: L.Ledger, g': L.Ledger, m: Match, end: nat)
    requires g'.pending.Keys <= g.pending.Keys + {m.dest} && end <= m.dest
    ensures L.Ahead(g, end) ==> L.Ahead(g', end)
  {
  }

  lemma LoadedMore(a: Load, ms: seq<Match>, b: Load, m: Match, c: Load)
    requires Loaded(a, ms, b) && Added(b, m, c)
    ensures Loaded(a, ms + [m], c)
  {
    assert (ms + [m])[..|ms|] == ms;
  }

  lemma {:induction false} ChunksGrow(ms: seq<Match>, i: nat)
    requires i <= |ms|
    ensures Chunks(ms[..i]) <= Chunks(ms)
  {
    if i < |ms| {
      ChunksGrow(ms[..|ms| - 1], i);
      assert ms[..|ms| - 1][..i] == ms[..i];
    } else {
      assert ms[..i] == ms;
    }
  }

  ghost predicate Idle(v: L.View, end: nat) {
    forall x :: x in v ==> end <= v[x].m.dest
  }

  /** What a save leaves: the heap at the end of the walk, with a mark at the
      destination of the last match taken, and fewer chunks in use. */
  ghost predicate Leaves(a: Load, course: seq<Spot>, c: Load) {
    && Taken(course) != [] && c.useful == a.useful && c.used < a.used && c.seqno == a.seqno + 1
    && exists b: nat :: MarkPut(Remains(course), c.v, b, a.seqno, LastOf(Taken(course)))
  }

  function LastOf(ms: seq<Match>): nat {
    if ms == [] then 0 else ms[|ms| - 1].dest
  }

  ghost predicate MarkPut(v: L.View, v': L.View, b: nat, n: int, dest: nat) {
    v' == L.Marked(v, b, n, dest)
  }

  lemma LeavesIs(a: Load, course: seq<Spot>, mid: Load, b: nat, recs: seq<Rec>, c: Load)
    requires Remains(course) == mid.v && recs != [] && Taken(course) == Matches(recs)
    requires mid.useful == a.useful && mid.used < a.used && mid.seqno == a.seqno
    requires c == Load(L.Marked(mid.v, b, a.seqno, LastDest(recs)), a.seqno + 1, mid.used, mid.useful)
    ensures Leaves(a, course, c)
  {
    assert LastOf(Matches(recs)) == LastDest(recs);
    assert MarkPut(mid.v, c.v, b, a.seqno, LastOf(Taken(course)));
  }

  /** So many bytes do not fit in the chunks, but they do after a save, and the
      heap lets one spill something. */
  ghost predicate Tight(a: Load, n: nat, size: nat) {
    && n > 0 && a.used > 0 && a.useful < n + 60 * a.used <= a.useful + 60
    && size > 0 && NIL !in a.v && exists course :: Whole(course, a.v, size) && Taken(course) != []
  }

  ghost predicate SavedOnce(a: Load, size: nat, c: Load) {
    exists course :: Whole(course, a.v, size) && Leaves(a, course, c)
  }

  lemma TightSpills(a: Load, n: nat, size: nat, course: seq<Spot>)
    requires Tight(a, n, size) && Whole(course, a.v, size)
    ensures Taken(course) != []
  {
    hide Whole;
    var ts :| Whole(ts, a.v, size) && Taken(ts) != [];
    OneWhole(ts, course, a.v, size);
  }

  lemma TightMeans(a: Load, n: nat, size: nat)
    ensures Tight(a, n, size) ==> n > 0 && size > 0 && a.useful < n + 60 * a.used
  {
  }

  lemma SavedOnceIs(a: Load, size: nat, course: seq<Spot>, c: Load)
    requires Whole(course, a.v, size) && Leaves(a, course, c)
    ensures SavedOnce(a, size, c)
  {
  }

  lemma TightFits(a: Load, n: nat, size: nat, c: Load)
    requires Tight(a, n, size) && SavedOnce(a, size, c)
    ensures n + 60 * c.used <= c.useful
  {
  }

  // The block's only match leaves it and takes a save to be kept.
  ghost predicate Crowded(a: Load, ms: seq<Match>, end: nat, size: nat) {
    |ms| == 1 && ms[0].dest >= end && 0 < ms[0].length != NO_LENGTH && Tight(a, ms[0].length, size)
  }

  ghost predicate Squeezed(a: Load, m: Match, size: nat, c: Load) {
    exists b :: SavedOnce(a, size, b) && Added(b, m, c)
  }

  // All matches leave the block, with bytes, and the chunks in the budget hold them.
  ghost predicate Roomy(a: Load, ms: seq<Match>, end: nat) {
    && (forall k :: 0 <= k < |ms| ==> ms[k].dest >= end && 0 < ms[k].length != NO_LENGTH)
    && 60 * (a.used + Chunks(ms)) <= a.useful
  }

  // The next match fits.
  lemma RoomyNext(a: Load, ms: seq<Match>, i: nat, b: Load, end: nat)
    requires Roomy(a, ms, end) && i < |ms| && Loaded(a, ms[..i], b)
    ensures ms[i].length <= b.useful - b.used * 60 && b.useful > b.used * 60
    ensures ms[i].dest >= end && 0 < ms[i].length != NO_LENGTH && ms[..i] + [ms[i]] == ms[..i + 1]
  {
    ChunksGrow(ms, i + 1);
    assert ms[..i + 1][..i] == ms[..i];
  }

  class Kernel {
    const base: nat
    const mm: MemMgr
    const heap: Heap
    const blockSize: nat
    const buf: array<byte>
    var blocks: seq<Option<seq<byte>>>
    var free: seq<nat>
    var next: nat
    ghost var g: L.Ledger
    // Whether every spilled block is marked at its first destination.
    ghost var low: bool

    ghost predicate State(open: int, from: nat)
      reads this, mm, heap
    {
      && mm.Valid() && heap.Valid()
      && L.Inv(heap.View(), mm.Stored(), blocks, g, open, from)
      && (low ==> L.AllLow(heap.View(), mm.Stored(), blocks, g, open, from))
      && buf.Length == blockSize
      && FreeBlocks()
    }

    ghost predicate FreeBlocks()
      reads `next, `free, `blocks
    {
      && next == |blocks|
      && (forall k :: 0 <= k < |free| ==> free[k] < |blocks| && blocks[free[k]].None?)
      && (forall j, k :: 0 <= j < k < |free| ==> free[j] != free[k])
    }

    ghost predicate Valid()
      reads this, mm, heap
    {
      State(-1, 0)
    }

    /** newKernelLimited, with the barrier node at the end of the heap. */
    constructor (base: nat, memLimit: nat, vmBlock: nat)
      requires memLimit < U64
      ensures Valid() && g.pending == map[] && low
      ensures fresh(mm) && fresh(heap) && fresh(buf)
      ensures Carries() == Load(map[0 := Entry(Match(U64 - 1, U64 - 1, NO_LENGTH), 0)], 1, 0, mm.useful)
      ensures this.base == base && blockSize == vmBlock
      ensures ChunkMemory.BLOCK <= memLimit ==> mm.useful == 60 * (memLimit / ChunkMemory.BLOCK * PER_BLOCK - 1)
      ensures Between(History({}, [], [], [], {})) && L.Marks(heap.View(), g)
    {
      hide Inv, Tree, Ordered, Told, L.Inv, L.AllLow, L.Marks, MemMgr.Stored, Entries;
      this.base := base;
      mm := new MemMgr(memLimit);
      heap := new Heap(0x12345678);
      blockSize := vmBlock;
      buf := new byte[vmBlock];
      blocks, free, next := [], [], 0;
      g := L.Ledger(map[], map[], map[], map[], map[]);
      low := true;
      new;
      var n := heap.Insert(Match(U64 - 1, U64 - 1, NO_LENGTH), 0);
      NothingTold(heap.View(), g);
    }

    /** Writes match m and its saved bytes to the buffer at p. */
    method WriteRecord(m: Match, index: nat, p: nat)
      requires mm.Valid() && index in mm.g.chains && mm.Stored()[index] == Flatten(mm.g.chains[index])
      requires m.length == |Flatten(mm.g.chains[index])| && p + 20 + m.length <= buf.Length
      modifies buf
      ensures buf[..p + 20 + m.length] == old(buf[..p]) + Header(m) + mm.Stored()[index]
    {
      hide Splice, Le, Header, Flatten;
      ghost var d, data := buf[..], Flatten(mm.g.chains[index]);
      PutLe(buf, p, m.length, 4);
      ghost var d1 := buf[..];
      PutLe(buf, p + 4, m.src, 8);
      ghost var d2 := buf[..];
      PutLe(buf, p + 12, m.dest, 8);
      ghost var d3 := buf[..];
      mm.Restore(index, buf, p + 20, m.length);
      assert data[..m.length] == data;
      RecordWritten(d, d1, d2, d3, buf[..], p, Rec(m, data));
    }

    /** Moves the iterator past the nodes with the destination about to be erased. */
    method Advance(cur: int, base: int) returns (base': int)
      requires heap.Linked() && cur in heap.View() && Before(heap.View(), base, cur)
      ensures base' != NIL ==> base' in heap.View() && heap.View()[base'].m.dest != heap.View()[cur].m.dest
      ensures Skipped(heap.View(), cur, base') && (base' != NIL ==> Lt(VK(heap.View(), cur), VK(heap.View(), base')))
    {
      hide Tree;
      TreeHas(heap.store, heap.spans, heap.root);
      base' := base;
      BeforeSkips(heap.View(), base, cur);
      while base' != NIL && heap.store[base'].m.dest == heap.store[cur].m.dest
        invariant base' != NIL ==> base' in heap.View() && Lt(VK(heap.View(), cur), VK(heap.View(), base'))
        invariant Skipped(heap.View(), cur, base')
        decreases After(heap.View(), base')
      {
        var n := heap.Next(base');
        NextSkips(heap.View(), cur, base', n);
        base' := n;
      }
    }

    /** The heap forgets cur and all matches to its destination; the iterator is
        left on the node after them. */
    method Forget(cur: int, base: int) returns (base': int)
      requires heap.Valid() && cur in heap.View() && Before(heap.View(), base, cur)
      modifies heap
      ensures heap.Valid() && heap.seqno == old(heap.seqno)
      ensures heap.View() == L.Without(old(heap.View()), old(heap.View()[cur]).m.dest)
      ensures Below(heap.View(), base', Key(old(heap.View()[cur]).m.dest, cur)) && Lands(old(heap.View()), cur, base')
      ensures base' != NIL ==> Lt(Key(old(heap.View()[cur]).m.dest, cur), VK(heap.View(), base'))
    {
      hide Tree, Ordered, Before, Below, Lands, L.Without;
      ghost var v, d := heap.View(), heap.store[cur].m.dest;
      heap.SetIndex(cur, 0);
      Reindexed(v, base, cur);
      base' := Advance(cur, base);
      LandsSame(v, cur, base');
      SkippedBelow(v, cur, base');
      heap.EraseDest(heap.store[cur].m.dest);
      ErasedView(v, cur);
    }

    /** Moves match `cur` from heap and chunks to the buffer at p. Erasing its
        destination leaves the iterator on the node after it. */
    method SpillMatch(cur: int, base: int, p: nat, ghost b: nat) returns (base': int, p': nat)
      requires State(b, 0) && b in g.recs && cur in heap.View() && heap.View()[cur].index != 0
      requires Before(heap.View(), base, cur)
      requires p + 24 + heap.View()[cur].m.length <= blockSize && buf[..p] == Serialize(g.recs[b])
      modifies `g, mm, heap, buf
      ensures State(b, 0) && b in g.recs && g.pending == old(g.pending) && g.mark == old(g.mark)
      ensures old(heap.View()[cur]).index in old(mm.Stored())
      ensures g.recs == old(g.recs)[b := old(g.recs[b]) + [Rec(old(heap.View()[cur]).m, old(mm.Stored())[old(heap.View()[cur]).index])]]
      ensures p' == p + 20 + old(heap.View()[cur]).m.length && buf[..p'] == Serialize(g.recs[b])
      ensures heap.View() == L.Without(old(heap.View()), old(heap.View()[cur]).m.dest)
      ensures mm.used < old(mm.used) && heap.seqno == old(heap.seqno)
      ensures Below(heap.View(), base', Key(old(heap.View()[cur]).m.dest, cur)) && Lands(old(heap.View()), cur, base')
      ensures base' != NIL ==> Lt(Key(old(heap.View()[cur]).m.dest, cur), VK(heap.View(), base'))
    {
      hide Inv, Tree, Ordered, Serialize, Flatten, L.Inv, L.AllLow, L.ToDisk, L.Without, L.CanSpill, Before, Below, Lands, FreeBlocks;
      var x := heap.store[cur];
      ghost var v, st := heap.View(), mm.Stored();
      CanSpillNow(v, st, blocks, g, b, cur);
      L.SpillKeeps(v, st, blocks, g, b, cur);
      WriteRecord(x.m, x.index, p);
      SerializeSnoc(g.recs[b], Rec(x.m, st[x.index]));
      mm.FreeChain(x.index);
      base' := Forget(cur, base);
      ToDiskFacts(v, st, g, b, cur);
      g := L.ToDisk(v, st, g, b, cur);
      p' := p + 20 + x.m.length;
    }

    // The buffer holds the records of block b.
    ghost predicate Filled(b: nat, p: nat, minDest: nat, used: nat)
      reads this, mm, heap, buf
    {
      && State(b, 0) && b in g.recs
      && p <= buf.Length && buf[..p] == Serialize(g.recs[b])
      && if g.recs[b] == [] then mm.used == used else mm.used < used && p + 4 <= blockSize && minDest == LastDest(g.recs[b])
    }

    // What a spill leaves alone.
    ghost predicate Since(b: nat, past: Past)
      reads this, heap
    {
      && g.pending == past.g.pending && g.recs - {b} == past.g.recs - {b} && g.mark == past.g.mark
      && heap.seqno == past.seqno && Shrunk(past.v, heap.View(), past.g.pending, past.seqno)
      && b in g.recs && L.Drawn(past.v, heap.View(), g.recs[b])
    }

    method WalkStep(base: int, ghost recs: seq<Rec>, ghost k: Walk) returns (base': int, cur: int, ghost k': Walk)
      requires heap.Linked() && WalkOk(heap.View(), recs, k) && k.base == base
      ensures NIL !in heap.View() && (base' != NIL ==> base' in heap.View()) && (cur != NIL ==> cur in heap.View())
      ensures cur != NIL ==> k'.base == base' && WalkOk(heap.View(), recs, k') && Reaches(heap.View(), k', cur) && Closer(heap.View(), base, base')
      ensures k'.late == k.late && Looks(heap.View(), base, base', cur)
      ensures k'.wrapped == (k.wrapped || AtFront(heap.View(), base))
      ensures recs != [] ==> (LastLow(recs) <==> !k.late)
    {
      hide Tree, Wrapped, Descending;
      ghost var v := heap.View();
      EndWalk(v, recs, k);
      base' := heap.Pred(base);
      cur := heap.Pred(base');
      FrontIs(v, base, base');
      k' := WalkOn(v, recs, k, base', cur);
    }

    method SpillStep(cur: int, base: int, p: nat, minDest: nat, ghost b: nat, ghost used: nat, ghost k: Walk, ghost past: Past)
      returns (base': int, p': nat, minDest': nat, ghost k': Walk, ghost r: Rec)
      requires Filled(b, p, minDest, used) && cur in heap.View() && heap.View()[cur].index != 0
      requires WalkOk(heap.View(), g.recs[b], k) && Reaches(heap.View(), k, cur) && k.base == base
      requires p + 24 + heap.View()[cur].m.length <= blockSize && mm.used <= used && Since(b, past)
      modifies `g, mm, heap, buf
      ensures Filled(b, p', minDest', used) && mm.used <= used && Since(b, past)
      ensures WalkOk(heap.View(), g.recs[b], k') && k'.base == base' && k'.wrapped == k.wrapped && k'.late == k.wrapped
      ensures HeldNodes(heap.View()) < old(HeldNodes(heap.View()))
      ensures heap.View() == L.Without(old(heap.View()), old(heap.View())[cur].m.dest) && Lands(old(heap.View()), cur, base')
      ensures p' == p + 20 + old(heap.View())[cur].m.length && g.recs[b] == old(g.recs[b]) + [r] && r.m == old(heap.View())[cur].m
    {
      hide Inv, Tree, Ordered, Serialize, Flatten, L.Inv, L.AllLow, L.Drawn, Before, Below, Lands, FreeBlocks, WalkOk, LastLow, Shrunk, MemMgr.Stored;
      ghost var v, st, recs := heap.View(), mm.Stored(), g.recs[b];
      var x := heap.store[cur];
      minDest' := x.m.dest;
      SpillShrinks(v, cur);
      CanSpillNow(v, st, blocks, g, b, cur);
      EndWalk(v, recs, k);
      if k.wrapped {
        Distinct(v, st, blocks, g, b, cur, k.w);
      }
      base', p' := SpillMatch(cur, base, p, b);
      r := Rec(x.m, st[x.index]);
      k' := WalkSpills(v, heap.View(), recs, k, cur, base', r);
      ShrinkStep(past.v, v, g.pending, cur, past.seqno);
      L.DrawnStep(past.v, v, recs, cur, r);
    }

    // A spill, and the walk's course with it.
    method SpillOn(cur: int, base: int, p: nat, minDest: nat, ghost b: nat, ghost used: nat, ghost k0: Walk, ghost k: Walk, ghost past: Past,
                   ghost course: seq<Spot>)
      returns (base': int, p': nat, minDest': nat, ghost k': Walk, ghost course': seq<Spot>)
      requires Filled(b, p, minDest, used) && cur in heap.View() && heap.View()[cur].index != 0
      requires WalkOk(heap.View(), g.recs[b], k) && Reaches(heap.View(), k, cur) && k.base == base
      requires p + 24 + heap.View()[cur].m.length <= blockSize && mm.used <= used && Since(b, past)
      requires Arrives(course, past.v, blockSize, heap.View(), k0.base, p, g.recs[b]) && Flags(course, k0.wrapped, k0.late)
      requires Looks(heap.View(), k0.base, base, cur) && k.wrapped == (k0.wrapped || AtFront(heap.View(), k0.base))
      modifies `g, mm, heap, buf
      ensures Filled(b, p', minDest', used) && b in g.recs && mm.used <= used && State(b, 0) && Since(b, past)
      ensures WalkOk(heap.View(), g.recs[b], k') && k'.base == base' && HeldNodes(heap.View()) < old(HeldNodes(heap.View()))
      ensures Arrives(course', past.v, blockSize, heap.View(), base', p', g.recs[b]) && Flags(course', k'.wrapped, k'.late)
    {
      hide State, Filled, WalkOk, Reaches, Since, Arrives, Looks, Lands, Flags, AtFront, HeldNodes, L.Without;
      FilledState(b, p, minDest, used);
      ghost var v, recs := heap.View(), g.recs[b];
      ghost var r;
      base', p', minDest', k', r := SpillStep(cur, base, p, minDest, b, used, k, past);
      course' := SpillsNext(course, past.v, blockSize, v, k0.base, p, recs, base, cur, base', r, k0.wrapped, k0.late);
      FilledState(b, p', minDest', used);
    }

    /** The walk of save: every second match from the end is moved to the buffer,
        as long as there is room. The walk is cyclic: past the first node it
        starts again at the last. */
    method FillBuffer(ghost b: nat) returns (p: nat, minDest: nat, ghost course: seq<Spot>)
      requires State(b, 0) && b in g.recs && g.recs[b] == []
      modifies `g, mm, heap, buf
      ensures Filled(b, p, minDest, old(mm.used))
      ensures Since(b, Past(old(g), old(heap.View()), old(heap.seqno)))
      ensures g.recs[b] != [] ==> (LastLow(g.recs[b]) <==> !SpillsOn(course))
      ensures Whole(course, old(heap.View()), blockSize) && Taken(course) == Matches(g.recs[b])
      ensures Remains(course) == heap.View()
    {
      hide State, WalkOk, Reaches, LastLow, Phase, Earlier, Filled, Since, Arrives, Looks, Lands, Stuck, Whole, Flags, AtFront, SpillsOn, Taken, Remains, HeldNodes;
      ghost var past, used, k := Past(g, heap.View(), heap.seqno), mm.used, Walk(NIL, ALL.hi, false, 0, false);
      minDest := U64 - 1;
      p := 0;
      var base := NIL;
      StartFill(b, minDest, k);
      SetsOut(past.v, blockSize);
      course := [Spot(past.v, NIL, blockSize, [])];
      FlagsStart(past.v, blockSize);
      while true
        invariant Filled(b, p, minDest, used) && b in g.recs && mm.used <= used && State(b, 0)
        invariant Since(b, past) && k.base == base && WalkOk(heap.View(), g.recs[b], k)
        invariant Arrives(course, past.v, blockSize, heap.View(), base, p, g.recs[b]) && Flags(course, k.wrapped, k.late)
        decreases HeldNodes(heap.View()), Phase(heap.View(), base), Earlier(heap.View(), base)
      {
        ghost var v, recs, k0 := heap.View(), g.recs[b], k;
        var base1, cur;
        StateHeap(b);
        base1, cur, k := WalkStep(base, recs, k);
        if cur == NIL {
          FlagsLate(course, k0.wrapped, k0.late);
          Stops(course, past.v, blockSize, v, base, p, recs, base1, cur);
          break;
        }
        var x := heap.store[cur];
        if x.index == 0 {
          course := PassesOn(course, past.v, blockSize, v, base, p, recs, base1, cur, k0.wrapped, k0.late);
          base := base1;
          continue;
        }
        if blockSize - p < 24 + x.m.length {
          FlagsLate(course, k0.wrapped, k0.late);
          Stops(course, past.v, blockSize, v, base, p, recs, base1, cur);
          break;
        }
        base, p, minDest, k, course := SpillOn(cur, base1, p, minDest, b, used, k0, k, past, course);
      }
    }

    lemma StartFill(b: nat, minDest: nat, k: Walk)
      requires State(b, 0) && b in g.recs && g.recs[b] == [] && k == Walk(NIL, ALL.hi, false, 0, false)
      ensures Filled(b, 0, minDest, mm.used) && Since(b, Past(g, heap.View(), heap.seqno)) && WalkOk(heap.View(), g.recs[b], k)
    {
      StartWalk(heap.store, heap.spans, heap.root, k);
    }

    lemma StateHeap(b: nat)
      requires State(b, 0)
      ensures heap.Linked()
    {
    }

    lemma FilledState(b: nat, p: nat, minDest: nat, used: nat)
      requires Filled(b, p, minDest, used)
      ensures State(b, 0) && b in g.recs && p <= buf.Length
    {
    }

    // The number the next spilled block gets.
    ghost function Number(): nat
      reads this
    {
      if free == [] then next else free[|free| - 1]
    }

    // A mark for the block just stored.
    method SetMark(block: nat, minDest: nat, ghost before: seq<Option<seq<byte>>>, ghost late: bool) returns (ghost n: int)
      requires mm.Valid() && heap.Valid() && buf.Length == blockSize && FreeBlocks()
      requires L.Inv(heap.View(), mm.Stored(), before, g, block, 0) && (low ==> L.AllLow(heap.View(), mm.Stored(), before, g, block, 0))
      requires block in g.recs && g.recs[block] != [] && minDest == LastDest(g.recs[block]) && (LastLow(g.recs[block]) <==> !late)
      requires |before| <= |blocks| && block < |blocks| && blocks[block] == Some(Spilled(g.recs[block]))
      requires forall c :: 0 <= c < |blocks| && c != block ==> blocks[c] == if c < |before| then before[c] else None
      modifies `g, `low, heap
      ensures Valid() && low == (old(low) && !late) && g == old(g).(mark := old(g).mark[block := n])
      ensures n == old(heap.seqno) && heap.seqno == n + 1 && Shrunk(old(heap.View()), heap.View(), g.pending, old(heap.seqno))
      ensures L.MarkOk(heap.View(), g, block) && (L.Low(heap.View(), g, block) <==> !late)
      ensures heap.View() == L.Marked(old(heap.View()), block, n, LastDest(g.recs[block]))
    {
      hide Inv, Tree, Ordered, L.Inv, L.AllLow, Serialize, Spilled, MemMgr.Stored, L.Low, L.MarkOk, Shrunk, FreeBlocks;
      ghost var v := heap.View();
      LastRec(v, mm.Stored(), before, g, block);
      n := heap.Insert(Match(block, minDest, 0), 0);
      L.CloseKeeps(v, mm.Stored(), before, blocks, g, block, n, |g.recs[block]| - 1);
      g := g.(mark := g.mark[block := n]);
      low := low && !late;
      NewMark(v, mm.Stored(), blocks, g, block, n);
    }

    /** The end of save: the buffer becomes a block, and a mark stands for it in the heap. */
    method StoreBlock(p: nat, minDest: nat, ghost late: bool, ghost used: nat) returns (ghost n: int)
      requires FreeBlocks() && Filled(Number(), p, minDest, used) && g.recs[Number()] != []
      requires LastLow(g.recs[Number()]) <==> !late
      modifies this, heap, buf
      ensures Valid() && g.pending == old(g.pending) && mm.used < used
      ensures low == (old(low) && !late)
      ensures n == old(heap.seqno) && heap.seqno == n + 1 && Shrunk(old(heap.View()), heap.View(), g.pending, old(heap.seqno))
      ensures old(Number()) in g.recs && g.recs == old(g.recs) && L.MarkOk(heap.View(), g, old(Number()))
      ensures L.Low(heap.View(), g, old(Number())) <==> !late
      ensures g == old(g).(mark := old(g).mark[old(Number()) := n])
      ensures heap.View() == L.Marked(old(heap.View()), old(Number()), n, LastDest(g.recs[old(Number())]))
    {
      hide Inv, Tree, Ordered, L.Inv, L.AllLow, Serialize, Spilled, MemMgr.Stored, L.Low, L.MarkOk, Shrunk, FreeBlocks, LastLow, LastDest, L.Marked;
      ghost var b, before := Number(), blocks;
      PutLe(buf, p, 0, 4);
      EndsWith(old(buf[..]), buf[..], p, g.recs[b]);
      var stored := buf[..p + 4];
      var block := TakeNumber(stored);
      n := SetMark(block, minDest, before, late);
    }

    method TakeNumber(stored: seq<byte>) returns (block: nat)
      requires FreeBlocks()
      modifies `blocks, `free, `next
      ensures FreeBlocks() && block == old(Number())
      ensures |old(blocks)| <= |blocks| && block < |blocks| && blocks[block] == Some(stored)
      ensures forall c :: 0 <= c < |blocks| && c != block ==> blocks[c] == if c < |old(blocks)| then old(blocks)[c] else None
    {
      if |free| == 0 {
        block := next;
        next := next + 1;
      } else {
        block := free[|free| - 1];
        free := free[..|free| - 1];
      }
      ghost var free0, next0 := free, next;
      while |blocks| <= block
        invariant blocks == old(blocks) || (|old(blocks)| == block && blocks == old(blocks) + [None])
        invariant block <= |old(blocks)|
        invariant free == free0 && next == next0
      {
        blocks := blocks + [None];
      }
      blocks := blocks[block := Some(stored)];
    }

    // What a save keeps of the heap before it.
    ghost predicate Saved(v: L.View, g0: L.Ledger, seqno: nat)
      reads this, heap
    {
      g.pending == g0.pending && heap.seqno >= seqno && Shrunk(v, heap.View(), g.pending, seqno) && L.Settled(v, g0, heap.View(), g)
    }

    lemma SaveSaves(v: L.View, g0: L.Ledger, seqno: nat, b: nat, v1: L.View, g1: L.Ledger, n: int, s1: nat)
      requires NIL !in v && b !in g0.recs && b in g1.recs && g1.recs[b] != [] && seqno <= s1 && (forall x :: x in v ==> x < seqno)
      requires g1.recs - {b} == g0.recs && g1.mark == g0.mark && g1.pending == g0.pending
      requires Shrunk(v, v1, g1.pending, seqno) && L.Drawn(v, v1, g1.recs[b])
      requires g == g1.(mark := g1.mark[b := n]) && heap.seqno >= s1 && Shrunk(v1, heap.View(), g.pending, s1)
      requires heap.View() == L.Marked(v1, b, n, LastDest(g1.recs[b]))
      ensures Saved(v, g0, seqno)
    {
      hide Shrunk, L.Settled, L.Drawn, L.Marked;
      L.SaveSettles(v, g0, b, v1, g1, n, |g1.recs[b]| - 1);
      ShrunkTwice(v, v1, heap.View(), g.pending, seqno, s1);
    }

    /** virtMem.save: every second match from the end of the heap moves to a new
        block on disk, until the block is full. It fails exactly when the walk
        finds nothing to spill. Nothing pending is lost, and the block's mark is at
        its first destination exactly when the heap before the call does not make
        the walk spill on after passing the front. */
    method Save() returns (ok: bool, ghost course: seq<Spot>)
      requires Valid()
      modifies this, mm, heap, buf
      ensures ok ==> Valid() && mm.used < old(mm.used) && Saved(old(heap.View()), old(g), old(heap.seqno))
      ensures ok ==> low == (old(low) && !Late(old(heap.View()), blockSize))
      ensures ok ==> exists b :: b in g.recs && b !in old(g.recs) && Matches(g.recs[b]) == Taken(course)
                                 && L.MarkOk(heap.View(), g, b) && (L.Low(heap.View(), g, b) <==> !Late(old(heap.View()), blockSize))
      ensures ok ==> Leaves(old(Carries()), course, Carries())
      ensures blockSize > 0 ==> Whole(course, old(heap.View()), blockSize)
      ensures ok <==> blockSize > 0 && Taken(course) != []
    {
      hide Inv, Tree, Ordered, L.Inv, L.AllLow, Serialize, MemMgr.Stored, L.Low, L.MarkOk, Shrunk, L.Settled, L.Drawn, L.Marked, LastLow, Late, Whole, SpillsOn, Saved, Taken, Leaves, Remains;
      if blockSize == 0 {
        return false, [];
      }
      var before := mm.used;
      ghost var b, v := Number(), heap.View();
      FreshNumber(v, mm.Stored(), blocks, g, b);
      L.OpenKeeps(v, mm.Stored(), blocks, g, b);
      g := g.(recs := g.recs[b := []]);
      var q, m;
      q, m, course := FillBuffer(b);
      LateIs(course, v, blockSize);
      if mm.used >= before {
        return false, course;
      }
      ghost var v1, s1, g1 := heap.View(), heap.seqno, g;
      ghost var n := StoreBlock(q, m, SpillsOn(course), before);
      SaveSaves(v, old(g), old(heap.seqno), b, v1, g1, n, s1);
      LeavesIs(old(Carries()), course, Load(v1, s1, mm.used, mm.useful), b, g.recs[b], Carries());
      return true, course;
    }

    /** One record of the block being emptied, from disk to chunks and heap. */
    method Reload(ghost b: nat, ghost j: nat, src: nat, dest: nat, data: seq<byte>, ghost past: Past)
      requires State(b, j) && b in g.recs && j < |g.recs[b]| && g.recs[b][j] == Rec(Match(src, dest, |data|), data)
      modifies `g, mm, heap
      ensures State(b, j + 1) && g.recs == old(g.recs) && g.pending == old(g.pending) && g.mark == old(g.mark)
      ensures forall v: L.View :: L.Refilled(v, old(heap.View())) ==> L.Refilled(v, heap.View())
      ensures forall d :: L.Placed(old(g), d, b) ==> L.Placed(g, d, b)
      requires Shrunk(past.v, heap.View(), g.pending, past.seqno) && past.seqno <= heap.seqno && forall x :: x in past.v ==> x < past.seqno
      ensures Shrunk(past.v, heap.View(), g.pending, past.seqno) && past.seqno <= heap.seqno
    {
      hide Inv, Tree, Ordered, L.Inv, L.AllLow, Flatten, FreeBlocks, Shrunk;
      ghost var v, st, r := heap.View(), mm.Stored(), g.recs[b][j];
      RecFacts(v, st, blocks, g, b, j);
      var i := mm.Save(data);
      var n := heap.Insert(Match(src, dest, |data|), i);
      L.ReloadKeeps(v, st, blocks, g, b, j, n, i);
      g := L.Reloaded(g, r, n, i);
      ShrunkGrows(past.v, v, g.pending, past.seqno, n, r.m, i);
      assert i != 0;
    }

    /** Spills until a whole block fits in the chunks. */
    method MakeRoom() returns (ok: bool)
      requires Valid()
      modifies this, mm, heap, buf
      ensures ok ==> Valid() && g.pending == old(g.pending) && (low ==> old(low)) && mm.Available() >= blockSize
      ensures ok ==> heap.seqno >= old(heap.seqno) && Shrunk(old(heap.View()), heap.View(), g.pending, old(heap.seqno))
      ensures ok ==> L.Settled(old(heap.View()), old(g), heap.View(), g)
    {
      hide Inv, Tree, Ordered, L.Inv, L.AllLow, MemMgr.Stored, Shrunk, L.Settled;
      ghost var past := Past(g, heap.View(), heap.seqno);
      ShrunkRefl(past.v, g.pending, past.seqno);
      Unmoved(past.v, g);
      while mm.Available() < blockSize
        invariant Valid() && g.pending == past.g.pending && (low ==> old(low))
        invariant heap.seqno >= past.seqno && Shrunk(past.v, heap.View(), g.pending, past.seqno)
        invariant L.Settled(past.v, past.g, heap.View(), g)
        decreases mm.used
      {
        ghost var v1, g1, s1 := heap.View(), g, heap.seqno;
        ghost var course;
        var ok1;
        ok1, course := Save();
        if !ok1 {
          return false;
        }
        ShrunkTwice(past.v, v1, heap.View(), g.pending, past.seqno, s1);
        L.SettledTwice(past.v, past.g, v1, g1, heap.View(), g);
      }
      ok := true;
    }

    /** Every record of a block's bytes goes back to the heap. */
    method Refill(b: nat, data: seq<byte>, ghost v1: L.View, ghost past: Past) returns (ok: bool)
      requires State(b, 0) && b in g.recs && data == Spilled(g.recs[b]) && (forall r :: r in g.recs[b] ==> RecOk(r))
      requires L.Refilled(v1, heap.View())
      requires heap.seqno >= past.seqno && Shrunk(past.v, heap.View(), g.pending, past.seqno) && forall x :: x in past.v ==> x < past.seqno
      modifies `g, mm, heap
      ensures ok && g.recs == old(g.recs) && State(b, |g.recs[b]|) && g.pending == old(g.pending) && g.mark == old(g.mark)
      ensures heap.seqno >= past.seqno && Shrunk(past.v, heap.View(), g.pending, past.seqno)
      ensures L.Refilled(v1, heap.View()) && forall d :: L.Placed(old(g), d, b) ==> L.Placed(g, d, b)
    {
      hide Inv, Tree, Ordered, L.Inv, L.AllLow, State, Serialize, Spilled, Shrunk, L.Placed, L.Refilled, ReadsAt;
      ghost var recs, g0, j := g.recs[b], g, 0;
      var p: nat := 0;
      ReadsFirst(data, recs);
      while true
        invariant State(b, j) && g.pending == g0.pending && g.mark == g0.mark && g.recs == g0.recs
        invariant 0 <= j <= |recs| && ReadsAt(data, p, recs, j)
        invariant heap.seqno >= past.seqno && Shrunk(past.v, heap.View(), g.pending, past.seqno)
        invariant L.Refilled(v1, heap.View()) && forall d :: L.Placed(g0, d, b) ==> L.Placed(g, d, b)
        decreases |recs| - j
      {
        ReadRecord(data, p, recs, j);
        if p + 4 > |data| {
          return false;
        }
        var n := UnLe(data[p..p + 4]);
        assert j < |recs| ==> recs[j] in recs;
        if n == 0 {
          break;
        }
        if p + 20 + n > |data| {
          return false;
        }
        Reload(b, j, UnLe(data[p + 4..p + 12]), UnLe(data[p + 12..p + 20]), data[p + 20..p + 20 + n], past);
        p := p + 20 + n;
        j := j + 1;
      }
      ok := true;
    }

    /** The records of the block behind `mark` go back to the heap, after enough
        others have been spilled to make room for a whole block. */
    method Restore(mark: int) returns (ok: bool)
      requires Valid() && mark in heap.View() && heap.View()[mark].index == 0 && heap.View()[mark].m.length == 0
      modifies this, mm, heap, buf
      ensures ok ==> Valid() && g.pending == old(g.pending) && (low ==> old(low))
      ensures ok ==> heap.seqno >= old(heap.seqno) && Shrunk(old(heap.View()), heap.View(), g.pending, old(heap.seqno))
      ensures ok ==> old(heap.View())[mark].m.src !in g.recs
      ensures ok && L.Marks(old(heap.View()), old(g)) ==> L.Back(old(heap.View()), mark, heap.View(), g)
    {
      hide Inv, Tree, Ordered, L.Inv, L.AllLow, Serialize, Spilled, Flatten, MemMgr.Stored, Shrunk, L.Settled, L.Placed, L.Marks, L.Back, L.Refilled;
      var src := heap.store[mark].m.src;
      ghost var past := Past(g, heap.View(), heap.seqno);
      ok := MakeRoom();
      if !ok {
        return;
      }
      ghost var v1, g1 := heap.View(), g;
      Unmoved(v1, g);
      StillThere(past, v1, mm.Stored(), blocks, g, mark);
      if src > 0xffff_ffff || src >= |blocks| {
        return false;
      }
      if blocks[src].None? {
        return false;
      }
      var data := blocks[src].value;
      L.UnloadKeeps(v1, mm.Stored(), blocks, g, src);
      AllRecOk(g, src);
      blocks := blocks[src := None];
      free := free + [src];
      ok := Refill(src, data, v1, past);
      ghost var v, st := heap.View(), mm.Stored();
      L.UnloadedKeeps(v, st, blocks, g, src);
      if L.Marks(past.v, past.g) {
        L.BlockBack(past.v, past.g, mark, v1, g1, v, st, blocks, g, src);
      }
      g := g.(recs := g.recs - {src});
    }

    // The kernel in the middle of a block.
    ghost predicate MidBlock(h: History, locals: map<nat, int>, blockStart: nat, blockEnd: nat)
      reads this, mm, heap
    {
      Valid() && Mid(h, g, heap.View(), locals, blockStart, blockEnd)
    }

    /** The block's own matches enter the heap, those put off beyond it wait outside. */
    method Enter(matches: seq<Match>, blockEnd: nat, ghost h: History) returns (ghost h': History, ghost locals: map<nat, int>)
      requires MidBlock(h, map[], |h.o|, blockEnd) && |h.o| <= blockEnd < U64 && Fresh(h, matches)
      requires forall k :: 0 <= k < |matches| ==> InBlock(matches[k], |h.o|, blockEnd)
      modifies heap
      ensures MidBlock(h', locals, |h.o|, blockEnd)
      ensures h' == h.(matches := h.matches + Near(matches, |matches|, blockEnd))
      ensures g == old(g) && (L.Marks(old(heap.View()), g) && NoneEmpty(matches) ==> L.Marks(heap.View(), g))
      ensures (forall k :: 0 <= k < |matches| ==> matches[k].dest >= blockEnd) ==> Carries() == old(Carries())
    {
      hide Inv, Tree, Ordered, L.Inv, L.AllLow, Mid, MemMgr.Stored, FreeBlocks, L.Marks;
      h', locals := h, map[];
      var i := 0;
      while i < |matches|
        invariant 0 <= i <= |matches|
        invariant MidBlock(h', locals, |h.o|, blockEnd)
        invariant h' == h.(matches := h.matches + Near(matches, i, blockEnd))
        invariant L.Marks(old(heap.View()), g) && NoneEmpty(matches) ==> L.Marks(heap.View(), g)
        invariant (forall k :: 0 <= k < |matches| ==> matches[k].dest >= blockEnd) ==> Carries() == old(Carries())
      {
        var m := matches[i];
        NearStep(h, matches, i, blockEnd);
        if m.dest < blockEnd {
          ghost var v := heap.View();
          var n := heap.Insert(m, 0);
          EnterKeeps(h', g, v, locals, |h.o|, blockEnd, m, n);
          L.AddKeeps(v, mm.Stored(), blocks, g, n, m);
          if L.Marks(v, g) && m.length > 0 {
            L.MarksStay(v, g, heap.View(), g);
          }
          h' := h'.(matches := h'.matches + {m});
          locals := if m.length == 0 then locals else locals[m.dest := n];
        }
        i := i + 1;
      }
    }

    /** A match with saved bytes is copied from its chunks, which are then free. */
    method ApplyHeld(lz: int, out: array<byte>, outPos: nat, ghost h: History, ghost locals: map<nat, int>, ghost start: nat, ghost end: nat)
      returns (ghost h': History)
      requires out != buf && MidBlock(h, locals, start, end) && lz in heap.View() && heap.View()[lz].index != 0
      requires heap.View()[lz].m.dest == |h.o| && outPos + heap.View()[lz].m.length <= out.Length
      modifies `g, mm, heap, out
      ensures MidBlock(h', locals, start, end) && old(heap.View()[lz]).m in h.matches
      ensures forall j :: 0 <= j < outPos ==> out[j] == old(out[j])
      ensures h' == Copied(h, old(heap.View()[lz]).m, out[outPos..outPos + old(heap.View()[lz]).m.length])
      ensures heap.View() == old(heap.View()) - {lz} && g.recs == old(g.recs) && g.mark == old(g.mark)
    {
      hide Inv, Tree, Ordered, L.Inv, L.AllLow, Mid, FreeBlocks, Flatten, Splice;
      ghost var v, st, m := heap.View(), mm.Stored(), heap.View()[lz].m;
      var x := heap.store[lz];
      L.ApplyKeeps(v, st, blocks, g, lz);
      ghost var data := st[x.index];
      HeldLength(v, st, blocks, g, lz);
      MatchAhead(h, g, v, locals, start, end, m.dest);
      HeldKeeps(h, g, v, locals, start, end, lz, x.index);
      mm.Restore(x.index, out, outPos, x.m.length);
      SpliceParts(old(out[..]), outPos, data, out[..]);
      mm.FreeChain(x.index);
      heap.EraseNode(lz);
      g := L.Applied(g, m.dest, x.index);
      h' := Copied(h, m, data);
    }

    /** A match without saved bytes is copied from the block's own output. */
    method ApplyLocal(lz: int, out: array<byte>, outPos: nat, srcOff: nat, ghost h: History, ghost locals: map<nat, int>, ghost start: nat, ghost end: nat)
      returns (ghost h': History, ghost locals': map<nat, int>)
      requires out != buf && MidBlock(h, locals, start, end) && lz in heap.View() && heap.View()[lz].index == 0 && heap.View()[lz].m.length > 0
      requires heap.View()[lz].m.dest == |h.o| == start + outPos < end && end < U64
      requires start <= |h.o| && outPos <= out.Length && heap.View()[lz].m.src == start + srcOff && h.o[start..] == out[..outPos]
      requires outPos + heap.View()[lz].m.length <= out.Length && srcOff + heap.View()[lz].m.length <= out.Length
      modifies heap, out
      ensures MidBlock(h', locals', start, end) && old(heap.View()[lz]).m in h.matches
      ensures forall j :: 0 <= j < outPos ==> out[j] == old(out[j])
      ensures h' == Copied(h, old(heap.View()[lz]).m, out[outPos..outPos + old(heap.View()[lz]).m.length])
      ensures heap.View() == old(heap.View()) - {lz} && g == old(g)
    {
      hide Inv, Tree, Ordered, L.Inv, L.AllLow, Mid, FreeBlocks, L.Spare;
      ghost var v, m := heap.View(), heap.View()[lz].m;
      LocalFacts(v, mm.Stored(), blocks, h, g, locals, start, end, lz);
      CopyLZ(out, outPos, srcOff, heap.store[lz].m.length);
      ghost var data := out[outPos..outPos + m.length];
      SameBlock(h.o, out[..], old(out[..]), start, outPos, srcOff, m.length, data);
      LocalKeeps(h, g, v, locals, start, end, lz, data);
      L.DropKeeps(v, mm.Stored(), blocks, g, lz);
      heap.EraseNode(lz);
      h', locals' := Copied(h, m, data), locals - {m.dest};
    }

    // The block so far: what it has written, read and copied.
    ghost predicate Telling(t: Tale, f: Frame, out: array<byte>, outPos: nat, inPos: nat)
      reads this, mm, heap, out
    {
      MidBlock(t.h, t.locals, f.start, f.end) && Decoded(t, f, out[..], outPos, inPos)
    }

    /** Literals up to the next destination. */
    method Gap(out: array<byte>, outPos: nat, inPos: nat, gap: nat, lits: seq<byte>, ghost t: Tale, ghost f: Frame) returns (ghost t': Tale)
      requires out != buf && Telling(t, f, out, outPos, inPos) && f.lits == lits && inPos + gap <= |lits| && outPos + gap <= out.Length
      modifies out
      ensures Telling(t', f, out, outPos + gap, inPos + gap) && |t'.h.o| == |t.h.o| + gap
    {
      hide Inv, Tree, Ordered, L.Inv, L.AllLow, Mid, FreeBlocks, Splice, Valid;
      ghost var more, d0 := lits[inPos..inPos + gap], out[..];
      CopyIn(out, outPos, lits[inPos..inPos + gap], gap);
      GapKeeps(t.h, g, heap.View(), t.locals, f.start, f.end, more);
      t' := t.(h := Gapped(t.h, more));
      SpliceParts(d0, outPos, more, out[..]);
      GapDecoded(t, f, d0, out[..], outPos, inPos, more);
    }

    /** The first match of the heap is checked and applied. */
    method ApplyMatch(lz: int, lits: seq<byte>, out: array<byte>, outPos: nat, inPos: nat, start: nat, ghost t: Tale, ghost f: Frame)
      returns (ok: bool, outPos': nat, inPos': nat, ghost t': Tale)
      requires out != buf && Telling(t, f, out, outPos, inPos) && f.lits == lits && f.start == start && f.end < U64
      requires lz in heap.View() && heap.View()[lz].m.length > 0 && heap.View()[lz].m.dest < f.end
      modifies `g, mm, heap, out
      ensures ok ==> Telling(t', f, out, outPos', inPos') && outPos < outPos'
      ensures ok ==> heap.View() == old(heap.View()) - {lz} && g.recs == old(g.recs) && g.mark == old(g.mark)
    {
      hide Inv, Tree, Ordered, L.Inv, L.AllLow, Mid, FreeBlocks, Splice, Valid, Decoded;
      outPos', inPos', t' := outPos, inPos, t;
      var x := heap.store[lz];
      DecodedBounds(t, f, out[..], outPos, inPos);
      if x.m.dest < start + outPos {
        return false, outPos, inPos, t;
      }
      var gap := x.m.dest - start - outPos;
      if gap > |lits| - inPos || gap > out.Length - outPos {
        return false, outPos, inPos, t;
      }
      if x.m.length > out.Length - outPos - gap {
        return false, outPos, inPos, t;
      }
      t' := Gap(out, outPos, inPos, gap, lits, t, f);
      inPos' := inPos + gap;
      outPos' := outPos + gap;
      if x.m.length == NO_LENGTH && x.m.src < start {
        return false, outPos', inPos', t';
      }
      ghost var h, locals, at, d0 := t'.h, t'.locals, outPos', out[..];
      DecodedBounds(t', f, d0, at, inPos');
      if x.index != 0 {
        h := ApplyHeld(lz, out, outPos', h, locals, f.start, f.end);
      } else {
        if x.m.src < start || x.m.src - start > out.Length {
          return false, outPos', inPos', t';
        }
        var srcOff := x.m.src - start;
        if srcOff + x.m.length > out.Length {
          return false, outPos', inPos', t';
        }
        h, locals := ApplyLocal(lz, out, outPos', srcOff, h, locals, f.start, f.end);
      }
      ghost var t0 := t';
      t' := Tale(h, locals);
      CopyDecoded(t0, f, d0, out[..], at, inPos', x.m, t');
      outPos' := outPos' + x.m.length;
      ok := true;
    }

    /** A mark at the front of the heap: its block comes back, the mark goes. */
    method Unspill(lz: int, ghost h: History, ghost locals: map<nat, int>, ghost start: nat, ghost end: nat) returns (ok: bool)
      requires MidBlock(h, locals, start, end) && lz in heap.View() && IsFirst(heap.View(), lz) && heap.View()[lz].m.length == 0
      modifies this, mm, heap, buf
      ensures ok ==> MidBlock(h, locals, start, end) && (low ==> old(low))
      ensures ok && L.Marks(old(heap.View()), old(g)) ==> Ready(heap.View(), g, old(heap.View())[lz].m.dest)
    {
      hide Inv, Tree, Ordered, L.Inv, L.AllLow, Mid, FreeBlocks, MemMgr.Stored, Shrunk, L.Marks, L.Back, Ready, IsFirst, L.Spare;
      ghost var v, g0, s0 := heap.View(), g, heap.seqno;
      EmptyNode(v, mm.Stored(), blocks, g, lz);
      ok := Restore(lz);
      if !ok {
        return;
      }
      ghost var v1 := heap.View();
      MarkSpare(v, v1, mm.Stored(), blocks, g, lz, s0);
      heap.EraseNode(lz);
      L.DropKeeps(v1, mm.Stored(), blocks, g, lz);
      ShrunkCalm(v, v1, g0.pending, s0, lz);
      CalmKeeps(h, g0, g, v, v1 - {lz}, locals, start, end);
      if L.Marks(v, g0) {
        BackReady(v, lz, v1, g);
      }
    }

    /** The loop of block: literals and matches in the order of the heap, until
        every destination left lies beyond the block. `fuel` bounds the spilled
        blocks that come back; without matches of length 0, each of them lets the
        block go on by a byte at least. */
    method Drain(lits: seq<byte>, out: array<byte>, start: nat, fuel: nat, ghost t0: Tale, ghost f: Frame)
      returns (v: Verdict, outPos: nat, inPos: nat, ghost t: Tale)
      requires out != buf && Telling(t0, f, out, 0, 0) && f.lits == lits && f.start == start && f.end < U64
      modifies this, mm, heap, buf, out
      ensures v.Done? ==> Telling(t, f, out, outPos, inPos) && (low ==> old(low))
      ensures v.Done? ==> forall x :: x in heap.View() ==> f.end <= heap.View()[x].m.dest
      ensures v.Done? && L.Marks(old(heap.View()), old(g)) ==> L.Marks(heap.View(), g)
      ensures v.Exhausted? && L.Marks(old(heap.View()), old(g)) ==> fuel <= out.Length
      ensures Idle(old(heap.View()), f.end) ==> v.Done? && outPos == inPos == 0 && Carries() == old(Carries())
    {
      hide Inv, Tree, Ordered, L.Inv, L.AllLow, Mid, FreeBlocks, MemMgr.Stored, L.Marks, Ready, Decoded;
      outPos, inPos, t := 0, 0, t0;
      var left := fuel;
      ghost var tidy, due := L.Marks(heap.View(), g), None;
      while true
        invariant Telling(t, f, out, outPos, inPos) && (low ==> old(low)) && 0 <= left
        invariant tidy ==> L.Marks(heap.View(), g) && fuel <= left + outPos + (if due.Some? then 1 else 0)
        invariant tidy && due.Some? ==> Ready(heap.View(), g, due.value)
        invariant Idle(old(heap.View()), f.end) ==> outPos == inPos == 0 && Carries() == old(Carries())
        decreases left, out.Length - outPos
      {
        DecodedBounds(t, f, out[..], outPos, inPos);
        var lz := heap.Begin();
        if lz == NIL || heap.store[lz].m.dest >= start + out.Length {
          break;
        }
        if tidy && due.Some? {
          ReadyFirst(heap.View(), mm.Stored(), blocks, g, due.value, lz);
        }
        if heap.store[lz].m.length == 0 {
          if left == 0 {
            return Exhausted, outPos, inPos, t;
          }
          left := left - 1;
          ghost var d := heap.View()[lz].m.dest;
          var ok := Unspill(lz, t.h, t.locals, f.start, f.end);
          if !ok {
            return Broken, outPos, inPos, t;
          }
          due := Some(d);
          ReadyMarks(heap.View(), g, d);
        } else {
          ghost var v0, g0, at := heap.View(), g, outPos;
          var ok;
          ok, outPos, inPos, t := ApplyMatch(lz, lits, out, outPos, inPos, start, t, f);
          if !ok {
            return Broken, outPos, inPos, t;
          }
          if tidy {
            L.MarksStay(v0, g0, heap.View(), g);
          }
          due := None;
        }
      }
      v := Done;
    }

    /** Spills until n bytes fit in the chunks. */
    method MakeSpace(n: nat, ghost h: History) returns (ok: bool)
      requires MidBlock(h, map[], |h.o|, |h.o|)
      modifies this, mm, heap, buf
      ensures ok ==> MidBlock(h, map[], |h.o|, |h.o|) && (low ==> old(low)) && g.pending == old(g.pending) && n <= mm.Available()
      ensures ok && L.Marks(old(heap.View()), old(g)) ==> L.Marks(heap.View(), g)
      ensures n <= old(mm.Available()) ==> ok && Carries() == old(Carries())
      ensures Tight(old(Carries()), n, blockSize) ==> ok && SavedOnce(old(Carries()), blockSize, Carries())
    {
      hide Inv, Tree, Ordered, L.Inv, L.AllLow, Mid, FreeBlocks, MemMgr.Stored, L.Marks, L.Dests, Shrunk, Tight, SavedOnce, Whole, Leaves, Taken;
      ghost var load := Carries();
      TightMeans(load, n, blockSize);
      while n > mm.Available()
        invariant MidBlock(h, map[], |h.o|, |h.o|) && (low ==> old(low)) && g.pending == old(g.pending)
        invariant L.Marks(old(heap.View()), old(g)) ==> L.Marks(heap.View(), g)
        invariant n <= old(mm.Available()) ==> Carries() == old(Carries())
        invariant Tight(load, n, blockSize) ==> Carries() == load || SavedOnce(load, blockSize, Carries())
        decreases mm.used
      {
        if Tight(load, n, blockSize) && Carries() != load {
          TightFits(load, n, blockSize, Carries());
        }
        ghost var v, g0, s := heap.View(), g, heap.seqno;
        ghost var course;
        var ok1;
        ok1, course := Save();
        if Tight(load, n, blockSize) {
          TightSpills(load, n, blockSize, course);
        }
        if !ok1 {
          return false;
        }
        if Tight(load, n, blockSize) {
          SavedOnceIs(load, blockSize, course, Carries());
        }
        SavedCalm(v, heap.View(), g.pending, s);
        CalmKeeps(h, g0, g, v, heap.View(), map[], |h.o|, |h.o|);
      }
      ok := true;
    }

    /** A match with the barrier length waits without bytes. */
    method Bar(m: Match, ghost h: History) returns (ghost h': History)
      requires MidBlock(h, map[], |h.o|, |h.o|) && m.dest !in Seen(h) && InBlock(m, 0, |h.o|) && |h.o| <= m.dest && m.length == NO_LENGTH
      modifies `g, heap
      ensures h' == h.(matches := h.matches + {m}) && MidBlock(h', map[], |h.o|, |h.o|)
      ensures g.pending.Keys <= old(g.pending.Keys) + {m.dest}
      ensures L.Marks(old(heap.View()), old(g)) ==> L.Marks(heap.View(), g)
    {
      hide Inv, Tree, Ordered, L.Inv, L.AllLow, Mid, FreeBlocks, MemMgr.Stored, L.Marks;
      h' := h.(matches := h.matches + {m});
      ghost var v, g0, r := heap.View(), g, Rec(m, h.o[m.src..m.src + m.length]);
      var n := heap.Insert(m, 0);
      DeferAccount(h, g, v, m, n, 0);
      L.BarKeeps(v, mm.Stored(), blocks, g, r, n);
      g := L.Deferred(g, r, L.Barred(n));
      if L.Marks(v, g0) {
        L.MarksStay(v, g0, heap.View(), g);
      }
    }

    /** A match waits with its bytes, which the block has just decoded. */
    method Hold(m: Match, data: seq<byte>, ghost h: History) returns (ghost h': History)
      requires MidBlock(h, map[], |h.o|, |h.o|) && m.dest !in Seen(h) && InBlock(m, 0, |h.o|) && |h.o| <= m.dest
      requires data == h.o[m.src..m.src + m.length]
      modifies `g, mm, heap
      ensures h' == h.(matches := h.matches + {m}) && MidBlock(h', map[], |h.o|, |h.o|)
      ensures g.pending.Keys <= old(g.pending.Keys) + {m.dest}
      ensures m.length > 0 && L.Marks(old(heap.View()), old(g)) ==> L.Marks(heap.View(), g)
      ensures m.length > 0 ==> Added(old(Carries()), m, Carries())
    {
      hide Inv, Tree, Ordered, L.Inv, L.AllLow, Mid, FreeBlocks, MemMgr.Stored, L.Marks;
      h' := h.(matches := h.matches + {m});
      ghost var v, g0, st, r := heap.View(), g, mm.Stored(), Rec(m, data);
      var index := mm.Save(data);
      var n := heap.Insert(m, index);
      if m.length == 0 {
        EmptyAccount(h, g, v, m, n);
        L.AddKeeps(v, st, blocks, g, n, m);
      } else {
        DeferAccount(h, g, v, m, n, index);
        L.DeferKeeps(v, st, blocks, g, r, n, index);
        g := L.Deferred(g, r, L.Held(n)).(own := g.own[index := n]);
        if L.Marks(v, g0) {
          L.MarksStay(v, g0, heap.View(), g);
        }
      }
    }

    method DeferOne(m: Match, out: array<byte>, start: nat, ghost h: History) returns (ok: bool, ghost h': History)
      requires out != buf && start + out.Length == |h.o| && h.o[start..] == out[..] && MidBlock(h, map[], |h.o|, |h.o|)
      requires m.dest !in Seen(h) && InBlock(m, start, |h.o|) && |h.o| <= m.dest
      modifies this, mm, heap, buf
      ensures ok ==> h' == h.(matches := h.matches + {m}) && MidBlock(h', map[], |h.o|, |h.o|) && (low ==> old(low))
      ensures ok ==> g.pending.Keys <= old(g.pending.Keys) + {m.dest}
      ensures ok && L.Marks(old(heap.View()), old(g)) && m.length > 0 ==> L.Marks(heap.View(), g)
      ensures 0 < m.length != NO_LENGTH && m.length <= old(mm.Available()) ==> ok && Added(old(Carries()), m, Carries())
      ensures 0 < m.length != NO_LENGTH && Tight(old(Carries()), m.length, blockSize) ==> ok && Squeezed(old(Carries()), m, blockSize, Carries())
    {
      hide Inv, Tree, Ordered, L.Inv, L.AllLow, Mid, FreeBlocks, MemMgr.Stored, L.Marks, Seen, Added, Tight, SavedOnce;
      h' := h;
      if m.length == NO_LENGTH {
        h' := Bar(m, h);
      } else {
        ok := MakeSpace(m.length, h);
        if !ok {
          return;
        }
        var rel := m.src - start;
        if rel > out.Length || out.Length - rel < m.length {
          return false, h;
        }
        SameSlice(h.o, out[..], start, m);
        h' := Hold(m, out[rel..rel + m.length], h);
      }
      ok := true;
    }

    /** The matches with a destination beyond the block are put off. */
    method Defer(matches: seq<Match>, out: array<byte>, start: nat, ghost h: History) returns (ok: bool, ghost h': History)
      requires out != buf && start + out.Length == |h.o| && h.o[start..] == out[..] && MidBlock(h, map[], |h.o|, |h.o|)
      requires FreshFar(h, matches, |h.o|) && forall k :: 0 <= k < |matches| ==> InBlock(matches[k], start, |h.o|)
      modifies this, mm, heap, buf
      ensures ok ==> h' == h.(matches := h.matches + Far(matches, |matches|, |h.o|)) && MidBlock(h', map[], |h.o|, |h.o|)
      ensures ok ==> (low ==> old(low)) && (L.Ahead(old(g), |h.o|) ==> L.Ahead(g, |h.o|))
      ensures ok && L.Marks(old(heap.View()), old(g)) && NoneEmpty(matches) ==> L.Marks(heap.View(), g)
      ensures Roomy(old(Carries()), matches, |h.o|) ==> ok && Loaded(old(Carries()), matches, Carries())
      ensures Crowded(old(Carries()), matches, |h.o|, blockSize) ==> ok && Squeezed(old(Carries()), matches[0], blockSize, Carries())
    {
      hide Inv, Tree, Ordered, L.Inv, L.AllLow, Mid, FreeBlocks, MemMgr.Stored, L.Marks, L.Ahead, Loaded, Added, Roomy, Crowded, Tight, Squeezed, Borne, FreshFar, InBlock, Seen;
      ghost var load := Carries();
      BorneNone(load, matches, |h.o|, blockSize);
      var blockEnd := start + out.Length;
      h' := h;
      var i := 0;
      while i < |matches|
        invariant 0 <= i <= |matches| && (low ==> old(low))
        invariant h' == h.(matches := h.matches + Far(matches, i, |h.o|)) && MidBlock(h', map[], |h.o|, |h.o|)
        invariant L.Ahead(old(g), |h.o|) ==> L.Ahead(g, |h.o|)
        invariant L.Marks(old(heap.View()), old(g)) && NoneEmpty(matches) ==> L.Marks(heap.View(), g)
        invariant Borne(load, matches, i, |h.o|, blockSize, Carries())
      {
        var m := matches[i];
        ghost var load1, g1 := Carries(), g;
        BorneFits(load, matches, i, |h.o|, blockSize, load1);
        FarStep(h, matches, i, blockEnd);
        if m.dest >= blockEnd {
          ok, h' := DeferOne(m, out, start, h');
          if !ok {
            return;
          }
          BorneMore(load, matches, i, |h.o|, blockSize, load1, Carries());
          AheadMore(g1, g, m, |h.o|);
        }
        i := i + 1;
      }
      BorneAll(load, matches, |h.o|, blockSize, Carries());
      ok := true;
    }

    ghost function Carries(): Load
      reads heap, mm
    {
      Load(heap.View(), heap.seqno, mm.used, mm.useful)
    }

    // Between blocks.
    ghost predicate Between(h: History)
      reads this, mm, heap
    {
      Valid() && Told(h, g, heap.View())
    }

    /** The bytes of a block: its own matches and those that waited, literals between them. */
    method Fill(matches: seq<Match>, lits: seq<byte>, out: array<byte>, start: nat, fuel: nat, ghost h: History)
      returns (v: Verdict, ghost h': History)
      requires out != buf && Between(h) && start == |h.o| && start + out.Length < U64
      requires Fresh(h, matches) && forall k :: 0 <= k < |matches| ==> InBlock(matches[k], start, start + out.Length)
      modifies this, mm, heap, buf, out
      ensures v.Done? ==> MidBlock(h', map[], |h'.o|, |h'.o|) && |h'.o| == start + out.Length && h'.o[start..] == out[..]
      ensures v.Done? ==> h'.o == h.o + out[..] && h'.lits == h.lits + lits
      ensures v.Done? ==> h'.matches + Far(matches, |matches|, |h'.o|) == h.matches + All(matches) && FreshFar(h', matches, |h'.o|)
      ensures v.Done? ==> (low ==> old(low)) && (low ==> L.Ahead(g, |h'.o|))
      ensures L.Marks(old(heap.View()), old(g)) && NoneEmpty(matches) ==>
                (v.Exhausted? ==> fuel <= out.Length) && (v.Done? ==> L.Marks(heap.View(), g))
      ensures (|lits| == out.Length && Idle(old(heap.View()), start + out.Length)
               && forall k :: 0 <= k < |matches| ==> matches[k].dest >= start + out.Length) ==> v.Done? && Carries() == old(Carries())
    {
      hide Inv, Tree, Ordered, L.Inv, L.AllLow, Mid, Told, FreeBlocks, MemMgr.Stored, L.Marks, Decoded, Fresh, FreshFar, L.Ahead, Far, All;
      var blockEnd := start + out.Length;
      h' := h;
      ToldMid(h, g, heap.View(), blockEnd);
      ghost var h1, locals := Enter(matches, blockEnd, h);
      ghost var f, t := Frame(h1, lits, start, blockEnd), Tale(h1, locals);
      Opening(t, f, g, heap.View(), out[..]);
      var outPos, inPos;
      v, outPos, inPos, t := Drain(lits, out, start, fuel, t, f);
      if v.Broken? || v.Exhausted? {
        return v, h;
      }
      DecodedBounds(t, f, out[..], outPos, inPos);
      if |lits| - inPos != out.Length - outPos {
        return Broken, h;
      }
      t := Gap(out, outPos, inPos, |lits| - inPos, lits, t, f);
      DecodedBounds(t, f, out[..], out.Length, |lits|);
      Closing(t, f, g, heap.View(), mm.Stored(), blocks, out[..], h, matches);
      if low {
        L.LowAhead(heap.View(), mm.Stored(), blocks, g, blockEnd);
      }
      h' := t.h;
    }

    /** kernel.block: decodes one block. All its bytes are explained by the literals
        and the matches, wherever those waited. */
    method Block(stat: seq<byte>, lits: seq<byte>, out: array<byte>, blockStart: nat, fuel: nat, ghost h: History)
      returns (v: Verdict, ghost h': History)
      requires out != buf && Between(h) && blockStart == |h.o| && blockStart + out.Length < U64
      requires var ms := Stats(stat, base, blockStart, blockStart + out.Length); ms.Some? ==> Fresh(h, ms.value)
      modifies this, mm, heap, buf, out
      ensures v.Done? ==>
                && Stats(stat, base, blockStart, blockStart + out.Length).Some?
                && h'.matches == h.matches + All(Stats(stat, base, blockStart, blockStart + out.Length).value)
                && Between(h') && h'.o == h.o + out[..] && h'.lits == h.lits + lits
      ensures v.Done? ==> (low ==> old(low)) && (low ==> L.Ahead(g, |h'.o|))
      ensures var ms := Stats(stat, base, blockStart, blockStart + out.Length);
              (ms.None? ==> v.Broken?) && (ms.Some? && L.Marks(old(heap.View()), old(g)) && NoneEmpty(ms.value) ==>
                                            (v.Exhausted? ==> fuel <= out.Length) && (v.Done? ==> L.Marks(heap.View(), g)))
      ensures var ms := Stats(stat, base, blockStart, blockStart + out.Length);
              (ms.Some? && |lits| == out.Length && Idle(old(heap.View()), blockStart + out.Length)
               && Roomy(old(Carries()), ms.value, blockStart + out.Length)) ==> v.Done? && Loaded(old(Carries()), ms.value, Carries())
      ensures var ms := Stats(stat, base, blockStart, blockStart + out.Length);
              (ms.Some? && |lits| == out.Length && Idle(old(heap.View()), blockStart + out.Length)
               && Crowded(old(Carries()), ms.value, blockStart + out.Length, blockSize)) ==> v.Done? && Squeezed(old(Carries()), ms.value[0], blockSize, Carries())
    {
      hide Inv, Tree, Ordered, L.Inv, L.AllLow, Mid, Told, FreeBlocks, MemMgr.Stored, L.Marks, Stats, Fresh, FreshFar, L.Ahead, Loaded, Squeezed, Tight, Far, All;
      var decoded := DecodeStats(stat, base, blockStart, blockStart + out.Length);
      if decoded.None? {
        return Broken, h;
      }
      var matches := decoded.value;
      StatsInBlock(stat, base, blockStart, blockStart + out.Length);
      v, h' := Fill(matches, lits, out, blockStart, fuel, h);
      if v.Broken? || v.Exhausted? {
        return;
      }
      var ok;
      ok, h' := Defer(matches, out, blockStart, h');
      if !ok {
        return Broken, h;
      }
      ToldMid(h', g, heap.View(), |h'.o|);
    }
  }
}
