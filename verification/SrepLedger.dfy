/** Where the Future-LZ kernel keeps the matches whose destination is still to
    come: in the heap with their bytes in chunks, or in a spilled block. */
module SrepLedger {
  import opened Bytes
  import opened MatchHeap
  import opened SpillFormat

  type View = map<int, Entry>
  type Saved = map<nat, seq<byte>>

  datatype Loc = Held(node: int) | OnDisk(block: nat, k: nat) | Barred(node: int)

  /** recs: the records of each spilled block. pending: the matches still to be
      applied, by destination, with the bytes they copy. place: where each one is.
      own: the node that holds each chain of chunks. mark: the heap node that
      stands for each spilled block. */
  datatype Ledger = Ledger(recs: map<nat, seq<Rec>>, pending: map<nat, Rec>, place: map<nat, Loc>,
                           own: map<nat, int>, mark: map<nat, int>)

  // A node with a chain: its match is pending and its chunks hold the bytes.
  predicate HeldOk(v: View, st: Saved, g: Ledger, x: int)
    requires x in v
  {
    var e := v[x];
    e.index != 0 ==>
      && e.index in st && RecOk(Rec(e.m, st[e.index]))
      && e.m.dest in g.pending && g.pending[e.m.dest] == Rec(e.m, st[e.index])
      && e.m.dest in g.place && g.place[e.m.dest] == Held(x)
      && e.index in g.own && g.own[e.index] == x
  }

  // Every chain belongs to one node: nothing leaks.
  predicate OwnOk(v: View, st: Saved, g: Ledger) {
    && g.own.Keys == st.Keys
    && 0 !in st
    && forall i :: i in g.own ==> g.own[i] in v && v[g.own[i]].index == i
  }

  predicate PlaceOk(v: View, g: Ledger, d: nat, open: int, from: nat)
    requires d in g.pending
  {
    && g.pending[d].m.dest == d
    && d in g.place
    && match g.place[d]
       case Held(x) => x in v && v[x].index != 0 && v[x].m.dest == d
       case Barred(x) => x in v && v[x].index == 0 && v[x].m == g.pending[d].m && v[x].m.length == NO_LENGTH
       case OnDisk(b, k) => b in g.recs && k < |g.recs[b]| && g.recs[b][k].m.dest == d && (b == open ==> from <= k)
  }

  predicate RecsOk(g: Ledger, b: nat, from: nat)
    requires b in g.recs
  {
    forall k :: from <= k < |g.recs[b]| ==>
      var r := g.recs[b][k];
      && RecOk(r) && r.m.dest in g.pending && g.pending[r.m.dest] == r
      && r.m.dest in g.place && g.place[r.m.dest] == OnDisk(b, k)
  }

  // The node that stands for block b sits at the destination of one of its records.
  predicate MarkOk(v: View, g: Ledger, b: nat) {
    && b in g.mark && g.mark[b] in v
    && var e := v[g.mark[b]];
    && e.index == 0 && e.m.length == 0 && e.m.src == b
    && e.m.dest in g.pending && e.m.dest in g.place && g.place[e.m.dest].OnDisk? && g.place[e.m.dest].block == b
  }

  // ... and at the first of them.
  predicate Low(v: View, g: Ledger, b: nat)
    requires b in g.recs && MarkOk(v, g, b)
  {
    forall k :: 0 <= k < |g.recs[b]| ==> v[g.mark[b]].m.dest <= g.recs[b][k].m.dest
  }

  predicate DiskOk(blocks: seq<Option<seq<byte>>>, g: Ledger, open: int) {
    && (forall b :: b in g.recs && b != open ==> b < |blocks| && g.recs[b] != [] && blocks[b] == Some(Spilled(g.recs[b])))
    && (forall b: nat :: b < |blocks| && blocks[b].Some? ==> b in g.recs && b != open)
  }

  /** `open` is a block being filled or emptied (-1 for none); when it is being
      emptied, its records before `from` are back in the heap. */
  predicate Inv(v: View, st: Saved, blocks: seq<Option<seq<byte>>>, g: Ledger, open: int, from: nat) {
    && (forall x :: x in v ==> HeldOk(v, st, g, x))
    && OwnOk(v, st, g)
    && (forall d :: d in g.pending ==> PlaceOk(v, g, d, open, from))
    && (forall b :: b in g.recs ==> RecsOk(g, b, if b == open then from else 0))
    && (forall b :: b in g.recs && b != open ==> MarkOk(v, g, b))
    && DiskOk(blocks, g, open)
  }

  predicate AllLow(v: View, st: Saved, blocks: seq<Option<seq<byte>>>, g: Ledger, open: int, from: nat)
    requires Inv(v, st, blocks, g, open, from)
  {
    forall b :: b in g.recs && b != open ==> Low(v, g, b)
  }

  /** Every heap node of length 0 stands for a spilled block. */
  predicate Marks(v: View, g: Ledger) {
    forall x :: x in v && v[x].index == 0 && v[x].m.length == 0 ==>
      v[x].m.src in g.recs && v[x].m.src in g.mark && g.mark[v[x].m.src] == x
  }

  // Marks survive when no mark goes and no node of length 0 comes.
  lemma MarksStay(v: View, g: Ledger, v': View, g': Ledger)
    requires Marks(v, g) && g'.recs.Keys == g.recs.Keys && g'.mark == g.mark
    requires forall x :: x in v' && v'[x].m.length == 0 && v'[x].index == 0 ==> x in v && v'[x] == v[x]
    ensures Marks(v', g')
  {
  }

  predicate Ahead(g: Ledger, end: nat) {
    forall d :: d in g.pending ==> end <= d
  }

  /** When every mark is at its block's first destination, a heap that is past
      `end` has nothing pending before it. */
  lemma LowAhead(v: View, st: Saved, blocks: seq<Option<seq<byte>>>, g: Ledger, end: nat)
    requires Inv(v, st, blocks, g, -1, 0) && AllLow(v, st, blocks, g, -1, 0) && forall x :: x in v ==> end <= v[x].m.dest
    ensures Ahead(g, end)
  {
    forall d | d in g.pending
      ensures end <= d
    {
      assert PlaceOk(v, g, d, -1, 0);
      if g.place[d].OnDisk? {
        var b := g.place[d].block;
        assert MarkOk(v, g, b) && Low(v, g, b) && g.recs[b][g.place[d].k].m.dest == d;
        var x := g.mark[b];
        assert x in v;
        assert v[x].m.dest <= g.recs[b][g.place[d].k].m.dest;
      } else {
        assert end <= v[g.place[d].node].m.dest;
      }
    }
  }

  function Dests(v: View): set<nat> {
    set x | x in v :: v[x].m.dest
  }

  // The blocks keep their marks.
  predicate SameMarks(g: Ledger, g': Ledger) {
    g.recs.Keys <= g'.recs.Keys && forall b :: b in g.recs && b in g.mark ==> b in g'.mark && g'.mark[b] == g.mark[b]
  }

  // What a save leaves in place.
  predicate Settled(v: View, g: Ledger, v': View, g': Ledger) {
    Dests(v') <= Dests(v) && SameMarks(g, g') && (Marks(v, g) ==> Marks(v', g'))
  }

  lemma SettledTwice(v: View, g: Ledger, v1: View, g1: Ledger, v2: View, g2: Ledger)
    requires Settled(v, g, v1, g1) && Settled(v1, g1, v2, g2)
    ensures Settled(v, g, v2, g2)
  {
    hide Marks, Dests;
  }

  // The heap while records leave it for a block.
  predicate Drawn(v: View, v': View, recs: seq<Rec>) {
    (forall x :: x in v' ==> x in v && v'[x] == v[x]) && forall r :: r in recs ==> r.m.dest in Dests(v)
  }

  lemma DrawnStep(v: View, v': View, recs: seq<Rec>, cur: int, r: Rec)
    requires Drawn(v, v', recs) && cur in v' && r.m == v'[cur].m
    ensures Drawn(v, Without(v', r.m.dest), recs + [r])
  {
  }

  lemma SaveSettles(v: View, g: Ledger, b: nat, v1: View, g1: Ledger, n: int, k: nat)
    requires b !in g.recs && g1.mark == g.mark && b in g1.recs && g1.recs - {b} == g.recs
    requires k < |g1.recs[b]| && Drawn(v, v1, g1.recs[b])
    ensures Settled(v, g, Marked(v1, b, n, g1.recs[b][k].m.dest), g1.(mark := g1.mark[b := n]))
  {
    assert g1.recs[b][k] in g1.recs[b];
    forall c | c in g.recs
      ensures c in g1.recs && c != b
    {
      assert c in g1.recs - {b};
    }
  }

  // The heap while a block's records come back.
  predicate Refilled(v: View, v': View) {
    forall x :: x in v' && v'[x].index == 0 ==> x in v && v'[x] == v[x]
  }

  predicate Placed(g: Ledger, d: nat, b: nat) {
    d in g.pending && d in g.place && (g.place[d].Held? || (g.place[d].OnDisk? && g.place[d].block == b))
  }

  lemma MarkPlaced(v: View, st: Saved, blocks: seq<Option<seq<byte>>>, g: Ledger, v0: View, g0: Ledger, x: int)
    requires Inv(v, st, blocks, g, -1, 0) && Settled(v0, g0, v, g) && Marks(v0, g0)
    requires x in v0 && v0[x].index == 0 && v0[x].m.length == 0 && (x in v ==> v[x] == v0[x])
    ensures Placed(g, v0[x].m.dest, v0[x].m.src) && v0[x].m.src in g.mark && g.mark[v0[x].m.src] == x
  {
    assert MarkOk(v, g, v0[x].m.src);
  }

  /** After a block has come back, the destination of its mark is in the heap. */
  predicate Back(v: View, x: int, v': View, g': Ledger)
    requires x in v
  {
    && (forall y :: y in v' && v'[y].index == 0 ==> v'[y].m.dest in Dests(v))
    && v[x].m.dest in g'.pending && v[x].m.dest in g'.place && g'.place[v[x].m.dest].Held?
    && Marks(v' - {x}, g')
  }

  lemma BlockBack(v0: View, g0: Ledger, x: int, v1: View, g1: Ledger, v: View, st: Saved, blocks: seq<Option<seq<byte>>>, g: Ledger, b: nat)
    requires x in v0 && v0[x].m.src == b && Settled(v0, g0, v1, g1) && Marks(v0, g0) && Refilled(v1, v)
    requires b in g.recs && Inv(v, st, blocks, g, b, |g.recs[b]|) && Placed(g, v0[x].m.dest, b)
    requires g.recs.Keys == g1.recs.Keys && g.mark == g1.mark && b in g.mark && g.mark[b] == x
    ensures Back(v0, x, v, g.(recs := g.recs - {b}))
  {
    hide HeldOk, OwnOk, RecsOk, MarkOk, DiskOk;
    assert PlaceOk(v, g, v0[x].m.dest, b, |g.recs[b]|);
    forall y | y in v && v[y].index == 0
      ensures v[y].m.dest in Dests(v0)
    {
      assert v1[y].m.dest in Dests(v1);
    }
  }

  // ----- a match goes to disk -----

  function Without(v: View, dest: nat): View {
    map x | x in v && v[x].m.dest != dest :: v[x]
  }

  function ToDisk(v: View, st: Saved, g: Ledger, b: nat, cur: int): Ledger
    requires cur in v && v[cur].index in st && b in g.recs
  {
    var r := Rec(v[cur].m, st[v[cur].index]);
    g.(recs := g.recs[b := g.recs[b] + [r]], place := g.place[r.m.dest := OnDisk(b, |g.recs[b]|)], own := g.own - {v[cur].index})
  }

  predicate CanSpill(v: View, st: Saved, blocks: seq<Option<seq<byte>>>, g: Ledger, b: nat, cur: int) {
    Inv(v, st, blocks, g, b, 0) && b in g.recs && cur in v && v[cur].index != 0 && HeldOk(v, st, g, cur)
  }

  lemma SpillHeld(v: View, st: Saved, blocks: seq<Option<seq<byte>>>, g: Ledger, b: nat, cur: int, x: int)
    requires CanSpill(v, st, blocks, g, b, cur) && x in v && v[x].m.dest != v[cur].m.dest
    ensures HeldOk(Without(v, v[cur].m.dest), st - {v[cur].index}, ToDisk(v, st, g, b, cur), x)
  {
    assert HeldOk(v, st, g, x);
    hide Inv, PlaceOk, RecsOk, MarkOk, DiskOk;
  }

  lemma SpillOwn(v: View, st: Saved, blocks: seq<Option<seq<byte>>>, g: Ledger, b: nat, cur: int)
    requires CanSpill(v, st, blocks, g, b, cur)
    ensures OwnOk(Without(v, v[cur].m.dest), st - {v[cur].index}, ToDisk(v, st, g, b, cur))
  {
    hide PlaceOk, RecsOk, MarkOk, DiskOk;
    forall j | j in g.own && j != v[cur].index
      ensures g.own[j] in v && v[g.own[j]].index == j && v[g.own[j]].m.dest != v[cur].m.dest
    {
      assert HeldOk(v, st, g, g.own[j]);
    }
  }

  lemma SpillPlace(v: View, st: Saved, blocks: seq<Option<seq<byte>>>, g: Ledger, b: nat, cur: int, d: nat)
    requires CanSpill(v, st, blocks, g, b, cur) && d in g.pending
    ensures PlaceOk(Without(v, v[cur].m.dest), ToDisk(v, st, g, b, cur), d, b, 0)
  {
    assert PlaceOk(v, g, d, b, 0);
    assert PlaceOk(v, g, v[cur].m.dest, b, 0);
    hide Inv, RecsOk, MarkOk, DiskOk;
  }

  lemma SpillRecs(v: View, st: Saved, g: Ledger, b: nat, cur: int, c: nat)
    requires b in g.recs && cur in v && v[cur].index != 0 && HeldOk(v, st, g, cur) && c in g.recs && RecsOk(g, c, 0)
    ensures RecsOk(ToDisk(v, st, g, b, cur), c, 0)
  {
  }

  lemma SpillMark(v: View, st: Saved, blocks: seq<Option<seq<byte>>>, g: Ledger, b: nat, cur: int, c: nat)
    requires CanSpill(v, st, blocks, g, b, cur) && c in g.recs && c != b
    ensures MarkOk(v, g, c) && MarkOk(Without(v, v[cur].m.dest), ToDisk(v, st, g, b, cur), c)
    ensures Low(v, g, c) ==> Low(Without(v, v[cur].m.dest), ToDisk(v, st, g, b, cur), c)
  {
    assert MarkOk(v, g, c);
    hide Inv, RecsOk, DiskOk;
  }

  lemma SpillDisk(v: View, st: Saved, blocks: seq<Option<seq<byte>>>, g: Ledger, b: nat, cur: int)
    requires CanSpill(v, st, blocks, g, b, cur)
    ensures DiskOk(blocks, ToDisk(v, st, g, b, cur), b)
    ensures ToDisk(v, st, g, b, cur).pending == g.pending && ToDisk(v, st, g, b, cur).recs.Keys == g.recs.Keys
  {
    hide HeldOk, OwnOk, PlaceOk, RecsOk, MarkOk, Low;
  }

  lemma SpillKeeps(v: View, st: Saved, blocks: seq<Option<seq<byte>>>, g: Ledger, b: nat, cur: int)
    requires CanSpill(v, st, blocks, g, b, cur)
    ensures Inv(Without(v, v[cur].m.dest), st - {v[cur].index}, blocks, ToDisk(v, st, g, b, cur), b, 0)
    ensures AllLow(v, st, blocks, g, b, 0) ==>
              AllLow(Without(v, v[cur].m.dest), st - {v[cur].index}, blocks, ToDisk(v, st, g, b, cur), b, 0)
  {
    hide HeldOk, OwnOk, PlaceOk, RecsOk, MarkOk, Low, DiskOk, ToDisk;
    SpillOwn(v, st, blocks, g, b, cur);
    SpillDisk(v, st, blocks, g, b, cur);
    forall x | x in v && v[x].m.dest != v[cur].m.dest { SpillHeld(v, st, blocks, g, b, cur, x); }
    forall d | d in g.pending { SpillPlace(v, st, blocks, g, b, cur, d); }
    forall c | c in g.recs { SpillRecs(v, st, g, b, cur, c); }
    forall c | c in g.recs && c != b { SpillMark(v, st, blocks, g, b, cur, c); }
  }

  // ----- a block is opened, and closed under a mark -----

  lemma OpenKeeps(v: View, st: Saved, blocks: seq<Option<seq<byte>>>, g: Ledger, b: nat)
    requires Inv(v, st, blocks, g, -1, 0) && b !in g.recs
    requires b < |blocks| ==> blocks[b].None?
    ensures Inv(v, st, blocks, g.(recs := g.recs[b := []]), b, 0)
    ensures AllLow(v, st, blocks, g, -1, 0) ==> AllLow(v, st, blocks, g.(recs := g.recs[b := []]), b, 0)
  {
    hide HeldOk, RecsOk, MarkOk, Low, PlaceOk, OwnOk, DiskOk;
    OpenRest(v, st, blocks, g, b);
    var g' := g.(recs := g.recs[b := []]);
    forall d | d in g.pending ensures PlaceOk(v, g', d, b, 0) { OpenPlace(v, g, b, d); }
    forall c | c in g'.recs ensures RecsOk(g', c, 0) { OpenRecs(g, b, c); }
    forall x | x in v ensures HeldOk(v, st, g', x) { OpenHeld(v, st, g, b, x); }
    forall c | c in g.recs
      ensures MarkOk(v, g', c) && (Low(v, g, c) ==> Low(v, g', c))
    {
      OpenMark(v, g, b, c);
    }
  }

  lemma OpenRest(v: View, st: Saved, blocks: seq<Option<seq<byte>>>, g: Ledger, b: nat)
    requires OwnOk(v, st, g) && DiskOk(blocks, g, -1) && b !in g.recs && (b < |blocks| ==> blocks[b].None?)
    ensures OwnOk(v, st, g.(recs := g.recs[b := []])) && DiskOk(blocks, g.(recs := g.recs[b := []]), b)
  {
  }

  lemma OpenPlace(v: View, g: Ledger, b: nat, d: nat)
    requires b !in g.recs && d in g.pending && PlaceOk(v, g, d, -1, 0)
    ensures PlaceOk(v, g.(recs := g.recs[b := []]), d, b, 0)
  {
  }

  lemma OpenRecs(g: Ledger, b: nat, c: nat)
    requires b !in g.recs && (c != b ==> c in g.recs && RecsOk(g, c, 0))
    ensures RecsOk(g.(recs := g.recs[b := []]), c, 0)
  {
  }

  lemma OpenHeld(v: View, st: Saved, g: Ledger, b: nat, x: int)
    requires x in v && HeldOk(v, st, g, x)
    ensures HeldOk(v, st, g.(recs := g.recs[b := []]), x)
  {
  }

  lemma OpenMark(v: View, g: Ledger, b: nat, c: nat)
    requires b !in g.recs && c in g.recs && MarkOk(v, g, c)
    ensures MarkOk(v, g.(recs := g.recs[b := []]), c)
    ensures Low(v, g, c) ==> Low(v, g.(recs := g.recs[b := []]), c)
  {
  }

  // What the heap looks like once node n stands for the block b.
  function Marked(v: View, b: nat, n: int, minDest: nat): View {
    v[n := Entry(Match(b, minDest, 0), 0)]
  }

  lemma CloseKeeps(v: View, st: Saved, blocks: seq<Option<seq<byte>>>, blocks': seq<Option<seq<byte>>>, g: Ledger, b: nat, n: int, k: nat)
    requires Inv(v, st, blocks, g, b, 0) && b in g.recs && k < |g.recs[b]| && n !in v
    requires |blocks| <= |blocks'| && b < |blocks'| && blocks'[b] == Some(Spilled(g.recs[b]))
    requires forall c :: 0 <= c < |blocks'| && c != b ==> blocks'[c] == if c < |blocks| then blocks[c] else None
    ensures Inv(Marked(v, b, n, g.recs[b][k].m.dest), st, blocks', g.(mark := g.mark[b := n]), -1, 0)
    ensures AllLow(v, st, blocks, g, b, 0) && (forall j :: 0 <= j < |g.recs[b]| ==> g.recs[b][k].m.dest <= g.recs[b][j].m.dest) ==>
              AllLow(Marked(v, b, n, g.recs[b][k].m.dest), st, blocks', g.(mark := g.mark[b := n]), -1, 0)
  {
    hide HeldOk, RecsOk, MarkOk, Low, PlaceOk, DiskOk, OwnOk, Marked;
    var v', g' := Marked(v, b, n, g.recs[b][k].m.dest), g.(mark := g.mark[b := n]);
    CloseDisk(v, st, blocks, blocks', g, b, n, g.recs[b][k].m.dest);
    forall d | d in g.pending ensures PlaceOk(v', g', d, -1, 0) { ClosePlace(v, g, b, n, k, d); }
    forall c | c in g.recs ensures RecsOk(g', c, 0) { CloseRecs(g, b, n, c); }
    forall x | x in v' ensures HeldOk(v', st, g', x) { CloseHeld(v, st, g, b, n, k, x); }
    forall c | c in g.recs
      ensures MarkOk(v', g', c) && (c != b && Low(v, g, c) ==> Low(v', g', c))
      ensures (forall j :: 0 <= j < |g.recs[b]| ==> g.recs[b][k].m.dest <= g.recs[b][j].m.dest) ==> (c == b ==> Low(v', g', b))
    {
      CloseMark(v, g, b, n, k, c);
    }
  }

  lemma CloseDisk(v: View, st: Saved, blocks: seq<Option<seq<byte>>>, blocks': seq<Option<seq<byte>>>, g: Ledger, b: nat, n: int, minDest: nat)
    requires DiskOk(blocks, g, b) && OwnOk(v, st, g) && b in g.recs && g.recs[b] != [] && n !in v
    requires |blocks| <= |blocks'| && b < |blocks'| && blocks'[b] == Some(Spilled(g.recs[b]))
    requires forall c :: 0 <= c < |blocks'| && c != b ==> blocks'[c] == if c < |blocks| then blocks[c] else None
    ensures DiskOk(blocks', g.(mark := g.mark[b := n]), -1)
    ensures OwnOk(Marked(v, b, n, minDest), st, g.(mark := g.mark[b := n]))
    ensures Marked(v, b, n, minDest).Keys == v.Keys + {n}
  {
  }

  lemma ClosePlace(v: View, g: Ledger, b: nat, n: int, k: nat, d: nat)
    requires b in g.recs && k < |g.recs[b]| && n !in v && d in g.pending && PlaceOk(v, g, d, b, 0)
    ensures PlaceOk(Marked(v, b, n, g.recs[b][k].m.dest), g.(mark := g.mark[b := n]), d, -1, 0)
  {
  }

  lemma CloseRecs(g: Ledger, b: nat, n: int, c: nat)
    requires c in g.recs && RecsOk(g, c, 0)
    ensures RecsOk(g.(mark := g.mark[b := n]), c, 0)
  {
  }

  lemma CloseHeld(v: View, st: Saved, g: Ledger, b: nat, n: int, k: nat, x: int)
    requires b in g.recs && k < |g.recs[b]| && n !in v && (x != n ==> x in v && HeldOk(v, st, g, x))
    ensures HeldOk(Marked(v, b, n, g.recs[b][k].m.dest), st, g.(mark := g.mark[b := n]), x)
  {
  }

  lemma CloseMark(v: View, g: Ledger, b: nat, n: int, k: nat, c: nat)
    requires b in g.recs && k < |g.recs[b]| && n !in v && c in g.recs && (c != b ==> MarkOk(v, g, c)) && RecsOk(g, b, 0)
    ensures var v', g' := Marked(v, b, n, g.recs[b][k].m.dest), g.(mark := g.mark[b := n]);
            && MarkOk(v', g', c) && (c != b && Low(v, g, c) ==> Low(v', g', c))
            && ((forall j :: 0 <= j < |g.recs[b]| ==> g.recs[b][k].m.dest <= g.recs[b][j].m.dest) ==> (c == b ==> Low(v', g', b)))
  {
  }

  // ----- a block goes back to the heap -----

  lemma UnloadKeeps(v: View, st: Saved, blocks: seq<Option<seq<byte>>>, g: Ledger, b: nat)
    requires Inv(v, st, blocks, g, -1, 0) && b < |blocks| && blocks[b].Some?
    ensures b in g.recs && blocks[b] == Some(Spilled(g.recs[b]))
    ensures Inv(v, st, blocks[b := None], g, b, 0)
    ensures AllLow(v, st, blocks, g, -1, 0) ==> AllLow(v, st, blocks[b := None], g, b, 0)
    ensures RecsOk(g, b, 0)
  {
    hide HeldOk, RecsOk, MarkOk, Low, PlaceOk;
    forall d | d in g.pending ensures PlaceOk(v, g, d, b, 0) { PlaceOpens(v, g, d, b); }
    assert RecsOk(g, b, 0);
  }

  lemma PlaceOpens(v: View, g: Ledger, d: nat, b: nat)
    requires d in g.pending && PlaceOk(v, g, d, -1, 0)
    ensures PlaceOk(v, g, d, b, 0)
  {
  }

  lemma UnloadedKeeps(v: View, st: Saved, blocks: seq<Option<seq<byte>>>, g: Ledger, b: nat)
    requires b in g.recs && Inv(v, st, blocks, g, b, |g.recs[b]|)
    ensures Inv(v, st, blocks, g.(recs := g.recs - {b}), -1, 0)
    ensures AllLow(v, st, blocks, g, b, |g.recs[b]|) ==> AllLow(v, st, blocks, g.(recs := g.recs - {b}), -1, 0)
  {
    var g', n := g.(recs := g.recs - {b}), |g.recs[b]|;
    forall d | d in g.pending
      ensures PlaceOk(v, g', d, -1, 0)
    {
      assert PlaceOk(v, g, d, b, n);
    }
    forall c | c in g'.recs ensures RecsOk(g', c, 0) { assert RecsOk(g, c, 0); }
    forall x | x in v ensures HeldOk(v, st, g', x) { assert HeldOk(v, st, g, x); }
    forall c | c in g'.recs
      ensures MarkOk(v, g', c) && (Low(v, g, c) ==> Low(v, g', c))
    {
      assert MarkOk(v, g, c);
    }
  }

  // ----- nodes that hold nothing -----

  predicate Spare(v: View, g: Ledger, x: int) {
    && x in v && v[x].index == 0
    && (forall d :: d in g.pending && d in g.place ==> g.place[d] != Barred(x))
    && (forall b :: b in g.recs && b in g.mark ==> g.mark[b] != x)
  }

  lemma DropKeeps(v: View, st: Saved, blocks: seq<Option<seq<byte>>>, g: Ledger, x: int)
    requires Inv(v, st, blocks, g, -1, 0) && (x in v ==> Spare(v, g, x))
    ensures Inv(v - {x}, st, blocks, g, -1, 0)
    ensures AllLow(v, st, blocks, g, -1, 0) ==> AllLow(v - {x}, st, blocks, g, -1, 0)
  {
    var v' := v - {x};
    forall d | d in g.pending ensures PlaceOk(v', g, d, -1, 0) { assert PlaceOk(v, g, d, -1, 0); }
    forall y | y in v' ensures HeldOk(v', st, g, y) { assert HeldOk(v, st, g, y); }
    forall c | c in g.recs
      ensures MarkOk(v', g, c) && (Low(v, g, c) ==> Low(v', g, c))
    {
      assert MarkOk(v, g, c);
    }
    assert forall c :: c in g.recs ==> RecsOk(g, c, 0);
  }

  // ----- a match is applied -----

  function Applied(g: Ledger, d: nat, i: nat): Ledger {
    g.(pending := g.pending - {d}, place := g.place - {d}, own := g.own - {i})
  }

  lemma ApplyKeeps(v: View, st: Saved, blocks: seq<Option<seq<byte>>>, g: Ledger, x: int)
    requires Inv(v, st, blocks, g, -1, 0) && x in v && v[x].index != 0
    ensures v[x].m.dest in g.pending && v[x].index in st && g.pending[v[x].m.dest] == Rec(v[x].m, st[v[x].index])
    ensures Inv(v - {x}, st - {v[x].index}, blocks, Applied(g, v[x].m.dest, v[x].index), -1, 0)
    ensures AllLow(v, st, blocks, g, -1, 0) ==> AllLow(v - {x}, st - {v[x].index}, blocks, Applied(g, v[x].m.dest, v[x].index), -1, 0)
  {
    assert HeldOk(v, st, g, x);
    var d, i := v[x].m.dest, v[x].index;
    var v', st', g' := v - {x}, st - {i}, Applied(g, d, i);
    forall e | e in g'.pending ensures PlaceOk(v', g', e, -1, 0) { assert PlaceOk(v, g, e, -1, 0); }
    forall y | y in v' ensures HeldOk(v', st', g', y) { assert HeldOk(v, st, g, y); }
    forall c | c in g'.recs
      ensures RecsOk(g', c, 0) && MarkOk(v', g', c) && (Low(v, g, c) ==> Low(v', g', c))
    {
      assert RecsOk(g, c, 0) && MarkOk(v, g, c);
    }
  }

  // ----- a node is added -----

  /** Node n is new; destination d0 may become pending, or come back from disk. */
  predicate Grows(v: View, st: Saved, g: Ledger, v': View, st': Saved, g': Ledger, n: int, d0: nat) {
    && n !in v && v'.Keys == v.Keys + {n} && (forall x :: x in v ==> v'[x] == v[x])
    && (forall i :: i in st ==> i in st' && st'[i] == st[i])
    && g'.recs == g.recs && g'.mark == g.mark
    && g'.pending.Keys <= g.pending.Keys + {d0} && (forall d :: d in g.pending ==> d in g'.pending && g'.pending[d] == g.pending[d])
    && (forall d :: d in g.place && d != d0 ==> d in g'.place && g'.place[d] == g.place[d])
    && (forall i :: i in g.own ==> i in g'.own && g'.own[i] == g.own[i])
    && (d0 in g.pending ==> d0 in g.place && g.place[d0].OnDisk?)
  }

  lemma GrowsHeld(v: View, st: Saved, g: Ledger, v': View, st': Saved, g': Ledger, n: int, d0: nat, x: int)
    requires Grows(v, st, g, v', st', g', n, d0) && x in v && HeldOk(v, st, g, x)
    ensures HeldOk(v', st', g', x)
  {
  }

  lemma GrowsPlace(v: View, st: Saved, g: Ledger, v': View, st': Saved, g': Ledger, n: int, d0: nat, d: nat, open: int, from: nat)
    requires Grows(v, st, g, v', st', g', n, d0) && d in g.pending && d != d0 && PlaceOk(v, g, d, open, from)
    ensures PlaceOk(v', g', d, open, from)
  {
  }

  lemma GrowsBlock(v: View, st: Saved, g: Ledger, v': View, st': Saved, g': Ledger, n: int, d0: nat, c: nat)
    requires Grows(v, st, g, v', st', g', n, d0) && c in g.recs && RecsOk(g, c, 0) && MarkOk(v, g, c)
    requires d0 in g.pending ==> g.place[d0].block != c
    ensures RecsOk(g', c, 0) && MarkOk(v', g', c) && (Low(v, g, c) ==> Low(v', g', c))
  {
    var x := g.mark[c];
    assert v'[x] == v[x];
  }

  /** Growth keeps the ledger when the new node and the new destination are right. */
  lemma GrowsKeeps(v: View, st: Saved, blocks: seq<Option<seq<byte>>>, g: Ledger, v': View, st': Saved, g': Ledger, n: int, d0: nat)
    requires Inv(v, st, blocks, g, -1, 0) && Grows(v, st, g, v', st', g', n, d0) && d0 !in g.pending
    requires HeldOk(v', st', g', n) && OwnOk(v', st', g') && (d0 in g'.pending ==> PlaceOk(v', g', d0, -1, 0))
    ensures Inv(v', st', blocks, g', -1, 0)
    ensures AllLow(v, st, blocks, g, -1, 0) ==> AllLow(v', st', blocks, g', -1, 0)
  {
    GrowsShape(v, st, g, v', st', g', n, d0);
    hide HeldOk, RecsOk, MarkOk, Low, PlaceOk, Grows, OwnOk, DiskOk;
    forall d | d in g.pending { GrowsPlace(v, st, g, v', st', g', n, d0, d, -1, 0); }
    forall y | y in v { GrowsHeld(v, st, g, v', st', g', n, d0, y); }
    forall c | c in g.recs { GrowsBlock(v, st, g, v', st', g', n, d0, c); }
    GrowsDisk(blocks, g, g');
  }

  lemma GrowsShape(v: View, st: Saved, g: Ledger, v': View, st': Saved, g': Ledger, n: int, d0: nat)
    requires Grows(v, st, g, v', st', g', n, d0)
    ensures v'.Keys == v.Keys + {n} && g'.recs == g.recs && g'.pending.Keys <= g.pending.Keys + {d0}
  {
  }

  lemma GrowsDisk(blocks: seq<Option<seq<byte>>>, g: Ledger, g': Ledger)
    requires g'.recs == g.recs && DiskOk(blocks, g, -1)
    ensures DiskOk(blocks, g', -1)
  {
  }

  lemma AddKeeps(v: View, st: Saved, blocks: seq<Option<seq<byte>>>, g: Ledger, n: int, m: Match)
    requires Inv(v, st, blocks, g, -1, 0) && n !in v && m.dest !in g.pending
    ensures Inv(v[n := Entry(m, 0)], st, blocks, g, -1, 0)
    ensures AllLow(v, st, blocks, g, -1, 0) ==> AllLow(v[n := Entry(m, 0)], st, blocks, g, -1, 0)
  {
    hide RecsOk, MarkOk, Low, PlaceOk;
    GrowsKeeps(v, st, blocks, g, v[n := Entry(m, 0)], st, g, n, m.dest);
  }

  function Deferred(g: Ledger, r: Rec, l: Loc): Ledger {
    g.(pending := g.pending[r.m.dest := r], place := g.place[r.m.dest := l])
  }

  /** A match with the barrier length is put off without any bytes. */
  lemma BarKeeps(v: View, st: Saved, blocks: seq<Option<seq<byte>>>, g: Ledger, r: Rec, n: int)
    requires Inv(v, st, blocks, g, -1, 0) && n !in v && r.m.dest !in g.pending && r.m.length == NO_LENGTH
    ensures Inv(v[n := Entry(r.m, 0)], st, blocks, Deferred(g, r, Barred(n)), -1, 0)
    ensures AllLow(v, st, blocks, g, -1, 0) ==> AllLow(v[n := Entry(r.m, 0)], st, blocks, Deferred(g, r, Barred(n)), -1, 0)
  {
    hide RecsOk, MarkOk, Low, PlaceOk, HeldOk, DiskOk, Grows, OwnOk;
    BarGrows(v, st, g, r, n);
    GrowsKeeps(v, st, blocks, g, v[n := Entry(r.m, 0)], st, Deferred(g, r, Barred(n)), n, r.m.dest);
  }

  lemma BarGrows(v: View, st: Saved, g: Ledger, r: Rec, n: int)
    requires n !in v && r.m.dest !in g.pending && r.m.length == NO_LENGTH && OwnOk(v, st, g)
    ensures var v', g' := v[n := Entry(r.m, 0)], Deferred(g, r, Barred(n));
            Grows(v, st, g, v', st, g', n, r.m.dest) && HeldOk(v', st, g', n) && OwnOk(v', st, g') && PlaceOk(v', g', r.m.dest, -1, 0)
  {
  }

  /** A match is put off with its bytes in the chunks i. */
  lemma DeferKeeps(v: View, st: Saved, blocks: seq<Option<seq<byte>>>, g: Ledger, r: Rec, n: int, i: nat)
    requires Inv(v, st, blocks, g, -1, 0) && n !in v && r.m.dest !in g.pending && RecOk(r) && i != 0 && i !in st
    ensures var g' := Deferred(g, r, Held(n)).(own := g.own[i := n]);
            && Inv(v[n := Entry(r.m, i)], st[i := r.data], blocks, g', -1, 0)
            && (AllLow(v, st, blocks, g, -1, 0) ==> AllLow(v[n := Entry(r.m, i)], st[i := r.data], blocks, g', -1, 0))
  {
    hide RecsOk, MarkOk, Low, PlaceOk, HeldOk, DiskOk, Grows, OwnOk;
    DeferGrows(v, st, g, r, n, i);
    GrowsKeeps(v, st, blocks, g, v[n := Entry(r.m, i)], st[i := r.data], Deferred(g, r, Held(n)).(own := g.own[i := n]), n, r.m.dest);
  }

  lemma DeferGrows(v: View, st: Saved, g: Ledger, r: Rec, n: int, i: nat)
    requires n !in v && r.m.dest !in g.pending && RecOk(r) && i != 0 && i !in st && OwnOk(v, st, g)
    ensures var v', st', g' := v[n := Entry(r.m, i)], st[i := r.data], Deferred(g, r, Held(n)).(own := g.own[i := n]);
            Grows(v, st, g, v', st', g', n, r.m.dest) && HeldOk(v', st', g', n) && OwnOk(v', st', g') && PlaceOk(v', g', r.m.dest, -1, 0)
  {
  }

  lemma NewHeld(v: View, st: Saved, g: Ledger, n: int)
    requires n in v && v[n].index in st && RecOk(Rec(v[n].m, st[v[n].index])) && v[n].index in g.own && g.own[v[n].index] == n
    requires v[n].m.dest in g.pending && g.pending[v[n].m.dest] == Rec(v[n].m, st[v[n].index])
    requires v[n].m.dest in g.place && g.place[v[n].m.dest] == Held(n)
    ensures HeldOk(v, st, g, n)
  {
  }

  function Reloaded(g: Ledger, r: Rec, n: int, i: nat): Ledger {
    g.(place := g.place[r.m.dest := Held(n)], own := g.own[i := n])
  }

  /** The next record of the block being emptied goes back to the heap. */
  lemma ReloadKeeps(v: View, st: Saved, blocks: seq<Option<seq<byte>>>, g: Ledger, b: nat, j: nat, n: int, i: nat)
    requires Inv(v, st, blocks, g, b, j) && b in g.recs && j < |g.recs[b]|
    requires n !in v && i !in st && i != 0
    ensures var r := g.recs[b][j];
            && Inv(v[n := Entry(r.m, i)], st[i := r.data], blocks, Reloaded(g, r, n, i), b, j + 1)
            && (AllLow(v, st, blocks, g, b, j) ==> AllLow(v[n := Entry(r.m, i)], st[i := r.data], blocks, Reloaded(g, r, n, i), b, j + 1))
  {
    hide HeldOk, RecsOk, MarkOk, Low, PlaceOk, OwnOk, DiskOk, Grows;
    ReloadGrows(v, st, blocks, g, b, j, n, i);
    var r := g.recs[b][j];
    var v', st', g', d0 := v[n := Entry(r.m, i)], st[i := r.data], Reloaded(g, r, n, i), r.m.dest;
    NextRec(v, g, b, j);
    forall d | d in g.pending
      ensures PlaceOk(v', g', d, b, j + 1)
    {
      if d != d0 {
        GrowsPlace(v, st, g, v', st', g', n, d0, d, b, j);
        PlaceStep(v', g', b, j, d0, d);
      } else {
        PlaceNew(v', g', d0, n, b, j + 1);
      }
    }
    forall y | y in v { GrowsHeld(v, st, g, v', st', g', n, d0, y); }
    forall c | c in g.recs && c != b { GrowsBlock(v, st, g, v', st', g', n, d0, c); }
    RecsStep(g, b, j, n, i);
  }

  lemma ReloadGrows(v: View, st: Saved, blocks: seq<Option<seq<byte>>>, g: Ledger, b: nat, j: nat, n: int, i: nat)
    requires b in g.recs && j < |g.recs[b]| && RecsOk(g, b, j) && OwnOk(v, st, g) && DiskOk(blocks, g, b)
    requires n !in v && i !in st && i != 0
    ensures var r := g.recs[b][j];
            var v', st', g' := v[n := Entry(r.m, i)], st[i := r.data], Reloaded(g, r, n, i);
            && Grows(v, st, g, v', st', g', n, r.m.dest) && OwnOk(v', st', g') && DiskOk(blocks, g', b) && HeldOk(v', st', g', n)
            && v'.Keys == v.Keys + {n} && g'.pending == g.pending && g'.recs == g.recs && g'.place.Keys == g.place.Keys
  {
    NextRec(v, g, b, j);
    var r := g.recs[b][j];
    NewHeld(v[n := Entry(r.m, i)], st[i := r.data], Reloaded(g, r, n, i), n);
  }

  lemma NextRec(v: View, g: Ledger, b: nat, j: nat)
    requires b in g.recs && j < |g.recs[b]| && RecsOk(g, b, j)
    ensures var r := g.recs[b][j]; RecOk(r) && r.m.dest in g.pending && g.pending[r.m.dest] == r && r.m.dest in g.place && g.place[r.m.dest] == OnDisk(b, j)
  {
  }

  lemma PlaceNew(v: View, g: Ledger, d: nat, n: int, open: int, from: nat)
    requires d in g.pending && g.pending[d].m.dest == d && d in g.place && g.place[d] == Held(n)
    requires n in v && v[n].index != 0 && v[n].m.dest == d
    ensures PlaceOk(v, g, d, open, from)
  {
  }

  // Past record j, nothing but its own destination was placed there.
  lemma PlaceStep(v: View, g: Ledger, b: nat, j: nat, d0: nat, d: nat)
    requires b in g.recs && j < |g.recs[b]| && g.recs[b][j].m.dest == d0 && d != d0
    requires d in g.pending && PlaceOk(v, g, d, b, j)
    ensures PlaceOk(v, g, d, b, j + 1)
  {
  }

  lemma RecsStep(g: Ledger, b: nat, j: nat, n: int, i: nat)
    requires b in g.recs && j < |g.recs[b]| && RecsOk(g, b, j)
    ensures RecsOk(Reloaded(g, g.recs[b][j], n, i), b, j + 1)
  {
    forall k | j + 1 <= k < |g.recs[b]|
      ensures g.recs[b][k].m.dest != g.recs[b][j].m.dest
    {
      assert g.place[g.recs[b][k].m.dest] == OnDisk(b, k);
    }
  }
}
