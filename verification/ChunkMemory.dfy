/** The chunk allocator of the Future-LZ kernel: fixed-size chunks whose first
    four bytes link them into a free list or into the chain of one saved match. */
module ChunkMemory {
  import opened Bytes

  const BLOCK: nat := 0x10_0000
  const PER_BLOCK: nat := 16384

  // A 64-byte chunk: its link and the 60 bytes behind it.
  datatype Chunk = Chunk(next: nat, payload: seq<byte>)

  // Where the ghost state says a chunk is: k-th from the bottom of the free
  // stack, or k-th of a chain.
  datatype Place = Free(k: nat) | Chain(head: nat, k: nat)

  // One chunk of a chain and the part of the saved bytes it holds.
  datatype Cell = Cell(index: nat, piece: seq<byte>)

  datatype Ledger = Ledger(free: seq<nat>, chains: map<nat, seq<Cell>>, place: seq<Place>)

  function Min(a: int, b: int): int { if a < b then a else b }

  function Flatten(list: seq<Cell>): seq<byte> {
    if list == [] then [] else list[0].piece + Flatten(list[1..])
  }

  lemma {:induction false} FlattenSnoc(list: seq<Cell>, c: Cell)
    ensures Flatten(list + [c]) == Flatten(list) + c.piece
  {
    if list == [] {
      assert list + [c] == [c] && [c][1..] == [];
    } else {
      FlattenSnoc(list[1..], c);
      assert (list + [c])[1..] == list[1..] + [c];
    }
  }

  // The bytes that start at the k-th piece of a chain.
  lemma FlattenAt(list: seq<Cell>, s: seq<byte>, k: nat, pos: nat)
    requires k < |list| && pos <= |s| && s[pos..] == Flatten(list[k..])
    ensures pos + |list[k].piece| <= |s|
    ensures s[pos..pos + |list[k].piece|] == list[k].piece
    ensures s[pos + |list[k].piece|..] == Flatten(list[k + 1..])
  {
    var piece := list[k].piece;
    assert list[k..][1..] == list[k + 1..];
    assert s[pos..] == piece + Flatten(list[k + 1..]);
    assert s[pos + |piece|..] == s[pos..][|piece|..];
    assert s[pos..pos + |piece|] == s[pos..][..|piece|];
  }

  ghost function Range(lo: nat, hi: nat): (r: set<nat>)
    requires lo <= hi
    ensures |r| == hi - lo
    ensures forall i: nat :: i in r <==> lo <= i < hi
    decreases hi - lo
  {
    if lo == hi then {} else {lo} + Range(lo + 1, hi)
  }

  // Distinct elements of [1, n) that leave out x are fewer than n - 1.
  lemma {:induction false} DistinctBound(s: seq<nat>, room: set<nat>)
    requires forall j, k :: 0 <= j < k < |s| ==> s[j] != s[k]
    requires forall j :: 0 <= j < |s| ==> s[j] in room
    ensures |s| <= |room|
  {
    if s != [] {
      var n := |s| - 1;
      DistinctBound(s[..n], room - {s[n]});
    }
  }

  // The chain holds the first `pos` bytes of `p`, in full chunks while more is to come.
  predicate Cut(list: seq<Cell>, p: seq<byte>, pos: nat) {
    && pos <= |p| && Flatten(list) == p[..pos]
    && (if pos < |p| then pos == 60 * |list| else |p| <= 60 * |list| < |p| + 60)
    && (list != [] && pos < |p| ==> |list[|list| - 1].piece| == 60)
  }

  lemma CutStep(list: seq<Cell>, p: seq<byte>, pos: nat, c: Cell)
    requires Cut(list, p, pos) && pos < |p|
    requires c.piece == p[pos..pos + Min(|p| - pos, 60)]
    ensures Cut(list + [c], p, pos + Min(|p| - pos, 60))
  {
    FlattenSnoc(list, c);
    assert p[..pos] + c.piece == p[..pos + |c.piece|];
  }

  // `after` is `before` with chain `head` added or replaced.
  predicate Plus(before: map<nat, seq<Cell>>, head: nat, list: seq<Cell>, after: map<nat, seq<Cell>>) {
    after == before[head := list]
  }

  lemma PlusTwice(m0: map<nat, seq<Cell>>, head: nat, a: seq<Cell>, m1: map<nat, seq<Cell>>, b: seq<Cell>, m2: map<nat, seq<Cell>>)
    requires Plus(m0, head, a, m1) && Plus(m1, head, b, m2)
    ensures Plus(m0, head, b, m2) && head in m1 && m1[head] == a
  {
  }

  lemma PlusHas(m0: map<nat, seq<Cell>>, head: nat, a: seq<Cell>, m1: map<nat, seq<Cell>>)
    requires Plus(m0, head, a, m1)
    ensures head in m1 && m1[head] == a
  {
  }

  lemma CutStart(p: seq<byte>)
    ensures Cut([], p, 0)
  {
  }

  lemma CutLast(list: seq<Cell>, p: seq<byte>, pos: nat)
    requires Cut(list, p, pos) && pos < |p|
    ensures list != [] ==> |list[|list| - 1].piece| == 60
  {
  }

  lemma CutEnd(list: seq<Cell>, p: seq<byte>)
    requires Cut(list, p, |p|)
    ensures Flatten(list) == p && |list| == (|p| + 59) / 60
  {
    assert p[..|p|] == p;
  }

  // What is left of `s` is what is left of the chain.
  predicate Left(s: seq<byte>, pos: nat, list: seq<Cell>, k: nat) {
    pos <= |s| && k < |list| && s[pos..] == Flatten(list[k..])
  }

  // A chunk links to the next of its chain, and only the last may be partly filled.
  predicate Step(chunks: seq<Chunk>, list: seq<Cell>, k: nat, closed: bool)
    requires k < |list| && list[k].index < |chunks|
  {
    && (k + 1 < |list| ==> chunks[list[k].index].next == list[k + 1].index && |list[k].piece| == 60)
    && (k + 1 == |list| && closed ==> chunks[list[k].index].next == 0)
  }

  function Top(free: seq<nat>): nat { if free == [] then 0 else free[|free| - 1] }

  // The link of the k-th free chunk, counted from the bottom.
  predicate Under(chunks: seq<Chunk>, free: seq<nat>, k: nat)
    requires k < |free| && free[k] < |chunks|
  {
    chunks[free[k]].next == if k == 0 then 0 else free[k - 1]
  }

  // The free list, bottom first: each chunk links to the one below it.
  predicate FreeOk(chunks: seq<Chunk>, free: seq<nat>, place: seq<Place>, limbo: set<nat>)
    requires |place| == |chunks|
  {
    && (forall k {:trigger free[k]} :: 0 <= k < |free| ==>
          0 < free[k] < |chunks| && free[k] !in limbo && place[free[k]] == Free(k))
    && (forall k {:trigger Under(chunks, free, k)} :: 0 <= k < |free| ==> Under(chunks, free, k))
  }

  predicate ChainOk(chunks: seq<Chunk>, list: seq<Cell>, place: seq<Place>, head: nat, closed: bool, limbo: set<nat>)
    requires |place| == |chunks|
  {
    && |list| > 0 && list[0].index == head
    && (forall k {:trigger list[k]} :: 0 <= k < |list| ==>
          && 0 < list[k].index < |chunks| && list[k].index !in limbo && place[list[k].index] == Chain(head, k)
          && 0 < |list[k].piece| <= 60 && list[k].piece <= chunks[list[k].index].payload)
    && (forall k {:trigger Step(chunks, list, k, closed)} :: 0 <= k < |list| ==> Step(chunks, list, k, closed))
  }

  // Every chunk but 0 and those in limbo is where `place` says.
  predicate PlaceOk(place: seq<Place>, free: seq<nat>, chains: map<nat, seq<Cell>>, limbo: set<nat>) {
    forall i {:trigger place[i]} :: 0 < i < |place| && i !in limbo ==>
      match place[i]
      case Free(k) => k < |free| && free[k] == i
      case Chain(h, k) => h in chains && k < |chains[h]| && chains[h][k].index == i
  }

  predicate Payloads(chunks: seq<Chunk>) {
    forall i {:trigger chunks[i]} :: 0 <= i < |chunks| ==> |chunks[i].payload| == 60
  }

  predicate ChainsOk(chunks: seq<Chunk>, g: Ledger, limbo: set<nat>, open: nat)
    requires |g.place| == |chunks|
  {
    forall h :: h in g.chains ==> ChainOk(chunks, g.chains[h], g.place, h, h != open, limbo)
  }

  /** `limbo` holds chunks that are off the free list and in no chain; `open` is
      the head of the chain being built, whose last link is not yet written (0
      for none). */
  ghost predicate Inv(chunks: seq<Chunk>, g: Ledger, limbo: set<nat>, open: nat) {
    && |g.place| == |chunks| && |chunks| % 16384 == 0
    && Payloads(chunks)
    && FreeOk(chunks, g.free, g.place, limbo)
    && PlaceOk(g.place, g.free, g.chains, limbo)
    && ChainsOk(chunks, g, limbo, open)
  }

  // A chain only depends on its own chunks.
  lemma ChainFrame(chunks: seq<Chunk>, place: seq<Place>, after: seq<Chunk>, place': seq<Place>, list: seq<Cell>,
                   head: nat, closed: bool, limbo: set<nat>, limbo': set<nat>)
    requires |place| == |chunks| <= |after| == |place'|
    requires ChainOk(chunks, list, place, head, closed, limbo)
    requires forall i :: 0 <= i < |chunks| && place[i].Chain? && place[i].head == head && i !in limbo ==>
               after[i] == chunks[i] && place'[i] == place[i] && i !in limbo'
    ensures ChainOk(after, list, place', head, closed, limbo')
  {
    forall k {:trigger Step(after, list, k, closed)} | 0 <= k < |list|
      ensures Step(after, list, k, closed)
    {
      assert Step(chunks, list, k, closed);
    }
  }

  // The free list only depends on its own chunks.
  lemma FreeFrame(chunks: seq<Chunk>, place: seq<Place>, after: seq<Chunk>, place': seq<Place>, free: seq<nat>, limbo: set<nat>, limbo': set<nat>)
    requires |place| == |chunks| == |after| == |place'|
    requires FreeOk(chunks, free, place, limbo)
    requires forall i :: 0 <= i < |chunks| && place[i].Free? && i !in limbo ==>
               after[i] == chunks[i] && place'[i] == place[i] && i !in limbo'
    ensures FreeOk(after, free, place', limbo')
  {
    forall k {:trigger Under(after, free, k)} | 0 <= k < |free|
      ensures Under(after, free, k)
    {
      assert Under(chunks, free, k);
    }
  }

  // Pushing a whole block of fresh chunks onto an empty free list.
  ghost function Grown(chunks: seq<Chunk>, g: Ledger, first: nat, last: nat): Ledger
    requires |chunks| <= first <= last == |chunks| + PER_BLOCK - 1
  {
    var n := last + 1 - first;
    g.(free := seq(n, k requires 0 <= k < n => last - k),
       place := g.place + seq(PER_BLOCK, k requires 0 <= k < PER_BLOCK => Free(PER_BLOCK - 1 - k)))
  }

  lemma GrowKeeps(chunks: seq<Chunk>, added: seq<Chunk>, g: Ledger, first: nat, last: nat, open: nat)
    requires Inv(chunks, g, {}, open) && g.free == []
    requires last == |chunks| + PER_BLOCK - 1 && |added| == PER_BLOCK
    requires first == (if chunks == [] then 1 else |chunks|)
    requires forall k :: 0 <= k < PER_BLOCK ==>
               |added[k].payload| == 60 && added[k].next == if k == PER_BLOCK - 1 then 0 else |chunks| + k + 1
    ensures Inv(chunks + added, Grown(chunks, g, first, last), {}, open)
  {
    var g' := Grown(chunks, g, first, last);
    var after := chunks + added;
    forall k {:trigger Under(after, g'.free, k)} | 0 <= k < |g'.free|
      ensures Under(after, g'.free, k)
    {
      assert after[last - k] == added[PER_BLOCK - 1 - k];
    }
    forall h | h in g.chains
      ensures ChainOk(after, g.chains[h], g'.place, h, h != open, {})
    {
      ChainFrame(chunks, g.place, after, g'.place, g.chains[h], h, h != open, {}, {});
    }
  }

  ghost function Popped(g: Ledger): Ledger
    requires g.free != []
  {
    g.(free := g.free[..|g.free| - 1])
  }

  lemma PopKeeps(chunks: seq<Chunk>, g: Ledger, open: nat)
    requires Inv(chunks, g, {}, open) && g.free != []
    ensures Inv(chunks, Popped(g), {Top(g.free)}, open)
    ensures 0 < Top(g.free) < |chunks| && chunks[Top(g.free)].next == Top(Popped(g).free)
    ensures Top(g.free) !in g.chains
  {
    var g', top := Popped(g), Top(g.free);
    assert g.place[top] == Free(|g.free| - 1) && Under(chunks, g.free, |g.free| - 1);
    assert chunks[top].next == Top(g'.free) by {
      if |g.free| > 1 { assert g'.free[|g.free| - 2] == g.free[|g.free| - 2]; }
    }
    forall k {:trigger Under(chunks, g'.free, k)} | 0 <= k < |g'.free|
      ensures Under(chunks, g'.free, k)
    {
      assert Under(chunks, g.free, k);
    }
    forall h | h in g.chains
      ensures ChainOk(chunks, g.chains[h], g.place, h, h != open, {top}) && h != top
    {
      ChainFrame(chunks, g.place, chunks, g.place, g.chains[h], h, h != open, {}, {top});
      assert g.place[g.chains[h][0].index] == Chain(h, 0);
    }
    assert PlaceOk(g'.place, g'.free, g'.chains, {top}) by {
      assert forall k :: 0 <= k < |g'.free| ==> g'.free[k] == g.free[k];
    }
  }

  ghost function Pushed(g: Ledger, index: nat): Ledger
    requires index < |g.place|
  {
    g.(free := g.free + [index], place := g.place[index := Free(|g.free|)])
  }

  lemma PushKeeps(chunks: seq<Chunk>, g: Ledger, limbo: set<nat>, index: nat)
    requires Inv(chunks, g, limbo, 0) && index in limbo && 0 < index < |chunks|
    ensures Inv(chunks[index := chunks[index].(next := Top(g.free))], Pushed(g, index), limbo - {index}, 0)
  {
    var g' := Pushed(g, index);
    var after := chunks[index := chunks[index].(next := Top(g.free))];
    FreeFrame(chunks, g.place, after, g'.place, g.free, limbo, limbo - {index});
    forall k {:trigger Under(after, g'.free, k)} | 0 <= k < |g'.free|
      ensures Under(after, g'.free, k)
    {
      if k < |g.free| {
        assert Under(after, g.free, k);
      }
    }
    forall h | h in g.chains
      ensures ChainOk(after, g.chains[h], g'.place, h, true, limbo - {index})
    {
      ChainFrame(chunks, g.place, after, g'.place, g.chains[h], h, true, limbo, limbo - {index});
    }
  }

  // While a chunk is in limbo the free list cannot hold all the others.
  lemma FreeBound(chunks: seq<Chunk>, g: Ledger, limbo: set<nat>, index: nat)
    requires Inv(chunks, g, limbo, 0) && index in limbo && 0 < index < |chunks|
    ensures |g.free| + 1 < |chunks|
  {
    forall j, k | 0 <= j < k < |g.free|
      ensures g.free[j] != g.free[k]
    {
      assert g.place[g.free[j]] == Free(j) && g.place[g.free[k]] == Free(k);
    }
    DistinctBound(g.free, Range(1, |chunks|) - {index});
  }

  ghost function Put(g: Ledger, head: nat, list: seq<Cell>, index: nat): Ledger
    requires index < |g.place| && |list| > 0
  {
    g.(chains := g.chains[head := list], place := g.place[index := Chain(head, |list| - 1)])
  }

  lemma StartChain(after: seq<Chunk>, place: seq<Place>, index: nat, piece: seq<byte>)
    requires |place| == |after| && 0 < index < |after| && place[index] == Chain(index, 0) && 0 < |piece| <= 60 && piece <= after[index].payload
    ensures ChainOk(after, [Cell(index, piece)], place, index, false, {})
  {
  }

  lemma HeadPositive(chunks: seq<Chunk>, list: seq<Cell>, place: seq<Place>, head: nat, closed: bool, limbo: set<nat>)
    requires |place| == |chunks| && ChainOk(chunks, list, place, head, closed, limbo)
    ensures head > 0
  {
  }

  // The chunk in hand starts a chain.
  lemma StartKeeps(chunks: seq<Chunk>, after: seq<Chunk>, g: Ledger, index: nat, piece: seq<byte>)
    requires Inv(chunks, g, {index}, 0) && 0 < index < |chunks| && index !in g.chains
    requires 0 < |piece| <= 60
    requires |after| == |chunks| && Payloads(after) && piece <= after[index].payload
    requires forall i :: 0 <= i < |chunks| && i != index ==> after[i] == chunks[i]
    ensures Inv(after, Put(g, index, [Cell(index, piece)], index), {}, index)
  {
    hide Step, ChainOk;
    var g' := Put(g, index, [Cell(index, piece)], index);
    StartChain(after, g'.place, index, piece);
    FreeFrame(chunks, g.place, after, g'.place, g.free, {index}, {});
    forall h | h in g.chains
      ensures ChainOk(after, g.chains[h], g'.place, h, true, {})
    {
      HeadPositive(chunks, g.chains[h], g.place, h, h != 0, {index});
      ChainFrame(chunks, g.place, after, g'.place, g.chains[h], h, true, {index}, {});
    }
  }

  lemma AppendChain(chunks: seq<Chunk>, after: seq<Chunk>, place: seq<Place>, list: seq<Cell>, open: nat, index: nat, piece: seq<byte>)
    requires |place| == |chunks| == |after| && ChainOk(chunks, list, place, open, false, {index})
    requires 0 < index < |chunks| && 0 < |piece| <= 60 && piece <= after[index].payload
    requires |list[|list| - 1].piece| == 60
    requires forall i :: 0 <= i < |chunks| && i != index ==>
               after[i] == if i == list[|list| - 1].index then chunks[i].(next := index) else chunks[i]
    ensures ChainOk(after, list + [Cell(index, piece)], place[index := Chain(open, |list|)], open, false, {})
  {
    var list' := list + [Cell(index, piece)];
    assert place[list[|list| - 1].index] == Chain(open, |list| - 1);
    forall k {:trigger Step(after, list', k, false)} | 0 <= k < |list'|
      ensures Step(after, list', k, false)
    {
      if k < |list| {
        assert Step(chunks, list, k, false);
        assert place[list[k].index] == Chain(open, k);
      }
    }
  }

  // The chunk in hand is linked behind the open chain.
  lemma AppendKeeps(chunks: seq<Chunk>, after: seq<Chunk>, g: Ledger, open: nat, index: nat, piece: seq<byte>)
    requires Inv(chunks, g, {index}, open) && 0 < index < |chunks| && open in g.chains && |g.chains[open]| > 0
    requires 0 < |piece| <= 60
    requires |g.chains[open][|g.chains[open]| - 1].piece| == 60
    requires |after| == |chunks| && Payloads(after) && piece <= after[index].payload
    requires forall i :: 0 <= i < |chunks| && i != index ==>
               after[i] == if i == g.chains[open][|g.chains[open]| - 1].index then chunks[i].(next := index) else chunks[i]
    ensures Inv(after, Put(g, open, g.chains[open] + [Cell(index, piece)], index), {}, open)
  {
    var list := g.chains[open];
    var g' := Put(g, open, list + [Cell(index, piece)], index);
    assert ChainOk(chunks, list, g.place, open, false, {index});
    assert g.place[list[|list| - 1].index] == Chain(open, |list| - 1);
    AppendChain(chunks, after, g.place, list, open, index, piece);
    FreeFrame(chunks, g.place, after, g'.place, g.free, {index}, {});
    forall h | h in g.chains && h != open
      ensures ChainOk(after, g.chains[h], g'.place, h, true, {})
    {
      ChainFrame(chunks, g.place, after, g'.place, g.chains[h], h, true, {index}, {});
    }
    assert PlaceOk(g'.place, g'.free, g'.chains, {});
  }

  // Ending the open chain.
  lemma CloseKeeps(chunks: seq<Chunk>, g: Ledger, open: nat)
    requires Inv(chunks, g, {}, open) && open in g.chains && |g.chains[open]| > 0
    ensures var last := g.chains[open][|g.chains[open]| - 1].index;
            last < |chunks| && Inv(chunks[last := chunks[last].(next := 0)], g, {}, 0)
  {
    var list := g.chains[open];
    assert ChainOk(chunks, list, g.place, open, false, {});
    var last := list[|list| - 1].index;
    assert g.place[last] == Chain(open, |list| - 1);
    var after := chunks[last := chunks[last].(next := 0)];
    FreeFrame(chunks, g.place, after, g.place, g.free, {}, {});
    forall h | h in g.chains && h != open
      ensures ChainOk(after, g.chains[h], g.place, h, true, {})
    {
      ChainFrame(chunks, g.place, after, g.place, g.chains[h], h, true, {}, {});
    }
    forall k {:trigger Step(after, list, k, true)} | 0 <= k < |list|
      ensures Step(after, list, k, true)
    {
      assert Step(chunks, list, k, false);
      assert g.place[list[k].index] == Chain(open, k);
    }
  }

  predicate NextIs(chunks: seq<Chunk>, list: seq<Cell>, k: nat)
    requires k < |list| && list[k].index < |chunks|
  {
    chunks[list[k].index].next == if k + 1 < |list| then list[k + 1].index else 0
  }

  lemma HeadNonzero(chunks: seq<Chunk>, g: Ledger)
    requires Inv(chunks, g, {}, 0)
    ensures 0 !in g.chains
  {
  }

  lemma ChainShape(chunks: seq<Chunk>, g: Ledger, head: nat)
    requires Inv(chunks, g, {}, 0) && head in g.chains
    ensures var list := g.chains[head];
            && |list| > 0 && list[0].index == head
            && (forall j :: 0 <= j < |list| ==> 0 < list[j].index < |chunks| && NextIs(chunks, list, j))
            && (forall j, m :: 0 <= j < m < |list| ==> list[j].index != list[m].index)
  {
    var list := g.chains[head];
    assert ChainOk(chunks, list, g.place, head, true, {});
    forall j | 0 <= j < |list|
      ensures NextIs(chunks, list, j)
    {
      assert Step(chunks, list, j, true);
    }
    forall j, m | 0 <= j < m < |list|
      ensures list[j].index != list[m].index
    {
      assert g.place[list[j].index] == Chain(head, j) && g.place[list[m].index] == Chain(head, m);
    }
  }

  lemma LeftStart(chunks: seq<Chunk>, g: Ledger, head: nat)
    requires Inv(chunks, g, {}, 0) && head in g.chains
    ensures var list := g.chains[head];
            && |g.place| == |chunks| && ChainOk(chunks, list, g.place, head, true, {}) && Payloads(chunks)
            && |list| > 0 && list[0].index == head && Left(Flatten(list), 0, list, 0)
  {
    assert ChainOk(chunks, g.chains[head], g.place, head, true, {});
    assert g.chains[head][0..] == g.chains[head];
  }

  // What one turn of the restore loop reads.
  lemma PieceAt(chunks: seq<Chunk>, list: seq<Cell>, place: seq<Place>, head: nat, s: seq<byte>, k: nat, pos: nat, n: nat)
    requires |place| == |chunks| && ChainOk(chunks, list, place, head, true, {}) && Payloads(chunks)
    requires Left(s, pos, list, k) && pos < n <= |s|
    ensures var m := Min(n - pos, 60);
            && list[k].index < |chunks| && m <= |chunks[list[k].index].payload|
            && chunks[list[k].index].payload[..m] == s[pos..pos + m]
            && (pos + m < n ==> k + 1 < |list| && chunks[list[k].index].next == list[k + 1].index && Left(s, pos + m, list, k + 1))
  {
    FlattenAt(list, s, k, pos);
    assert Step(chunks, list, k, true);
    var m := Min(n - pos, 60);
    var piece := list[k].piece;
    if k + 1 == |list| {
      assert list[k + 1..] == [];
    }
    assert m <= |piece|;
    assert s[pos..pos + m] == s[pos..pos + |piece|][..m];
  }

  // One turn of the restore loop: what it copies, and where it goes on.
  lemma RestoreTurn(chunks: seq<Chunk>, list: seq<Cell>, place: seq<Place>, head: nat, s: seq<byte>, k: nat, pos: nat, n: nat,
                    was: seq<byte>, at: nat)
    requires |place| == |chunks| && ChainOk(chunks, list, place, head, true, {}) && Payloads(chunks)
    requires Left(s, pos, list, k) && pos < n <= |s| && at + n <= |was|
    ensures var m := Min(n - pos, 60);
            && 0 < m && pos + m <= n && list[k].index < |chunks| && m <= |chunks[list[k].index].payload|
            && Splice(Partly(was, at, s, pos), at + pos, chunks[list[k].index].payload[..m]) == Partly(was, at, s, pos + m)
            && (pos + m < n ==> k + 1 < |list| && chunks[list[k].index].next == list[k + 1].index && Left(s, pos + m, list, k + 1))
  {
    hide Splice, Partly, Left, ChainOk, Payloads;
    PieceAt(chunks, list, place, head, s, k, pos, n);
    var m := Min(n - pos, 60);
    PartlyStep(was, at, s, pos, s[pos..pos + m]);
  }

  ghost function Indices(list: seq<Cell>): set<nat> {
    set c | c in list :: c.index
  }

  ghost function Rest(list: seq<Cell>, k: nat): set<nat>
    requires k <= |list|
  {
    Indices(list[k..])
  }

  lemma RestStep(list: seq<Cell>, k: nat)
    requires k < |list|
    requires forall j, m :: 0 <= j < m < |list| ==> list[j].index != list[m].index
    ensures list[k].index in Rest(list, k)
    ensures Rest(list, k) - {list[k].index} == Rest(list, k + 1)
  {
    assert list[k..] == [list[k]] + list[k + 1..];
    forall c | c in list[k + 1..]
      ensures c.index != list[k].index
    {
      var m :| k < m < |list| && list[m] == c;
    }
  }

  lemma RestEnds(list: seq<Cell>)
    ensures Rest(list, 0) == Indices(list) && Rest(list, |list|) == {}
  {
    assert list[0..] == list && list[|list|..] == [];
  }

  // A chain taken out of the ledger leaves its chunks in limbo.
  lemma DropKeeps(chunks: seq<Chunk>, g: Ledger, head: nat)
    requires Inv(chunks, g, {}, 0) && head in g.chains
    ensures Inv(chunks, g.(chains := g.chains - {head}), Indices(g.chains[head]), 0)
  {
    var limbo := Indices(g.chains[head]);
    assert ChainOk(chunks, g.chains[head], g.place, head, true, {});
    FreeFrame(chunks, g.place, chunks, g.place, g.free, {}, limbo);
    forall h | h in g.chains && h != head
      ensures ChainOk(chunks, g.chains[h], g.place, h, true, limbo)
    {
      ChainFrame(chunks, g.place, chunks, g.place, g.chains[h], h, true, {}, limbo);
    }
    assert forall k :: 0 <= k < |g.chains[head]| ==> g.chains[head][k] in g.chains[head];
  }

  lemma BudgetFits(limit: nat)
    requires BLOCK <= limit < U64
    ensures var useful := ((limit / BLOCK * BLOCK / 64 - 1) * 60) % U64;
            useful == 60 * (limit / BLOCK * PER_BLOCK - 1) && useful % 60 == 0 && (useful / 60 + 1) % 16384 == 0
  {
    var q := limit / BLOCK;
    assert q * BLOCK == (q * PER_BLOCK) * 64;
    assert 0 <= (q * PER_BLOCK - 1) * 60 < U64;
  }

  lemma NothingYet()
    ensures Inv([], Ledger([], map[], []), {}, 0) && Top([]) == 0
  {
  }

  lemma WholeBlocks(chunks: seq<Chunk>, g: Ledger)
    requires Inv(chunks, g, {}, 0)
    ensures |chunks| % 16384 == 0
  {
  }

  // A save that fits what is available needs no block beyond the budget's.
  lemma BudgetKept(useful: nat, used: nat, n: nat, total: nat)
    requires useful % 60 == 0 && (useful / 60 + 1) % 16384 == 0 && total % 16384 == 0
    requires 0 < n && n + 60 * used <= useful
    requires total <= used + (n + 59) / 60 + PER_BLOCK
    ensures total <= useful / 60 + 1
  {
    var t := useful / 60 + 1;
    assert (n + 59) / 60 + used <= useful / 60;
    assert total < t + 16384;
    assert total / 16384 <= t / 16384;
  }

  class MemMgr {
    var chunks: seq<Chunk>
    var firstFree: nat
    var used: nat
    const useful: nat
    ghost var g: Ledger

    ghost predicate State(limbo: set<nat>, open: nat)
      reads this
    {
      && Inv(chunks, g, limbo, open)
      && firstFree == Top(g.free)
      && used + |g.free| + (if |chunks| == 0 then 0 else 1) == |chunks|
    }

    ghost predicate Valid()
      reads this
    {
      State({}, 0)
    }

    /** The saved bytes of every live chain, by the index `Save` returned. */
    ghost function Stored(): (m: map<nat, seq<byte>>)
      reads this
      ensures m.Keys == g.chains.Keys
    {
      map h | h in g.chains :: Flatten(g.chains[h])
    }

    function Available(): nat
      reads this
    {
      if useful > used * 60 then useful - used * 60 else 0
    }

    /** The store has not outgrown the blocks its budget pays for. */
    ghost predicate WithinBudget()
      reads this
    {
      useful % 60 == 0 && (useful / 60 + 1) % 16384 == 0 && |chunks| <= useful / 60 + 1
    }

    /** newMemMgr: the budget is the whole blocks under the limit, less chunk 0.
        The subtraction wraps at 64 bits, as the original's does. */
    constructor (limit: nat)
      requires limit < U64
      ensures Valid() && Stored() == map[] && used == 0 && chunks == []
      ensures BLOCK <= limit ==> useful == 60 * (limit / BLOCK * PER_BLOCK - 1) && WithinBudget()
    {
      hide Inv, Top;
      chunks, firstFree, used := [], 0, 0;
      var budget := limit / BLOCK * BLOCK / 64 - 1;
      useful := (budget * 60) % U64;
      g := Ledger([], map[], []);
      new;
      NothingYet();
      if BLOCK <= limit {
        BudgetFits(limit);
      }
    }

    method AllocBlock(ghost open: nat)
      requires State({}, open) && firstFree == 0
      modifies this
      ensures State({}, open) && firstFree != 0
      ensures used == old(used) && g.chains == old(g.chains)
      ensures |chunks| == old(|chunks|) + PER_BLOCK && old(|chunks|) <= used + 1
    {
      assert g.free == [];
      var base := |chunks|;
      var last := base + PER_BLOCK - 1;
      var added: seq<Chunk> := [];
      var i := base;
      while i < last
        invariant base <= i <= last && |added| == i - base
        invariant forall k :: 0 <= k < |added| ==> added[k].next == base + k + 1 && |added[k].payload| == 60
      {
        added := added + [Chunk(i + 1, seq(60, _ => 0))];
        i := i + 1;
      }
      added := added + [Chunk(firstFree, seq(60, _ => 0))];
      var first := base;
      if first == 0 {
        first := first + 1;
      }
      GrowKeeps(chunks, added, g, first, last, open);
      g := Grown(chunks, g, first, last);
      chunks := chunks + added;
      firstFree := first;
    }

    /** Takes the head of the free list, growing the store by one block when it is empty. */
    method Allocate(ghost open: nat) returns (index: nat)
      requires State({}, open)
      modifies this
      ensures 0 != index < |chunks| && State({index}, open) && index !in g.chains
      ensures g.chains == old(g.chains)
      ensures used == old(used) + 1
      ensures |chunks| == old(|chunks|) || |chunks| <= used + PER_BLOCK
    {
      if firstFree == 0 {
        AllocBlock(open);
      }
      PopKeeps(chunks, g, open);
      index := firstFree;
      firstFree := chunks[index].next;
      used := used + 1;
      g := Popped(g);
    }

    method SetNext(index: nat, next: nat)
      requires index < |chunks|
      modifies `chunks
      ensures chunks == old(chunks)[index := old(chunks)[index].(next := next)]
    {
      chunks := chunks[index := chunks[index].(next := next)];
    }

    /** Fills the chunk in hand with `piece` and links it behind chunk `prev`, the
        last of the chain `first` (0 when the chain is only starting). */
    method Link(first: nat, prev: nat, index: nat, piece: seq<byte>)
      requires State({index}, first) && 0 < index < |chunks| && index !in g.chains && 0 < |piece| <= 60
      requires first == 0 <==> prev == 0
      requires first != 0 ==> first in g.chains && |g.chains[first]| > 0 && g.chains[first][|g.chains[first]| - 1].index == prev
      requires first != 0 ==> |g.chains[first][|g.chains[first]| - 1].piece| == 60
      modifies this
      ensures State({}, if first == 0 then index else first)
      ensures used == old(used) && |chunks| == old(|chunks|)
      ensures first == 0 ==> g.chains == old(g.chains)[index := [Cell(index, piece)]]
      ensures first != 0 ==> g.chains == old(g.chains)[first := old(g.chains[first]) + [Cell(index, piece)]]
    {
      ghost var before := chunks;
      if prev != 0 {
        assert ChainOk(chunks, g.chains[first], g.place, first, false, {index});
        SetNext(prev, index);
      }
      var c := chunks[index];
      chunks := chunks[index := c.(payload := piece + c.payload[|piece|..])];
      if first == 0 {
        StartKeeps(before, chunks, g, index, piece);
        g := Put(g, index, [Cell(index, piece)], index);
      } else {
        AppendKeeps(before, chunks, g, first, index, piece);
        g := Put(g, first, g.chains[first] + [Cell(index, piece)], index);
      }
    }

    /** One turn of the save loop: a fresh chunk holding `piece`, linked behind `prev`. */
    method Extend(first: nat, prev: nat, piece: seq<byte>, ghost list: seq<Cell>) returns (index: nat)
      requires State({}, first) && 0 < |piece| <= 60
      requires first == 0 <==> prev == 0
      requires first == 0 ==> list == []
      requires first != 0 ==> first in g.chains && g.chains[first] == list && |list| > 0 && list[|list| - 1].index == prev && |list[|list| - 1].piece| == 60
      modifies this
      ensures 0 != index && index !in old(g.chains)
      ensures var head := if first == 0 then index else first;
              State({}, head) && Plus(old(g.chains), head, list + [Cell(index, piece)], g.chains)
      ensures used == old(used) + 1
      ensures |chunks| == old(|chunks|) || |chunks| <= used + PER_BLOCK
    {
      hide Inv;
      index := Allocate(first);
      Link(first, prev, index, piece);
      assert first == 0 ==> list + [Cell(index, piece)] == [Cell(index, piece)];
    }

    method CloseChain(index: nat, first: nat, ghost list: seq<Cell>)
      requires State({}, first) && first in g.chains && g.chains[first] == list && |list| > 0 && list[|list| - 1].index == index
      modifies this
      ensures State({}, 0)
      ensures g == old(g) && used == old(used) && |chunks| == old(|chunks|)
    {
      CloseKeeps(chunks, g, first);
      SetNext(index, 0);
    }

    /** The loop of `Save`: the chain, as the ledger records it. */
    method SaveChain(p: seq<byte>) returns (first: nat, ghost list: seq<Cell>)
      requires Valid() && |p| > 0
      modifies this
      ensures Valid()
      ensures first != 0 && first !in old(g.chains) && Plus(old(g.chains), first, list, g.chains) && Flatten(list) == p
      ensures used == old(used) + (|p| + 59) / 60
      ensures |chunks| == old(|chunks|) || |chunks| <= used + PER_BLOCK
    {
      hide State, Inv, Top, Stored, Flatten, Cut, Plus;
      CutStart(p);
      var index, prev := 0, 0;
      first := 0;
      var pos := 0;
      list := [];
      while pos < |p|
        invariant 0 <= pos <= |p| && Cut(list, p, pos)
        invariant first == 0 ==> pos == 0 && prev == 0 && list == [] && g.chains == old(g.chains)
        invariant first != 0 ==> first !in old(g.chains) && Plus(old(g.chains), first, list, g.chains)
        invariant first != 0 ==> |list| > 0 && list[|list| - 1].index == prev == index && prev != 0
        invariant State({}, first)
        invariant used == old(used) + |list|
        invariant |chunks| == old(|chunks|) || |chunks| <= used + PER_BLOCK
      {
        var n := Min(|p| - pos, 60);
        var piece := p[pos..pos + n];
        CutLast(list, p, pos);
        ghost var m1 := g.chains;
        if first != 0 {
          PlusHas(old(g.chains), first, list, m1);
        }
        index := Extend(first, prev, piece, list);
        CutStep(list, p, pos, Cell(index, piece));
        if first == 0 {
          first := index;
        } else {
          PlusTwice(old(g.chains), first, list, m1, list + [Cell(index, piece)], g.chains);
        }
        list := list + [Cell(index, piece)];
        prev := index;
        pos := pos + n;
      }
      PlusHas(old(g.chains), first, list, g.chains);
      CloseChain(index, first, list);
      CutEnd(list, p);
    }

    /** Copies `p` into a chain of chunks and returns its head, 0 for an empty `p`. */
    method Save(p: seq<byte>) returns (first: nat)
      requires Valid()
      modifies this
      ensures Valid()
      ensures p == [] ==> first == 0 && Stored() == old(Stored())
      ensures p != [] ==> first != 0 && first !in old(Stored()) && Stored() == old(Stored())[first := p]
      ensures used == old(used) + (|p| + 59) / 60
      ensures old(WithinBudget()) && |p| <= old(Available()) ==> WithinBudget()
    {
      hide Inv, Flatten;
      if |p| == 0 {
        return 0;
      }
      ghost var list;
      first, list := SaveChain(p);
      WholeBlocks(chunks, g);
      if old(WithinBudget()) && |p| <= old(Available()) && |chunks| != old(|chunks|) {
        BudgetKept(useful, old(used), |p|, |chunks|);
      }
    }

    /** Copies the first `n` saved bytes of chain `index` to `dst[at..at + n]`. */
    method Restore(index: nat, dst: array<byte>, at: nat, n: nat)
      requires Valid() && index in g.chains && n <= |Flatten(g.chains[index])|
      requires at + n <= dst.Length
      modifies dst
      ensures dst[..] == Splice(old(dst[..]), at, Flatten(g.chains[index])[..n])
    {
      hide Splice, Partly, Flatten, Inv, Left, ChainOk, Payloads, Step, Stored, Min;
      ghost var s := Flatten(g.chains[index]);
      ghost var list := g.chains[index];
      LeftStart(chunks, g, index);
      PartlyStart(dst[..], at, s);
      ghost var was, k := dst[..], 0;
      var i, pos := index, 0;
      while pos < n
        invariant 0 <= pos <= n
        invariant pos < n ==> Left(s, pos, list, k) && k < |list| && i == list[k].index
        invariant dst[..] == Partly(was, at, s, pos)
        decreases n - pos
      {
        var m := Min(n - pos, 60);
        RestoreTurn(chunks, list, g.place, index, s, k, pos, n, was, at);
        var c := chunks[i];
        CopyIn(dst, at + pos, c.payload, m);
        pos := pos + m;
        i := c.next;
        k := k + 1;
      }
      PartlyEnd(was, at, s, n);
    }

    method MarkFree(index: nat, ghost limbo: set<nat>)
      requires State(limbo, 0) && index in limbo && 0 < index < |chunks|
      modifies this
      ensures State(limbo - {index}, 0) && used == old(used) - 1
      ensures g.chains == old(g.chains)
      ensures chunks == old(chunks)[index := old(chunks)[index].(next := old(firstFree))]
    {
      FreeBound(chunks, g, limbo, index);
      PushKeeps(chunks, g, limbo, index);
      SetNext(index, firstFree);
      firstFree := index;
      used := used - 1;
      g := Pushed(g, index);
    }

    /** Puts the chunks of a chain back on the free list; 0 stands for no chain. */
    method FreeChain(index: nat)
      requires Valid() && (index != 0 ==> index in g.chains)
      modifies this
      ensures Valid() && |chunks| == old(|chunks|)
      ensures Stored() == old(Stored()) - {index}
      ensures index != 0 ==> used < old(used)
      ensures index == 0 ==> used == old(used)
    {
      hide Inv, Flatten, Step, ChainOk, Top;
      HeadNonzero(chunks, g);
      ghost var all := g.chains;
      ghost var list := if index == 0 then [] else all[index];
      ghost var k := 0;
      if index != 0 {
        ChainShape(chunks, g, index);
        DropKeeps(chunks, g, index);
        g := g.(chains := g.chains - {index});
      }
      RestEnds(list);
      assert Indices([]) == {};
      hide Rest, Indices;
      var i := index;
      while i != 0
        invariant 0 <= k <= |list| && i == (if k < |list| then list[k].index else 0)
        invariant State(Rest(list, k), 0) && g.chains == all - {index}
        invariant used == old(used) - k && |chunks| == old(|chunks|)
        invariant forall j :: k <= j < |list| ==> 0 < list[j].index < |chunks| && NextIs(chunks, list, j)
        decreases |list| - k
      {
        var next := chunks[i].next;
        assert NextIs(chunks, list, k);
        RestStep(list, k);
        MarkFree(i, Rest(list, k));
        i := next;
        k := k + 1;
      }
    }
  }
}
