/** A stream that decodes to the end with a match left out. Its first block puts
    off three matches, its second one needs a save to put off a fourth, and the
    walk of that save marks the spilled block beyond its first destination; the
    output then ends between the two. */
module SrepSpillExample {
  import opened Bytes
  import opened ChunkMemory
  import opened MatchHeap
  import opened SpillFormat
  import opened SrepHistory
  import opened SpillWalk
  import opened SrepKernel
  import opened SrepStream
  import L = SrepLedger

  // The first bytes of the stream, to be repeated far ahead.
  function M(d: nat): Match { Match(0, d, 8) }

  const FIRST := M(2000100)
  const SECOND := M(2000200)
  const THIRD := M(2000300)

  // The second block as a whole, to be repeated further ahead.
  const WIDE: nat := 982850
  const BIG := Match(8, 5000008, WIDE)

  // What the third block brings before the stream ends.
  const REST: nat := 1017292

  const BARRIER := Entry(Match(U64 - 1, U64 - 1, NO_LENGTH), 0)

  // Three held matches below the barrier.
  ghost predicate Three(v: L.View) {
    && v.Keys == {0, 1, 2, 3} && v[0] == BARRIER
    && v[1].m == FIRST && v[2].m == SECOND && v[3].m == THIRD
    && v[1].index != 0 && v[2].index != 0 && v[3].index != 0
  }

  // The walk with room for all three.
  ghost function Course(v: L.View, i: nat): Spot {
    match i
    case 0 => Spot(v, NIL, 1000, [])
    case 1 => Spot(v - {3}, 0, 972, [THIRD])
    case 2 => Spot(v - {1, 3}, 2, 944, [THIRD, FIRST])
    case 3 => Spot(v - {1, 3}, NIL, 944, [THIRD, FIRST])
    case 4 => Spot(v - {1, 2, 3}, 0, 916, [THIRD, FIRST, SECOND])
    case _ => Spot(v - {1, 2, 3}, NIL, 916, [THIRD, FIRST, SECOND])
  }

  lemma Last(v: L.View)
    requires Three(v)
    ensures Takes(Course(v, 0), Course(v, 1), 0, 3)
  {
    assert L.Without(v, 2000300) == v - {3};
  }

  lemma First(v: L.View)
    requires Three(v)
    ensures Takes(Course(v, 1), Course(v, 2), 2, 1)
  {
    assert L.Without(v - {3}, 2000100) == v - {1, 3};
  }

  lemma Middle(v: L.View)
    requires Three(v)
    ensures Takes(Course(v, 3), Course(v, 4), 0, 2)
  {
    assert L.Without(v - {1, 3}, 2000200) == v - {1, 2, 3};
  }

  lemma Turns(v: L.View)
    requires Three(v)
    ensures Passes(Course(v, 2), Course(v, 3), NIL, 0) && AtFront(Course(v, 2).v, Course(v, 2).base)
    ensures Passes(Course(v, 4), Course(v, 5), NIL, 0) && Stuck(Course(v, 5))
  {
    assert Looks(v - {1, 2, 3}, NIL, 0, NIL);
  }

  /** The walk spills the third, the first, passes the front of the heap and then spills the second. */
  lemma ThreeLate(v: L.View)
    requires Three(v)
    ensures Late(v, 1000)
    ensures exists ts :: Whole(ts, v, 1000)
    ensures forall ts :: Whole(ts, v, 1000) ==> Taken(ts) == [THIRD, FIRST, SECOND] && Remains(ts) == map[0 := BARRIER]
  {
    hide Takes, Passes, Stuck, AtFront;
    Last(v);
    First(v);
    Middle(v);
    Turns(v);
    var ts := [Course(v, 0), Course(v, 1), Course(v, 2), Course(v, 3), Course(v, 4), Course(v, 5)];
    forall i | 0 < i < |ts|
      ensures Goes(ts[i - 1], ts[i])
    {
      assert ts[i - 1] == Course(v, i - 1) && ts[i] == Course(v, i);
    }
    assert Whole(ts, v, 1000);
    assert AtFront(ts[2].v, ts[2].base) && |ts[2].out| < |ts[5].out|;
    assert SpillsOn(ts);
    assert v - {1, 2, 3} == map[0 := BARRIER];
    forall us | Whole(us, v, 1000)
      ensures Taken(us) == [THIRD, FIRST, SECOND] && Remains(us) == map[0 := BARRIER]
    {
      OneWhole(us, ts, v, 1000);
    }
  }

  lemma NoStats(pos: nat, end: nat)
    ensures Stats([], 0, pos, end) == Some([])
  {
  }

  const MS := [FIRST, SECOND, THIRD]

  lemma MatchesFit()
    ensures Recordable(MS, 0, 8) && Recordable([BIG], 8, 8 + WIDE)
  {
    assert Recordable([THIRD], 0, 8) && Recordable([BIG], 8, 8 + WIDE);
    assert [SECOND, THIRD][1..] == [THIRD] && Recordable([SECOND, THIRD], 0, 8);
    assert MS[1..] == [SECOND, THIRD] && MS[0] == FIRST;
  }

  function FirstStat(): seq<byte> {
    MatchesFit();
    StatBytes(MS, 0, 0, 8)
  }

  function SecondStat(): seq<byte> {
    MatchesFit();
    StatBytes([BIG], 0, 8, 8 + WIDE)
  }

  lemma StatsAre()
    ensures Stats(FirstStat(), 0, 0, 8) == Some(MS)
    ensures Stats(SecondStat(), 0, 8, 8 + WIDE) == Some([BIG])
  {
    hide Stats, StatBytes;
    MatchesFit();
    StatsBack(MS, 0, 0, 8, []);
    StatsBack([BIG], 0, 8, 8 + WIDE, []);
    assert FirstStat() + [] == FirstStat() && SecondStat() + [] == SecondStat();
  }

  /** The three blocks, with any literals. */
  function Blocks(a: seq<byte>, b: seq<byte>, c: seq<byte>): seq<Part> {
    [Part(FirstStat(), a, 8)] + ([Part(SecondStat(), b, WIDE)] + ([Part([], c, REST)] + []))
  }

  lemma BlocksAre(a: seq<byte>, b: seq<byte>, c: seq<byte>)
    requires |a| == 8 && |b| == WIDE && |c| == REST
    ensures AllMatches(Blocks(a, b, c), 0, 0) == MS + [BIG]
    ensures Size(Blocks(a, b, c)) == |AllLits(Blocks(a, b, c))| == 2000150
  {
    hide Stats, FirstStat, SecondStat;
    StatsAre();
    NoStats(8 + WIDE, 2000150);
    var p3 := [Part([], c, REST)] + [];
    var p2 := [Part(SecondStat(), b, WIDE)] + p3;
    var p1 := [Part(FirstStat(), a, 8)] + p2;
    assert p3[1..] == [] && p2[1..] == p3 && p1[1..] == p2;
    assert AllMatches(p3, 0, 8 + WIDE) == [] && Size(p3) == REST && AllLits(p3) == c;
    assert AllMatches(p2, 0, 8) == [BIG] && Size(p2) == WIDE + REST && AllLits(p2) == b + c;
    assert AllMatches(p1, 0, 0) == MS + [BIG] && Size(p1) == 8 + (WIDE + REST) && AllLits(p1) == a + (b + c);
  }

  /** The matches due and the literals are more than the output. */
  lemma DoesNotFill(a: seq<byte>, b: seq<byte>, c: seq<byte>)
    requires |a| == 8 && |b| == WIDE && |c| == REST
    ensures !Fills(Blocks(a, b, c), 0)
  {
    hide Blocks, AllMatches, AllLits, Size;
    BlocksAre(a, b, c);
    var ms := MS + [BIG];
    var due := set m | m in All(ms) && m.dest < 2000150;
    assert due == {FIRST} by {
      assert ms[0] == FIRST && ms[1] == SECOND && ms[2] == THIRD && ms[3] == BIG;
    }
    assert due == {} + {FIRST};
    TotalAdd({}, FIRST);
  }

  // ----- the blocks, one by one -----

  lemma StartRoomy(a: Load)
    requires a.used == 0 && a.useful >= 180 && a.v == map[0 := BARRIER]
    ensures Roomy(a, MS, 8) && Idle(a.v, 8)
    ensures Fresh(History({}, [], [], [], {}), MS)
  {
    hide Chunks;
    ThreeChunks();
  }

  lemma ThreeChunks()
    ensures Chunks(MS) == 3
  {
    assert Chunks(MS[..0]) == 0;
    assert MS[..1][..0] == MS[..0] && Chunks(MS[..1]) == 1;
    assert MS[..2][..1] == MS[..1] && Chunks(MS[..2]) == 2;
  }

  lemma LoadedThree(a: Load, b: Load)
    requires a.v == map[0 := BARRIER] && a.seqno == 1 && a.used == 0 && Loaded(a, MS, b)
    ensures Three(b.v) && b.seqno == 4 && b.used == 3 && b.useful == a.useful
  {
    hide Chunks;
    ThreeChunks();
    assert MS[0] == FIRST && MS[1] == SECOND && MS[2] == THIRD;
    forall x
      ensures x in b.v.Keys <==> x in {0, 1, 2, 3}
    {
    }
  }

  // The second block's match takes a save.
  lemma SecondCrowded(b: Load)
    requires Three(b.v) && b.used == 3 && b.useful == 982980
    ensures Crowded(b, [BIG], 8 + WIDE, 1000) && Idle(b.v, 8 + WIDE) && Late(b.v, 1000)
  {
    hide Whole, Late, Taken;
    ThreeLate(b.v);
  }

  lemma SecondFresh(h: History)
    requires h.matches == {} + All(MS)
    ensures Fresh(h, [BIG])
  {
    assert BIG.dest !in Seen(h);
  }

  // After it, a mark stands at the second match, and the first is behind it.
  lemma SecondLeaves(b: Load, c: Load)
    requires Three(b.v) && b.seqno == 4 && b.used == 3 && b.useful == 982980 && Squeezed(b, BIG, 1000, c)
    ensures Idle(c.v, 2000150) && Roomy(c, [], 2000150)
  {
    hide Whole, Late, Taken, Remains;
    ThreeLate(b.v);
    var mid :| SavedOnce(b, 1000, mid) && Added(mid, BIG, c);
    var course :| Whole(course, b.v, 1000) && Leaves(b, course, mid);
    assert LastOf([THIRD, FIRST, SECOND]) == 2000200;
    var n: nat :| MarkPut(Remains(course), mid.v, n, b.seqno, LastOf(Taken(course)));
    assert mid.v == map[0 := BARRIER][4 := Entry(Match(n, 2000200, 0), 0)];
    NoChunks();
  }

  lemma NoChunks()
    ensures Chunks([]) == 0
  {
  }

  lemma ThirdFresh(h: History)
    ensures Fresh(h, [])
  {
  }

  // All that is due is the first match.
  lemma FirstLeft(h: History, a: seq<byte>, b: seq<byte>, c: seq<byte>)
    requires |a| == 8 && |b| == WIDE && |c| == REST && Decodes(h, Blocks(a, b, c), 0)
    ensures !Complete(h) && FIRST in Due(h) && !Applied(FIRST, h.origin)
  {
    hide Blocks, AllMatches, AllLits, Size, Applied, Sound, Counted, Fills;
    DoesNotFill(a, b, c);
    LeftOut(h, Blocks(a, b, c), 0);
    BlocksAre(a, b, c);
    var ms := MS + [BIG];
    assert ms[0] == FIRST && ms[1] == SECOND && ms[2] == THIRD && ms[3] == BIG;
    assert Due(h) == {FIRST};
  }

  /** The blocks are decoded one after the other, each to its end, and then the
      stream ends: the output is explained, but a match due in it was left out. */
  method LosesMatch(a: seq<byte>, b: seq<byte>, c: seq<byte>) returns (out: seq<byte>, ghost h: History)
    requires |a| == 8 && |b| == WIDE && |c| == REST
    ensures Parts(Wire(Blocks(a, b, c), []), 12, 0) == Some(Blocks(a, b, c))
    ensures Decodes(h, Blocks(a, b, c), 0) && out == h.o
    ensures !Complete(h) && FIRST in Due(h) && !Applied(FIRST, h.origin)
  {
    hide Stats, FirstStat, SecondStat, Blocks, Three, Fills, L.Inv, L.AllLow, L.Ahead, L.Marks, Told, Decodes, Along, Complete, Applied, Due, Kernel.FreeBlocks, Kernel.State, Fresh, Roomy, Crowded, Squeezed, Idle, Loaded, Chunks, Late, Wire, Parts;
    var k := new Kernel(0, 0x10_0000, 1000);
    h := History({}, [], [], [], {});
    ghost var all, load := Blocks(a, b, c), k.Carries();
    OnTheWire(a, b, c);
    StatsAre();
    NoStats(8 + WIDE, 2000150);
    Started(a, b, c, h);

    StartRoomy(load);
    var out1 := new byte[8];
    var v;
    ghost var h0 := h;
    v, h := k.Block(FirstStat(), a, out1, 0, 0, h);
    FirstOn(a, b, c, h0, h);
    LoadedThree(load, k.Carries());

    load, h0 := k.Carries(), h;
    SecondCrowded(load);
    SecondFresh(h);
    var out2 := new byte[WIDE];
    v, h := k.Block(SecondStat(), b, out2, 8, 0, h);
    SecondOn(a, b, c, h0, h);
    SecondLeaves(load, k.Carries());

    h0 := h;
    ThirdFresh(h);
    var out3 := new byte[REST];
    v, h := k.Block([], c, out3, 8 + WIDE, 0, h);
    ThirdOn(a, b, c, h0, h, k.g, k.heap.View());
    FirstLeft(h, a, b, c);
    out := out1[..] + out2[..] + out3[..];
  }

  lemma OnTheWire(a: seq<byte>, b: seq<byte>, c: seq<byte>)
    requires |a| == 8 && |b| == WIDE && |c| == REST
    ensures Parts(Wire(Blocks(a, b, c), []), 12, 0) == Some(Blocks(a, b, c))
  {
    hide Wire, Parts, Le;
    WireBack(Blocks(a, b, c), [], 0);
  }

  // How far the reader has come after none, one and two of the blocks.
  ghost predicate Comes(a: seq<byte>, b: seq<byte>, c: seq<byte>, h: History, n: nat) {
    match n
    case 0 => Along(h, [], Blocks(a, b, c), Blocks(a, b, c), 0, 0)
    case 1 => Along(h, MS, Blocks(a, b, c), [Part(SecondStat(), b, WIDE)] + ([Part([], c, REST)] + []), 0, 8)
    case _ => Along(h, MS + [BIG], Blocks(a, b, c), [Part([], c, REST)] + [], 0, 8 + WIDE)
  }

  lemma Started(a: seq<byte>, b: seq<byte>, c: seq<byte>, h: History)
    requires h == History({}, [], [], [], {})
    ensures Comes(a, b, c, h, 0)
  {
    hide Along;
    AlongStart(h, Blocks(a, b, c), 0);
  }

  lemma FirstOn(a: seq<byte>, b: seq<byte>, c: seq<byte>, h: History, h': History)
    requires |a| == 8 && Comes(a, b, c, h, 0) && |h'.o| == 8 && h'.matches == h.matches + All(MS) && h'.lits == h.lits + a
    ensures Comes(a, b, c, h', 1)
  {
    hide Along, Stats, SrepStream.Distinct, NoneEmpty, AllMatches, AllLits, Size, Fresh, FirstStat, SecondStat;
    StatsAre();
    AlongStep(h, h', [], Blocks(a, b, c), Part(FirstStat(), a, 8), [Part(SecondStat(), b, WIDE)] + ([Part([], c, REST)] + []), 0, 0);
    assert [] + MS == MS;
  }

  lemma SecondOn(a: seq<byte>, b: seq<byte>, c: seq<byte>, h: History, h': History)
    requires Comes(a, b, c, h, 1) && |h'.o| == 8 + WIDE && h'.matches == h.matches + All([BIG]) && h'.lits == h.lits + b
    ensures Comes(a, b, c, h', 2)
  {
    hide Along, Stats, SrepStream.Distinct, NoneEmpty, AllMatches, AllLits, Size, Fresh, Blocks, FirstStat, SecondStat;
    StatsAre();
    AlongStep(h, h', MS, Blocks(a, b, c), Part(SecondStat(), b, WIDE), [Part([], c, REST)] + [], 0, 8);
  }

  lemma ThirdOn(a: seq<byte>, b: seq<byte>, c: seq<byte>, h: History, h': History, g: L.Ledger, v: L.View)
    requires Comes(a, b, c, h, 2) && |h'.o| == 2000150 && h'.matches == h.matches + All([]) && h'.lits == h.lits + c && Told(h', g, v)
    ensures Decodes(h', Blocks(a, b, c), 0)
  {
    hide Along, Stats, SrepStream.Distinct, NoneEmpty, AllMatches, AllLits, Size, Fresh, Blocks, FirstStat, SecondStat, Told, Decodes;
    NoStats(8 + WIDE, 2000150);
    AlongStep(h, h', MS + [BIG], Blocks(a, b, c), Part([], c, REST), [], 0, 8 + WIDE);
    assert MS + [BIG] + [] == MS + [BIG];
    AlongEnd(h', MS + [BIG], Blocks(a, b, c), 0, g, v);
  }
}
