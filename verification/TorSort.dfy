/** How the Huffman rebuild puts its leaves in order: small counts by counting,
    the others by insertion. */
module TorSort {
  import opened Counting
  import opened Permutations
  import opened Bytes
  import opened TorTree

  const CHUNKS: nat := 250
  const MAX_HUF: nat := 2048

  // Counts first, then symbols.
  function Key(cs: seq<nat>, i: nat): nat
    requires i < |cs|
  {
    cs[i] * MAX_HUF + i
  }

  // Counts for which keys fit 32 bits.
  predicate Narrow(cs: seq<nat>) {
    |cs| <= MAX_HUF && forall i :: 0 <= i < |cs| ==> cs[i] < 0x20_0000
  }

  lemma KeyFits(cs: seq<nat>, i: nat)
    requires Narrow(cs) && i < |cs|
    ensures (cs[i] * MAX_HUF + i) % U32 == Key(cs, i) == cs[i] * MAX_HUF + i
  {
  }

  /** The first n nodes are the leaves, in order. */
  ghost predicate InOrder(buf: seq<Node>, cs: seq<nat>) {
    && |cs| <= |buf|
    && (forall x :: 0 <= x < |cs| ==> buf[x].left < |cs| && buf[x].cnt == cs[buf[x].left])
    && (forall x, y :: 0 <= x < y < |cs| ==> Key(cs, buf[x].left) < Key(cs, buf[y].left))
  }

  // ----- counting -----

  function Less(cs: seq<nat>, c: nat, n: nat): nat
    requires n <= |cs|
  {
    if n == 0 then 0 else Less(cs, c, n - 1) + One(cs[n - 1] < c)
  }

  function Same(cs: seq<nat>, c: nat, n: nat): nat
    requires n <= |cs|
  {
    if n == 0 then 0 else Same(cs, c, n - 1) + One(cs[n - 1] == c)
  }

  lemma {:induction false} LessNext(cs: seq<nat>, c: nat, n: nat)
    requires n <= |cs|
    ensures Less(cs, c + 1, n) == Less(cs, c, n) + Same(cs, c, n) && Less(cs, 0, n) == 0 && Less(cs, c, n) <= n
  {
    if n > 0 {
      LessNext(cs, c, n - 1);
    }
  }

  lemma {:induction false} LessMono(cs: seq<nat>, c: nat, d: nat, n: nat)
    requires n <= |cs| && c <= d
    ensures Less(cs, c, n) <= Less(cs, d, n)
  {
    if n > 0 {
      LessMono(cs, c, d, n - 1);
    }
  }

  lemma {:induction false} SameMono(cs: seq<nat>, c: nat, i: nat, j: nat)
    requires i < j <= |cs|
    ensures Same(cs, c, i) + One(cs[i] == c) <= Same(cs, c, j)
  {
    if i < j - 1 {
      SameMono(cs, c, i, j - 1);
    }
  }

  // The place of symbol i among the leaves.
  function Rank(cs: seq<nat>, i: nat): nat
    requires i < |cs|
  {
    Less(cs, cs[i], |cs|) + Same(cs, cs[i], i)
  }

  lemma RankBound(cs: seq<nat>, i: nat, d: nat)
    requires i < |cs| && cs[i] < d
    ensures Rank(cs, i) < Less(cs, d, |cs|) <= |cs|
  {
    LessNext(cs, cs[i], |cs|);
    LessNext(cs, d, |cs|);
    SameMono(cs, cs[i], i, |cs|);
    LessMono(cs, cs[i] + 1, d, |cs|);
  }

  lemma RankOrder(cs: seq<nat>, i: nat, j: nat)
    requires i < |cs| && j < |cs| && Key(cs, i) < Key(cs, j) && |cs| <= MAX_HUF
    ensures Rank(cs, i) < Rank(cs, j)
  {
    if cs[i] < cs[j] {
      RankBound(cs, i, cs[j]);
    } else {
      assert cs[i] == cs[j] && i < j;
      SameMono(cs, cs[i], i, j);
    }
  }

  lemma RankDistinct(cs: seq<nat>, i: nat, j: nat)
    requires i < |cs| && j < |cs| && i != j && |cs| <= MAX_HUF
    ensures Key(cs, i) != Key(cs, j) && Rank(cs, i) != Rank(cs, j)
  {
    KeysDiffer(cs[i], i, cs[j], j);
    if Key(cs, i) < Key(cs, j) {
      RankOrder(cs, i, j);
    } else {
      RankOrder(cs, j, i);
    }
  }

  lemma KeysDiffer(c: nat, i: nat, d: nat, j: nat)
    requires i < MAX_HUF && j < MAX_HUF
    ensures c * MAX_HUF + i == d * MAX_HUF + j ==> c == d && i == j
  {
  }

  function Smalls(cs: seq<nat>, n: nat): seq<nat>
    requires n <= |cs|
  {
    if n == 0 then [] else Smalls(cs, n - 1) + if cs[n - 1] < CHUNKS then [n - 1] else []
  }

  function Bigs(cs: seq<nat>, n: nat): seq<nat>
    requires n <= |cs|
  {
    if n == 0 then [] else Bigs(cs, n - 1) + if cs[n - 1] < CHUNKS then [] else [Key(cs, n - 1)]
  }

  lemma {:induction false} SmallsAre(cs: seq<nat>, n: nat)
    requires n <= |cs|
    ensures |Smalls(cs, n)| == Less(cs, CHUNKS, n) && |Smalls(cs, n)| + |Bigs(cs, n)| == n
    ensures forall k :: 0 <= k < |Smalls(cs, n)| ==> Smalls(cs, n)[k] < n && cs[Smalls(cs, n)[k]] < CHUNKS
    ensures forall j, k :: 0 <= j < k < |Smalls(cs, n)| ==> Smalls(cs, n)[j] < Smalls(cs, n)[k]
    ensures forall k :: 0 <= k < |Bigs(cs, n)| ==> Bigs(cs, n)[k] % MAX_HUF < n && cs[Bigs(cs, n)[k] % MAX_HUF] >= CHUNKS
    ensures forall k :: 0 <= k < |Bigs(cs, n)| ==> Bigs(cs, n)[k] == Key(cs, Bigs(cs, n)[k] % MAX_HUF)
    ensures forall j, k :: 0 <= j < k < |Bigs(cs, n)| ==> Bigs(cs, n)[j] != Bigs(cs, n)[k]
    requires |cs| <= MAX_HUF
  {
    if n > 0 {
      SmallsAre(cs, n - 1);
      var m := n - 1;
      forall k | 0 <= k < |Bigs(cs, m)|
        ensures Bigs(cs, m)[k] != Key(cs, m)
      {
        RankDistinct(cs, Bigs(cs, m)[k] % MAX_HUF, m);
      }
      assert Key(cs, m) % MAX_HUF == m;
    }
  }

  // ----- insertion -----

  predicate Ascending(s: seq<nat>, lo: nat, hi: nat)
    requires lo <= hi <= |s|
  {
    forall i, j :: lo <= i < j < hi ==> s[i] <= s[j]
  }

  // Moving the hole down one place moves one element up.
  lemma HoleMoves(rest: seq<nat>, v: nat, j: nat, was: seq<nat>)
    requires 0 < j < |rest| && Shuffled(rest[j := v], was)
    ensures Shuffled(rest[j := rest[j - 1]][j - 1 := v], was)
  {
    var a, b := rest[j := v], rest[j := rest[j - 1]][j - 1 := v];
    assert b == a[j - 1 := a[j]][j := a[j - 1]];
  }

  // Place j is free for v; the other places up to i are in order, and those above j beyond v.
  predicate Gap(s: seq<nat>, i: nat, j: nat, v: nat)
    requires j <= i < |s|
  {
    && (forall a, b :: 0 <= a < b <= i && a != j && b != j ==> s[a] <= s[b])
    && (forall b :: j < b <= i ==> v < s[b])
  }

  lemma GapMoves(s: seq<nat>, i: nat, j: nat, v: nat)
    requires 0 < j <= i < |s| && Gap(s, i, j, v) && s[j - 1] > v
    ensures Gap(s[j := s[j - 1]], i, j - 1, v)
  {
  }

  lemma GapCloses(s: seq<nat>, i: nat, j: nat, v: nat)
    requires j <= i < |s| && Gap(s, i, j, v) && (j > 0 ==> s[j - 1] <= v)
    ensures Ascending(s[j := v], 0, i + 1)
  {
  }

  predicate Shuffled(s: seq<nat>, s': seq<nat>) {
    |s| == |s'| && multiset(s) == multiset(s')
  }

  method InsertionSort(s: seq<nat>) returns (rest: seq<nat>)
    ensures |rest| == |s| && Ascending(rest, 0, |rest|) && multiset(rest) == multiset(s)
  {
    hide Gap;
    rest := s;
    var i := 1;
    while i < |rest|
      invariant 1 <= i && (i <= |rest| || |rest| == 0) && Shuffled(rest, s)
      invariant |rest| > 0 ==> Ascending(rest, 0, i)
    {
      rest := Insertion(rest, i, s);
      i := i + 1;
    }
  }

  // One element goes down to its place.
  method Insertion(s: seq<nat>, i: nat, ghost was: seq<nat>) returns (rest: seq<nat>)
    requires 0 < i < |s| && Ascending(s, 0, i) && Shuffled(s, was)
    ensures Shuffled(rest, was) && Ascending(rest, 0, i + 1)
  {
    hide Ascending, Gap, Shuffled;
    rest := s;
    var v := rest[i];
    var j := i;
    GapOpens(rest, i);
    assert rest[j := v] == rest;
    while j > 0 && rest[j - 1] > v
      invariant j <= i < |rest| && Gap(rest, i, j, v) && Shuffled(rest[j := v], was)
    {
      HoleMoves(rest, v, j, was);
      GapMoves(rest, i, j, v);
      rest := rest[j := rest[j - 1]];
      j := j - 1;
    }
    GapCloses(rest, i, j, v);
    rest := rest[j := v];
  }

  lemma GapOpens(s: seq<nat>, i: nat)
    requires i < |s| && Ascending(s, 0, i)
    ensures Gap(s, i, i, s[i])
  {
  }

  // Without repetitions, ascending is strictly ascending, and everything comes from the input.
  lemma SortedStrictly(s: seq<nat>, rest: seq<nat>)
    requires |rest| == |s| && Ascending(rest, 0, |rest|) && multiset(rest) == multiset(s)
    requires forall j, k :: 0 <= j < k < |s| ==> s[j] != s[k]
    ensures forall j, k :: 0 <= j < k < |rest| ==> rest[j] < rest[k]
    ensures forall k :: 0 <= k < |rest| ==> rest[k] in s
  {
    Once(s);
    forall j, k | 0 <= j < k < |rest|
      ensures rest[j] < rest[k]
    {
      assert multiset(s)[rest[j]] <= 1;
      if rest[j] == rest[k] {
        Twice(rest, j, k);
      }
    }
    forall k | 0 <= k < |rest|
      ensures rest[k] in s
    {
      assert rest[k] in multiset(rest);
    }
  }

  lemma {:induction false} Once(s: seq<nat>)
    requires forall j, k :: 0 <= j < k < |s| ==> s[j] != s[k]
    ensures forall x :: multiset(s)[x] <= 1
  {
    if s != [] {
      var n := |s| - 1;
      Once(s[..n]);
      assert s == s[..n] + [s[n]];
      assert s[n] !in s[..n];
    }
  }

  lemma Twice(s: seq<nat>, j: nat, k: nat)
    requires j < k < |s| && s[j] == s[k]
    ensures multiset(s)[s[j]] >= 2
  {
    assert s == s[..k] + [s[k]] + s[k + 1..];
    assert s[j] in s[..k];
    assert multiset(s) == multiset(s[..k]) + multiset{s[k]} + multiset(s[k + 1..]);
  }

  // ----- the leaves -----

  function LeafOf(cs: seq<nat>, i: nat, at: Node): Node
    requires i < |cs|
  {
    at.(cnt := cs[i], left := i)
  }

  // Symbol i is in its place.
  predicate Placed(buf: seq<Node>, cs: seq<nat>, i: nat)
    requires i < |cs|
  {
    Rank(cs, i) < |buf| && buf[Rank(cs, i)].cnt == cs[i] && buf[Rank(cs, i)].left == i
  }

  ghost predicate SmallsPlaced(buf: seq<Node>, cs: seq<nat>, n: nat) {
    n <= |cs| && forall i :: 0 <= i < n && cs[i] < CHUNKS ==> Placed(buf, cs, i)
  }

  // Where the next symbol of each small count goes.
  ghost predicate Slots(places: seq<nat>, cs: seq<nat>, n: nat) {
    && n <= |cs| && |places| == CHUNKS + 1 && places[CHUNKS] == Less(cs, CHUNKS, |cs|)
    && forall c :: 0 <= c < CHUNKS ==> places[c] == Less(cs, c, |cs|) + Same(cs, c, n)
  }

  method CountPlaces(cs: seq<nat>) returns (places: seq<nat>)
    ensures Slots(places, cs, 0)
  {
    places := seq(CHUNKS + 1, _ => 0);
    for i := 0 to |cs|
      invariant |places| == CHUNKS + 1 && places[0] == 0
      invariant forall c :: 0 <= c < CHUNKS ==> places[c + 1] == Same(cs, c, i)
    {
      if cs[i] < CHUNKS {
        places := places[cs[i] + 1 := places[cs[i] + 1] + 1];
      }
    }
    LessNext(cs, 0, |cs|);
    for i := 0 to CHUNKS
      invariant |places| == CHUNKS + 1
      invariant forall c :: 0 <= c <= i ==> places[c] == Less(cs, c, |cs|)
      invariant forall c :: i < c <= CHUNKS ==> places[c] == Same(cs, c - 1, |cs|)
    {
      LessNext(cs, i, |cs|);
      places := places[i + 1 := places[i + 1] + places[i]];
    }
  }

  lemma SlotsStep(places: seq<nat>, cs: seq<nat>, i: nat)
    requires Slots(places, cs, i) && i < |cs|
    ensures cs[i] < CHUNKS ==> places[cs[i]] == Rank(cs, i) && Slots(places[cs[i] := places[cs[i]] + 1], cs, i + 1)
    ensures cs[i] >= CHUNKS ==> Slots(places, cs, i + 1)
  {
  }

  lemma PlaceKeeps(buf: seq<Node>, cs: seq<nat>, i: nat)
    requires i < |cs| <= MAX_HUF && SmallsPlaced(buf, cs, i) && Rank(cs, i) < |buf|
    ensures SmallsPlaced(buf[Rank(cs, i) := LeafOf(cs, i, buf[Rank(cs, i)])], cs, i + 1)
  {
    hide Rank, Key;
    forall j | 0 <= j < i && cs[j] < CHUNKS
      ensures Rank(cs, j) != Rank(cs, i) && Placed(buf, cs, j)
    {
      RankDistinct(cs, j, i);
    }
  }

  /** The counting part: leaves with small counts go to the front of the buffer,
      the keys of the others are listed. */
  method PlaceSmalls(cs: seq<nat>, buf: array<Node>) returns (m: nat, rest: seq<nat>)
    requires Narrow(cs) && |cs| <= buf.Length
    modifies buf
    ensures m == Less(cs, CHUNKS, |cs|) <= |cs| && rest == Bigs(cs, |cs|) && SmallsPlaced(buf[..], cs, |cs|)
  {
    hide Rank, Key, Slots, SmallsPlaced, LeafOf;
    var places := CountPlaces(cs);
    rest := [];
    NonePlaced(buf[..], cs);
    for i := 0 to |cs|
      invariant Slots(places, cs, i) && rest == Bigs(cs, i) && SmallsPlaced(buf[..], cs, i)
    {
      var c := cs[i];
      SlotsStep(places, cs, i);
      SlotsSize(places, cs, i);
      if c < CHUNKS {
        var p := places[c];
        RankBound(cs, i, CHUNKS);
        PlaceKeeps(buf[..], cs, i);
        places := places[c := places[c] + 1];
        Leafs(cs, i, buf[p]);
        ghost var now := buf[..];
        buf[p] := buf[p].(cnt := c, left := i);
        assert buf[..] == now[p := LeafOf(cs, i, now[p])];
      } else {
        KeyFits(cs, i);
        rest := rest + [(c * MAX_HUF + i) % U32];
        BigSkips(buf[..], cs, i);
      }
    }
    SlotsSize(places, cs, |cs|);
    LessNext(cs, CHUNKS, |cs|);
    m := places[CHUNKS];
  }

  lemma NonePlaced(buf: seq<Node>, cs: seq<nat>)
    ensures SmallsPlaced(buf, cs, 0)
  {
  }

  lemma SlotsSize(places: seq<nat>, cs: seq<nat>, i: nat)
    requires Slots(places, cs, i)
    ensures |places| == CHUNKS + 1 && places[CHUNKS] == Less(cs, CHUNKS, |cs|)
  {
  }

  lemma Leafs(cs: seq<nat>, i: nat, at: Node)
    requires i < |cs|
    ensures LeafOf(cs, i, at) == at.(cnt := cs[i], left := i)
  {
  }

  lemma BigSkips(buf: seq<Node>, cs: seq<nat>, i: nat)
    requires i < |cs| && cs[i] >= CHUNKS && SmallsPlaced(buf, cs, i)
    ensures SmallsPlaced(buf, cs, i + 1)
  {
  }

  // ----- all leaves in order -----

  // The front of the buffer holds the leaves with small counts, each at its rank.
  lemma SmallAt(buf: seq<Node>, cs: seq<nat>, x: nat)
    requires |cs| <= MAX_HUF && SmallsPlaced(buf, cs, |cs|) && x < Less(cs, CHUNKS, |cs|)
    ensures x < |buf| && buf[x].left < |cs| && cs[buf[x].left] < CHUNKS && Placed(buf, cs, buf[x].left) && Rank(cs, buf[x].left) == x
  {
    var small, m := Smalls(cs, |cs|), Less(cs, CHUNKS, |cs|);
    SmallsAre(cs, |cs|);
    var ranks: seq<nat> := seq(m, k requires 0 <= k < m => Rank(cs, small[k]));
    forall k | 0 <= k < m
      ensures ranks[k] < m
    {
      RankBound(cs, small[k], CHUNKS);
    }
    forall j, k | 0 <= j < k < m
      ensures ranks[j] != ranks[k]
    {
      RankDistinct(cs, small[j], small[k]);
    }
    Everyone(ranks, m, x);
    var k :| 0 <= k < m && ranks[k] == x;
    assert Placed(buf, cs, small[k]);
  }

  lemma OrderSmalls(buf: seq<Node>, cs: seq<nat>, x: nat, y: nat)
    requires |cs| <= MAX_HUF && SmallsPlaced(buf, cs, |cs|) && x < y < Less(cs, CHUNKS, |cs|)
    ensures x < |buf| && y < |buf| && buf[x].left < |cs| && buf[y].left < |cs| && Key(cs, buf[x].left) < Key(cs, buf[y].left)
  {
    SmallAt(buf, cs, x);
    SmallAt(buf, cs, y);
    var i, j := buf[x].left, buf[y].left;
    RankDistinct(cs, i, j);
    if Key(cs, j) < Key(cs, i) {
      RankOrder(cs, j, i);
    }
  }

  // Everything sorted out: the counted leaves, then the inserted ones.
  ghost predicate Laid(buf: seq<Node>, cs: seq<nat>, m: nat, rest: seq<nat>, n: nat) {
    && SmallsPlaced(buf, cs, |cs|) && m == Less(cs, CHUNKS, |cs|) && m + |rest| == |cs| <= |buf| && n <= |rest|
    && forall k {:trigger rest[k]} :: 0 <= k < n ==> buf[m + k].cnt == rest[k] / MAX_HUF && buf[m + k].left == rest[k] % MAX_HUF
  }

  lemma LaidStep(buf: seq<Node>, cs: seq<nat>, m: nat, rest: seq<nat>, n: nat, node: Node)
    requires |cs| <= MAX_HUF && Laid(buf, cs, m, rest, n) && n < |rest| && node.cnt == rest[n] / MAX_HUF && node.left == rest[n] % MAX_HUF
    ensures Laid(buf[n + m := node], cs, m, rest, n + 1)
  {
    hide Rank;
    var buf' := buf[n + m := node];
    forall i | 0 <= i < |cs| && cs[i] < CHUNKS
      ensures Placed(buf', cs, i)
    {
      assert Placed(buf, cs, i);
      RankBound(cs, i, CHUNKS);
    }
  }

  lemma BigAt(buf: seq<Node>, cs: seq<nat>, m: nat, rest: seq<nat>, k: nat)
    requires |cs| <= MAX_HUF && Laid(buf, cs, m, rest, |rest|) && k < |rest|
    requires forall k :: 0 <= k < |rest| ==> rest[k] in Bigs(cs, |cs|)
    ensures buf[m + k].left < |cs| && cs[buf[m + k].left] == buf[m + k].cnt >= CHUNKS && Key(cs, buf[m + k].left) == rest[k]
  {
    SmallsAre(cs, |cs|);
    var v := rest[k];
    var q :| 0 <= q < |Bigs(cs, |cs|)| && Bigs(cs, |cs|)[q] == v;
    KeyParts(cs, v % MAX_HUF);
  }

  lemma KeyParts(cs: seq<nat>, i: nat)
    requires i < |cs| <= MAX_HUF
    ensures Key(cs, i) / MAX_HUF == cs[i] && Key(cs, i) % MAX_HUF == i
  {
  }

  lemma LaidOrder(buf: seq<Node>, cs: seq<nat>, m: nat, rest: seq<nat>)
    requires |cs| <= MAX_HUF && Laid(buf, cs, m, rest, |rest|)
    requires forall k :: 0 <= k < |rest| ==> rest[k] in Bigs(cs, |cs|)
    requires forall j, k :: 0 <= j < k < |rest| ==> rest[j] < rest[k]
    ensures InOrder(buf, cs)
  {
    hide Laid, SmallsPlaced, Placed, Rank, Bigs, Less;
    LaidSize(buf, cs, m, rest);
    forall x | 0 <= x < |cs|
      ensures buf[x].left < |cs| && buf[x].cnt == cs[buf[x].left]
    {
      if x < m { LaidSmall(buf, cs, m, rest, x); } else { BigAt(buf, cs, m, rest, x - m); }
    }
    forall x, y | 0 <= x < y < |cs|
      ensures Key(cs, buf[x].left) < Key(cs, buf[y].left)
    {
      if y < m { OrderSmalls(buf, cs, x, y); }
      else {
        BigAt(buf, cs, m, rest, y - m);
        if x < m { LaidSmall(buf, cs, m, rest, x); } else { BigAt(buf, cs, m, rest, x - m); }
      }
    }
  }

  lemma LaidSize(buf: seq<Node>, cs: seq<nat>, m: nat, rest: seq<nat>)
    requires Laid(buf, cs, m, rest, |rest|)
    ensures m + |rest| == |cs| <= |buf| && m == Less(cs, CHUNKS, |cs|) && SmallsPlaced(buf, cs, |cs|)
  {
  }

  lemma LaidSmall(buf: seq<Node>, cs: seq<nat>, m: nat, rest: seq<nat>, x: nat)
    requires |cs| <= MAX_HUF && Laid(buf, cs, m, rest, |rest|) && x < m
    ensures x < |buf| && buf[x].left < |cs| && cs[buf[x].left] == buf[x].cnt < CHUNKS && Key(cs, buf[x].left) < CHUNKS * MAX_HUF
  {
    SmallAt(buf, cs, x);
  }

  /** The leaves of a rebuild, in order, with fences behind them. */
  method SortLeaves(cs: seq<nat>, buf: array<Node>)
    requires Narrow(cs) && 2 * |cs| + 4 <= buf.Length
    modifies buf
    ensures InOrder(buf[..], cs) && forall i :: |cs| <= i < 2 * |cs| + 4 ==> buf[i].cnt == FENCE
  {
    hide InOrder, Laid, SmallsPlaced, Bigs, Less;
    var m, keys := PlaceSmalls(cs, buf);
    SmallsAre(cs, |cs|);
    var rest := InsertionSort(keys);
    SortedStrictly(keys, rest);
    LaidFirst(buf[..], cs, m, rest);
    for i := 0 to |rest|
      invariant Laid(buf[..], cs, m, rest, i)
    {
      var v := rest[i];
      var p := i + m;
      LaidStep(buf[..], cs, m, rest, i, buf[p].(cnt := v / MAX_HUF, left := v % MAX_HUF));
      ghost var now := buf[..];
      buf[p] := buf[p].(cnt := v / MAX_HUF, left := v % MAX_HUF);
      assert buf[..] == now[i + m := now[p].(cnt := v / MAX_HUF, left := v % MAX_HUF)];
    }
    LaidOrder(buf[..], cs, m, rest);
    var b := |cs|;
    for i := 0 to b + 4
      invariant InOrder(buf[..], cs) && forall k :: b <= k < b + i ==> buf[k].cnt == FENCE
    {
      FenceKeeps(buf[..], cs, b + i);
      ghost var now := buf[..];
      buf[b + i] := buf[b + i].(cnt := FENCE);
      assert buf[..] == now[b + i := now[b + i].(cnt := FENCE)];
    }
  }

  lemma LaidFirst(buf: seq<Node>, cs: seq<nat>, m: nat, rest: seq<nat>)
    requires SmallsPlaced(buf, cs, |cs|) && m == Less(cs, CHUNKS, |cs|) && m + |rest| == |cs| <= |buf|
    ensures Laid(buf, cs, m, rest, 0)
  {
  }

  lemma FenceKeeps(buf: seq<Node>, cs: seq<nat>, i: nat)
    requires InOrder(buf, cs) && |cs| <= i < |buf|
    ensures InOrder(buf[i := buf[i].(cnt := FENCE)], cs)
  {
  }
}
