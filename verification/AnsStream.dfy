/** Whole streams: what an encoder that runs backwards writes, the decoder reads,
    with every table, probability and weight adapting alike on both sides. */
module AnsStream {
  import opened Bytes
  import opened AnsCoder
  import opened AnsModels

  // The size of a table and the shift it adapts with.
  datatype Kind = Kind(n: nat, k: nat)

  type Kinds = map<int, Kind>

  // At least one of the floor's units for each symbol.
  predicate KindOk(t: Kind) {
    0 < t.n <= Pow2(t.k) && t.k <= 15
  }

  datatype Models = Models(tables: map<int, seq<int>>, probs: map<int, nat>, weights: map<int, nat>)

  /** One operation of the decoder on the models it names. */
  datatype Op = Bit(a: int) | Symbol(a: int, n: nat, shift: nat) | Raw(n: nat) | Mixed(a: int, b: int, w: int, shift: nat)

  function TableOf(m: Models, a: int, n: nat): seq<int>
    requires n > 0
  {
    if a in m.tables then m.tables[a] else Even(n)
  }

  function ProbOf(m: Models, a: int): nat { if a in m.probs then m.probs[a] else 8192 }

  function WeightOf(m: Models, w: int): nat { if w in m.weights then m.weights[w] else 32768 }

  // Each table is used with one size and one shift.
  predicate Fits(kinds: Kinds, op: Op) {
    match op
    case Bit(_) => true
    case Symbol(a, n, shift) => a in kinds && kinds[a] == Kind(n, shift) && KindOk(kinds[a])
    case Raw(n) => n <= 23
    case Mixed(a, b, _, shift) => a in kinds && b in kinds && kinds[a] == kinds[b] == Kind(16, shift) && 5 <= shift <= 15
  }

  ghost predicate GoodTable(c: seq<int>, t: Kind) {
    KindOk(t) && |c| == t.n + 1 && Wide(c, Floor(t.n, t.k))
  }

  ghost predicate Sane(kinds: Kinds, m: Models) {
    && (forall a :: a in m.tables ==> a in kinds && GoodTable(m.tables[a], kinds[a]))
    && (forall a :: a in m.probs ==> 0 < m.probs[a] < Pow2(14))
    && (forall w :: w in m.weights ==> 0 < m.weights[w] < SIXTEEN)
  }

  predicate Possible(op: Op, v: nat) {
    match op
    case Bit(_) => v <= 1
    case Symbol(_, n, _) => v < n
    case Raw(n) => v < Pow2(n)
    case Mixed(_, _, _, _) => v < 16
  }

  lemma FloorPositive(t: Kind)
    requires KindOk(t)
    ensures Floor(t.n, t.k) > 0
  {
    DivUnique(1, 0, t.n);
    FloorSteps(t.n, Pow2(t.k) - t.n, t.n);
  }

  lemma MixedKind(k: nat)
    requires 5 <= k <= 15
    ensures KindOk(Kind(16, k)) && Floor(16, k) >= 2
  {
    Pow2Values();
    Pow2Mono(5, k);
  }

  lemma TableGood(kinds: Kinds, m: Models, a: int, t: Kind)
    requires Sane(kinds, m) && a in kinds && kinds[a] == t && KindOk(t)
    ensures GoodTable(TableOf(m, a, t.n), t) && Cdf(TableOf(m, a, t.n))
  {
    FloorPositive(t);
    EvenWide(t.n, t.k);
    WideCdf(TableOf(m, a, t.n), Floor(t.n, t.k));
  }

  lemma OthersGood(kinds: Kinds, m: Models)
    requires Sane(kinds, m)
    ensures forall a :: 0 < ProbOf(m, a) < Pow2(14)
    ensures forall w :: 0 < WeightOf(m, w) < SIXTEEN
  {
    Pow2Values();
  }

  // The table an operation selects from.
  function Selection(m: Models, op: Op): seq<int>
    requires (op.Symbol? && op.n > 0) || (op.Mixed? && |TableOf(m, op.a, 16)| == |TableOf(m, op.b, 16)| == 17)
  {
    match op
    case Symbol(a, n, _) => TableOf(m, a, n)
    case Mixed(a, b, w, _) => Mixture(WeightOf(m, w), TableOf(m, a, 16), TableOf(m, b, 16))
  }

  lemma SelectionOk(kinds: Kinds, m: Models, op: Op)
    requires Sane(kinds, m) && Fits(kinds, op) && (op.Symbol? || op.Mixed?)
    ensures op.Symbol? ==> op.n > 0
    ensures op.Mixed? ==> |TableOf(m, op.a, 16)| == |TableOf(m, op.b, 16)| == 17
    ensures Cdf(Selection(m, op)) && |Selection(m, op)| == if op.Symbol? then op.n + 1 else 17
  {
    if op.Symbol? {
      TableGood(kinds, m, op.a, kinds[op.a]);
    } else {
      MixedKind(op.shift);
      TableGood(kinds, m, op.a, kinds[op.a]);
      TableGood(kinds, m, op.b, kinds[op.b]);
      OthersGood(kinds, m);
      MixtureCdf(WeightOf(m, op.w), TableOf(m, op.a, 16), TableOf(m, op.b, 16), Floor(16, op.shift));
    }
  }

  /** The slice of the state that stands for value v of an operation. */
  ghost function SliceOf(kinds: Kinds, m: Models, op: Op, v: nat): Slice
    requires Sane(kinds, m) && Fits(kinds, op) && Possible(op, v)
  {
    OthersGood(kinds, m);
    match op
    case Bit(a) => BitSlice(ProbOf(m, a), 14, v)
    case Raw(n) => RawSlice(n, v)
    case _ =>
      SelectionOk(kinds, m, op);
      CdfSlice(Selection(m, op), v);
      SymbolSlice(Selection(m, op), v)
  }

  // How many times the slices of an operation fit into the state's lower bound.
  function Share(op: Op): nat
    requires op.Raw? ==> op.n <= 23
  {
    match op
    case Bit(_) => Pow2(9)
    case Raw(n) => Pow2(23 - n)
    case _ => Pow2(8)
  }

  lemma SliceFits(kinds: Kinds, m: Models, op: Op, v: nat)
    requires Sane(kinds, m) && Fits(kinds, op) && Possible(op, v)
    ensures Sliced(SliceOf(kinds, m, op, v), Share(op))
  {
    Pow2Values();
    OthersGood(kinds, m);
    match op
    case Bit(a) => Pow2Add(14, 9);
    case Raw(n) => Pow2Add(n, 23 - n);
    case _ =>
      Pow2Add(15, 8);
      SelectionOk(kinds, m, op);
      CdfSlice(Selection(m, op), v);
  }

  /** A state belongs to one value only. */
  lemma SliceUnique(kinds: Kinds, m: Models, op: Op, v: nat, v': nat, x: nat)
    requires Sane(kinds, m) && Fits(kinds, op) && Possible(op, v) && Possible(op, v')
    requires SliceOf(kinds, m, op, v).total > 0 && SliceOf(kinds, m, op, v').total > 0
    requires Inside(x, SliceOf(kinds, m, op, v)) && Inside(x, SliceOf(kinds, m, op, v'))
    ensures v == v'
  {
    if op.Symbol? || op.Mixed? {
      SelectionOk(kinds, m, op);
      var c := Selection(m, op);
      if v < v' {
        CdfOrdered(c, v + 1, v');
      } else if v' < v {
        CdfOrdered(c, v' + 1, v);
      }
    }
  }

  /** What the models learn from a value. */
  function Learn(m: Models, op: Op, v: nat): Models
    requires Possible(op, v) && (op.Symbol? ==> |TableOf(m, op.a, op.n)| == op.n + 1)
    requires op.Mixed? ==> |TableOf(m, op.a, 16)| == |TableOf(m, op.b, 16)| == 17
  {
    match op
    case Bit(a) => m.(probs := m.probs[a := Max0(BitNext(ProbOf(m, a), 14, 5, v))])
    case Symbol(a, n, shift) => m.(tables := m.tables[a := Adapted(TableOf(m, a, n), v, shift)])
    case Raw(_) => m
    case Mixed(a, b, w, shift) =>
      var ta, tb := TableOf(m, a, 16), TableOf(m, b, 16);
      var m1 := m.(tables := m.tables[a := Adapted(ta, v, shift)]);
      var tb1 := TableOf(m1, b, 16);
      Models(m1.tables[b := Adapted(tb1, v, shift)], m.probs, m.weights[w := Max0(Weighed(WeightOf(m, w), ta, tb, v))])
  }

  function Max0(x: int): nat { if x < 0 then 0 else x }

  lemma LearnTable(kinds: Kinds, m: Models, a: int, v: nat)
    requires Sane(kinds, m) && a in kinds && KindOk(kinds[a])
    ensures var t := kinds[a]; |TableOf(m, a, t.n)| == t.n + 1 && Sane(kinds, m.(tables := m.tables[a := Adapted(TableOf(m, a, t.n), v, t.k)]))
  {
    hide Wide, Floor, Adapted, Pow2, KindOk;
    TableGood(kinds, m, a, kinds[a]);
    KindSmall(kinds[a]);
    AdaptWide(TableOf(m, a, kinds[a].n), v, kinds[a].k);
  }

  lemma KindSmall(t: Kind)
    requires KindOk(t)
    ensures 0 < t.n && t.k <= 15
  {
  }

  lemma LearnWeight(kinds: Kinds, m: Models, w: int, x: nat)
    requires Sane(kinds, m) && 0 < x < SIXTEEN
    ensures Sane(kinds, m.(weights := m.weights[w := x]))
  {
    hide GoodTable;
  }

  lemma LearnProb(kinds: Kinds, m: Models, a: int, x: nat)
    requires Sane(kinds, m) && 0 < x < Pow2(14)
    ensures Sane(kinds, m.(probs := m.probs[a := x]))
  {
    hide GoodTable, Pow2;
  }

  lemma LearnSane(kinds: Kinds, m: Models, op: Op, v: nat)
    requires Sane(kinds, m) && Fits(kinds, op) && Possible(op, v)
    ensures op.Symbol? ==> |TableOf(m, op.a, op.n)| == op.n + 1
    ensures op.Mixed? ==> |TableOf(m, op.a, 16)| == |TableOf(m, op.b, 16)| == 17
    ensures Sane(kinds, Learn(m, op, v))
  {
    hide Adapted, Pow2, KindOk, Sane;
    OthersGood(kinds, m);
    match op
    case Bit(a) =>
      BitNextOk(ProbOf(m, a), 14, 5, v);
      LearnProb(kinds, m, a, BitNext(ProbOf(m, a), 14, 5, v));
    case Raw(_) =>
    case Symbol(a, n, shift) => LearnTable(kinds, m, a, v);
    case Mixed(a, b, w, shift) =>
      MixedKind(shift);
      LearnTable(kinds, m, a, v);
      LearnTable(kinds, m, b, v);
      var ta, tb := TableOf(m, a, 16), TableOf(m, b, 16);
      var m1 := m.(tables := m.tables[a := Adapted(ta, v, shift)]);
      LearnTable(kinds, m1, b, v);
      var m2 := m1.(tables := m1.tables[b := Adapted(TableOf(m1, b, 16), v, shift)]);
      WeighedOk(WeightOf(m, w), ta, tb, v);
      LearnWeight(kinds, m2, w, Weighed(WeightOf(m, w), ta, tb, v));
  }

  // The width of a value's slice.
  ghost function WidthOf(kinds: Kinds, m: Models, op: Op, v: nat): nat {
    if Sane(kinds, m) && Fits(kinds, op) && Possible(op, v) then SliceOf(kinds, m, op, v).size else 0
  }

  /** Learning a value never makes it less likely, nor another one more likely.
      The mixture is computed in whole numbers, and may lose as much as rounding. */
  lemma LearnFavours(kinds: Kinds, m: Models, op: Op, v: nat)
    requires Sane(kinds, m) && Fits(kinds, op) && Possible(op, v)
    ensures op.Symbol? ==> |TableOf(m, op.a, op.n)| == op.n + 1
    ensures op.Mixed? ==> |TableOf(m, op.a, 16)| == |TableOf(m, op.b, 16)| == 17
    ensures WidthOf(kinds, Learn(m, op, v), op, v) + (if op.Mixed? then 3 else 0) >= WidthOf(kinds, m, op, v)
    ensures !op.Mixed? ==> forall u: nat :: u != v ==> WidthOf(kinds, Learn(m, op, v), op, u) <= WidthOf(kinds, m, op, u)
  {
    hide Sane, Selection, SliceOf, WidthOf, Fits;
    LearnSane(kinds, m, op, v);
    match op
    case Bit(a) => BitFavours(kinds, m, a, v);
    case Raw(_) =>
    case Symbol(a, n, shift) => SymbolFavours(kinds, m, op, v);
    case Mixed(a, b, w, shift) => MixedFavours(kinds, m, op, v);
  }

  lemma BitFavours(kinds: Kinds, m: Models, a: int, v: nat)
    requires Sane(kinds, m) && v <= 1
    ensures var op := Op.Bit(a); var m' := Learn(m, op, v);
            WidthOf(kinds, m', op, v) >= WidthOf(kinds, m, op, v) && forall u: nat :: u != v ==> WidthOf(kinds, m', op, u) <= WidthOf(kinds, m, op, u)
  {
    hide Pow2, Sane;
    LearnSane(kinds, m, Op.Bit(a), v);
    OthersGood(kinds, m);
    BitNextOk(ProbOf(m, a), 14, 5, v);
    BitNextMoves(ProbOf(m, a), 14, 5, v);
  }

  lemma SymbolFavours(kinds: Kinds, m: Models, op: Op, v: nat)
    requires Sane(kinds, m) && op.Symbol? && Fits(kinds, op) && v < op.n && |TableOf(m, op.a, op.n)| == op.n + 1
    ensures var m' := Learn(m, op, v);
            WidthOf(kinds, m', op, v) >= WidthOf(kinds, m, op, v) && forall u: nat :: u != v ==> WidthOf(kinds, m', op, u) <= WidthOf(kinds, m, op, u)
  {
    hide Sane, Wide, Adapted, Floor, Pow2, KindOk, SliceOf, WidthOf, Learn, TableOf;
    var c, m' := TableOf(m, op.a, op.n), Learn(m, op, v);
    LearnSane(kinds, m, op, v);
    SymbolWide(kinds, m, op);
    AdaptLearns(c, v, op.shift);
    SymbolLearnt(m, op, v);
    SymbolWidth(kinds, m, op, v);
    SymbolWidth(kinds, m', op, v);
    forall u: nat | u != v
      ensures WidthOf(kinds, m', op, u) <= WidthOf(kinds, m, op, u)
    {
      SymbolWidth(kinds, m, op, u);
      SymbolWidth(kinds, m', op, u);
    }
  }

  lemma SymbolWide(kinds: Kinds, m: Models, op: Op)
    requires Sane(kinds, m) && op.Symbol? && Fits(kinds, op)
    ensures op.n > 0 && Floor(op.n, op.shift) > 0 && op.shift <= 15 && |TableOf(m, op.a, op.n)| == op.n + 1
    ensures Wide(TableOf(m, op.a, op.n), Floor(op.n, op.shift))
  {
    hide Sane, Wide, Floor, Pow2;
    FloorPositive(kinds[op.a]);
    TableGood(kinds, m, op.a, kinds[op.a]);
  }

  lemma SymbolLearnt(m: Models, op: Op, v: nat)
    requires op.Symbol? && 0 < op.n && v < op.n && |TableOf(m, op.a, op.n)| == op.n + 1
    ensures TableOf(Learn(m, op, v), op.a, op.n) == Adapted(TableOf(m, op.a, op.n), v, op.shift)
  {
    hide Adapted;
  }

  lemma SymbolWidth(kinds: Kinds, m: Models, op: Op, u: nat)
    requires Sane(kinds, m) && (op.Symbol? || op.Mixed?) && Fits(kinds, op)
    ensures (op.Symbol? ==> op.n > 0) && (op.Mixed? ==> |TableOf(m, op.a, 16)| == |TableOf(m, op.b, 16)| == 17)
    ensures |Selection(m, op)| == if op.Symbol? then op.n + 1 else 17
    ensures WidthOf(kinds, m, op, u) == if Possible(op, u) then Selection(m, op)[u + 1] - Selection(m, op)[u] else 0
  {
    hide Sane;
    SelectionOk(kinds, m, op);
    if Possible(op, u) {
      CdfSlice(Selection(m, op), u);
    }
  }

  lemma MixedFavours(kinds: Kinds, m: Models, op: Op, v: nat)
    requires Sane(kinds, m) && op.Mixed? && Fits(kinds, op) && v < 16
    requires |TableOf(m, op.a, 16)| == |TableOf(m, op.b, 16)| == 17
    ensures WidthOf(kinds, Learn(m, op, v), op, v) + 3 >= WidthOf(kinds, m, op, v)
  {
    hide Sane, Adapted, Floor, Pow2, KindOk, Learn, SliceOf, WidthOf, Mixture, Weighed, TableOf, WeightOf;
    var m' := Learn(m, op, v);
    LearnSane(kinds, m, op, v);
    SymbolWidth(kinds, m, op, v);
    SymbolWidth(kinds, m', op, v);
    MixedTables(kinds, m, op, v);
    MixedMeans(kinds, m, op, v);
    MixedMeans(kinds, m', op, v);
    var w, a, b := WeightOf(m, op.w), TableOf(m, op.a, 16), TableOf(m, op.b, 16);
    var w', a', b' := WeightOf(m', op.w), TableOf(m', op.a, 16), TableOf(m', op.b, 16);
    OthersGood(kinds, m);
    OthersGood(kinds, m');
    WeighedLikelier(w, a, b, v);
    MeanGrows(w', a[v + 1] - a[v], b[v + 1] - b[v], a'[v + 1] - a'[v], b'[v + 1] - b'[v]);
    MeansClose(MeanOf(m, op, v), MeanOf(m', op, v), WidthOf(kinds, m, op, v), WidthOf(kinds, m', op, v));
  }

  // Sixteen bits of fraction, and rounding by less than two on each side.
  lemma MeansClose(x: int, y: int, p: int, q: int)
    requires x <= y && SIXTEEN * p < x + 2 * SIXTEEN && y - 2 * SIXTEEN < SIXTEEN * q
    ensures p <= q + 3
  {
  }

  // The weighted mean of the two widths of a value.
  function MeanOf(m: Models, op: Op, v: nat): int
    requires op.Mixed? && v < 16 && |TableOf(m, op.a, 16)| == |TableOf(m, op.b, 16)| == 17
  {
    var w, a, b := WeightOf(m, op.w), TableOf(m, op.a, 16), TableOf(m, op.b, 16);
    w * (a[v + 1] - a[v]) + (SIXTEEN - w) * (b[v + 1] - b[v])
  }

  lemma MixedMeans(kinds: Kinds, m: Models, op: Op, v: nat)
    requires Sane(kinds, m) && op.Mixed? && Fits(kinds, op) && v < 16 && |TableOf(m, op.a, 16)| == |TableOf(m, op.b, 16)| == 17
    ensures MeanOf(m, op, v) - 2 * SIXTEEN < SIXTEEN * WidthOf(kinds, m, op, v) < MeanOf(m, op, v) + 2 * SIXTEEN
  {
    hide Sane, Wide, Floor, Pow2, KindOk, Mixture, WidthOf, SliceOf, TableOf, WeightOf, Fits;
    OthersGood(kinds, m);
    MixedWide(kinds, m, op);
    SymbolWidth(kinds, m, op, v);
    MixtureMeans(WeightOf(m, op.w), TableOf(m, op.a, 16), TableOf(m, op.b, 16), Floor(16, op.shift), v);
  }

  // Both tables have learnt, the same one twice if they are one; so has the weight.
  lemma MixedTables(kinds: Kinds, m: Models, op: Op, v: nat)
    requires Sane(kinds, m) && op.Mixed? && Fits(kinds, op) && v < 16 && |TableOf(m, op.a, 16)| == |TableOf(m, op.b, 16)| == 17
    ensures var m' := Learn(m, op, v);
            var a, b, a', b' := TableOf(m, op.a, 16), TableOf(m, op.b, 16), TableOf(m', op.a, 16), TableOf(m', op.b, 16);
            && |a'| == |b'| == 17 && a'[v + 1] - a'[v] >= a[v + 1] - a[v] && b'[v + 1] - b'[v] >= b[v + 1] - b[v]
            && WeightOf(m', op.w) == Weighed(WeightOf(m, op.w), a, b, v)
  {
    hide Sane, Wide, Adapted, Floor, Pow2, KindOk, Weighed;
    var a, b, k := TableOf(m, op.a, 16), TableOf(m, op.b, 16), op.shift;
    OthersGood(kinds, m);
    MixedWide(kinds, m, op);
    AdaptLearns(a, v, k);
    AdaptLearns(b, v, k);
    AdaptWide(a, v, k);
    AdaptLearns(Adapted(a, v, k), v, k);
    WeighedOk(WeightOf(m, op.w), a, b, v);
    MixedLearnt(m, op, v);
  }

  lemma MixedWide(kinds: Kinds, m: Models, op: Op)
    requires Sane(kinds, m) && op.Mixed? && Fits(kinds, op)
    ensures Floor(16, op.shift) > 0 && op.shift <= 15
    ensures Wide(TableOf(m, op.a, 16), Floor(16, op.shift)) && Wide(TableOf(m, op.b, 16), Floor(16, op.shift))
  {
    hide Sane, Wide, Floor, Pow2;
    MixedKind(op.shift);
    FloorPositive(kinds[op.a]);
    TableGood(kinds, m, op.a, kinds[op.a]);
    TableGood(kinds, m, op.b, kinds[op.b]);
  }

  lemma MixedLearnt(m: Models, op: Op, v: nat)
    requires op.Mixed? && v < 16 && |TableOf(m, op.a, 16)| == |TableOf(m, op.b, 16)| == 17
    ensures var a, b, m', k := TableOf(m, op.a, 16), TableOf(m, op.b, 16), Learn(m, op, v), op.shift;
            && TableOf(m', op.a, 16) == (if op.a == op.b then Adapted(Adapted(a, v, k), v, k) else Adapted(a, v, k))
            && TableOf(m', op.b, 16) == (if op.a == op.b then Adapted(Adapted(b, v, k), v, k) else Adapted(b, v, k))
            && WeightOf(m', op.w) == Max0(Weighed(WeightOf(m, op.w), a, b, v))
  {
    hide Adapted, Weighed;
  }

  lemma MeanGrows(w: nat, A: int, B: int, A': int, B': int)
    requires w < SIXTEEN && A <= A' && B <= B'
    ensures w * A + (SIXTEEN - w) * B <= w * A' + (SIXTEEN - w) * B'
  {
    Product(w, A' - A);
    Product(SIXTEEN - w, B' - B);
    assert w * A' == w * A + w * (A' - A) && (SIXTEEN - w) * B' == (SIXTEEN - w) * B + (SIXTEEN - w) * (B' - B);
  }

  // ----- encoding backwards, decoding forwards -----

  ghost predicate Encodable(kinds: Kinds, ops: seq<Op>, vals: seq<nat>) {
    |ops| == |vals| && forall i :: 0 <= i < |ops| ==> Fits(kinds, ops[i]) && Possible(ops[i], vals[i])
  }

  /** The encoder starts from the last operation, at state 2^23. */
  ghost function Encode(kinds: Kinds, m: Models, ops: seq<Op>, vals: seq<nat>): Emitted
    requires Sane(kinds, m) && Encodable(kinds, ops, vals)
    decreases |ops|
  {
    if ops == [] then Emitted(LOWER, [])
    else
      LearnSane(kinds, m, ops[0], vals[0]);
      SliceFits(kinds, m, ops[0], vals[0]);
      var e := Encode(kinds, Learn(m, ops[0], vals[0]), ops[1..], vals[1..]);
      Produce(e.x, e.bytes, SliceOf(kinds, m, ops[0], vals[0]), Share(ops[0]))
  }

  ghost function Stream(kinds: Kinds, m: Models, ops: seq<Op>, vals: seq<nat>): seq<byte>
    requires Sane(kinds, m) && Encodable(kinds, ops, vals)
  {
    var e := Encode(kinds, m, ops, vals);
    Le(e.x, 4) + e.bytes
  }

  // The decoder stands at c, and finds value v.
  ghost predicate Finds(kinds: Kinds, m: Models, c: Coder, op: Op, v: nat)
    requires Sane(kinds, m) && Fits(kinds, op)
  {
    Possible(op, v) && SliceOf(kinds, m, op, v).total > 0 && Inside(c.x, SliceOf(kinds, m, op, v))
  }

  /** Decoding `ops` from c finds `vals` and ends at c', m'. */
  ghost predicate Traces(kinds: Kinds, m: Models, c: Coder, ops: seq<Op>, vals: seq<nat>, m': Models, c': Coder)
    requires Sane(kinds, m) && forall i :: 0 <= i < |ops| ==> Fits(kinds, ops[i])
    decreases |ops|
  {
    if ops == [] then vals == [] && c' == c && m' == m
    else
      && vals != [] && Finds(kinds, m, c, ops[0], vals[0])
      && (LearnSane(kinds, m, ops[0], vals[0]);
          Traces(kinds, Learn(m, ops[0], vals[0]), Consume(c, SliceOf(kinds, m, ops[0], vals[0])), ops[1..], vals[1..], m', c'))
  }

  /** The encoder's state is always in range: so is the decoder's, which retraces it. */
  lemma {:induction false} EncodeBounds(kinds: Kinds, m: Models, ops: seq<Op>, vals: seq<nat>)
    requires Sane(kinds, m) && Encodable(kinds, ops, vals)
    ensures LOWER <= Encode(kinds, m, ops, vals).x < 256 * LOWER
    decreases |ops|
  {
    if ops != [] {
      LearnSane(kinds, m, ops[0], vals[0]);
      SliceFits(kinds, m, ops[0], vals[0]);
      var m1 := Learn(m, ops[0], vals[0]);
      EncodeBounds(kinds, m1, ops[1..], vals[1..]);
      var e := Encode(kinds, m1, ops[1..], vals[1..]);
      ConsumeProduce(e.x, e.bytes, SliceOf(kinds, m, ops[0], vals[0]), Share(ops[0]));
    }
  }

  /** Whatever the decoder finds in an encoded stream is what was encoded, and it
      ends where the encoder began. */
  lemma {:induction false} RoundTrip(kinds: Kinds, m: Models, ops: seq<Op>, vals: seq<nat>, found: seq<nat>, m': Models, c': Coder)
    requires Sane(kinds, m) && Encodable(kinds, ops, vals)
    requires var e := Encode(kinds, m, ops, vals); Traces(kinds, m, Coder(e.x, e.bytes, false), ops, found, m', c')
    ensures found == vals && c' == Coder(LOWER, [], false)
    decreases |ops|
  {
    if ops != [] {
      var op, v := ops[0], vals[0];
      LearnSane(kinds, m, op, v);
      SliceFits(kinds, m, op, v);
      var m1 := Learn(m, op, v);
      var e := Encode(kinds, m1, ops[1..], vals[1..]);
      EncodeBounds(kinds, m1, ops[1..], vals[1..]);
      ConsumeProduce(e.x, e.bytes, SliceOf(kinds, m, op, v), Share(op));
      SliceUnique(kinds, m, op, found[0], v, Encode(kinds, m, ops, vals).x);
      RoundTrip(kinds, m1, ops[1..], vals[1..], found[1..], m', c');
      assert found == [found[0]] + found[1..] && vals == [v] + vals[1..];
    }
  }

  /** Two stretches of a run make one. */
  lemma {:induction false} TracesMore(kinds: Kinds, m: Models, c: Coder, ops: seq<Op>, vals: seq<nat>, m1: Models, c1: Coder, op: Op, v: nat, c2: Coder)
    requires Sane(kinds, m) && (forall i :: 0 <= i < |ops| ==> Fits(kinds, ops[i])) && Fits(kinds, op)
    requires Traces(kinds, m, c, ops, vals, m1, c1) && Sane(kinds, m1)
    requires Finds(kinds, m1, c1, op, v) && c2 == Consume(c1, SliceOf(kinds, m1, op, v))
    ensures (op.Symbol? ==> |TableOf(m1, op.a, op.n)| == op.n + 1) && (op.Mixed? ==> |TableOf(m1, op.a, 16)| == |TableOf(m1, op.b, 16)| == 17)
    ensures Traces(kinds, m, c, ops + [op], vals + [v], Learn(m1, op, v), c2)
    decreases |ops|
  {
    hide Sane, Fits, Learn, Consume, SliceOf;
    LearnSane(kinds, m1, op, v);
    if ops == [] {
      assert [] + [op] == [op] && [op][1..] == [] && [] + [v] == [v] && [v][1..] == [];
    } else {
      var o, x := ops[0], vals[0];
      LearnSane(kinds, m, o, x);
      TracesMore(kinds, Learn(m, o, x), Consume(c, SliceOf(kinds, m, o, x)), ops[1..], vals[1..], m1, c1, op, v, c2);
      assert (ops + [op])[1..] == ops[1..] + [op] && (vals + [v])[1..] == vals[1..] + [v];
    }
  }
}
