/** The model layer of the decoder: tables, probabilities and weights in place. */
module AnsDecoder {
  import opened Bytes
  import opened AnsCoder
  import opened AnsModels
  import opened AnsStream

  // Selecting from the right table is finding the value.
  lemma SelectFinds(kinds: Kinds, m: Models, op: Op, c: seq<int>, at: Coder, x: nat, s: nat)
    requires Sane(kinds, m) && Fits(kinds, op) && (op.Symbol? || op.Mixed?)
    requires (op.Symbol? ==> op.n > 0) && (op.Mixed? ==> |TableOf(m, op.a, 16)| == |TableOf(m, op.b, 16)| == 17)
    requires c == Selection(m, op) && s + 1 < |c| == if op.Symbol? then op.n + 1 else 17
    requires 0 <= c[s] < c[s + 1] <= ONE && Inside(at.x, SymbolSlice(c, s)) && x == Take(at.x, SymbolSlice(c, s))
    ensures Finds(kinds, m, at, op, s)
    ensures Consume(at, SliceOf(kinds, m, op, s)) == Normal(at.(x := x))
  {
    hide Normal, Pow2, Sane;
  }

  lemma SymbolLearns(m: Models, op: Op, v: nat, m1: Models, m2: Models)
    requires op.Symbol? && op.n > 0 && Possible(op, v) && |TableOf(m, op.a, op.n)| == op.n + 1
    requires m1 == m.(tables := m.tables[op.a := TableOf(m, op.a, op.n)])
    requires m2 == m1.(tables := m1.tables[op.a := Adapted(TableOf(m, op.a, op.n), v, op.shift)])
    ensures m2 == Learn(m, op, v)
  {
  }

  /** An operation is done: the value v is found, the models learn it, the state moves on. */
  ghost predicate Does(kinds: Kinds, m: Models, at: Coder, op: Op, v: nat, m': Models, at': Coder) {
    && Sane(kinds, m) && Fits(kinds, op) && Finds(kinds, m, at, op, v)
    && (LearnSane(kinds, m, op, v); m' == Learn(m, op, v)) && at' == Consume(at, SliceOf(kinds, m, op, v))
  }

  lemma DoesMeans(kinds: Kinds, m: Models, at: Coder, op: Op, v: nat, m': Models, at': Coder)
    requires Does(kinds, m, at, op, v, m', at')
    ensures Sane(kinds, m) && Fits(kinds, op) && Finds(kinds, m, at, op, v) && at' == Consume(at, SliceOf(kinds, m, op, v))
    ensures (op.Symbol? ==> |TableOf(m, op.a, op.n)| == op.n + 1) && (op.Mixed? ==> |TableOf(m, op.a, 16)| == |TableOf(m, op.b, 16)| == 17)
    ensures m' == Learn(m, op, v)
  {
    hide Sane, Learn, Consume, SliceOf, Fits;
    LearnSane(kinds, m, op, v);
  }

  lemma DoesIs(kinds: Kinds, m: Models, at: Coder, op: Op, v: nat, m': Models, at': Coder)
    requires Sane(kinds, m) && Fits(kinds, op) && Finds(kinds, m, at, op, v)
    requires (op.Symbol? ==> |TableOf(m, op.a, op.n)| == op.n + 1) && (op.Mixed? ==> |TableOf(m, op.a, 16)| == |TableOf(m, op.b, 16)| == 17)
    requires m' == Learn(m, op, v) && at' == Consume(at, SliceOf(kinds, m, op, v))
    ensures Does(kinds, m, at, op, v, m', at')
  {
    hide Sane, Learn, Consume, SliceOf, Fits;
  }

  // A table asked for is good, made or found.
  lemma NewTableSane(kinds: Kinds, m: Models, a: int)
    requires Sane(kinds, m) && a in kinds && KindOk(kinds[a])
    ensures var c := TableOf(m, a, kinds[a].n); Sane(kinds, m.(tables := m.tables[a := c])) && c == if a in m.tables then m.tables[a] else Even(kinds[a].n)
  {
    hide Wide, Even, Floor, KindOk;
    TableGood(kinds, m, a, kinds[a]);
  }

  class Decoder {
    var tables: map<int, array<u16>>
    var probs: map<int, u16>
    var weights: map<int, u16>
    ghost const kinds: Kinds

    ghost function View(): Models
      reads this, tables.Values
    {
      Models(map a | a in tables :: tables[a][..], probs, weights)
    }

    ghost predicate Apart()
      reads this
    {
      forall a, b :: a in tables && b in tables && a != b ==> tables[a] != tables[b]
    }

    ghost predicate Valid()
      reads this, tables.Values
    {
      Apart() && Sane(kinds, View())
    }

    constructor (ghost kinds: Kinds)
      ensures Valid() && View() == Models(map[], map[], map[]) && this.kinds == kinds && tables == map[]
    {
      tables, probs, weights := map[], map[], map[];
      this.kinds := kinds;
    }

    /** model: a table is made even when it is first asked for. */
    method Table(a: int, n: nat) returns (c: array<u16>)
      requires Valid() && a in kinds && kinds[a].n == n && KindOk(kinds[a])
      modifies this`tables
      ensures Valid() && a in tables && c == tables[a] && c[..] == TableOf(old(View()), a, n)
      ensures View() == old(View()).(tables := old(View()).tables[a := TableOf(old(View()), a, n)])
      ensures forall b :: b in old(tables) ==> b in tables && tables[b] == old(tables)[b]
      ensures tables.Keys == old(tables).Keys + {a} && (c in old(tables).Values || fresh(c))
      ensures tables.Values <= old(tables).Values + {c}
    {
      hide Wide, Even, Floor, Sane, TableOf;
      NewTableSane(kinds, View(), a);
      if a in tables {
        c := tables[a];
        assert View().tables[a := c[..]] == View().tables;
      } else {
        c := Uniform(n);
        ghost var was := View();
        tables := tables[a := c];
        assert View().tables == was.tables[a := Even(n)];
      }
    }

    method Flip(r: Entropy, a: int) returns (v: nat)
      requires Valid() && r.Valid()
      modifies this`probs, r
      ensures Valid() && r.Valid() && Does(kinds, old(View()), old(r.View()), Op.Bit(a), v, View(), r.View())
    {
      hide Normal, Pow2, Sane, BitNext, Consume, Does;
      var p := Prob(a);
      ghost var m, at := View(), r.View();
      var p';
      v, p' := r.Bit(p, 14, 5);
      LearnSane(kinds, m, Op.Bit(a), v);
      probs := probs[a := p'];
      assert View() == Learn(m, Op.Bit(a), v);
      DoesIs(kinds, m, at, Op.Bit(a), v, View(), r.View());
    }

    method Prob(a: int) returns (p: u16)
      requires Valid()
      ensures p == ProbOf(View(), a) && 0 < p < Pow2(14)
    {
      OthersGood(kinds, View());
      p := if a in probs then probs[a] else 8192;
      assert p == ProbOf(View(), a);
    }

    method Bits(r: Entropy, n: nat) returns (v: nat)
      requires Valid() && r.Valid() && n <= 23
      modifies r
      ensures Valid() && r.Valid() && Does(kinds, old(View()), old(r.View()), Op.Raw(n), v, View(), r.View())
    {
      hide Normal, Pow2, Does;
      ghost var at := r.View();
      v := r.Raw(n);
      DoesIs(kinds, View(), at, Op.Raw(n), v, View(), r.View());
    }

    /** symbol: the symbol is selected, its table adapts, bytes are read. */
    method Symbol(r: Entropy, a: int, n: nat, shift: nat) returns (v: nat)
      requires Valid() && r.Valid() && Fits(kinds, Op.Symbol(a, n, shift))
      modifies this`tables, tables.Values, r
      ensures Valid() && r.Valid() && Does(kinds, old(View()), old(r.View()), Op.Symbol(a, n, shift), v, View(), r.View())
      ensures fresh(tables.Values - old(tables).Values)
    {
      hide Normal, Pow2, Wide, Floor, Adapted, Even, Sane, KindOk, Cdf, Inside, Take, TableOf, Learn, Consume, SliceOf, Finds, Fits, Selection, Does;
      ghost var m, at, op := View(), r.View(), Op.Symbol(a, n, shift);
      SelectionOk(kinds, m, op);
      KindIs(a, n, shift);
      var c := Table(a, n);
      ghost var m1 := View();
      v := Select(r, c, m, op);
      TableGood(kinds, m, a, kinds[a]);
      Adapt(a, c, v, shift);
      SymbolLearns(m, op, v, m1, View());
      r.Normalize();
      DoesIs(kinds, m, at, op, v, View(), r.View());
    }

    // The symbol selected from its own table.
    method Select(r: Entropy, c: array<u16>, ghost m: Models, ghost op: Op) returns (v: nat)
      requires r.Valid() && op.Symbol? && op.n > 0 && Sane(kinds, m) && Fits(kinds, op) && c[..] == TableOf(m, op.a, op.n)
      modifies r
      ensures r.Valid() && Finds(kinds, m, old(r.View()), op, v) && Possible(op, v)
      ensures Normal(r.View()) == Consume(old(r.View()), SliceOf(kinds, m, op, v))
    {
      hide Normal, Pow2, Sane, Cdf, Inside, Take, Consume, SliceOf, Finds, Fits, TableOf;
      ghost var at := r.View();
      SelectionOk(kinds, m, op);
      v := r.SelectSymbol(c);
      SelectFinds(kinds, m, op, c[..], at, r.x, v);
    }

    lemma KindIs(a: int, n: nat, shift: nat)
      requires Fits(kinds, Op.Symbol(a, n, shift))
      ensures a in kinds && kinds[a] == Kind(n, shift) && KindOk(kinds[a]) && n > 0
    {
    }

    // The table of a after symbol v, and no other, has changed.
    method Adapt(a: int, c: array<u16>, v: nat, shift: nat)
      requires Valid() && a in tables && tables[a] == c && kinds[a].k == shift
      modifies c
      ensures Valid() && View() == old(View()).(tables := old(View()).tables[a := Adapted(old(c[..]), v, shift)])
    {
      hide Wide, Adapted, Pow2;
      ghost var m := View();
      assert m.tables[a] == c[..];
      KindSmall(kinds[a]);
      LearnTable(kinds, m, a, v);
      AdaptCdf(c, v, shift);
      forall b | b in tables && b != a
        ensures tables[b][..] == m.tables[b]
      {
        assert tables[b] != c && m.tables[b] == old(tables[b][..]);
      }
      assert View().tables == m.tables[a := c[..]];
    }

    method TwoTables(a: int, b: int) returns (ta: array<u16>, tb: array<u16>)
      requires Valid() && a in kinds && b in kinds && kinds[a].n == kinds[b].n == 16 && KindOk(kinds[a]) && KindOk(kinds[b])
      modifies this`tables
      ensures Valid() && View() == WithTables(old(View()), a, b) && fresh(tables.Values - old(tables).Values)
      ensures a in tables && b in tables && ta == tables[a] && tb == tables[b]
      ensures ta[..] == TableOf(old(View()), a, 16) && tb[..] == TableOf(old(View()), b, 16)
    {
      hide Sane, KindOk, TableOf, WithTables;
      ghost var m := View();
      ta := Table(a, 16);
      ghost var m1 := View();
      tb := Table(b, 16);
      SecondTable(m, a, b, m1, View());
      assert ta[..] == View().tables[a] && tb[..] == View().tables[b];
    }

    // The symbol selected from the mixture.
    method MixSelect(r: Entropy, ta: array<u16>, tb: array<u16>, weight: u16, ghost m: Models, ghost op: Op) returns (v: nat)
      requires r.Valid() && op.Mixed? && Sane(kinds, m) && Fits(kinds, op) && weight == WeightOf(m, op.w)
      requires ta[..] == TableOf(m, op.a, 16) && tb[..] == TableOf(m, op.b, 16)
      modifies r
      ensures r.Valid() && Finds(kinds, m, old(r.View()), op, v) && Possible(op, v)
      ensures Normal(r.View()) == Consume(old(r.View()), SliceOf(kinds, m, op, v))
    {
      hide Normal, Pow2, Sane, Cdf, Inside, Take, Consume, SliceOf, Finds, Fits, Mixture, TableOf;
      ghost var at := r.View();
      SelectionOk(kinds, m, op);
      var c := Blends(ta, tb, weight);
      v := r.SelectSymbol(c);
      SelectFinds(kinds, m, op, c[..], at, r.x, v);
    }

    /** mixed: the symbol is selected from the mixture of two tables; the weight
        and both tables adapt. */
    method Mix(r: Entropy, a: int, b: int, w: int, shift: nat) returns (v: nat)
      requires Valid() && r.Valid() && Fits(kinds, Op.Mixed(a, b, w, shift))
      modifies this`tables, this`weights, tables.Values, r
      ensures Valid() && r.Valid() && Does(kinds, old(View()), old(r.View()), Op.Mixed(a, b, w, shift), v, View(), r.View())
      ensures fresh(tables.Values - old(tables).Values)
    {
      hide Normal, Pow2, Sane, KindOk, Inside, Learn, Consume, SliceOf, Fits, TableOf, WithTables, WeightOf, Weighed, Finds, Selection, Cdf, Entropy.View, Does;
      ghost var m, at, op := View(), r.View(), Op.Mixed(a, b, w, shift);
      SelectionOk(kinds, m, op);
      MixKinds(a, b, w, shift);
      var weight := Weight(w);
      var ta, tb := TwoTables(a, b);
      v := MixSelect(r, ta, tb, weight, m, op);
      MixAdapt(a, b, w, shift, ta, tb, weight, v, m);
      r.Normalize();
      DoesIs(kinds, m, at, op, v, View(), r.View());
    }

    method MixAdapt(a: int, b: int, w: int, shift: nat, ta: array<u16>, tb: array<u16>, weight: u16, v: nat, ghost m: Models)
      requires Valid() && a in tables && b in tables && ta == tables[a] && tb == tables[b] && kinds[a].k == kinds[b].k == shift
      requires View() == WithTables(m, a, b) && ta[..] == TableOf(m, a, 16) && tb[..] == TableOf(m, b, 16)
      requires ta.Length == tb.Length == 17 && v < 16 && 0 < weight == WeightOf(m, w)
      modifies this`weights, ta, tb
      ensures Valid() && View() == Learn(m, Op.Mixed(a, b, w, shift), v)
    {
      hide Sane, Adapted, TableOf, WeightOf, Learn;
      ghost var ca, cb, m2 := ta[..], tb[..], View();
      WeighedOk(weight, ca, cb, v);
      var weight' := weight - weight / 16;
      if ta[v + 1] as int - ta[v] as int >= tb[v + 1] as int - tb[v] as int {
        weight' := weight' + 4095;
      }
      assert weight' == Weighed(weight, ca, cb, v);
      LearnWeight(kinds, m2, w, weight');
      weights := weights[w := weight'];
      assert View() == m2.(weights := m2.weights[w := weight']);
      Adapt(a, ta, v, shift);
      Adapt(b, tb, v, shift);
      MixLearns(m, Op.Mixed(a, b, w, shift), v, weight', View());
    }

    method Weight(w: int) returns (weight: u16)
      requires Valid()
      ensures weight == WeightOf(View(), w) && 0 < weight
    {
      OthersGood(kinds, View());
      weight := if w in weights then weights[w] else 32768;
      assert weight == WeightOf(View(), w);
    }

    lemma MixKinds(a: int, b: int, w: int, shift: nat)
      requires Fits(kinds, Op.Mixed(a, b, w, shift))
      ensures a in kinds && b in kinds && kinds[a] == kinds[b] == Kind(16, shift) && KindOk(kinds[a])
    {
      MixedKind(shift);
    }

    method Blends(a: array<u16>, b: array<u16>, weight: u16) returns (c: array<u16>)
      requires a.Length == b.Length == 17
      ensures fresh(c) && c[..] == Mixture(weight, a[..], b[..])
    {
      hide Blend;
      c := new u16[17];
      for i := 0 to 16
        invariant c.Length == 17 && forall j :: 0 <= j < i ==> c[j] == Blend(weight, a[j], b[j])
      {
        BlendIs(weight, a[i], b[i]);
        c[i] := U16(weight * a[i] / SIXTEEN + U16(0 - weight) * b[i] / SIXTEEN);
      }
      c[16] := ONE;
    }

    lemma BlendIs(w: nat, a: int, b: int)
      ensures Blend(w, a, b) == U16(w * a / SIXTEEN + U16(0 - w) * b / SIXTEEN) && 0 <= Blend(w, a, b) < 65536
    {
    }
  }

  ghost function WithTables(m: Models, a: int, b: int): Models {
    m.(tables := m.tables[a := TableOf(m, a, 16)][b := TableOf(m, b, 16)])
  }

  lemma MixLearns(m: Models, op: Op, v: nat, weight: nat, m': Models)
    requires op.Mixed? && v < 16 && |TableOf(m, op.a, 16)| == |TableOf(m, op.b, 16)| == 17
    requires weight == Weighed(WeightOf(m, op.w), TableOf(m, op.a, 16), TableOf(m, op.b, 16), v)
    requires var t := WithTables(m, op.a, op.b).tables;
             var t1 := t[op.a := Adapted(t[op.a], v, op.shift)];
             |t1[op.b]| >= 2 && m' == Models(t1[op.b := Adapted(t1[op.b], v, op.shift)], m.probs, m.weights[op.w := weight])
    ensures m' == Learn(m, op, v)
  {
  }

  lemma SecondTable(m: Models, a: int, b: int, m1: Models, m2: Models)
    requires m1 == m.(tables := m.tables[a := TableOf(m, a, 16)])
    requires m2 == m1.(tables := m1.tables[b := TableOf(m1, b, 16)])
    ensures TableOf(m1, b, 16) == TableOf(m, b, 16)
    ensures m2 == WithTables(m, a, b) && a in m2.tables && b in m2.tables && m2.tables[a] == TableOf(m, a, 16) && m2.tables[b] == TableOf(m, b, 16)
  {
  }

  const FRESH := Models(map[], map[], map[])

  method One(d: Decoder, r: Entropy, op: Op) returns (v: nat)
    requires d.Valid() && r.Valid() && Fits(d.kinds, op)
    modifies d, d.tables.Values, r
    ensures d.Valid() && r.Valid() && Does(d.kinds, old(d.View()), old(r.View()), op, v, d.View(), r.View())
    ensures fresh(d.tables.Values - old(d.tables).Values)
  {
    hide Sane, Learn, Inside, Consume, SliceOf, Finds, Does;
    match op {
      case Bit(a) => v := d.Flip(r, a);
      case Symbol(a, n, shift) => v := d.Symbol(r, a, n, shift);
      case Raw(n) => v := d.Bits(r, n);
      case Mixed(a, b, w, shift) => v := d.Mix(r, a, b, w, shift);
    }
  }

  method Decode(d: Decoder, r: Entropy, ops: seq<Op>) returns (vals: seq<nat>)
    requires d.Valid() && r.Valid() && forall i :: 0 <= i < |ops| ==> Fits(d.kinds, ops[i])
    modifies d, d.tables.Values, r
    ensures d.Valid() && r.Valid() && Traces(d.kinds, old(d.View()), old(r.View()), ops, vals, d.View(), r.View())
  {
    hide Sane, Learn, Inside, Consume, SliceOf, Finds, Does;
    ghost var m0, c0 := d.View(), r.View();
    vals := [];
    for i := 0 to |ops|
      invariant d.Valid() && r.Valid() && fresh(d.tables.Values - old(d.tables).Values)
      invariant Traces(d.kinds, m0, c0, ops[..i], vals, d.View(), r.View())
    {
      ghost var m1, c1 := d.View(), r.View();
      var v := One(d, r, ops[i]);
      DoesMeans(d.kinds, m1, c1, ops[i], v, d.View(), r.View());
      TracesMore(d.kinds, m0, c0, ops[..i], vals, m1, c1, ops[i], v, r.View());
      assert ops[..i] + [ops[i]] == ops[..i + 1];
      vals := vals + [v];
    }
    assert ops[..|ops|] == ops;
  }

  /** A whole stream: what was encoded comes back, and the end is accepted. */
  method DecodeStream(ghost kinds: Kinds, data: seq<byte>, ops: seq<Op>) returns (vals: seq<nat>, ok: bool)
    requires forall i :: 0 <= i < |ops| ==> Fits(kinds, ops[i])
    ensures forall was :: Encodable(kinds, ops, was) && Sane(kinds, FRESH) && data == Stream(kinds, FRESH, ops, was) ==> vals == was && ok
  {
    hide Sane, Learn, Inside, Consume, SliceOf, Finds, Encode, Traces;
    var d := new Decoder(kinds);
    var r := new Entropy(data);
    ghost var c0 := r.View();
    vals := Decode(d, r, ops);
    ok := r.Finish();
    forall was | Encodable(kinds, ops, was) && Sane(kinds, FRESH) && data == Stream(kinds, FRESH, ops, was)
      ensures vals == was && ok
    {
      StreamStart(kinds, ops, was, data);
      RoundTrip(kinds, FRESH, ops, was, vals, d.View(), r.View());
    }
  }

  // A stream opens with the encoder's last state.
  lemma StreamStart(kinds: Kinds, ops: seq<Op>, was: seq<nat>, data: seq<byte>)
    requires Sane(kinds, FRESH) && Encodable(kinds, ops, was) && data == Stream(kinds, FRESH, ops, was)
    ensures |data| >= 4
    ensures var e := Encode(kinds, FRESH, ops, was); Coder(UnLe(data[..4]), data[4..], false) == Coder(e.x, e.bytes, false)
  {
    hide Encode;
    var e := Encode(kinds, FRESH, ops, was);
    EncodeBounds(kinds, FRESH, ops, was);
    PowU32U64();
    UnLeLe(e.x, 4);
    assert data[..4] == Le(e.x, 4) && data[4..] == e.bytes;
  }
}
