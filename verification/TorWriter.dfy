/** What Tornado's Huffman coder writes: codewords of symbols, and now and then the
    tree's own symbol with three bits, after which both sides build the tree anew. */
module TorWriter {
  import opened Bytes
  import opened AnsCoder
  import Counting
  import opened Permutations
  import opened TorCodes
  import opened TorSort
  import opened TorTree
  import opened TorLookup
  import opened TorHuffman

  const EOB: nat := 832

  lemma HighBits(b: nat, p: nat, m: nat)
    requires p > 0
    ensures (b + p * m) % p == b % p && (b + p * m) / p == b / p + m
  {
    var q, r := b / p, b % p;
    assert b == q * p + r;
    assert b + p * m == (q + m) * p + r by { Regroup3(q, m, p, r); }
    DivUnique(q + m, r, p);
  }

  lemma Regroup3(q: nat, m: nat, p: nat, r: nat)
    ensures q * p + r + p * m == (q + m) * p + r
  {
  }

  // ----- codewords in the number -----

  /** The lowest b bits of v are the codeword of symbol s, and `rest` is what lies above it. */
  ghost predicate Spells(t: Built, n: nat, s: nat, v: nat, rest: nat, b: nat) {
    && n <= |t.sym| && n <= |t.bs| == |t.cs|
    && exists x :: 0 <= x < n && t.sym[x] == s && Reaches(t.bs, t.cs, x, v) && rest == v / Pow2(t.bs[x]) && b == t.bs[x]
  }

  lemma SpellsOnly(t: Built, n: nat, s: nat, v: nat, rest: nat, b: nat, s': nat, rest': nat, b': nat)
    requires Coding(n, t.bs, t.cs) && Spells(t, n, s, v, rest, b) && Spells(t, n, s', v, rest', b')
    ensures s == s' && rest == rest' && b == b'
  {
    hide Coding, Reaches, Pow2;
    var x :| 0 <= x < n && t.sym[x] == s && Reaches(t.bs, t.cs, x, v) && rest == v / Pow2(t.bs[x]) && b == t.bs[x];
    var y :| 0 <= y < n && t.sym[y] == s' && Reaches(t.bs, t.cs, y, v) && rest' == v / Pow2(t.bs[y]) && b' == t.bs[y];
    OneLeaf(n, t.bs, t.cs, x, y, v);
  }

  lemma SmallDiv(a: nat, p: nat)
    requires a < p
    ensures a / p == 0 && a % p == a
  {
  }

  // A codeword, and what follows it.
  function Above(c: nat, b: nat, v: nat): nat { c + Pow2(b) * v }

  lemma LeafSpells(t: Built, n: nat, x: nat, v: nat)
    requires Coding(n, t.bs, t.cs) && Perm(t.sym, n) && x < n
    ensures Spells(t, n, t.sym[x], Above(t.cs[x], t.bs[x], v), v, t.bs[x])
  {
    hide Pow2;
    CodingAt(n, t.bs, t.cs, x);
    HighBits(t.cs[x], Pow2(t.bs[x]), v);
    SmallDiv(t.cs[x], Pow2(t.bs[x]));
    assert Reaches(t.bs, t.cs, x, Above(t.cs[x], t.bs[x], v));
  }

  // ----- what is written -----

  /** A symbol, or the sign that the tree is built anew, with what ages the counters. */
  datatype Token = Sym(s: nat) | Again(mode: nat)

  function Syms(toks: seq<Token>): seq<nat> {
    if toks == [] then []
    else (if toks[0].Sym? then [toks[0].s] else []) + Syms(toks[1..])
  }

  // From the first symbol on.
  function Skip(toks: seq<Token>): seq<Token> {
    if toks != [] && toks[0].Again? then Skip(toks[1..]) else toks
  }

  /** No more than CREDIT symbols come between two rebuilds. */
  predicate Paced(toks: seq<Token>, credit: nat) {
    toks == [] || if toks[0].Sym? then credit > 0 && Paced(toks[1..], credit - 1) else Paced(toks[1..], CREDIT)
  }

  predicate Writable(toks: seq<Token>, n: nat) {
    forall k :: 0 <= k < |toks| ==> if toks[k].Sym? then toks[k].s < n && toks[k].s != EOB else toks[k].mode < 8 && EOB < n
  }

  function Older(cs: seq<nat>, mode: nat): (r: seq<nat>)
    requires Positive(cs)
    ensures AllAged(cs, r, mode)
  {
    var f := Factor(mode);
    seq<nat>(|cs|, i requires 0 <= i < |cs| => var c := cs[i]; AgedOk(c, mode); Aged(c, f))
  }

  lemma OlderOnly(cs: seq<nat>, r: seq<nat>, mode: nat)
    requires Positive(cs) && AllAged(cs, r, mode)
    ensures r == Older(cs, mode)
  {
  }

  // The number begins with symbol s, and goes on with rest.
  ghost predicate Starts(cs: seq<nat>, t: Built, s: nat, v: nat, v1: nat, b: nat, bits: nat) {
    Spells(t, |cs|, s, v, v1, b) && b <= bits
  }

  /** v begins with the tokens, in so many bits, written from these counters with
      this tree, and `rest` is what lies above them. */
  ghost predicate Writes(cs: seq<nat>, t: Built, toks: seq<Token>, v: nat, rest: nat, bits: nat)
    decreases |toks|, 0
  {
    if toks == [] then v == rest && bits == 0
    else match toks[0]
      case Sym(s) =>
        s != EOB && s < |cs| && exists v1: nat, b: nat :: Starts(cs, t, s, v, v1, b, bits) && Writes(cs[s := cs[s] + 1], t, toks[1..], v1, rest, bits - b)
      case Again(mode) =>
        mode < 8 && Positive(cs) &&
        exists v1: nat, b: nat :: Starts(cs, t, EOB, v, v1, b, bits) && b + 3 <= bits && v1 % 8 == mode
                        && Onward(cs, mode, toks[1..], v1 / 8, rest, bits - 3 - b)
  }

  // ... from aged counters, with the tree built before they aged.
  ghost predicate Onward(cs: seq<nat>, mode: nat, toks: seq<Token>, v: nat, rest: nat, bits: nat)
    requires Positive(cs)
    decreases |toks|, 1
  {
    exists t' :: IsTree(cs, t') && Shallow(t') && Writes(Older(cs, mode), t', toks, v, rest, bits)
  }

  ghost predicate Shallow(t: Built) {
    t.bs != [] && t.bs[0] <= MAX_BITS
  }

  // ----- reading it back, one token -----

  /** What is written first is what the bits spell first. */
  lemma FirstSym(cs: seq<nat>, t: Built, toks: seq<Token>, v: nat, rest: nat, bits: nat, s: nat, v1: nat, b: nat)
    requires Coding(|cs|, t.bs, t.cs) && toks != [] && toks[0].Sym? && Writes(cs, t, toks, v, rest, bits) && Spells(t, |cs|, s, v, v1, b)
    ensures s == toks[0].s != EOB && s < |cs| && b <= bits && Writes(cs[s := cs[s] + 1], t, toks[1..], v1, rest, bits - b)
  {
    hide Spells, Coding;
    var s0 := toks[0].s;
    var w: nat, c: nat :| Starts(cs, t, s0, v, w, c, bits) && Writes(cs[s0 := cs[s0] + 1], t, toks[1..], w, rest, bits - c);
    SpellsOnly(t, |cs|, s0, v, w, c, s, v1, b);
  }

  lemma FirstAgain(cs: seq<nat>, t: Built, toks: seq<Token>, v: nat, rest: nat, bits: nat, s: nat, v1: nat, b: nat)
    requires Coding(|cs|, t.bs, t.cs) && toks != [] && toks[0].Again? && Writes(cs, t, toks, v, rest, bits) && Spells(t, |cs|, s, v, v1, b)
    ensures s == EOB && b + 3 <= bits && v1 % 8 == toks[0].mode < 8 && Positive(cs)
    ensures Onward(cs, toks[0].mode, toks[1..], v1 / 8, rest, bits - 3 - b)
  {
    hide Spells, Coding;
    var w: nat, c: nat :| Starts(cs, t, EOB, v, w, c, bits) && c + 3 <= bits && w % 8 == toks[0].mode
                && Onward(cs, toks[0].mode, toks[1..], w / 8, rest, bits - 3 - c);
    SpellsOnly(t, |cs|, EOB, v, w, c, s, v1, b);
  }

  // After the rebuild the reader has the writer's tree.
  lemma OnwardIs(cs: seq<nat>, t: Built, mode: nat, toks: seq<Token>, v: nat, rest: nat, bits: nat)
    requires |cs| <= MAX_HUF && Positive(cs) && IsTree(cs, t) && Onward(cs, mode, toks, v, rest, bits)
    ensures Shallow(t) && Writes(Older(cs, mode), t, toks, v, rest, bits)
  {
    var t' :| IsTree(cs, t') && Shallow(t') && Writes(Older(cs, mode), t', toks, v, rest, bits);
    IsTreeOnly(cs, t, t');
  }

  lemma SkipSyms(toks: seq<Token>)
    ensures Syms(Skip(toks)) == Syms(toks)
    ensures Skip(toks) != [] ==> Skip(toks)[0].Sym? && Syms(toks) == [Skip(toks)[0].s] + Syms(Skip(toks)[1..])
    ensures Skip(toks) == [] <==> Syms(toks) == []
  {
  }

  lemma {:induction false} PacedMore(toks: seq<Token>, c: nat, d: nat)
    requires Paced(toks, c) && c <= d
    ensures Paced(toks, d)
  {
    if toks != [] && toks[0].Sym? {
      PacedMore(toks[1..], c - 1, d - 1);
    }
  }

  // ----- what lies above does not matter -----

  lemma SpellsUnder(t: Built, n: nat, s: nat, v: nat, v1: nat, b: nat, more: nat)
    requires Spells(t, n, s, v, v1, b)
    ensures Spells(t, n, s, v + Pow2(b) * more, v1 + more, b)
  {
    hide Pow2;
    var x :| 0 <= x < n && t.sym[x] == s && Reaches(t.bs, t.cs, x, v) && v1 == v / Pow2(t.bs[x]) && b == t.bs[x];
    HighBits(v, Pow2(b), more);
    assert Reaches(t.bs, t.cs, x, v + Pow2(b) * more);
  }

  lemma Stacked(b: nat, bits: nat, more: nat)
    requires b <= bits
    ensures Pow2(b) * (Pow2(bits - b) * more) == Pow2(bits) * more
  {
    hide Pow2;
    Pow2Add(b, bits - b);
    var p, q: nat := Pow2(b), Pow2(bits - b);
    assert p * (q * more) == (p * q) * more;
  }

  lemma {:induction false} WritesUnder(cs: seq<nat>, t: Built, toks: seq<Token>, v: nat, bits: nat, more: nat)
    requires Writes(cs, t, toks, v, 0, bits)
    ensures Writes(cs, t, toks, Above(v, bits, more), more, bits)
    decreases |toks|
  {
    hide Pow2, Spells, IsTree, Above;
    if toks == [] {
      Pow0(more);
    } else if toks[0].Sym? {
      var s := toks[0].s;
      var w: nat, b: nat :| Starts(cs, t, s, v, w, b, bits) && Writes(cs[s := cs[s] + 1], t, toks[1..], w, 0, bits - b);
      WritesUnder(cs[s := cs[s] + 1], t, toks[1..], w, bits - b, more);
      StartsUnder(cs, t, s, v, w, b, bits, more);
    } else {
      AgainUnder(cs, t, toks, v, bits, more);
    }
  }

  lemma AgainUnder(cs: seq<nat>, t: Built, toks: seq<Token>, v: nat, bits: nat, more: nat)
    requires toks != [] && toks[0].Again? && Writes(cs, t, toks, v, 0, bits)
    ensures Writes(cs, t, toks, Above(v, bits, more), more, bits)
    decreases |toks|, 0
  {
    hide Pow2, Spells, IsTree, Above;
    var mode := toks[0].mode;
    var w: nat, b: nat :| Starts(cs, t, EOB, v, w, b, bits) && b + 3 <= bits && w % 8 == mode && Onward(cs, mode, toks[1..], w / 8, 0, bits - 3 - b);
    var t' :| IsTree(cs, t') && Shallow(t') && Writes(Older(cs, mode), t', toks[1..], w / 8, 0, bits - 3 - b);
    WritesUnder(Older(cs, mode), t', toks[1..], w / 8, bits - 3 - b, more);
    StartsUnder(cs, t, EOB, v, w, b, bits, more);
    ThreeUnder(w, bits - b, more);
  }

  lemma StartsUnder(cs: seq<nat>, t: Built, s: nat, v: nat, w: nat, b: nat, bits: nat, more: nat)
    requires Starts(cs, t, s, v, w, b, bits)
    ensures Starts(cs, t, s, Above(v, bits, more), Above(w, bits - b, more), b, bits)
  {
    hide Pow2, Spells;
    Stacked(b, bits, more);
    SpellsUnder(t, |cs|, s, v, w, b, Pow2(bits - b) * more);
  }

  // The three bits of the mode stay what they are.
  lemma ThreeUnder(w: nat, bits: nat, more: nat)
    requires bits >= 3
    ensures Above(w, bits, more) % 8 == w % 8 && Above(w, bits, more) / 8 == Above(w / 8, bits - 3, more)
  {
    hide Pow2;
    Stacked(3, bits, more);
    Eight();
    HighBits(w, 8, Pow2(bits - 3) * more);
  }

  lemma Eight()
    ensures Pow2(3) == 8
  {
  }

  lemma Pow0(more: nat)
    ensures Above(0, 0, more) == more && Pow2(0) == 1
  {
  }

  // ----- the writer -----

  method Find(buf: array<Node>, n: nat, s: nat, ghost t: Built) returns (x: nat)
    requires InBuffer(buf[..], t, n) && s < n
    ensures x < n && t.sym[x] == s && buf[x].left == s
  {
    hide Coding;
    Everyone(t.sym, n, s);
    x := 0;
    while buf[x].left != s
      invariant x < n && forall y :: 0 <= y < x ==> t.sym[y] != s
      decreases n - x
    {
      x := x + 1;
    }
  }

  lemma SymWrites(cs: seq<nat>, t: Built, toks: seq<Token>, x: nat, v: nat, bits: nat)
    requires Coding(|cs|, t.bs, t.cs) && Perm(t.sym, |cs|) && x < |cs| && toks != [] && toks[0] == Sym(t.sym[x]) && t.sym[x] != EOB
    requires var s := t.sym[x]; Writes(cs[s := cs[s] + 1], t, toks[1..], v, 0, bits)
    ensures Writes(cs, t, toks, Above(t.cs[x], t.bs[x], v), 0, t.bs[x] + bits)
  {
    hide Pow2, Spells, Coding;
    CodingSize(|cs|, t.bs, t.cs);
    LeafSpells(t, |cs|, x, v);
    assert Starts(cs, t, t.sym[x], Above(t.cs[x], t.bs[x], v), v, t.bs[x], t.bs[x] + bits);
  }

  lemma AgainWrites(cs: seq<nat>, t: Built, toks: seq<Token>, x: nat, t': Built, v: nat, bits: nat)
    requires Coding(|cs|, t.bs, t.cs) && Perm(t.sym, |cs|) && x < |cs| && toks != [] && toks[0].Again? && toks[0].mode < 8 && t.sym[x] == EOB
    requires Positive(cs) && IsTree(cs, t') && Shallow(t') && Writes(Older(cs, toks[0].mode), t', toks[1..], v, 0, bits)
    ensures Writes(cs, t, toks, Above(t.cs[x], t.bs[x], toks[0].mode + 8 * v), 0, t.bs[x] + 3 + bits)
  {
    hide Pow2, Spells, Coding, IsTree;
    var w := toks[0].mode + 8 * v;
    CodingSize(|cs|, t.bs, t.cs);
    LeafSpells(t, |cs|, x, w);
    assert Starts(cs, t, EOB, Above(t.cs[x], t.bs[x], w), w, t.bs[x], t.bs[x] + 3 + bits);
    assert Onward(cs, toks[0].mode, toks[1..], w / 8, 0, bits);
  }

  lemma Bounded(c: nat, b: nat, v: nat, bits: nat)
    requires c < Pow2(b) && v < Pow2(bits)
    ensures Above(c, b, v) < Pow2(b + bits)
  {
    hide Pow2;
    Pow2Add(b, bits);
    Stride(v, Pow2(bits), Pow2(b));
  }

  lemma ModeAbove(mode: nat, v: nat)
    ensures Above(mode, 3, v) == mode + 8 * v && Pow2(3) == 8
  {
  }

  /** No tree on the way gets too deep. The trees follow from the counters. */
  ghost predicate Buildable(cs: seq<nat>, toks: seq<Token>)
    decreases |toks|
  {
    toks == [] ||
    match toks[0]
    case Sym(s) => s < |cs| && Buildable(cs[s := cs[s] + 1], toks[1..])
    case Again(mode) => Positive(cs) && (exists t :: IsTree(cs, t) && Shallow(t)) && Buildable(Older(cs, mode), toks[1..])
  }

  lemma TooDeep(cs: seq<nat>, t: Built, toks: seq<Token>)
    requires IsTree(cs, t) && !Shallow(t) && |cs| <= MAX_HUF && toks != [] && toks[0].Again?
    ensures !Buildable(cs, toks)
  {
    hide IsTree;
    forall t' | IsTree(cs, t')
      ensures t' == t
    {
      IsTreeOnly(cs, t, t');
    }
  }

  /** A coder that keeps counters and tree as the decoder does. It gives up exactly when
      a tree gets too deep, which no decoder would build either. */
  method Write(cs: seq<nat>, buf: array<Node>, ghost t: Built, toks: seq<Token>, ghost credit: nat) returns (ok: bool, v: nat, bits: nat)
    requires |cs| >= 2 && Funded(cs, credit) && InBuffer(buf[..], t, |cs|) && Shallow(t) && Writable(toks, |cs|) && Paced(toks, credit) && credit <= CREDIT
    ensures ok ==> Writes(cs, t, toks, v, 0, bits) && v < Pow2(bits)
    ensures ok <==> Buildable(cs, toks)
    decreases |toks|
  {
    hide Pow2, Coding, Funded, IsTree, Writes, Aged, Factor, Older, Fib, Above;
    if toks == [] {
      Nothing(cs, t);
      return true, 0, 0;
    }
    var n := |cs|;
    CodesFit(n, t.bs, t.cs);
    CodingSize(n, t.bs, t.cs);
    match toks[0] {
      case Sym(s) =>
        var x := Find(buf, n, s, t);
        CodingAt(n, t.bs, t.cs, x);
        FundedSpent(cs, credit, s);
        ok, v, bits := Write(cs[s := cs[s] + 1], buf, t, toks[1..], credit - 1);
        if ok {
          SymWrites(cs, t, toks, x, v, bits);
          Bounded(t.cs[x], t.bs[x], v, bits);
        }
        v, bits := Above(buf[x].code, buf[x].bits, v), buf[x].bits + bits;
      case Again(mode) =>
        var x := Find(buf, n, EOB, t);
        CodingAt(n, t.bs, t.cs, x);
        FundedReady(cs, credit);
        var buf';
        ghost var t';
        buf', t' := Leaves(cs);
        CodingSize(n, t'.bs, t'.cs);
        if buf'[0].bits > MAX_BITS {
          TooDeep(cs, t', toks);
          return false, 0, 0;
        }
        FreshFunds(cs, Older(cs, mode), mode);
        ok, v, bits := Write(Older(cs, mode), buf', t', toks[1..], CREDIT);
        if ok {
          AgainWrites(cs, t, toks, x, t', v, bits);
          ModeAbove(mode, v);
          Bounded(mode, 3, v, bits);
          Bounded(t.cs[x], t.bs[x], mode + 8 * v, 3 + bits);
        }
        v, bits := Above(buf[x].code, buf[x].bits, mode + 8 * v), buf[x].bits + 3 + bits;
    }
  }

  lemma Nothing(cs: seq<nat>, t: Built)
    ensures Writes(cs, t, [], 0, 0, 0) && 0 < Pow2(0)
  {
  }
}
