/** Tornado's Huffman decoder: bits from the 32-bit words of a byte input, symbols
    from the tree, and a rebuild of the tree whenever its own symbol says so. */
module TorDecoder {
  import opened Bytes
  import opened AnsCoder
  import Counting
  import opened Permutations
  import opened TorCodes
  import opened TorSort
  import opened TorTree
  import opened TorLookup
  import opened TorHuffman
  import opened TorBytes
  import opened TorWriter

  // ----- the bits -----

  predicate Words(w: seq<nat>) {
    forall k :: 0 <= k < |w| ==> w[k] < U32
  }

  /** Words in order as one number, the first in its lowest bits. */
  function Joined(w: seq<nat>): nat {
    if w == [] then 0 else w[0] + U32 * Joined(w[1..])
  }

  lemma Below(b: nat, w: nat, p: nat, q: nat)
    requires b < p && w < q
    ensures b + w * p < p * q && b + w * p + p * q * 0 >= 0
  {
    Stride(w, q, p);
  }

  lemma Nested(b: nat, p: nat, w: nat, q: nat, m: nat)
    ensures b + p * (w + q * m) == b + w * p + p * q * m
  {
  }

  /** The first words the byte input yields, inside the input and behind its end. */
  function Yield(src: seq<byte>, n: nat): (w: seq<nat>)
    ensures |w| == n && Words(w)
  {
    PowU32U64();
    seq<nat>(n, k requires 0 <= k < n => UnLe(BytesAt(src, 4 * k, 4)))
  }

  class BitIn {
    const bytes: ByteIn
    // How many words the run may read.
    const horizon: nat
    ghost const words: seq<nat>
    var next: nat
    var bitbuf: nat
    var bitcount: nat

    ghost predicate Valid()
      reads this, bytes, bytes.buf
    {
      && bytes.Valid() && bytes.At() == 4 * next && words == Yield(bytes.src, horizon)
      && next <= horizon && bitcount <= 64 && bitbuf < Pow2(bitcount)
    }

    /** Everything still to be read, as one number. */
    ghost function View(): nat
      reads this
      requires next <= |words|
    {
      bitbuf + Pow2(bitcount) * Joined(words[next..])
    }

    constructor (src: seq<byte>, horizon: nat)
      ensures Valid() && View() == Joined(Yield(src, horizon)) && Left() == 32 * horizon
      ensures fresh(bytes) && fresh(bytes.buf) && bytes.src == src && this.horizon == horizon
    {
      bytes := new ByteIn(src);
      this.horizon := horizon;
      words := Yield(src, horizon);
      next, bitbuf, bitcount := 0, 0, 0;
      new;
      assert words[0..] == words && Pow2(0) == 1;
    }

    /** needbits: the next n bits, left in place. `more` is false when the horizon is
        reached, which takes at most 32 bits left. */
    method Need(n: nat) returns (more: bool, x: nat)
      requires Valid() && n <= 32
      modifies this, bytes, bytes.buf
      ensures Valid() && View() == old(View()) && Left() == old(Left())
      ensures more ==> n <= bitcount && x == View() % Pow2(n)
      ensures !more ==> Left() <= 32
    {
      hide Pow2, Words, Yield, Joined;
      if bitcount <= 32 {
        if next == horizon {
          return false, 0;
        }
        Refill();
      }
      x := bitbuf % Pow2(n);
      LowBits(bitbuf, bitcount, n, Joined(words[next..]));
      more := true;
    }

    // One more word above the bits at hand.
    method Refill()
      requires Valid() && bitcount <= 32 && next < horizon
      modifies this, bytes, bytes.buf
      ensures Valid() && View() == old(View()) && Left() == old(Left()) && bitcount > 31
    {
      hide Pow2, Words, Yield, Joined;
      Refilled(words, next, bitbuf, bitcount);
      YieldAt(bytes.src, horizon, next);
      var w := bytes.Get(4);
      bitbuf := bitbuf + w * Pow2(bitcount);
      bitcount := bitcount + 32;
      next := next + 1;
    }

    /** dumpbits: n bits are done with. */
    method Dump(n: nat)
      requires Valid() && n <= bitcount
      modifies this`bitbuf, this`bitcount
      ensures Valid() && View() == old(View()) / Pow2(n) && next == old(next) && bitcount == old(bitcount) - n
    {
      hide Pow2, Words, Yield;
      LowBits(bitbuf, bitcount, n, Joined(words[next..]));
      bitbuf := bitbuf / Pow2(n);
      bitcount := bitcount - n;
    }

    // How many bits there are, up to the horizon.
    ghost function Left(): int
      reads this
    {
      32 * (horizon - next) + bitcount
    }
  }

  lemma YieldAt(src: seq<byte>, n: nat, k: nat)
    requires k < n
    ensures |Yield(src, n)| == n && Words(Yield(src, n)) && Yield(src, n)[k] == UnLe(BytesAt(src, 4 * k, 4)) < U32
  {
    PowU32U64();
  }

  lemma Refilled(words: seq<nat>, next: nat, b: nat, c: nat)
    requires Words(words) && next < |words| && b < Pow2(c)
    ensures var b' := b + words[next] * Pow2(c);
            b' < Pow2(c + 32) && b' + Pow2(c + 32) * Joined(words[next + 1..]) == b + Pow2(c) * Joined(words[next..])
  {
    hide Pow2;
    var w, m := words[next], Joined(words[next + 1..]);
    assert words[next..][0] == w && words[next..][1..] == words[next + 1..];
    Pow2Add(c, 32);
    Pow32();
    Below(b, w, Pow2(c), U32);
    Nested(b, Pow2(c), w, U32, m);
  }

  lemma LowBits(b: nat, c: nat, n: nat, m: nat)
    requires b < Pow2(c) && n <= c
    ensures var v := b + Pow2(c) * m;
            v % Pow2(n) == b % Pow2(n) && v / Pow2(n) == b / Pow2(n) + Pow2(c - n) * m && b / Pow2(n) < Pow2(c - n)
  {
    hide Pow2;
    var p, q: nat := Pow2(n), Pow2(c - n);
    Pow2Add(n, c - n);
    assert p * q * m == p * (q * m);
    HighBits(b, p, q * m);
    Shorter(b, p, q);
  }

  lemma Shorter(b: nat, p: nat, q: nat)
    requires p > 0 && b < p * q
    ensures b / p < q
  {
    var d, r := b / p, b % p;
    assert b == d * p + r;
    assert p * q == q * p;
    Scaled(q, d, p);
  }

  // ----- the decoder -----

  datatype Outcome = Symbol(s: nat) | Failed | Out

  class HuffDec {
    const bit: BitIn
    const tree: HuffTree
    var failed: bool

    ghost predicate Apart()
      reads this, tree
    {
      && bit.bytes.buf as object != tree.counter && bit.bytes.buf as object != tree.bits
      && bit.bytes.buf as object != tree.fast && bit.bytes.buf as object != tree.index
    }

    ghost predicate Valid(credit: nat)
      reads this, bit, bit.bytes, bit.bytes.buf, tree, tree.counter, tree.bits, tree.fast, tree.index
    {
      bit.Valid() && tree.Valid() && Funded(tree.counter[..], credit) && Apart()
    }

    /** What is still to be read was written in step: by counters and a tree like these. */
    ghost predicate Reads(toks: seq<Token>, rest: nat, bits: nat)
      reads this, bit, tree, tree.counter
      requires bit.next <= |bit.words|
    {
      Writes(tree.counter[..], tree.t, toks, bit.View(), rest, bits)
    }

    constructor (src: seq<byte>, n: nat, horizon: nat)
      requires 2 <= n <= MAX_HUF
      ensures Valid(CREDIT) && !failed && tree.n == n && tree.counter[..] == Ones(n) && IsTree(Ones(n), tree.t)
      ensures bit.View() == Joined(Yield(src, horizon)) && bit.Left() == 32 * horizon
      ensures fresh(bit) && fresh(bit.bytes) && fresh(bit.bytes.buf)
      ensures fresh(tree) && fresh(tree.counter) && fresh(tree.bits) && fresh(tree.fast) && fresh(tree.index)
    {
      hide IsTree, Yield;
      bit := new BitIn(src, horizon);
      tree := new HuffTree(n);
      failed := false;
    }

    /** One symbol of the tree as it is: the next bits are its codeword. */
    method One() returns (o: Outcome, ghost b: nat)
      requires bit.Valid() && tree.Valid() && Apart()
      modifies bit, bit.bytes, bit.bytes.buf
      ensures bit.Valid() && !o.Failed?
      ensures o.Symbol? ==> o.s < tree.n && b > 0 && bit.Left() == old(bit.Left()) - b && Spells(tree.t, tree.n, o.s, old(bit.View()), bit.View(), b)
      ensures o.Out? ==> bit.Left() == old(bit.Left()) <= 32
    {
      hide Pow2, Coding, Filled, Lengths, Reaches, Yield;
      b := 0;
      var more, code := bit.Need(tree.maxbits);
      if !more {
        return Out, 0;
      }
      CodingSize(tree.n, tree.t.bs, tree.t.cs);
      var s := tree.Sym(code);
      ghost var x :| 0 <= x < tree.n && tree.t.sym[x] == s && Reaches(tree.t.bs, tree.t.cs, x, code) && tree.bits[s] == tree.t.bs[x];
      SameReach(tree.n, tree.t, bit.View(), tree.maxbits, x);
      b := tree.t.bs[x];
      bit.Dump(tree.bits[s]);
      o := Symbol(s);
    }

    /** After the tree's own symbol: three bits say how the counters age, and the tree
        is built anew from them. */
    method Rebuild(ghost credit: nat) returns (more: bool)
      requires Valid(credit) && !failed
      modifies this`failed, bit, bit.bytes, bit.bytes.buf, tree, tree.counter, tree.bits, tree.fast, tree.index
      ensures bit.Valid() && (tree.index == old(tree.index) || fresh(tree.index)) && bit.Left() == old(bit.Left()) - (if more then 3 else 0)
      ensures !more ==> !failed && bit.Left() <= 32
      ensures more ==> IsTree(old(tree.counter[..]), tree.t) && (failed <==> !Shallow(tree.t))
      ensures more && !failed ==> Valid(CREDIT) && bit.View() == old(bit.View()) / 8
                                  && AllAged(old(tree.counter[..]), tree.counter[..], old(bit.View()) % 8)
      ensures failed ==> tree.maxbits > MAX_BITS && Counting.Sum(old(tree.counter[..])) > 1_000_000
    {
      hide Pow2, Coding, Filled, Lengths, Funded, IsTree, Yield;
      Eight();
      var mode;
      more, mode := bit.Need(3);
      if !more {
        return;
      }
      bit.Dump(3);
      ghost var was := tree.counter[..];
      FundedReady(was, credit);
      var ok := tree.Build(mode);
      FibTop(tree.maxbits);
      if !ok {
        failed := true;
      } else {
        FreshFunds(was, tree.counter[..], mode);
      }
    }

    /** One turn of decodeSym: a symbol, or the tree's own symbol and a rebuild. */
    method Turn(ghost credit: nat, ghost cur: seq<Token>, ghost rest: nat, ghost bits: nat) returns (o: Outcome, again: bool, ghost k: nat)
      requires Valid(credit) && !failed
      requires credit > 0 || (Reads(cur, rest, bits) && Skip(cur) != [] && Paced(cur, credit))
      modifies this`failed, bit, bit.bytes, bit.bytes.buf, tree, tree.counter, tree.bits, tree.fast, tree.index
      ensures bit.Valid() && (tree.index == old(tree.index) || fresh(tree.index)) && (o.Failed? <==> failed)
      ensures again ==> !failed && Valid(CREDIT) && bit.Left() < old(bit.Left())
      ensures !again && o.Symbol? ==> credit > 0 && Valid(credit - 1) && o.s < tree.n && o.s != EOB
      ensures old(Reads(cur, rest, bits)) && Skip(cur) != [] ==>
                && !o.Failed? && (o.Out? ==> old(bit.Left()) <= 32 + bits)
                && (again || o.Symbol? ==> Reads(cur[1..], rest, k) && bit.Left() - k == old(bit.Left()) - bits)
                && (again ==> cur[0].Again?) && (!again && o.Symbol? ==> cur[0] == Sym(o.s))
    {
      hide Pow2, Coding, Filled, Lengths, Spells, Funded, IsTree, Writes, Yield, Shallow, Older, Skip;
      again, k := false, bits;
      ghost var told, v, was, t := Reads(cur, rest, bits) && Skip(cur) != [], bit.View(), tree.counter[..], tree.t;
      ghost var b;
      o, b := One();
      if o.Out? {
        return;
      }
      if told {
        NextToken(was, t, cur, v, rest, bits, o.s, bit.View(), b);
      }
      if o.s != EOB {
        if told {
          PacedNext(cur, credit);
          k := bits - b;
        }
        FundedSpent(was, credit, o.s);
        tree.counter[o.s] := tree.counter[o.s] + 1;
        assert tree.counter[..] == was[o.s := was[o.s] + 1];
        return;
      }
      v := bit.View();
      var more := Rebuild(credit);
      if !more {
        o := Out;
        return;
      }
      if told {
        OnwardIs(was, tree.t, cur[0].mode, cur[1..], v / 8, rest, bits - 3 - b);
        k := bits - 3 - b;
      }
      if failed {
        o := Failed;
        return;
      }
      if told {
        OlderOnly(was, tree.counter[..], cur[0].mode);
      }
      again := true;
    }

    /** decodeSym: the next symbol that is not the tree's own, however many rebuilds
        come before it. As long as no more than CREDIT symbols come between two
        rebuilds, the counters never leave the widths a rebuild relies on, whatever
        the bits; only counters of more than a million together can make a tree that
        is too deep. When the bits were written in step, the symbol is the one written
        next, and what follows it is still to be read. */
    method DecodeSym(ghost credit: nat, ghost toks: seq<Token>, ghost rest: nat, ghost bits: nat)
      returns (o: Outcome, ghost left: nat, ghost k: nat)
      requires bit.Valid() && (failed || Valid(credit)) && credit <= CREDIT
      requires credit > 0 || (Reads(toks, rest, bits) && Skip(toks) != [] && Paced(toks, credit))
      modifies this`failed, bit, bit.bytes, bit.bytes.buf, tree, tree.counter, tree.bits, tree.fast, tree.index
      ensures bit.Valid() && (tree.index == old(tree.index) || fresh(tree.index))
      ensures o.Failed? <==> failed
      ensures o.Symbol? ==> Valid(left) && credit - 1 <= left < CREDIT && o.s < tree.n && o.s != EOB
      ensures !old(failed) && old(Reads(toks, rest, bits)) && Skip(toks) != [] ==>
                && !o.Failed? && (o.Out? ==> old(bit.Left()) <= 32 + bits)
                && (o.Symbol? ==> Skip(toks)[0] == Sym(o.s) && Reads(Skip(toks)[1..], rest, k) && bit.Left() - k == old(bit.Left()) - bits)
                && (o.Symbol? && Paced(toks, credit) ==> Paced(Skip(toks)[1..], left))
    {
      hide Pow2, Coding, Filled, Lengths, Spells, Funded, IsTree, Writes, Yield, Shallow, Paced, Older, Skip, Apart;
      left, k := credit, bits;
      if failed {
        return Failed, left, k;
      }
      ghost var told, cur := Reads(toks, rest, bits) && Skip(toks) != [], toks;
      while true
        invariant Valid(left) && credit <= left <= CREDIT && !failed && (left > 0 || (told && Paced(cur, left)))
        invariant tree.index == old(tree.index) || fresh(tree.index)
        invariant told ==> Reads(cur, rest, k) && Skip(cur) == Skip(toks) && bit.Left() - k == old(bit.Left()) - bits
        invariant told && Paced(toks, credit) ==> Paced(cur, left)
        decreases bit.Left()
      {
        var again;
        ghost var k' := k;
        o, again, k' := Turn(left, cur, rest, k);
        if told {
          SkipNext(cur);
          PacedNext(cur, left);
        }
        if !again {
          left, k := if o.Symbol? then left - 1 else left, k';
          return;
        }
        if told {
          cur, k := cur[1..], k';
        }
        left := CREDIT;
      }
    }
  }

  lemma SkipNext(cur: seq<Token>)
    requires Skip(cur) != []
    ensures cur != [] && (cur[0].Again? ==> Skip(cur) == Skip(cur[1..])) && (cur[0].Sym? ==> Skip(cur) == cur)
  {
  }

  // The symbol the bits spell is the next token's.
  lemma NextToken(cs: seq<nat>, t: Built, cur: seq<Token>, v: nat, rest: nat, bits: nat, s: nat, v1: nat, b: nat)
    requires Coding(|cs|, t.bs, t.cs) && Writes(cs, t, cur, v, rest, bits) && Spells(t, |cs|, s, v, v1, b) && Skip(cur) != []
    ensures cur != [] && b <= bits && (cur[0].Sym? <==> s != EOB) && (cur[0].Sym? ==> Skip(cur) == cur)
    ensures s != EOB ==> cur[0] == Sym(s) && s < |cs| && Writes(cs[s := cs[s] + 1], t, cur[1..], v1, rest, bits - b)
    ensures s == EOB ==> cur[0].Again? && Skip(cur) == Skip(cur[1..]) && b + 3 <= bits && v1 % 8 == cur[0].mode && Positive(cs)
                         && Onward(cs, cur[0].mode, cur[1..], v1 / 8, rest, bits - 3 - b)
  {
    hide Coding, Spells, Writes, Onward;
    if cur[0].Sym? {
      FirstSym(cs, t, cur, v, rest, bits, s, v1, b);
    } else {
      FirstAgain(cs, t, cur, v, rest, bits, s, v1, b);
    }
  }

  lemma PacedNext(cur: seq<Token>, left: nat)
    requires cur != []
    ensures Paced(cur, left) ==> if cur[0].Sym? then left > 0 && Paced(cur[1..], left - 1) else Paced(cur[1..], CREDIT)
  {
  }

  lemma SameReach(n: nat, t: Built, v: nat, maxbits: nat, x: nat)
    requires Coding(n, t.bs, t.cs) && n >= 2 && x < n && maxbits == t.bs[0] && Reaches(t.bs, t.cs, x, v % Pow2(maxbits))
    ensures Reaches(t.bs, t.cs, x, v) && t.bs[x] <= maxbits && t.bs[x] > 0
  {
    hide Pow2;
    CodingAt(n, t.bs, t.cs, x);
    ModMod(v, maxbits, t.bs[x]);
    var y := if x == 0 then 1 else 0;
    if t.bs[x] == 0 {
      assert Pow2(0) == 1 by { Pow0(0); }
      CodingAt(n, t.bs, t.cs, y);
      SmallDiv(t.cs[y], Pow2(t.bs[y]));
      OneLeaf(n, t.bs, t.cs, x, y, t.cs[y]);
    }
  }
}
