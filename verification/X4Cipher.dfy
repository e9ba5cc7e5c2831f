/** The block cipher of x4 archives: a Feistel network between two bit permutations, masked by an
    RC4 state that every second block advances. */
module X4Cipher {
  import opened Bytes
  import opened X4Stream

  datatype Halves = Halves(a: bv32, b: bv32)

  function Flip(h: Halves): Halves { Halves(h.b, h.a) }

  // ---- The outer permutations ----------------------------------------------

  /** Entry `i` of the table that spreads bits 0, 2, 4, 6 over the bytes of a word. */
  function Sbox7(i: bv8): bv32 {
    var x := i as bv32;
    (x & 1) | (((x >> 2) & 1) << 8) | (((x >> 4) & 1) << 16) | (((x >> 6) & 1) << 24)
  }

  /** Entry `x` of the table that spreads a nibble the other way round. */
  function Sbox8(x: bv32): bv32 {
    ((x & 1) << 24) | (((x >> 1) & 1) << 16) | (((x >> 2) & 1) << 8) | ((x >> 3) & 1)
  }

  function Gather(s: seq<bv8>, k: nat): bv32
    requires |s| == 8 && k < 2
  {
    var e := Sbox7((s[7] >> k) & 0x55);
    var e := (e << 1) | Sbox7((s[6] >> k) & 0x55);
    var e := (e << 1) | Sbox7((s[5] >> k) & 0x55);
    var e := (e << 1) | Sbox7((s[4] >> k) & 0x55);
    var e := (e << 1) | Sbox7((s[3] >> k) & 0x55);
    var e := (e << 1) | Sbox7((s[2] >> k) & 0x55);
    var e := (e << 1) | Sbox7((s[1] >> k) & 0x55);
    (e << 1) | Sbox7((s[0] >> k) & 0x55)
  }

  function InitialPerm(s: seq<bv8>): Halves
    requires |s| == 8
  {
    Halves(Gather(s, 0), Gather(s, 1))
  }

  function Upper(x: bv32): bv32 { x >> 4 }

  function Weave(l: bv32, r: bv32): bv32 {
    var e := (Sbox8((l >> 24) & 0xf) << 1) | Sbox8((r >> 24) & 0xf);
    var e := (((e << 1) | Sbox8((l >> 16) & 0xf)) << 1) | Sbox8((r >> 16) & 0xf);
    var e := (((e << 1) | Sbox8((l >> 8) & 0xf)) << 1) | Sbox8((r >> 8) & 0xf);
    (((e << 1) | Sbox8(l & 0xf)) << 1) | Sbox8(r & 0xf)
  }

  function ByteAt(x: bv32, shift: nat): bv8
    requires shift <= 24
  {
    ((x >> shift) & 0xff) as bv8
  }

  function FinalPerm(h: Halves): (s: seq<bv8>)
    ensures |s| == 8
  {
    var c := Weave(h.a, h.b);
    var a := Weave(Upper(h.a), Upper(h.b));
    [ByteAt(c, 24), ByteAt(c, 16), ByteAt(c, 8), ByteAt(c, 0),
     ByteAt(a, 24), ByteAt(a, 16), ByteAt(a, 8), ByteAt(a, 0)]
  }

  /** Bit k of each byte of `x`. */
  function Lane(x: bv32, k: nat): bv32
    requires k < 8
  {
    (x >> k) & 0x01010101
  }

  /** Bits k, 8 + k, 16 + k and 24 + k of both halves, interleaved. */
  function Zip(l: bv32, r: bv32, k: nat): bv8
    requires k < 4
  {
    ((((l >> (24 + k)) & 1) << 7) | (((r >> (24 + k)) & 1) << 6)
    | (((l >> (16 + k)) & 1) << 5) | (((r >> (16 + k)) & 1) << 4)
    | (((l >> (8 + k)) & 1) << 3) | (((r >> (8 + k)) & 1) << 2)
    | (((l >> k) & 1) << 1) | ((r >> k) & 1)) as bv8
  }

  lemma Zipped(l: bv32, r: bv32)
    ensures var c := Weave(l, r);
            ByteAt(c, 24) == Zip(l, r, 0) && ByteAt(c, 16) == Zip(l, r, 1)
            && ByteAt(c, 8) == Zip(l, r, 2) && ByteAt(c, 0) == Zip(l, r, 3)
  {
  }

  predicate Spread(b: bv8, l: bv32, r: bv32, k: nat)
    requires k < 4
  {
    Sbox7((b >> 0) & 0x55) == Lane(r, k) && Sbox7((b >> 1) & 0x55) == Lane(l, k)
  }

  lemma SpreadLow(l: bv32, r: bv32)
    ensures Spread(Zip(l, r, 0), l, r, 0) && Spread(Zip(l, r, 1), l, r, 1)
  {
  }

  lemma SpreadHigh(l: bv32, r: bv32)
    ensures Spread(Zip(l, r, 2), l, r, 2) && Spread(Zip(l, r, 3), l, r, 3)
  {
  }

  lemma Assembled(x: bv32)
    ensures var e := Lane(Upper(x), 3);
            var e := (e << 1) | Lane(Upper(x), 2);
            var e := (e << 1) | Lane(Upper(x), 1);
            var e := (e << 1) | Lane(Upper(x), 0);
            var e := (e << 1) | Lane(x, 3);
            var e := (e << 1) | Lane(x, 2);
            var e := (e << 1) | Lane(x, 1);
            (e << 1) | Lane(x, 0) == x
  {
  }

  lemma Spreads(l: bv32, r: bv32)
    ensures var c := Weave(l, r);
            Spread(ByteAt(c, 24), l, r, 0) && Spread(ByteAt(c, 16), l, r, 1)
            && Spread(ByteAt(c, 8), l, r, 2) && Spread(ByteAt(c, 0), l, r, 3)
  {
    hide Weave, ByteAt, Spread, Zip;
    Zipped(l, r);
    SpreadLow(l, r);
    SpreadHigh(l, r);
  }

  lemma GatherBack(s: seq<bv8>, l: bv32, r: bv32)
    requires |s| == 8
    requires Spread(s[0], l, r, 0) && Spread(s[1], l, r, 1) && Spread(s[2], l, r, 2) && Spread(s[3], l, r, 3)
    requires Spread(s[4], Upper(l), Upper(r), 0) && Spread(s[5], Upper(l), Upper(r), 1)
    requires Spread(s[6], Upper(l), Upper(r), 2) && Spread(s[7], Upper(l), Upper(r), 3)
    ensures InitialPerm(s) == Halves(r, l)
  {
    hide Sbox7, Lane, Upper;
    Assembled(l);
    Assembled(r);
  }

  /** The bytes of FinalPerm(h), from the two woven words. */
  predicate Laid(h: Halves, s: seq<bv8>)
    requires |s| == 8
  {
    var c, a := Weave(h.a, h.b), Weave(Upper(h.a), Upper(h.b));
    && s[0] == ByteAt(c, 24) && s[1] == ByteAt(c, 16) && s[2] == ByteAt(c, 8) && s[3] == ByteAt(c, 0)
    && s[4] == ByteAt(a, 24) && s[5] == ByteAt(a, 16) && s[6] == ByteAt(a, 8) && s[7] == ByteAt(a, 0)
  }

  lemma FinalLaid(h: Halves)
    ensures Laid(h, FinalPerm(h))
  {
    hide Weave, ByteAt, Upper;
  }

  lemma LaidBack(h: Halves, s: seq<bv8>)
    requires |s| == 8 && Laid(h, s)
    ensures InitialPerm(s) == Flip(h)
  {
    hide InitialPerm, Weave, ByteAt, Spread, Upper;
    Spreads(h.a, h.b);
    Spreads(Upper(h.a), Upper(h.b));
    GatherBack(s, h.a, h.b);
  }

  lemma InitialOfFinal(h: Halves)
    ensures InitialPerm(FinalPerm(h)) == Flip(h)
  {
    hide InitialPerm, FinalPerm, Laid;
    FinalLaid(h);
    LaidBack(h, FinalPerm(h));
  }

  lemma WeaveBack(s: seq<bv8>)
    requires |s| == 8
    ensures var c := Weave(Gather(s, 1), Gather(s, 0));
            ByteAt(c, 24) == s[0] && ByteAt(c, 16) == s[1] && ByteAt(c, 8) == s[2] && ByteAt(c, 0) == s[3]
  {
  }

  lemma WeaveBackHigh(s: seq<bv8>)
    requires |s| == 8
    ensures var c := Weave(Upper(Gather(s, 1)), Upper(Gather(s, 0)));
            ByteAt(c, 24) == s[4] && ByteAt(c, 16) == s[5] && ByteAt(c, 8) == s[6] && ByteAt(c, 0) == s[7]
  {
  }

  lemma OneLaid(h: Halves, r: seq<bv8>, s: seq<bv8>)
    requires |r| == 8 && |s| == 8 && Laid(h, r) && Laid(h, s)
    ensures r == s
  {
    hide Weave, ByteAt, Upper;
  }

  lemma InitialLaid(s: seq<bv8>)
    requires |s| == 8
    ensures Laid(Flip(InitialPerm(s)), s)
  {
    hide Gather, Weave, ByteAt, Upper;
    WeaveBack(s);
    WeaveBackHigh(s);
  }

  lemma FinalOfInitial(s: seq<bv8>)
    requires |s| == 8
    ensures FinalPerm(Flip(InitialPerm(s))) == s
  {
    hide InitialPerm, FinalPerm, Laid;
    InitialLaid(s);
    FinalLaid(Flip(InitialPerm(s)));
    OneLaid(Flip(InitialPerm(s)), FinalPerm(Flip(InitialPerm(s))), s);
  }

  // ---- The rounds ----------------------------------------------------------

  /** The eight fused substitution tables: table number and six-bit index. */
  type Tables = (nat, bv6) -> bv32

  datatype FarmCipher = FarmCipher(subkeys: seq<bv32>, sbox: seq<byte>) {
    predicate Valid() { |subkeys| == 32 && |sbox| == 256 }
  }

  function Xor(x: bv32, y: bv32): bv32 { x ^ y }

  lemma XorTwice(x: bv32, y: bv32)
    ensures Xor(Xor(x, y), y) == x
  {
  }

  function FeistelRound(t: Tables, r: bv32, ka: bv32, kb: bv32): bv32 {
    var rrot := (r >> 15) | (r << 17);
    var i9 := ((((ka >> 12) ^ rrot) >> 12) & 0x3f) as bv6;
    var i10 := ((((ka >> 8) ^ rrot) >> 8) & 0x3f) as bv6;
    var i11 := ((((ka >> 4) ^ rrot) >> 4) & 0x3f) as bv6;
    var i12 := ((ka ^ rrot) & 0x3f) as bv6;
    var i13 := ((((kb >> 13) ^ r) >> 11) & 0x3f) as bv6;
    var i14 := ((((kb >> 9) ^ r) >> 7) & 0x3f) as bv6;
    var i15 := ((((kb >> 5) ^ r) >> 3) & 0x3f) as bv6;
    var i16 := (((rrot >> 16) ^ kb) & 0x3f) as bv6;
    (t(9, i9) | t(10, i10) | t(11, i11) | t(12, i12)) | (t(13, i13) | t(14, i14) | t(15, i15) | t(16, i16))
  }

  function Round(c: FarmCipher, t: Tables, h: Halves, key: nat): Halves
    requires c.Valid() && key < 31
  {
    Halves(h.b, Xor(h.a, FeistelRound(t, h.b, c.subkeys[key], c.subkeys[key + 1])))
  }

  /** The halves after the first n rounds, keys in order. */
  function Forward(c: FarmCipher, t: Tables, h: Halves, n: nat): Halves
    requires c.Valid() && n <= 16
  {
    if n == 0 then h else Round(c, t, Forward(c, t, h, n - 1), 2 * (n - 1))
  }

  /** The halves after the first n of `rounds` rounds, keys from the last. */
  function Backward(c: FarmCipher, t: Tables, h: Halves, rounds: nat, n: nat): Halves
    requires c.Valid() && n <= rounds <= 16
  {
    if n == 0 then h else Round(c, t, Backward(c, t, h, rounds, n - 1), 2 * (rounds - 1) - 2 * (n - 1))
  }

  method Feistel(c: FarmCipher, t: Tables, h: Halves, rounds: nat, forward: bool) returns (r: Halves)
    requires c.Valid() && rounds <= 16
    ensures r == if forward then Forward(c, t, h, rounds) else Backward(c, t, h, rounds, rounds)
  {
    hide Round;
    r := h;
    for i := 0 to rounds
      invariant r == if forward then Forward(c, t, h, i) else Backward(c, t, h, rounds, i)
    {
      var key := if forward then 2 * i else 2 * (rounds - 1) - 2 * i;
      r := Round(c, t, r, key);
    }
  }

  lemma RoundUndone(c: FarmCipher, t: Tables, h: Halves, key: nat)
    requires c.Valid() && key < 31
    ensures Round(c, t, Flip(Round(c, t, h, key)), key) == Flip(h)
  {
    hide Xor, FeistelRound;
    XorTwice(h.a, FeistelRound(t, h.b, c.subkeys[key], c.subkeys[key + 1]));
  }

  /** Feistel inversion, for every round function, key schedule and round count. */
  lemma {:induction false} Unwound(c: FarmCipher, t: Tables, h: Halves, rounds: nat, n: nat)
    requires c.Valid() && n <= rounds <= 16
    ensures Backward(c, t, Flip(Forward(c, t, h, rounds)), rounds, n) == Flip(Forward(c, t, h, rounds - n))
  {
    hide Round;
    if n > 0 {
      Unwound(c, t, h, rounds, n - 1);
      RoundUndone(c, t, Forward(c, t, h, rounds - n), 2 * (rounds - n));
    }
  }

  lemma {:induction false} Rewound(c: FarmCipher, t: Tables, h: Halves, rounds: nat, n: nat)
    requires c.Valid() && n <= rounds <= 16
    ensures Forward(c, t, Flip(Backward(c, t, h, rounds, rounds)), n) == Flip(Backward(c, t, h, rounds, rounds - n))
  {
    hide Round;
    if n > 0 {
      Rewound(c, t, h, rounds, n - 1);
      RoundUndone(c, t, Backward(c, t, h, rounds, rounds - n), 2 * (n - 1));
    }
  }

  // ---- Blocks --------------------------------------------------------------

  function Word(k: seq<byte>, at: nat): bv32
    requires at + 4 <= |k|
  {
    (k[at] as bv32) | ((k[at + 1] as bv32) << 8) | ((k[at + 2] as bv32) << 16) | ((k[at + 3] as bv32) << 24)
  }

  function Mask(p: Params, box: seq<byte>): Halves
    requires |box| == 256
  {
    if p.rc4 then var k := Eight(box).out; Halves(Word(k, 0), Word(k, 4)) else Halves(0, 0)
  }

  function Masked(h: Halves, d: Halves): Halves { Halves(Xor(h.a, d.a), Xor(h.b, d.b)) }

  function EncryptBlock(c: FarmCipher, t: Tables, pos: nat, s: seq<bv8>): (r: seq<bv8>)
    requires c.Valid() && |s| == 8
    ensures |r| == 8
  {
    var p := BlockParams(pos);
    FinalPerm(Forward(c, t, Masked(InitialPerm(s), Mask(p, BoxAt(c.sbox, pos))), p.rounds))
  }

  function DecryptBlock(c: FarmCipher, t: Tables, pos: nat, s: seq<bv8>): (r: seq<bv8>)
    requires c.Valid() && |s| == 8
    ensures |r| == 8
  {
    var p := BlockParams(pos);
    FinalPerm(Masked(Backward(c, t, InitialPerm(s), p.rounds, p.rounds), Flip(Mask(p, BoxAt(c.sbox, pos)))))
  }

  lemma MaskTwice(h: Halves, d: Halves)
    ensures Masked(Masked(h, d), d) == h
  {
    hide Xor;
    XorTwice(h.a, d.a);
    XorTwice(h.b, d.b);
  }

  lemma FlipMasked(h: Halves, d: Halves)
    ensures Flip(Masked(h, d)) == Masked(Flip(h), Flip(d)) && Flip(Flip(d)) == d
  {
    hide Xor;
  }

  lemma BlockBack(c: FarmCipher, t: Tables, pos: nat, s: seq<bv8>)
    requires c.Valid() && |s| == 8
    ensures DecryptBlock(c, t, pos, EncryptBlock(c, t, pos, s)) == s
  {
    hide InitialPerm, FinalPerm, Mask, BoxAt, Masked, BlockParams, Round;
    var p := BlockParams(pos);
    var d, h := Mask(p, BoxAt(c.sbox, pos)), InitialPerm(s);
    InitialOfFinal(Forward(c, t, Masked(h, d), p.rounds));
    Unwound(c, t, Masked(h, d), p.rounds, p.rounds);
    FlipMasked(Masked(h, d), d);
    MaskTwice(h, d);
    FinalOfInitial(s);
  }

  lemma BlockForth(c: FarmCipher, t: Tables, pos: nat, s: seq<bv8>)
    requires c.Valid() && |s| == 8
    ensures EncryptBlock(c, t, pos, DecryptBlock(c, t, pos, s)) == s
  {
    hide InitialPerm, FinalPerm, Mask, BoxAt, Masked, BlockParams, Round;
    var p := BlockParams(pos);
    var d, h := Mask(p, BoxAt(c.sbox, pos)), Backward(c, t, InitialPerm(s), p.rounds, p.rounds);
    InitialOfFinal(Masked(h, Flip(d)));
    FlipMasked(h, Flip(d));
    MaskTwice(Flip(h), d);
    Rewound(c, t, InitialPerm(s), p.rounds, p.rounds);
    FinalOfInitial(s);
  }
}
