/** Whole buffers of x4 archives: what encrypting and decrypting in place do to every byte. */
module X4Buffers {
  import opened Bytes
  import opened X4Stream
  import opened X4Cipher

  function Whole(s: seq<bv8>, p: nat): (r: seq<bv8>)
    requires 8 * p + 8 <= |s|
    ensures |r| == 8
  {
    s[8 * p..8 * p + 8]
  }

  /** The fewer than eight bytes no block covers. */
  function Rest(s: seq<bv8>): seq<bv8> { s[|s| / 8 * 8..] }

  ghost predicate SameFrom(before: seq<bv8>, after: seq<bv8>, from: nat) {
    |after| == |before| && from <= |before| && after[from..] == before[from..]
  }

  /** The first n blocks of `after` are those of `before` enciphered. */
  ghost predicate EncryptedTo(c: FarmCipher, t: Tables, before: seq<bv8>, after: seq<bv8>, n: nat) {
    && c.Valid() && |after| == |before| && 8 * n <= |before|
    && forall p: nat :: p < n ==> Whole(after, p) == EncryptBlock(c, t, p, Whole(before, p))
  }

  ghost predicate DecryptedTo(c: FarmCipher, t: Tables, before: seq<bv8>, after: seq<bv8>, n: nat) {
    && c.Valid() && |after| == |before| && 8 * n <= |before|
    && forall p: nat :: p < n ==> Whole(after, p) == DecryptBlock(c, t, p, Whole(before, p))
  }

  /** Every whole block enciphered, the rest left alone. */
  ghost predicate Encrypted(c: FarmCipher, t: Tables, before: seq<bv8>, after: seq<bv8>) {
    EncryptedTo(c, t, before, after, |before| / 8) && Rest(after) == Rest(before)
  }

  ghost predicate Decrypted(c: FarmCipher, t: Tables, before: seq<bv8>, after: seq<bv8>) {
    DecryptedTo(c, t, before, after, |before| / 8) && Rest(after) == Rest(before)
  }

  lemma SameBuffer(x: seq<bv8>, y: seq<bv8>)
    requires |x| == |y| && Rest(x) == Rest(y)
    requires forall p: nat :: p < |x| / 8 ==> Whole(x, p) == Whole(y, p)
    ensures x == y
  {
    forall k: nat | k < |x|
      ensures x[k] == y[k]
    {
      var p := k / 8;
      if p < |x| / 8 {
        assert Whole(x, p) == Whole(y, p);
        assert x[k] == Whole(x, p)[k - 8 * p] && y[k] == Whole(y, p)[k - 8 * p];
      } else {
        var from := |x| / 8 * 8;
        assert x[k] == Rest(x)[k - from] && y[k] == Rest(y)[k - from];
      }
    }
  }

  /** Decrypting undoes encrypting, for every cipher, round function and buffer. */
  lemma DecryptUndoes(c: FarmCipher, t: Tables, plain: seq<bv8>, coded: seq<bv8>, back: seq<bv8>)
    requires Encrypted(c, t, plain, coded) && Decrypted(c, t, coded, back)
    ensures back == plain
  {
    hide EncryptBlock, DecryptBlock, Whole, Rest;
    forall p: nat | p < |plain| / 8
      ensures Whole(back, p) == Whole(plain, p)
    {
      BlockBack(c, t, p, Whole(plain, p));
      assert Whole(coded, p) == EncryptBlock(c, t, p, Whole(plain, p));
    }
    SameBuffer(back, plain);
  }

  /** And encrypting undoes decrypting. */
  lemma EncryptUndoes(c: FarmCipher, t: Tables, coded: seq<bv8>, plain: seq<bv8>, back: seq<bv8>)
    requires Decrypted(c, t, coded, plain) && Encrypted(c, t, plain, back)
    ensures back == coded
  {
    hide EncryptBlock, DecryptBlock, Whole, Rest;
    forall p: nat | p < |coded| / 8
      ensures Whole(back, p) == Whole(coded, p)
    {
      BlockForth(c, t, p, Whole(coded, p));
      assert Whole(plain, p) == DecryptBlock(c, t, p, Whole(coded, p));
    }
    SameBuffer(back, coded);
  }

  // ---- The methods ---------------------------------------------------------

  /** `s` with block p replaced. */
  function Put(s: seq<bv8>, p: nat, block: seq<bv8>): (r: seq<bv8>)
    requires |block| == 8 && 8 * p + 8 <= |s|
    ensures |r| == |s|
  {
    s[..8 * p] + block + s[8 * p + 8..]
  }

  lemma PutWhole(s: seq<bv8>, p: nat, block: seq<bv8>, q: nat)
    requires |block| == 8 && 8 * p + 8 <= |s| && 8 * q + 8 <= |s|
    ensures Whole(Put(s, p, block), q) == if q == p then block else Whole(s, q)
  {
  }

  lemma PutRest(before: seq<bv8>, s: seq<bv8>, p: nat, block: seq<bv8>)
    requires |block| == 8 && 8 * p + 8 <= |s| && SameFrom(before, s, 8 * p)
    ensures SameFrom(before, Put(s, p, block), 8 * p + 8) && Whole(s, p) == Whole(before, p)
  {
    var r := Put(s, p, block);
    assert s[8 * p..][8..] == s[8 * p + 8..] && before[8 * p..][8..] == before[8 * p + 8..];
    assert r[8 * p + 8..] == s[8 * p + 8..];
    assert s[8 * p..][..8] == Whole(s, p) && before[8 * p..][..8] == Whole(before, p);
  }

  method Store(buf: array<bv8>, p: nat, block: seq<bv8>)
    requires |block| == 8 && 8 * p + 8 <= buf.Length
    modifies buf
    ensures buf[..] == Put(old(buf[..]), p, block)
  {
    for k := 0 to 8
      invariant buf[..8 * p] == old(buf[..8 * p]) && buf[8 * p..8 * p + k] == block[..k]
      invariant buf[8 * p + k..] == old(buf[8 * p + k..])
    {
      buf[8 * p + k] := block[k];
    }
  }

  method Rc4Halves(state: array<byte>, p: Params) returns (d: Halves)
    requires state.Length == 256
    modifies state
    ensures d == Mask(p, old(state[..]))
    ensures state[..] == if p.rc4 then Eight(old(state[..])).box else old(state[..])
  {
    hide Eight, Word;
    if p.rc4 {
      var k := Keystream(state);
      d := Halves(Word(k, 0), Word(k, 4));
    } else {
      d := Halves(0, 0);
    }
  }

  /** A fresh copy of the cipher's box. */
  method Copied(box: seq<byte>) returns (state: array<byte>)
    ensures fresh(state) && state[..] == box
  {
    state := new byte[|box|];
    for k := 0 to |box|
      invariant state[..k] == box[..k]
    {
      state[k] := box[k];
    }
  }

  lemma BoxNext(sbox: seq<byte>, pos: nat)
    requires |sbox| == 256
    ensures BoxAt(sbox, 0) == sbox
    ensures BoxAt(sbox, pos + 1) == if BlockParams(pos).rc4 then Eight(BoxAt(sbox, pos)).box else BoxAt(sbox, pos)
  {
    hide BlockParams, Eight;
  }

  lemma EncryptedNext(c: FarmCipher, t: Tables, before: seq<bv8>, s: seq<bv8>, p: nat, block: seq<bv8>)
    requires EncryptedTo(c, t, before, s, p) && SameFrom(before, s, 8 * p) && 8 * p + 8 <= |s|
    requires |block| == 8 && block == EncryptBlock(c, t, p, Whole(s, p))
    ensures EncryptedTo(c, t, before, Put(s, p, block), p + 1) && SameFrom(before, Put(s, p, block), 8 * (p + 1))
  {
    hide Whole, Put, EncryptBlock;
    PutRest(before, s, p, block);
    forall q: nat | q < p + 1
      ensures Whole(Put(s, p, block), q) == EncryptBlock(c, t, q, Whole(before, q))
    {
      PutWhole(s, p, block, q);
    }
  }

  lemma DecryptedNext(c: FarmCipher, t: Tables, before: seq<bv8>, s: seq<bv8>, p: nat, block: seq<bv8>)
    requires DecryptedTo(c, t, before, s, p) && SameFrom(before, s, 8 * p) && 8 * p + 8 <= |s|
    requires |block| == 8 && block == DecryptBlock(c, t, p, Whole(s, p))
    ensures DecryptedTo(c, t, before, Put(s, p, block), p + 1) && SameFrom(before, Put(s, p, block), 8 * (p + 1))
  {
    hide Whole, Put, DecryptBlock;
    PutRest(before, s, p, block);
    forall q: nat | q < p + 1
      ensures Whole(Put(s, p, block), q) == DecryptBlock(c, t, q, Whole(before, q))
    {
      PutWhole(s, p, block, q);
    }
  }

  method EncryptOne(c: FarmCipher, t: Tables, pos: nat, state: array<byte>, block: seq<bv8>) returns (out: seq<bv8>)
    requires c.Valid() && state[..] == BoxAt(c.sbox, pos) && |block| == 8
    modifies state
    ensures out == EncryptBlock(c, t, pos, block) && state[..] == BoxAt(c.sbox, pos + 1)
  {
    hide BoxAt, BlockParams, Eight, Mask, Masked, InitialPerm, FinalPerm, Forward, Backward;
    BoxNext(c.sbox, pos);
    var p := BlockParams(pos);
    var h := InitialPerm(block);
    var d := Rc4Halves(state, p);
    h := Feistel(c, t, Masked(h, d), p.rounds, true);
    out := FinalPerm(h);
  }

  method DecryptOne(c: FarmCipher, t: Tables, pos: nat, state: array<byte>, block: seq<bv8>) returns (out: seq<bv8>)
    requires c.Valid() && state[..] == BoxAt(c.sbox, pos) && |block| == 8
    modifies state
    ensures out == DecryptBlock(c, t, pos, block) && state[..] == BoxAt(c.sbox, pos + 1)
  {
    hide BoxAt, BlockParams, Eight, Mask, Masked, InitialPerm, FinalPerm, Forward, Backward;
    BoxNext(c.sbox, pos);
    var p := BlockParams(pos);
    var h := Feistel(c, t, InitialPerm(block), p.rounds, false);
    var d := Rc4Halves(state, p);
    out := FinalPerm(Masked(h, Flip(d)));
  }

  method Encrypt(c: FarmCipher, t: Tables, buf: array<bv8>)
    requires c.Valid()
    modifies buf
    ensures Encrypted(c, t, old(buf[..]), buf[..])
  {
    hide Put, EncryptBlock, BlockParams, Eight, BoxAt, EncryptedTo, SameFrom;
    ghost var before := buf[..];
    var n := buf.Length / 8;
    var state := Copied(c.sbox);
    BoxNext(c.sbox, 0);
    EncryptedNone(c, t, before);
    for pos := 0 to n
      invariant state[..] == BoxAt(c.sbox, pos)
      invariant EncryptedTo(c, t, before, buf[..], pos) && SameFrom(before, buf[..], 8 * pos)
    {
      var out := EncryptOne(c, t, pos, state, buf[8 * pos..8 * pos + 8]);
      WholeIs(buf[..], pos, buf[8 * pos..8 * pos + 8]);
      EncryptedNext(c, t, before, buf[..], pos, out);
      Store(buf, pos, out);
    }
    RestKept(before, buf[..]);
  }

  method Decrypt(c: FarmCipher, t: Tables, buf: array<bv8>)
    requires c.Valid()
    modifies buf
    ensures Decrypted(c, t, old(buf[..]), buf[..])
  {
    hide Put, DecryptBlock, BlockParams, Eight, BoxAt, DecryptedTo, SameFrom;
    ghost var before := buf[..];
    var n := buf.Length / 8;
    var state := Copied(c.sbox);
    BoxNext(c.sbox, 0);
    EncryptedNone(c, t, before);
    for pos := 0 to n
      invariant state[..] == BoxAt(c.sbox, pos)
      invariant DecryptedTo(c, t, before, buf[..], pos) && SameFrom(before, buf[..], 8 * pos)
    {
      var out := DecryptOne(c, t, pos, state, buf[8 * pos..8 * pos + 8]);
      WholeIs(buf[..], pos, buf[8 * pos..8 * pos + 8]);
      DecryptedNext(c, t, before, buf[..], pos, out);
      Store(buf, pos, out);
    }
    RestKept(before, buf[..]);
  }

  lemma WholeIs(s: seq<bv8>, p: nat, block: seq<bv8>)
    requires 8 * p + 8 <= |s| && block == s[8 * p..8 * p + 8]
    ensures block == Whole(s, p)
  {
  }

  lemma EncryptedNone(c: FarmCipher, t: Tables, s: seq<bv8>)
    requires c.Valid()
    ensures EncryptedTo(c, t, s, s, 0) && DecryptedTo(c, t, s, s, 0) && SameFrom(s, s, 0)
  {
  }

  lemma RestKept(before: seq<bv8>, after: seq<bv8>)
    requires SameFrom(before, after, 8 * (|before| / 8))
    ensures |after| == |before| && Rest(after) == Rest(before)
  {
  }

  /** A cipher from its key; the subkeys stand for the DES schedule of the key's first two words. */
  method NewFarmCipher(key: seq<nat>, subkeys: seq<bv32>) returns (c: FarmCipher)
    requires |key| == 4 && |subkeys| == 32
    ensures c == FarmCipher(subkeys, KeyBox(key)) && c.Valid() && Shuffle(c.sbox)
  {
    var s := Setup(key);
    c := FarmCipher(subkeys, s[..]);
  }

  /** Two ciphers from one key: what the first encrypts the second decrypts, for every key and buffer. */
  method ThereAndBack(key: seq<nat>, subkeys: seq<bv32>, t: Tables, buf: array<bv8>)
    requires |key| == 4 && |subkeys| == 32
    modifies buf
    ensures buf[..] == old(buf[..])
  {
    hide Encrypted, Decrypted;
    ghost var plain := buf[..];
    var c := NewFarmCipher(key, subkeys);
    Encrypt(c, t, buf);
    ghost var coded := buf[..];
    var c2 := NewFarmCipher(key, subkeys);
    Decrypt(c2, t, buf);
    DecryptUndoes(c, t, plain, coded, buf[..]);
  }
}
