/** Bytes and the little-endian integers the stream formats store in them. */
module Bytes {

  type byte = x: int | 0 <= x < 256 witness 0

  datatype Option<+T> = None | Some(value: T)

  const U32: nat := 0x1_0000_0000
  const U64: nat := 0x1_0000_0000_0000_0000

  function Pow256(w: nat): (r: nat)
    ensures r > 0
  {
    if w == 0 then 1 else 256 * Pow256(w - 1)
  }

  lemma PowU32U64()
    ensures Pow256(4) == U32 && Pow256(8) == U64
  {
    assert Pow256(1) == 256 && Pow256(2) == 256 * 256 && Pow256(3) == 256 * Pow256(2);
    assert Pow256(5) == 256 * Pow256(4) && Pow256(6) == 256 * Pow256(5) && Pow256(7) == 256 * Pow256(6);
  }

  /** The low `w` bytes of `x`, least significant first. */
  function Le(x: nat, w: nat): (s: seq<byte>)
    ensures |s| == w
  {
    if w == 0 then [] else [x % 256] + Le(x / 256, w - 1)
  }

  function UnLe(s: seq<byte>): (x: nat)
    ensures x < Pow256(|s|)
  {
    if s == [] then 0 else s[0] + 256 * UnLe(s[1..])
  }

  lemma {:induction false} UnLeLe(x: nat, w: nat)
    requires x < Pow256(w)
    ensures UnLe(Le(x, w)) == x
  {
    if w > 0 {
      UnLeLe(x / 256, w - 1);
      assert Le(x, w)[1..] == Le(x / 256, w - 1);
    }
  }

  lemma {:induction false} LeUnLe(s: seq<byte>)
    ensures Le(UnLe(s), |s|) == s
  {
    if s != [] {
      LeUnLe(s[1..]);
      assert UnLe(s) % 256 == s[0] && UnLe(s) / 256 == UnLe(s[1..]);
      assert [s[0]] + s[1..] == s;
    }
  }

  /** `d` with `src` written at offset `at`: what Go's copy(d[at:], src) leaves. */
  function Splice(d: seq<byte>, at: nat, src: seq<byte>): (r: seq<byte>)
    requires at + |src| <= |d|
    ensures |r| == |d|
  {
    d[..at] + src + d[at + |src|..]
  }

  lemma SpliceTwice(d: seq<byte>, at: nat, a: seq<byte>, b: seq<byte>)
    requires at + |a| + |b| <= |d|
    ensures Splice(Splice(d, at, a), at + |a|, b) == Splice(d, at, a + b)
  {
  }

  lemma SplicePrefix(d: seq<byte>, at: nat, src: seq<byte>)
    requires at + |src| <= |d|
    ensures Splice(d, at, src)[..at + |src|] == d[..at] + src
  {
  }

  /** `d` after the first `n` bytes of `src` have been written at `at`. */
  function Partly(d: seq<byte>, at: nat, src: seq<byte>, n: nat): (r: seq<byte>)
    requires n <= |src| && at + n <= |d|
    ensures |r| == |d|
  {
    Splice(d, at, src[..n])
  }

  lemma PartlyStart(d: seq<byte>, at: nat, src: seq<byte>)
    requires at <= |d|
    ensures Partly(d, at, src, 0) == d
  {
  }

  lemma PartlyEnd(d: seq<byte>, at: nat, src: seq<byte>, n: nat)
    requires n <= |src| && at + n <= |d|
    ensures Partly(d, at, src, n) == Splice(d, at, src[..n])
  {
  }

  lemma PartlyStep(d: seq<byte>, at: nat, src: seq<byte>, n: nat, more: seq<byte>)
    requires n + |more| <= |src| && at + n + |more| <= |d| && more == src[n..n + |more|]
    ensures Splice(Partly(d, at, src, n), at + n, more) == Partly(d, at, src, n + |more|)
  {
    SpliceTwice(d, at, src[..n], more);
    assert src[..n] + more == src[..n + |more|];
  }

  // dst[at..at + n] becomes src[..n].
  method CopyIn(dst: array<byte>, at: nat, src: seq<byte>, n: nat)
    requires n <= |src| && at + n <= dst.Length
    modifies dst
    ensures dst[..] == Splice(old(dst[..]), at, src[..n])
  {
    forall j | 0 <= j < n { dst[at + j] := src[j]; }
  }

  // binary.LittleEndian.PutUint32 and PutUint64.
  method PutLe(dst: array<byte>, at: nat, x: nat, w: nat)
    requires at + w <= dst.Length
    modifies dst
    ensures dst[..] == Splice(old(dst[..]), at, Le(x, w))
  {
    var s := Le(x, w);
    CopyIn(dst, at, s, w);
    assert s[..w] == s;
  }
}
