/** Tornado's buffered byte input: a buffer filled piece by piece, whose last bytes
    stay readable across a refill, and which is not cleared when the input ends. */
module TorBytes {
  import opened Bytes

  const PIECE: nat := 0x4_0000
  const MARGIN: nat := 8

  /** What the reader finds at position i: the input, and behind its end what the
      buffer held one piece earlier, or zeros in the first piece. */
  function ByteAt(src: seq<byte>, i: nat): byte {
    if i < |src| then src[i] else if i < PIECE then 0 else ByteAt(src, i - PIECE)
  }

  function BytesAt(src: seq<byte>, i: nat, n: nat): (r: seq<byte>)
    ensures |r| == n
  {
    seq<byte>(n, k requires 0 <= k < n => ByteAt(src, i + k))
  }

  // Inside the input the reader finds the input.
  lemma BytesInside(src: seq<byte>, i: nat, n: nat)
    requires i + n <= |src|
    ensures BytesAt(src, i, n) == src[i..i + n]
  {
    forall k | 0 <= k < n
      ensures BytesAt(src, i, n)[k] == src[i..i + n][k]
    {
      assert ByteAt(src, i + k) == src[i + k];
    }
  }

  function Min(a: nat, b: nat): nat { if a < b then a else b }

  // The buffer while piece c is read: its slots hold the bytes from MARGIN before the piece on.
  ghost predicate Holds(src: seq<byte>, buf: seq<byte>, c: nat) {
    |buf| == MARGIN + PIECE && forall j :: 0 <= j < |buf| && PIECE * c + j >= MARGIN ==> buf[j] == ByteAt(src, PIECE * c + j - MARGIN)
  }

  lemma HoldsFirst(src: seq<byte>, buf: seq<byte>)
    requires |buf| == MARGIN + PIECE && forall j :: MARGIN <= j < |buf| ==> buf[j] == if j - MARGIN < |src| then src[j - MARGIN] else 0
    ensures Holds(src, buf, 0)
  {
    forall j | 0 <= j < |buf| && j >= MARGIN
      ensures buf[j] == ByteAt(src, j - MARGIN)
    {
    }
  }

  /** A refill moves the margin to the front and overwrites as much as there is left. */
  lemma HoldsNext(src: seq<byte>, was: seq<byte>, buf: seq<byte>, c: nat, off: nat, n: nat)
    requires Holds(src, was, c) && |buf| == |was| && off == Min(|src|, PIECE * (c + 1)) && n == Min(PIECE, |src| - off)
    requires forall j :: 0 <= j < |buf| ==>
               buf[j] == if j < MARGIN then was[PIECE + j] else if j < MARGIN + n then src[off + j - MARGIN] else was[j]
    ensures Holds(src, buf, c + 1)
  {
    forall j | 0 <= j < |buf|
      ensures buf[j] == ByteAt(src, PIECE * (c + 1) + j - MARGIN)
    {
      var i: nat := PIECE * (c + 1) + j - MARGIN;
      assert buf[j] == if j < MARGIN then was[PIECE + j] else if j < MARGIN + n then src[off + j - MARGIN] else was[j];
      if j < MARGIN {
        assert was[PIECE + j] == ByteAt(src, PIECE * c + (PIECE + j) - MARGIN);
        assert PIECE * c + (PIECE + j) - MARGIN == i;
        assert buf[j] == was[PIECE + j];
      } else if j < MARGIN + n {
        assert off == PIECE * (c + 1) && i == off + j - MARGIN;
        assert ByteAt(src, i) == src[i];
        assert buf[j] == src[off + j - MARGIN];
      } else {
        assert i >= |src| && i >= PIECE;
        assert was[j] == ByteAt(src, i - PIECE);
        assert ByteAt(src, i) == ByteAt(src, i - PIECE);
        assert buf[j] == was[j];
      }
    }
  }

  class ByteIn {
    const src: seq<byte>
    const buf: array<byte>
    var off: nat
    var pos: nat
    // The number of refills so far.
    ghost var piece: nat

    ghost predicate Valid()
      reads this, buf
    {
      && Holds(src, buf[..], piece) && off == Min(|src|, PIECE * (piece + 1))
      && pos <= PIECE + MARGIN && PIECE * piece + pos >= MARGIN
    }

    /** How many bytes have been read. */
    ghost function At(): nat
      reads this
      requires PIECE * piece + pos >= MARGIN
    {
      PIECE * piece + pos - MARGIN
    }

    constructor (src: seq<byte>)
      ensures Valid() && At() == 0 && this.src == src && fresh(buf)
    {
      this.src := src;
      buf := new byte[MARGIN + PIECE](_ => 0);
      off, pos, piece := 0, MARGIN, 0;
      new;
      Pull(MARGIN, PIECE);
      HoldsFirst(src, buf[..]);
    }

    method Pull(dst: nat, n: nat)
      requires dst + n <= buf.Length && off <= |src|
      modifies `off, buf
      ensures off == old(off) + Min(n, |src| - old(off))
      ensures forall j :: 0 <= j < buf.Length ==>
                buf[j] == if dst <= j < dst + Min(n, |src| - old(off)) then src[old(off) + j - dst] else old(buf[j])
    {
      var m := Min(n, |src| - off);
      if m > 0 {
        forall j | 0 <= j < m { buf[dst + j] := src[off + j]; }
        off := off + m;
      }
    }

    method Fill()
      requires Valid()
      modifies this, buf
      ensures Valid() && At() == old(At()) && pos < PIECE
    {
      if pos < PIECE {
        return;
      }
      ghost var was, off0 := buf[..], off;
      forall j | 0 <= j < MARGIN { buf[j] := buf[PIECE + j]; }
      Pull(MARGIN, PIECE);
      HoldsNext(src, was, buf[..], piece, off0, Min(PIECE, |src| - off0));
      pos := pos - PIECE;
      piece := piece + 1;
    }

    /** get8 to get32: the next n bytes as a number, whether or not the input still has them. */
    method Get(n: nat) returns (x: nat)
      requires Valid() && 1 <= n <= 4
      modifies this, buf
      ensures Valid() && At() == old(At()) + n && x == UnLe(BytesAt(src, old(At()), n))
    {
      Fill();
      assert buf[pos..pos + n] == BytesAt(src, At(), n) by {
        forall k {:trigger ByteAt(src, At() + k)} | 0 <= k < n
          ensures buf[pos..pos + n][k] == ByteAt(src, At() + k)
        {
          assert buf[..][pos + k] == ByteAt(src, PIECE * piece + (pos + k) - MARGIN);
        }
      }
      x := UnLe(buf[pos..pos + n]);
      pos := pos + n;
    }
  }
}
