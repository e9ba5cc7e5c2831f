/** The circular output window of the Tornado decoder: flushed piece by piece, it
    emits what a decoder with an unbounded output would. */
module TorWindow {
  import opened Bytes

  const PAD: nat := 512
  const HUGE: nat := 0x80_0000
  const FAR: nat := 0x8000_0000_0000_0000

  /** What the Lempel-Ziv coder yields, data tables left aside. */
  datatype Token = Lit(b: byte) | Copy(len: nat, dist: nat) | End | Fail

  // ----- the decoder with all its output at hand -----

  function Repeat(h: seq<byte>, len: nat, dist: nat): (r: seq<byte>)
    requires 1 <= dist <= |h|
    ensures |r| == |h| + len && h <= r
    decreases len
  {
    if len == 0 then h else
      var r := Repeat(h + [h[|h| - dist]], len - 1, dist);
      assert h <= h + [h[|h| - dist]];
      r
  }

  /** Each byte copied is the one dist before it. */
  lemma {:induction false} RepeatMeans(h: seq<byte>, len: nat, dist: nat, k: nat)
    requires 1 <= dist <= |h| && |h| <= k < |h| + len
    ensures Repeat(h, len, dist)[k] == Repeat(h, len, dist)[k - dist]
    decreases len
  {
    var h1 := h + [h[|h| - dist]];
    if k > |h| {
      RepeatMeans(h1, len - 1, dist, k);
    } else {
      var r := Repeat(h1, len - 1, dist);
      assert r[..|h1|] == h1;
      assert r[k] == h1[k] && r[k - dist] == h1[k - dist];
    }
  }

  // A token that has a meaning after output h.
  predicate Sensible(h: seq<byte>, t: Token) {
    match t
    case Lit(_) => true
    case Copy(len, dist) => len >= 1 && 1 <= dist <= |h|
    case _ => false
  }

  function Step(h: seq<byte>, t: Token): (r: seq<byte>)
    requires Sensible(h, t)
    ensures h <= r
  {
    match t
    case Lit(b) => h + [b]
    case Copy(len, dist) => Repeat(h, len, dist)
  }

  /** The output of the tokens up to End, or None. */
  function Plain(h: seq<byte>, ts: seq<Token>): Option<seq<byte>>
    decreases |ts|
  {
    if ts == [] then None
    else if ts[0].End? then Some(h)
    else if Sensible(h, ts[0]) then Plain(Step(h, ts[0]), ts[1..])
    else None
  }

  // Every copy is one the window must be able to make.
  predicate Within(h: seq<byte>, ts: seq<Token>, size: nat, dict: nat)
    decreases |ts|
  {
    ts != [] && (ts[0].End? ||
      (Sensible(h, ts[0]) && (ts[0].Copy? ==> ts[0].dist <= size && ts[0].len <= 2 * dict) && Within(Step(h, ts[0]), ts[1..], size, dict)))
  }

  // Distances are at least 1.
  predicate Backward(ts: seq<Token>) {
    forall k :: 0 <= k < |ts| && ts[k].Copy? ==> ts[k].dist >= 1
  }

  // ----- the ring -----

  // Which byte of the output place i of the ring holds: this lap's, or the last one's.
  function Holds(i: int, at: int, size: int, total: int): int {
    if i < at then total + i else total + i - size
  }

  /** at: how much of this lap is written; total: the output before this lap. */
  ghost predicate Ring(b: seq<byte>, size: nat, at: nat, total: nat, h: seq<byte>) {
    && |b| == PAD + size + PAD && at <= size && |h| == total + at
    && forall j {:trigger b[j]} :: PAD <= j < PAD + size && Holds(j - PAD, at, size, total) >= 0 ==> b[j] == h[Holds(j - PAD, at, size, total)]
  }

  // Where byte k of the output is, if it is still there.
  function Place(k: int, size: int, total: int): int {
    if k >= total then k - total else k - total + size
  }

  lemma RingAt(b: seq<byte>, size: nat, at: nat, total: nat, h: seq<byte>, k: nat)
    requires Ring(b, size, at, total, h) && |h| - size <= k < |h|
    ensures 0 <= Place(k, size, total) < size && b[PAD + Place(k, size, total)] == h[k]
  {
    var i := Place(k, size, total);
    assert Holds(i, at, size, total) == k;
    assert b[PAD + i] == h[Holds(PAD + i - PAD, at, size, total)];
  }

  lemma RingPut(b: seq<byte>, size: nat, at: nat, total: nat, h: seq<byte>, x: byte)
    requires Ring(b, size, at, total, h) && at < size
    ensures Ring(b[PAD + at := x], size, at + 1, total, h + [x])
  {
  }

  lemma RingWrap(b: seq<byte>, size: nat, total: nat, h: seq<byte>)
    requires Ring(b, size, size, total, h)
    ensures Ring(b, size, 0, total + size, h)
  {
  }

  // The place of the next byte to copy, when the source moves on by one.
  lemma PlaceNext(k: nat, size: nat, at: nat, total: nat, dist: nat)
    requires size > 0 && at < size && k + dist == total + at && 1 <= dist <= size
    ensures var p := Place(k, size, total) + 1;
            Place(k + 1, size, total) == if p == size then 0 else p
    ensures at + 1 == size ==> Place(k + 1, size, total) == Place(k + 1, size, total + size)
  {
  }

  class Window {
    const size: nat
    const dict: nat
    const buf: array<byte>
    var out: nat
    var wstart: nat
    var wend: nat
    var filePos: nat
    var overflow: bool
    var written: seq<byte>
    // All output so far, and how much of it came before this lap of the ring.
    ghost var h: seq<byte>
    ghost var total: nat

    // Between tokens there is room before the next flush; within one, out may have come to wend.
    ghost predicate State(full: bool)
      reads this, buf
    {
      && 0 < size < FAR && buf.Length == PAD + size + PAD
      && PAD <= wstart <= out <= wend <= PAD + size && (!full ==> out < wend)
      && Ring(buf[..], size, out - PAD, total, h)
      && total + (wstart - PAD) <= |h| && written == h[..total + (wstart - PAD)]
      && (if overflow then total > FAR else filePos == total)
    }

    ghost predicate Valid()
      reads this, buf
    {
      State(false)
    }

    constructor (outSize: nat, dict: nat)
      requires 0 < outSize < FAR
      ensures Valid() && h == [] && size == outSize && this.dict == dict && fresh(buf)
    {
      size, this.dict := outSize, dict;
      buf := new byte[PAD + outSize + PAD];
      out, wstart := PAD, PAD;
      wend := PAD + if outSize > HUGE then HUGE else outSize;
      filePos, overflow, written := 0, false, [];
      h, total := [], 0;
    }

    /** flush: what has been decoded is handed over; at the end of the ring the
        next lap begins. */
    method Flush(force: bool)
      requires State(true)
      modifies this
      ensures Valid() && h == old(h) && (force ==> written == h)
      ensures if old(out) == PAD + size then out == PAD && total == old(total) + size else out == old(out) && total == old(total)
    {
      hide Ring;
      if !force && out < wend {
        return;
      }
      var n := out - wstart;
      RingSize(buf[..], size, out - PAD, total, h);
      Flushed(buf[..], size, out - PAD, total, h, wstart);
      if n > 0 {
        written := written + buf[wstart..out];
      }
      wstart := out;
      if out >= PAD + size {
        NextLap();
      }
      if wstart >= wend {
        var room := PAD + size - wstart;
        if room > HUGE {
          room := HUGE;
        }
        wend := wstart + room;
      }
    }

    // The ring is full: its front is written next.
    method NextLap()
      requires State(true) && wstart == out == PAD + size
      modifies this
      ensures State(true) && h == old(h) && written == old(written) && total == old(total) + size && wstart == out == wend == PAD
    {
      hide Ring;
      var delta := out - PAD;
      RingWrap(buf[..], size, total, h);
      if filePos > FAR {
        overflow := true;
      }
      filePos := (filePos + delta) % U64;
      wstart := wstart - delta;
      wend := wend - delta;
      out := out - delta;
      total := total + delta;
    }

    method PutByte(x: byte)
      requires Valid()
      modifies this, buf
      ensures Valid() && h == old(h) + [x]
      ensures if old(out) + 1 == PAD + size then out == PAD && total == old(total) + size else out == old(out) + 1 && total == old(total)
    {
      hide Ring;
      ghost var now := buf[..];
      RingPut(now, size, out - PAD, total, h, x);
      RingSize(now, size, out - PAD, total, h);
      buf[out] := x;
      assert buf[..] == now[PAD + (out - PAD) := x];
      out := out + 1;
      h := h + [x];
      Flush(false);
    }

    /** The copy that stays clear of the end of the piece. */
    method CopyNear(length: nat, dist: nat)
      requires Valid() && 1 <= dist <= out - PAD && wend - out > length
      modifies this, buf
      ensures Valid() && h == Repeat(old(h), length, dist)
    {
      hide Ring, Repeat;
      RingSize(buf[..], size, out - PAD, total, h);
      ghost var h0 := h;
      var p := out - dist;
      var left := length;
      while left > 0
        invariant Valid() && 1 <= dist <= out - PAD && p == out - dist && 0 <= left && wend - out > left
        invariant dist <= |h| && Repeat(h, left, dist) == Repeat(h0, length, dist)
      {
        ghost var now := buf[..];
        RingSize(now, size, out - PAD, total, h);
        RingAt(now, size, out - PAD, total, h, |h| - dist);
        RingPut(now, size, out - PAD, total, h, buf[p]);
        RepeatStep(h, left, dist);
        buf[out] := buf[p];
        assert buf[..] == now[PAD + (out - PAD) := now[p]];
        h := h + [h[|h| - dist]];
        out := out + 1;
        p := p + 1;
        left := left - 1;
      }
      RepeatNone(h, dist);
    }

    /** The copy byte by byte, around the ring. */
    method CopyFar(length: nat, dist: nat)
      requires Valid() && 1 <= dist <= |h| && dist <= size
      modifies this, buf
      ensures Valid() && h == Repeat(old(h), length, dist)
    {
      hide Ring, Place, Repeat;
      RingSize(buf[..], size, out - PAD, total, h);
      ghost var h0 := h;
      PlaceIs(|h| - dist, size, out - PAD, total, dist);
      var p := if out - PAD >= dist then out - dist else out - dist + size;
      var left := length;
      while left > 0
        invariant Valid() && 1 <= dist <= |h| && dist <= size && p == PAD + Place(|h| - dist, size, total) && 0 <= left
        invariant Repeat(h, left, dist) == Repeat(h0, length, dist)
      {
        RingSize(buf[..], size, out - PAD, total, h);
        RingAt(buf[..], size, out - PAD, total, h, |h| - dist);
        PlaceNext(|h| - dist, size, out - PAD, total, dist);
        RepeatStep(h, left, dist);
        var x := buf[p];
        p := p + 1;
        if p == PAD + size {
          p := PAD;
        }
        PutByte(x);
        left := left - 1;
      }
      RepeatNone(h, dist);
    }

    /** run: the window and its flushes against the plain decoder. */
    method Run(ts: seq<Token>) returns (ok: bool)
      requires Valid() && h == [] && Backward(ts)
      modifies this, buf
      ensures ok ==> Plain([], ts) == Some(written)
      ensures Within([], ts, size, dict) ==> ok
    {
      hide Ring, Repeat;
      var i := 0;
      assert ts[0..] == ts;
      while i < |ts|
        invariant Valid() && 0 <= i <= |ts|
        invariant Plain([], ts) == Plain(h, ts[i..]) && (Within([], ts, size, dict) ==> Within(h, ts[i..], size, dict))
      {
        RingSize(buf[..], size, out - PAD, total, h);
        ghost var rest := ts[i..];
        assert rest[0] == ts[i] && rest[1..] == ts[i + 1..];
        match ts[i] {
          case Fail => return false;
          case End =>
            Flush(true);
            return true;
          case Lit(b) => PutByte(b);
          case Copy(length, dist) =>
            var pos := out - PAD;
            if pos >= dist && wend - out > length {
              if length == 0 {
                return false;
              }
              CopyNear(length, dist);
            } else {
              if length == 0 || dist > size || length > 2 * dict || (filePos + pos < dist && !overflow) {
                return false;
              }
              CopyFar(length, dist);
            }
        }
        i := i + 1;
      }
      return false;
    }
  }

  lemma RepeatStep(h: seq<byte>, len: nat, dist: nat)
    requires 1 <= dist <= |h| && len > 0
    ensures Repeat(h, len, dist) == Repeat(h + [h[|h| - dist]], len - 1, dist)
  {
  }

  lemma RepeatNone(h: seq<byte>, dist: nat)
    requires 1 <= dist <= |h|
    ensures Repeat(h, 0, dist) == h
  {
  }

  lemma PlaceIs(k: nat, size: nat, at: nat, total: nat, dist: nat)
    requires k + dist == total + at && 1 <= dist <= size && at <= size
    ensures Place(k, size, total) == if at >= dist then at - dist else at - dist + size
  {
  }

  lemma RingSize(b: seq<byte>, size: nat, at: nat, total: nat, h: seq<byte>)
    requires Ring(b, size, at, total, h)
    ensures |b| == PAD + size + PAD && at <= size && |h| == total + at
  {
  }

  lemma Flushed(b: seq<byte>, size: nat, at: nat, total: nat, h: seq<byte>, wstart: nat)
    requires Ring(b, size, at, total, h) && PAD <= wstart <= PAD + at
    ensures h[..total + (wstart - PAD)] + b[wstart..PAD + at] == h
  {
    var n := total + (wstart - PAD);
    assert |b[wstart..PAD + at]| == |h| - n;
    var part := b[wstart..PAD + at];
    forall k {:trigger part[k]} | 0 <= k < |h| - n
      ensures part[k] == h[n + k]
    {
      assert b[wstart + k] == h[Holds(wstart + k - PAD, at, size, total)];
    }
  }
}
