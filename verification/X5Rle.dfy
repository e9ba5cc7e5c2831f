/** The run-length stream of a patch: what it stands for as a whole, and reading
    it piece by piece. */
module X5Rle {
  import opened Bytes

  const TAG_BITS: nat := 2
  const LIMIT: nat := 0x200_0000_0000_0000

  // ----- numbers with a tag in front -----

  datatype Tagged = Tagged(value: nat, rest: seq<byte>)

  function More(b: seq<byte>, value: nat): (r: Option<Tagged>)
    requires value < U64
    ensures r.Some? ==> r.value.value < U64 && |r.value.rest| < |b|
  {
    if b == [] || value >= LIMIT then None
    else
      var v := value * 128 + b[0] % 128;
      if b[0] < 128 then Some(Tagged(v, b[1..])) else More(b[1..], v)
  }

  // 1 << low, for the bits a tag leaves.
  function Unit(tagBits: nat): nat {
    match tagBits
    case 0 => 128 case 1 => 64 case 2 => 32 case 3 => 16 case 4 => 8 case 5 => 4 case 6 => 2 case _ => 1
  }

  /** unpackTag */
  function Unpack(b: seq<byte>, tagBits: nat): (r: Option<Tagged>)
    ensures r.Some? ==> r.value.value < U64 && |r.value.rest| < |b|
  {
    if b == [] || tagBits > 7 then None
    else
      var unit := Unit(tagBits);
      if b[0] / unit % 2 == 0 then Some(Tagged(b[0] % unit, b[1..])) else More(b[1..], b[0] % unit)
  }

  method UnpackTag(b0: seq<byte>, tagBits: nat) returns (r: Option<Tagged>)
    ensures r == Unpack(b0, tagBits)
  {
    if |b0| == 0 || tagBits > 7 {
      return None;
    }
    var code := b0[0];
    var b := b0[1..];
    var unit := Unit(tagBits);
    var value: nat := code % unit;
    if code / unit % 2 == 0 {
      return Some(Tagged(value, b));
    }
    while true
      invariant value < U64 && Unpack(b0, tagBits) == More(b, value)
      decreases |b|
    {
      if |b| == 0 {
        return None;
      }
      if value >= LIMIT {
        return None;
      }
      code := b[0];
      value := value * 128 + code % 128;
      if code < 128 {
        return Some(Tagged(value, b[1..]));
      }
      b := b[1..];
    }
  }

  // ----- the stream -----

  /** The control bytes and codes still to come, and what is left of the current record. */
  datatype Rle = Rle(ctrl: seq<byte>, code: seq<byte>, setLen: nat, setVal: byte, copyLen: nat)

  predicate Done(r: Rle) {
    r.setLen == 0 && r.copyLen == 0 && r.ctrl == [] && r.code == []
  }

  function Repeat(v: byte, n: nat): (s: seq<byte>)
    ensures |s| == n && forall i :: 0 <= i < n ==> s[i] == v
  {
    seq(n, _ => v)
  }

  /** The next record. */
  function Record(r: Rle): (r': Option<Rle>)
    ensures r'.Some? ==> |r'.value.ctrl| < |r.ctrl| && r'.value.setLen + r'.value.copyLen > 0
  {
    match Unpack(r.ctrl, TAG_BITS)
    case None => None
    case Some(t) =>
      var n := t.value + 1;
      if n == U64 then None
      else match r.ctrl[0] / 64
           case 0 => Some(Rle(t.rest, r.code, n, 0, 0))
           case 1 => Some(Rle(t.rest, r.code, n, 255, 0))
           case 2 => if r.code == [] then None else Some(Rle(t.rest, r.code[1..], n, r.code[0], 0))
           case _ => Some(Rle(t.rest, r.code, 0, r.setVal, n))
  }

  /** Everything the stream stands for, if it is well-formed to the end. */
  function Full(r: Rle): Option<seq<byte>>
    decreases |r.ctrl|, r.setLen, r.copyLen
  {
    if r.setLen > 0 then
      match Full(r.(setLen := 0))
      case None => None
      case Some(e) => Some(Repeat(r.setVal, r.setLen) + e)
    else if r.copyLen > 0 then
      if r.copyLen > |r.code| then None
      else match Full(r.(copyLen := 0, code := r.code[r.copyLen..]))
           case None => None
           case Some(e) => Some(r.code[..r.copyLen] + e)
    else if r.ctrl == [] then
      if r.code == [] then Some([]) else None
    else match Record(r)
         case None => None
         case Some(r') => Full(r')
  }

  datatype Taken = Taken(bytes: seq<byte>, rest: Rle)

  function Min(a: nat, b: nat): nat { if a < b then a else b }

  /** consume: the next n bytes. */
  function Take(r: Rle, n: nat): (t: Option<Taken>)
    ensures t.Some? ==> |t.value.bytes| == n
    decreases n, |r.ctrl|
  {
    if n == 0 then Some(Taken([], r))
    else if r.setLen > 0 then
      var step := Min(r.setLen, n);
      match Take(r.(setLen := r.setLen - step), n - step)
      case None => None
      case Some(t) => Some(Taken(Repeat(r.setVal, step) + t.bytes, t.rest))
    else if r.copyLen > 0 then
      var step := Min(r.copyLen, n);
      if step > |r.code| then None
      else match Take(r.(copyLen := r.copyLen - step, code := r.code[step..]), n - step)
           case None => None
           case Some(t) => Some(Taken(r.code[..step] + t.bytes, t.rest))
    else match Record(r)
         case None => None
         case Some(r') => Take(r', n)
  }

  // The turns of the loop, one by one.
  lemma TakeTurn(r: Rle, n: nat)
    ensures n == 0 ==> Take(r, n) == Some(Taken([], r))
    ensures n > 0 && r.setLen > 0 ==> var step := Min(r.setLen, n);
              Take(r, n) == Prepend(Repeat(r.setVal, step), Take(r.(setLen := r.setLen - step), n - step))
    ensures n > 0 && r.setLen == 0 && r.copyLen > 0 ==> var step := Min(r.copyLen, n);
              if step > |r.code| then Take(r, n).None?
              else Take(r, n) == Prepend(r.code[..step], Take(r.(copyLen := r.copyLen - step, code := r.code[step..]), n - step))
    ensures n > 0 && r.setLen == 0 && r.copyLen == 0 ==>
              match Record(r) case None => Take(r, n).None? case Some(r') => Take(r, n) == Take(r', n)
  {
  }

  // ----- the same, one byte at a time -----

  datatype Next = Next(b: byte, rest: Rle)

  function One(r: Rle): Option<Next>
    decreases |r.ctrl|
  {
    if r.setLen > 0 then Some(Next(r.setVal, r.(setLen := r.setLen - 1)))
    else if r.copyLen > 0 then
      if r.code == [] then None else Some(Next(r.code[0], r.(copyLen := r.copyLen - 1, code := r.code[1..])))
    else match Record(r)
         case None => None
         case Some(r') => One(r')
  }

  function Singly(r: Rle, n: nat): (t: Option<Taken>)
    ensures t.Some? ==> |t.value.bytes| == n
    decreases n
  {
    if n == 0 then Some(Taken([], r))
    else match One(r)
         case None => None
         case Some(x) => Prepend([x.b], Singly(x.rest, n - 1))
  }

  function Prepend(head: seq<byte>, t: Option<Taken>): Option<Taken> {
    match t
    case None => None
    case Some(u) => Some(Taken(head + u.bytes, u.rest))
  }

  lemma PrependTwice(a: seq<byte>, b: seq<byte>, t: Option<Taken>)
    ensures Prepend(a, Prepend(b, t)) == Prepend(a + b, t) && Prepend([], t) == t
  {
    if t.Some? {
      assert a + (b + t.value.bytes) == a + b + t.value.bytes;
      assert [] + t.value.bytes == t.value.bytes;
    }
  }

  lemma {:induction false} SetRun(r: Rle, step: nat, m: nat)
    requires step <= r.setLen
    ensures Singly(r, step + m) == Prepend(Repeat(r.setVal, step), Singly(r.(setLen := r.setLen - step), m))
    decreases step
  {
    var rest := Singly(r.(setLen := r.setLen - step), m);
    if step == 0 {
      PrependTwice([], [], rest);
      assert Repeat(r.setVal, 0) == [];
    } else {
      SetRun(r.(setLen := r.setLen - 1), step - 1, m);
      PrependTwice([r.setVal], Repeat(r.setVal, step - 1), rest);
      assert [r.setVal] + Repeat(r.setVal, step - 1) == Repeat(r.setVal, step);
    }
  }

  lemma HeadSlices(code: seq<byte>, step: nat)
    requires 0 < step <= |code|
    ensures code[1..][step - 1..] == code[step..] && [code[0]] + code[1..][..step - 1] == code[..step]
  {
  }

  // One byte of a copy.
  lemma CopyOne(r: Rle, n: nat)
    requires r.setLen == 0 && r.copyLen > 0 && n > 0
    ensures r.code == [] ==> Singly(r, n).None?
    ensures r.code != [] ==> Singly(r, n) == Prepend([r.code[0]], Singly(r.(copyLen := r.copyLen - 1, code := r.code[1..]), n - 1))
    ensures r.code != [] && Singly(r.(copyLen := r.copyLen - 1, code := r.code[1..]), n - 1).None? ==> Singly(r, n).None?
  {
  }

  lemma {:induction false} CopyRun(r: Rle, step: nat, m: nat)
    requires r.setLen == 0 && step <= r.copyLen
    ensures step > |r.code| ==> Singly(r, step + m).None?
    ensures step <= |r.code| ==> Singly(r, step + m) == Prepend(r.code[..step], Singly(r.(copyLen := r.copyLen - step, code := r.code[step..]), m))
    decreases step
  {
    hide Record, Repeat, One, Singly, Prepend;
    if step == 0 {
      assert r.code[0..] == r.code && r.code[..0] == [];
      PrependTwice([], [], Singly(r, m));
    } else {
      CopyOne(r, step + m);
      if r.code != [] {
        var r1 := r.(copyLen := r.copyLen - 1, code := r.code[1..]);
        CopyRun(r1, step - 1, m);
        if step <= |r.code| {
          HeadSlices(r.code, step);
          PrependTwice([r.code[0]], r1.code[..step - 1], Singly(r.(copyLen := r.copyLen - step, code := r.code[step..]), m));
        }
      }
    }
  }

  // Between runs, a record comes first.
  lemma SinglyTurn(r: Rle, n: nat)
    ensures n == 0 ==> Singly(r, n) == Some(Taken([], r))
    ensures n > 0 && r.setLen == 0 && r.copyLen == 0 ==>
              match Record(r) case None => Singly(r, n).None? case Some(r') => Singly(r, n) == Singly(r', n)
  {
    hide Record;
  }

  lemma {:induction false} TakeIsBytes(r: Rle, n: nat)
    ensures Take(r, n) == Singly(r, n)
    decreases n, |r.ctrl|
  {
    hide Record, Repeat, Take, Singly, Prepend;
    TakeTurn(r, n);
    SinglyTurn(r, n);
    if n > 0 {
      if r.setLen > 0 {
        var step := Min(r.setLen, n);
        TakeIsBytes(r.(setLen := r.setLen - step), n - step);
        SetRun(r, step, n - step);
      } else if r.copyLen > 0 {
        var step := Min(r.copyLen, n);
        CopyRun(r, step, n - step);
        if step <= |r.code| {
          TakeIsBytes(r.(copyLen := r.copyLen - step, code := r.code[step..]), n - step);
        }
      } else {
        var r' := Record(r);
        if r'.Some? {
          TakeIsBytes(r'.value, n);
        }
      }
    }
  }

  lemma {:induction false} BytesTwice(r: Rle, a: nat, b: nat)
    ensures match Singly(r, a)
            case None => Singly(r, a + b).None?
            case Some(t) => Singly(r, a + b) == Prepend(t.bytes, Singly(t.rest, b))
    decreases a
  {
    if a == 0 {
      PrependTwice([], [], Singly(r, b));
    } else {
      var x := One(r);
      if x.Some? {
        BytesTwice(x.value.rest, a - 1, b);
        var t := Singly(x.value.rest, a - 1);
        if t.Some? {
          PrependTwice([x.value.b], t.value.bytes, Singly(t.value.rest, b));
        }
      }
    }
  }

  /** Taking a and then b is taking a + b. */
  lemma TakeTwice(r: Rle, a: nat, b: nat)
    ensures match Take(r, a)
            case None => Take(r, a + b).None?
            case Some(t) => Take(r, a + b) == Prepend(t.bytes, Take(t.rest, b))
  {
    hide Singly, Take;
    TakeIsBytes(r, a);
    TakeIsBytes(r, a + b);
    BytesTwice(r, a, b);
    if Take(r, a).Some? {
      TakeIsBytes(Take(r, a).value.rest, b);
    }
  }

  // ----- and as a whole -----

  function Behind(head: seq<byte>, e: Option<seq<byte>>): Option<seq<byte>> {
    match e
    case None => None
    case Some(t) => Some(head + t)
  }

  lemma BehindTwice(a: seq<byte>, b: seq<byte>, e: Option<seq<byte>>)
    ensures Behind(a, Behind(b, e)) == Behind(a + b, e) && Behind([], e) == e
  {
    if e.Some? {
      assert a + (b + e.value) == a + b + e.value && [] + e.value == e.value;
    }
  }

  /** The stream is its next byte and the stream after it. */
  lemma {:induction false} FullOne(r: Rle)
    ensures One(r).Some? ==> Full(r) == Behind([One(r).value.b], Full(One(r).value.rest))
    ensures One(r).None? ==> Full(r) == if Done(r) then Some([]) else None
    decreases |r.ctrl|
  {
    if r.setLen > 0 {
      var r0 := r.(setLen := 0);
      if r.setLen > 1 {
        BehindTwice([r.setVal], Repeat(r.setVal, r.setLen - 1), Full(r0));
      } else {
        BehindTwice([r.setVal], [], Full(r0));
      }
      assert [r.setVal] + Repeat(r.setVal, r.setLen - 1) == Repeat(r.setVal, r.setLen);
    } else if r.copyLen > 0 {
      if 0 < r.copyLen <= |r.code| {
        var r1 := r.(copyLen := r.copyLen - 1, code := r.code[1..]);
        assert r1.code[r.copyLen - 1..] == r.code[r.copyLen..];
        assert r1.code[..r.copyLen - 1] == r.code[1..r.copyLen] && [r.code[0]] + r.code[1..r.copyLen] == r.code[..r.copyLen];
        BehindTwice([r.code[0]], r.code[1..r.copyLen], Full(r.(copyLen := 0, code := r.code[r.copyLen..])));
        if r.copyLen == 1 {
          BehindTwice([r.code[0]], [], Full(r.(copyLen := 0, code := r.code[r.copyLen..])));
        }
      }
    } else {
      var r' := Record(r);
      if r'.Some? {
        FullOne(r'.value);
      }
    }
  }

  /** Taking n bytes takes the first n of the whole. */
  lemma {:induction false} FullTake(r: Rle, n: nat)
    ensures match Take(r, n)
            case None => Full(r).None? || |Full(r).value| < n
            case Some(t) => Full(r) == Behind(t.bytes, Full(t.rest))
    decreases n
  {
    hide Full, One, Take;
    TakeIsBytes(r, n);
    FullOne(r);
    if n == 0 {
      BehindTwice([], [], Full(r));
    } else if One(r).Some? {
      var x := One(r).value;
      TakeIsBytes(x.rest, n - 1);
      FullTake(x.rest, n - 1);
      var t := Take(x.rest, n - 1);
      if t.Some? {
        BehindTwice([x.b], t.value.bytes, Full(t.value.rest));
      }
    }
  }

  lemma {:induction false} FullDone(r: Rle)
    ensures Full(r) == Some([]) <==> Done(r)
  {
    FullOne(r);
    if Done(r) {
      assert Full(r) == Some([]);
    }
  }
}
