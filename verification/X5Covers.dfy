/** Applying the covers of a patch: old bytes plus differences inside them,
    literals between them. */
module X5Covers {
  import opened Bytes
  import opened X5Rle

  // ----- consuming the run-length stream in place -----

  function Plus(a: byte, b: byte): byte { (a + b) % 256 }

  function Added(a: seq<byte>, b: seq<byte>): (r: seq<byte>)
    requires |a| == |b|
    ensures |r| == |a|
  {
    seq(|a|, i requires 0 <= i < |a| => Plus(a[i], b[i]))
  }

  /** `bs` has been added to the output from `at` on, or passed over. */
  ghost predicate Laid(o: seq<byte>, was: seq<byte>, at: nat, add: bool, bs: seq<byte>) {
    |o| == |was| && forall j :: 0 <= j < |o| ==> o[j] == if add && at <= j < at + |bs| then Plus(was[j], bs[j - at]) else was[j]
  }

  lemma LaidNone(o: seq<byte>, at: nat, add: bool)
    ensures Laid(o, o, at, add, [])
  {
  }

  lemma LaidMore(o: seq<byte>, was: seq<byte>, at: nat, add: bool, bs: seq<byte>, more: seq<byte>, o': seq<byte>)
    requires Laid(o, was, at, add, bs) && Laid(o', o, at + |bs|, add, more)
    ensures Laid(o', was, at, add, bs + more)
  {
  }

  class RleDec {
    var ctrl: seq<byte>
    var code: seq<byte>
    var setLen: nat
    var setVal: byte
    var copyLen: nat

    function View(): Rle
      reads this
    {
      Rle(ctrl, code, setLen, setVal, copyLen)
    }

    constructor (ctrl: seq<byte>, code: seq<byte>)
      ensures View() == Rle(ctrl, code, 0, 0, 0)
    {
      this.ctrl, this.code, setLen, setVal, copyLen := ctrl, code, 0, 0, 0;
    }

    /** consume: the next n bytes of the stream are added to the output from `at`
        on, or passed over. */
    method Consume(n0: nat, out: array<byte>, at: nat, add: bool) returns (ok: bool)
      requires add ==> at + n0 <= out.Length
      modifies this, out
      ensures match Take(old(View()), n0)
              case None => !ok
              case Some(t) =>
                ok && View() == t.rest && Laid(out[..], old(out[..]), at, add, t.bytes)
    {
      hide Record, Laid, Repeat, Take;
      var n, i := n0, 0;
      ghost var r0, done := View(), [];
      ghost var was := out[..];
      LaidNone(was, at, add);
      assert Prepend([], Take(r0, n0)) == Take(r0, n0) by { PrependTwice([], [], Take(r0, n0)); }
      while n > 0
        invariant 0 <= n && i + n == n0 == |done| + n && Take(r0, n0) == Prepend(done, Take(View(), n))
        invariant Laid(out[..], was, at, add, done) && (add ==> at + n0 <= out.Length)
        decreases n, |ctrl|
      {
        TakeTurn(View(), n);
        if setLen > 0 {
          var step := Min(setLen, n);
          PrependTwice(done, Repeat(setVal, step), Take(View().(setLen := setLen - step), n - step));
          ghost var now := out[..];
          if add && setVal != 0 {
            AddRun(out, at + i, Repeat(setVal, step));
          } else {
            NothingAdded(now, at + i, add, setVal, step);
          }
          LaidMore(now, was, at, add, done, Repeat(setVal, step), out[..]);
          done := done + Repeat(setVal, step);
          i := i + step;
          n := n - step;
          setLen := setLen - step;
          continue;
        }
        if copyLen > 0 {
          var step := Min(copyLen, n);
          if step > |code| {
            return false;
          }
          PrependTwice(done, code[..step], Take(View().(copyLen := copyLen - step, code := code[step..]), n - step));
          ghost var now := out[..];
          if add {
            AddRun(out, at + i, code[..step]);
          } else {
            PassedOver(now, at + i, code[..step]);
          }
          LaidMore(now, was, at, add, done, code[..step], out[..]);
          done := done + code[..step];
          i := i + step;
          code := code[step..];
          copyLen := copyLen - step;
          n := n - step;
          continue;
        }
        ok := Refill();
        if !ok {
          return;
        }
      }
      TakeTurn(View(), 0);
      assert done + [] == done;
      ok := true;
    }

    // The next control record.
    method Refill() returns (ok: bool)
      requires setLen == 0 && copyLen == 0
      modifies this
      ensures match Record(old(View())) case None => !ok case Some(r) => ok && View() == r
    {
      if |ctrl| == 0 {
        return false;
      }
      var typ := ctrl[0] / 64;
      var t := UnpackTag(ctrl, TAG_BITS);
      if t.None? || t.value.value == U64 - 1 {
        return false;
      }
      ctrl := t.value.rest;
      var length := t.value.value + 1;
      if typ == 0 {
        setLen, setVal := length, 0;
      } else if typ == 1 {
        setLen, setVal := length, 255;
      } else if typ == 2 {
        if |code| < 1 {
          return false;
        }
        setVal := code[0];
        code := code[1..];
        setLen := length;
      } else {
        copyLen := length;
      }
      ok := true;
    }
  }

  lemma NothingAdded(o: seq<byte>, at: nat, add: bool, v: byte, n: nat)
    requires !add || v == 0
    ensures Laid(o, o, at, add, Repeat(v, n))
  {
  }

  lemma PassedOver(o: seq<byte>, at: nat, s: seq<byte>)
    ensures Laid(o, o, at, false, s)
  {
  }

  method AddRun(out: array<byte>, at: nat, s: seq<byte>)
    requires at + |s| <= out.Length
    modifies out
    ensures Laid(out[..], old(out[..]), at, true, s)
  {
    for i := 0 to |s|
      invariant forall j :: 0 <= j < out.Length ==> out[j] == if at <= j < at + i then Plus(old(out[j]), s[j - at]) else old(out[j])
    {
      out[at + i] := Plus(out[at + i], s[i]);
    }
  }

  // ----- the covers -----

  // `len` bytes of the output from `to` on come from the old file at `from`.
  datatype Cover = Cover(from: nat, to: nat, len: nat)

  datatype Parsed = Parsed(cover: Cover, rest: seq<byte>)

  /** One cover: an offset from the end of the last, a gap, and a length. */
  function ParseCover(b: seq<byte>, oldBack: nat, newBack: nat, oldSize: nat, newSize: nat): (r: Option<Parsed>)
    ensures r.Some? ==> var c := r.value.cover; newBack <= c.to && c.to + c.len <= newSize && c.from + c.len <= oldSize
  {
    match Unpack(b, 1)
    case None => None
    case Some(x) =>
      match Unpack(x.rest, 0)
      case None => None
      case Some(y) =>
        match Unpack(y.rest, 0)
        case None => None
        case Some(z) =>
          var back := b[0] / 128 == 1;
          if back && x.value > oldBack then None
          else if !back && oldBack + x.value >= U64 then None
          else
            var from, to := if back then oldBack - x.value else oldBack + x.value, newBack + y.value;
            if to >= U64 || to > newSize || z.value > newSize - to || from > oldSize || z.value > oldSize - from then None
            else Some(Parsed(Cover(from, to, z.value), z.rest))
  }

  /** The covers of a patch, in order and apart, with nothing left over. */
  function Parse(b: seq<byte>, count: nat, oldBack: nat, newBack: nat, oldSize: nat, newSize: nat): Option<seq<Cover>>
    decreases count
  {
    if count == 0 then if b == [] then Some([]) else None
    else match ParseCover(b, oldBack, newBack, oldSize, newSize)
         case None => None
         case Some(p) =>
           match Parse(p.rest, count - 1, p.cover.from + p.cover.len, p.cover.to + p.cover.len, oldSize, newSize)
           case None => None
           case Some(cs) => Some([p.cover] + cs)
  }

  // Covers follow one another within the files.
  predicate InOrder(cs: seq<Cover>, at: nat, oldSize: nat, newSize: nat) {
    if cs == [] then at <= newSize
    else at <= cs[0].to && cs[0].from + cs[0].len <= oldSize && InOrder(cs[1..], cs[0].to + cs[0].len, oldSize, newSize)
  }

  lemma {:induction false} ParseInOrder(b: seq<byte>, count: nat, oldBack: nat, newBack: nat, oldSize: nat, newSize: nat)
    requires newBack <= newSize
    ensures Parse(b, count, oldBack, newBack, oldSize, newSize).Some? ==>
              InOrder(Parse(b, count, oldBack, newBack, oldSize, newSize).value, newBack, oldSize, newSize)
    decreases count
  {
    hide ParseCover;
    if count > 0 {
      var p := ParseCover(b, oldBack, newBack, oldSize, newSize);
      if p.Some? {
        var c := p.value.cover;
        ParseInOrder(p.value.rest, count - 1, c.from + c.len, c.to + c.len, oldSize, newSize);
      }
    }
  }

  function Covered(cs: seq<Cover>): nat {
    if cs == [] then 0 else cs[0].len + Covered(cs[1..])
  }

  // ----- what a patch makes -----

  // Literals and differences fit the covers.
  predicate Sized(cs: seq<Cover>, lit: seq<byte>, e: seq<byte>, at: nat, oldSize: nat, newSize: nat) {
    InOrder(cs, at, oldSize, newSize) && |e| == newSize - at && |lit| + Covered(cs) == newSize - at
  }

  lemma {:induction false} RoomAhead(cs: seq<Cover>, at: nat, oldSize: nat, newSize: nat)
    requires InOrder(cs, at, oldSize, newSize)
    ensures at + Covered(cs) <= newSize
  {
    if cs != [] {
      RoomAhead(cs[1..], cs[0].to + cs[0].len, oldSize, newSize);
    }
  }

  /** The output from `at` on: literals up to the next cover, the old bytes plus
      their differences, and so on. `e` is the whole difference stream from there. */
  function Patch(prior: seq<byte>, cs: seq<Cover>, lit: seq<byte>, e: seq<byte>, at: nat, newSize: nat): (r: seq<byte>)
    requires Sized(cs, lit, e, at, |prior|, newSize)
    ensures |r| == newSize - at
  {
    if cs == [] then lit
    else
      var c := cs[0];
      RoomAhead(cs[1..], c.to + c.len, |prior|, newSize);
      lit[..c.to - at] + Added(prior[c.from..c.from + c.len], e[c.to - at..c.to - at + c.len])
      + Patch(prior, cs[1..], lit[c.to - at..], e[c.to - at + c.len..], c.to + c.len, newSize)
  }

  // Output byte p lies in a cover.
  predicate In(c: Cover, p: nat) { c.to <= p < c.to + c.len }

  // The literals used before output byte p.
  function Before(cs: seq<Cover>, at: nat, p: nat): int
  {
    if cs == [] || p < cs[0].to then p - at
    else cs[0].to - at + Before(cs[1..], cs[0].to + cs[0].len, p)
  }

  lemma Three(a: seq<byte>, b: seq<byte>, c: seq<byte>, k: nat)
    requires k < |a| + |b| + |c|
    ensures (a + b + c)[k] == if k < |a| then a[k] else if k < |a| + |b| then b[k - |a|] else c[k - |a| - |b|]
  {
  }

  lemma GapFits(prior: seq<byte>, cs: seq<Cover>, lit: seq<byte>, e: seq<byte>, at: nat, newSize: nat)
    requires Sized(cs, lit, e, at, |prior|, newSize) && cs != []
    ensures var c := cs[0]; at <= c.to && c.to - at <= |lit| && c.to - at + c.len <= |e| && c.from + c.len <= |prior|
    ensures var c := cs[0]; Sized(cs[1..], lit[c.to - at..], e[c.to - at + c.len..], c.to + c.len, |prior|, newSize)
  {
    var c := cs[0];
    RoomAhead(cs[1..], c.to + c.len, |prior|, newSize);
  }

  // The first gap and cover of a patch, and what follows.
  lemma PatchParts(prior: seq<byte>, cs: seq<Cover>, lit: seq<byte>, e: seq<byte>, at: nat, newSize: nat, c: Cover, p: nat)
    requires Sized(cs, lit, e, at, |prior|, newSize) && at <= p < newSize && cs != [] && c == cs[0]
    requires at <= c.to && c.to - at <= |lit| && c.to - at + c.len <= |e| && c.from + c.len <= |prior|
    requires Sized(cs[1..], lit[c.to - at..], e[c.to - at + c.len..], c.to + c.len, |prior|, newSize)
    ensures var r := Patch(prior, cs, lit, e, at, newSize);
            && (p < c.to ==> r[p - at] == lit[p - at])
            && (In(c, p) ==> r[p - at] == Plus(prior[c.from + (p - c.to)], e[p - at]))
            && (p >= c.to + c.len ==>
                  r[p - at] == Patch(prior, cs[1..], lit[c.to - at..], e[c.to - at + c.len..], c.to + c.len, newSize)[p - c.to - c.len])
  {
    hide InOrder, Covered, Plus, Patch, Added;
    var gap := c.to - at;
    var rest := Patch(prior, cs[1..], lit[gap..], e[gap + c.len..], c.to + c.len, newSize);
    var a, b := prior[c.from..c.from + c.len], e[gap..gap + c.len];
    PatchIs(prior, cs, lit, e, at, newSize, c);
    Three(lit[..gap], Added(a, b), rest, p - at);
    if In(c, p) {
      AddedAt(a, b, p - c.to);
    }
  }

  lemma PatchIs(prior: seq<byte>, cs: seq<Cover>, lit: seq<byte>, e: seq<byte>, at: nat, newSize: nat, c: Cover)
    requires Sized(cs, lit, e, at, |prior|, newSize) && cs != [] && c == cs[0]
    requires at <= c.to && c.to - at <= |lit| && c.to - at + c.len <= |e| && c.from + c.len <= |prior|
    requires Sized(cs[1..], lit[c.to - at..], e[c.to - at + c.len..], c.to + c.len, |prior|, newSize)
    ensures Patch(prior, cs, lit, e, at, newSize) ==
            lit[..c.to - at] + Added(prior[c.from..c.from + c.len], e[c.to - at..c.to - at + c.len])
            + Patch(prior, cs[1..], lit[c.to - at..], e[c.to - at + c.len..], c.to + c.len, newSize)
  {
    hide Added, InOrder, Covered;
  }

  lemma AddedAt(a: seq<byte>, b: seq<byte>, k: nat)
    requires k < |a| == |b|
    ensures Added(a, b)[k] == Plus(a[k], b[k])
  {
  }

  /** Byte by byte: inside a cover the old byte plus its difference. */
  lemma {:induction false} PatchInside(prior: seq<byte>, cs: seq<Cover>, lit: seq<byte>, e: seq<byte>, at: nat, newSize: nat, p: nat, k: nat)
    requires Sized(cs, lit, e, at, |prior|, newSize) && at <= p < newSize && k < |cs| && In(cs[k], p)
    ensures cs[k].from + (p - cs[k].to) < |prior|
    ensures Patch(prior, cs, lit, e, at, newSize)[p - at] == Plus(prior[cs[k].from + (p - cs[k].to)], e[p - at])
  {
    hide Patch, Plus;
    GapFits(prior, cs, lit, e, at, newSize);
    PatchParts(prior, cs, lit, e, at, newSize, cs[0], p);
    if k > 0 {
      var c := cs[0];
      OrderAt(cs[1..], c.to + c.len, |prior|, newSize, k - 1);
      PatchInside(prior, cs[1..], lit[c.to - at..], e[c.to - at + c.len..], c.to + c.len, newSize, p, k - 1);
    }
  }

  /** ... and outside them the next literal. */
  lemma {:induction false} PatchOutside(prior: seq<byte>, cs: seq<Cover>, lit: seq<byte>, e: seq<byte>, at: nat, newSize: nat, p: nat)
    requires Sized(cs, lit, e, at, |prior|, newSize) && at <= p < newSize && forall k :: 0 <= k < |cs| ==> !In(cs[k], p)
    ensures 0 <= Before(cs, at, p) < |lit|
    ensures Patch(prior, cs, lit, e, at, newSize)[p - at] == lit[Before(cs, at, p)]
  {
    hide Plus, Patch, InOrder, Covered;
    if cs == [] {
      PatchNone(prior, lit, e, at, newSize);
    } else {
      GapFits(prior, cs, lit, e, at, newSize);
      var c := cs[0];
      PatchParts(prior, cs, lit, e, at, newSize, c, p);
      assert !In(c, p);
      if p >= c.to {
        ShiftIn(cs, p);
        PatchOutside(prior, cs[1..], lit[c.to - at..], e[c.to - at + c.len..], c.to + c.len, newSize, p);
      }
    }
  }

  lemma PatchNone(prior: seq<byte>, lit: seq<byte>, e: seq<byte>, at: nat, newSize: nat)
    requires Sized([], lit, e, at, |prior|, newSize)
    ensures Patch(prior, [], lit, e, at, newSize) == lit && |lit| == newSize - at
  {
  }

  lemma ShiftIn(cs: seq<Cover>, p: nat)
    requires cs != [] && forall k :: 0 <= k < |cs| ==> !In(cs[k], p)
    ensures forall k :: 0 <= k < |cs[1..]| ==> !In(cs[1..][k], p)
  {
    forall k | 0 <= k < |cs[1..]|
      ensures !In(cs[1..][k], p)
    {
      assert cs[1..][k] == cs[k + 1];
    }
  }

  lemma {:induction false} OrderAt(cs: seq<Cover>, at: nat, oldSize: nat, newSize: nat, k: nat)
    requires InOrder(cs, at, oldSize, newSize) && k < |cs|
    ensures at <= cs[k].to
  {
    if k > 0 {
      OrderAt(cs[1..], cs[0].to + cs[0].len, oldSize, newSize, k - 1);
    }
  }

  // ----- the patch applied -----

  datatype Input = Input(prior: seq<byte>, newSize: nat, count: nat, cover: seq<byte>, ctrl: seq<byte>, code: seq<byte>, lit: seq<byte>)

  /** A patch is good when its covers can be read, its difference stream is
      well-formed and as long as the output, and its literals fill the rest. */
  predicate Good(x: Input, b: seq<byte>, count: nat, oldBack: nat, at: nat, r: Rle, lit: seq<byte>) {
    && at <= x.newSize
    && Parse(b, count, oldBack, at, |x.prior|, x.newSize).Some? && Full(r).Some?
    && |Full(r).value| == x.newSize - at
    && |lit| + Covered(Parse(b, count, oldBack, at, |x.prior|, x.newSize).value) == x.newSize - at
  }

  // What a good patch makes.
  function Result(x: Input, b: seq<byte>, count: nat, oldBack: nat, at: nat, r: Rle, lit: seq<byte>): seq<byte> {
    if !Good(x, b, count, oldBack, at, r, lit) then [] else
    ParseInOrder(b, count, oldBack, at, |x.prior|, x.newSize);
    Patch(x.prior, Parse(b, count, oldBack, at, |x.prior|, x.newSize).value, lit, Full(r).value, at, x.newSize)
  }

  // The state of the input after a cover.
  datatype After = After(fits: bool, c: Cover, rest: seq<byte>, bytes: seq<byte>, r: Rle)

  function AfterCover(x: Input, b: seq<byte>, oldBack: nat, at: nat, r: Rle, lit: seq<byte>): (a: After)
    requires at <= x.newSize
    ensures a.fits ==> at <= a.c.to && a.c.to - at <= |lit| && a.c.to + a.c.len <= x.newSize && a.c.from + a.c.len <= |x.prior| && |a.bytes| == a.c.len
  {
    match ParseCover(b, oldBack, at, |x.prior|, x.newSize)
    case None => After(false, Cover(0, 0, 0), [], [], r)
    case Some(p) =>
      if p.cover.to - at > |lit| then After(false, p.cover, [], [], r)
      else match Take(r, p.cover.to - at)
           case None => After(false, p.cover, [], [], r)
           case Some(t) =>
             match Take(t.rest, p.cover.len)
             case None => After(false, p.cover, [], [], r)
             case Some(u) => After(true, p.cover, p.rest, u.bytes, u.rest)
  }

  // The difference stream over a gap and a cover.
  lemma FullAfter(r: Rle, gap: nat, len: nat)
    ensures match Take(r, gap)
            case None => Full(r).None? || |Full(r).value| < gap
            case Some(t) =>
              match Take(t.rest, len)
              case None => Full(r).None? || |Full(r).value| < gap + len
              case Some(u) => Full(r) == Behind(t.bytes + u.bytes, Full(u.rest)) && |t.bytes| == gap && |u.bytes| == len
  {
    hide Full, Take;
    FullTake(r, gap);
    if Take(r, gap).Some? {
      var t := Take(r, gap).value;
      FullTake(t.rest, len);
      if Take(t.rest, len).Some? {
        BehindTwice(t.bytes, Take(t.rest, len).value.bytes, Full(Take(t.rest, len).value.rest));
      }
    }
  }

  lemma ParseNext(x: Input, b: seq<byte>, count: nat, oldBack: nat, at: nat)
    requires count > 0
    ensures var p := ParseCover(b, oldBack, at, |x.prior|, x.newSize);
            match p
            case None => Parse(b, count, oldBack, at, |x.prior|, x.newSize).None?
            case Some(q) =>
              match Parse(q.rest, count - 1, q.cover.from + q.cover.len, q.cover.to + q.cover.len, |x.prior|, x.newSize)
              case None => Parse(b, count, oldBack, at, |x.prior|, x.newSize).None?
              case Some(cs) => Parse(b, count, oldBack, at, |x.prior|, x.newSize) == Some([q.cover] + cs) && Covered([q.cover] + cs) == q.cover.len + Covered(cs)
  {
    hide ParseCover;
    var p := ParseCover(b, oldBack, at, |x.prior|, x.newSize);
    if p.Some? {
      var cs := Parse(p.value.rest, count - 1, p.value.cover.from + p.value.cover.len, p.value.cover.to + p.value.cover.len, |x.prior|, x.newSize);
      if cs.Some? {
        FirstCover(p.value.cover, cs.value);
      }
    }
  }

  // Covers to come take no more than the room to come.
  lemma ParseRoom(x: Input, b: seq<byte>, count: nat, oldBack: nat, at: nat)
    requires at <= x.newSize
    ensures var cs := Parse(b, count, oldBack, at, |x.prior|, x.newSize); cs.Some? ==> at + Covered(cs.value) <= x.newSize
  {
    hide ParseCover, Parse;
    ParseInOrder(b, count, oldBack, at, |x.prior|, x.newSize);
    var cs := Parse(b, count, oldBack, at, |x.prior|, x.newSize);
    if cs.Some? {
      RoomAhead(cs.value, at, |x.prior|, x.newSize);
    }
  }

  lemma GoodStep(x: Input, b: seq<byte>, count: nat, oldBack: nat, at: nat, r: Rle, lit: seq<byte>)
    requires at <= x.newSize && count > 0
    ensures var a := AfterCover(x, b, oldBack, at, r, lit);
            if !a.fits then !Good(x, b, count, oldBack, at, r, lit)
            else Good(x, b, count, oldBack, at, r, lit) <==> Good(x, a.rest, count - 1, a.c.from + a.c.len, a.c.to + a.c.len, a.r, lit[a.c.to - at..])
  {
    hide ParseCover, Take, Full, Covered, Parse;
    ParseNext(x, b, count, oldBack, at);
    var p := ParseCover(b, oldBack, at, |x.prior|, x.newSize);
    if p.Some? {
      var c := p.value.cover;
      FullAfter(r, c.to - at, c.len);
      ParseRoom(x, p.value.rest, count - 1, c.from + c.len, c.to + c.len);
    }
  }

  lemma ResultStep(x: Input, b: seq<byte>, count: nat, oldBack: nat, at: nat, r: Rle, lit: seq<byte>)
    requires at <= x.newSize && count > 0 && Good(x, b, count, oldBack, at, r, lit)
    ensures var a := AfterCover(x, b, oldBack, at, r, lit);
            && a.fits && Good(x, a.rest, count - 1, a.c.from + a.c.len, a.c.to + a.c.len, a.r, lit[a.c.to - at..])
            && Result(x, b, count, oldBack, at, r, lit) ==
               lit[..a.c.to - at] + Added(x.prior[a.c.from..a.c.from + a.c.len], a.bytes)
               + Result(x, a.rest, count - 1, a.c.from + a.c.len, a.c.to + a.c.len, a.r, lit[a.c.to - at..])
  {
    hide ParseCover, Take, Full, Covered, Parse, Patch, Added, InOrder;
    GoodStep(x, b, count, oldBack, at, r, lit);
    ParseNext(x, b, count, oldBack, at);
    ParseInOrder(b, count, oldBack, at, |x.prior|, x.newSize);
    var c := ParseCover(b, oldBack, at, |x.prior|, x.newSize).value;
    var gap, len, at1 := c.cover.to - at, c.cover.len, c.cover.to + c.cover.len;
    ParseInOrder(c.rest, count - 1, c.cover.from + len, at1, |x.prior|, x.newSize);
    FullAfter(r, gap, len);
    var t := Take(r, gap).value;
    var u := Take(t.rest, len).value;
    var cs := Parse(c.rest, count - 1, c.cover.from + len, at1, |x.prior|, x.newSize).value;
    FirstCover(c.cover, cs);
    Slices(t.bytes, u.bytes, Full(u.rest).value);
    PatchIs(x.prior, [c.cover] + cs, lit, Full(r).value, at, x.newSize, c.cover);
  }

  // How one cover moves the input on.
  lemma CoverStep(x: Input, b: seq<byte>, count: nat, oldBack: nat, at: nat, r: Rle, lit: seq<byte>)
    requires at <= x.newSize && count > 0
    ensures var a := AfterCover(x, b, oldBack, at, r, lit);
            if !a.fits then !Good(x, b, count, oldBack, at, r, lit)
            else
              var at1 := a.c.to + a.c.len;
              && (Good(x, b, count, oldBack, at, r, lit) <==> Good(x, a.rest, count - 1, a.c.from + a.c.len, at1, a.r, lit[a.c.to - at..]))
              && (Good(x, b, count, oldBack, at, r, lit) ==>
                    Result(x, b, count, oldBack, at, r, lit) ==
                    lit[..a.c.to - at] + Added(x.prior[a.c.from..a.c.from + a.c.len], a.bytes)
                    + Result(x, a.rest, count - 1, a.c.from + a.c.len, at1, a.r, lit[a.c.to - at..]))
  {
    hide AfterCover, Good, Result, Added;
    GoodStep(x, b, count, oldBack, at, r, lit);
    if Good(x, b, count, oldBack, at, r, lit) {
      ResultStep(x, b, count, oldBack, at, r, lit);
    }
  }

  lemma FirstCover(c: Cover, cs: seq<Cover>)
    ensures Covered([c] + cs) == c.len + Covered(cs) && ([c] + cs)[1..] == cs && ([c] + cs)[0] == c
  {
  }

  lemma Slices(a: seq<byte>, b: seq<byte>, e: seq<byte>)
    ensures (a + b + e)[|a|..|a| + |b|] == b && (a + b + e)[|a| + |b|..] == e
  {
  }

  // The reading of one cover.
  method ReadCover(cover: seq<byte>, oldBack: nat, newBack: nat, oldSize: nat, newSize: nat) returns (r: Option<Parsed>)
    ensures r == ParseCover(cover, oldBack, newBack, oldSize, newSize)
  {
    hide Unpack;
    if |cover| == 0 {
      NothingUnpacks(1);
      return None;
    }
    var sign := cover[0] / 128;
    var inc := UnpackTag(cover, 1);
    if inc.None? {
      return None;
    }
    var copy := UnpackTag(inc.value.rest, 0);
    if copy.None? {
      return None;
    }
    var length := UnpackTag(copy.value.rest, 0);
    if length.None? {
      return None;
    }
    var oldPos: nat;
    if sign == 0 {
      if oldBack + inc.value.value >= U64 {
        return None;
      }
      oldPos := oldBack + inc.value.value;
    } else if inc.value.value > oldBack {
      return None;
    } else {
      oldPos := oldBack - inc.value.value;
    }
    if newBack + copy.value.value >= U64 {
      return None;
    }
    var newPos := newBack + copy.value.value;
    if newPos > newSize || length.value.value > newSize - newPos {
      return None;
    }
    if oldPos > oldSize || length.value.value > oldSize - oldPos {
      return None;
    }
    r := Some(Parsed(Cover(oldPos, newPos, length.value.value), length.value.rest));
  }

  lemma NothingUnpacks(tagBits: nat)
    ensures Unpack([], tagBits).None?
  {
  }

  // Literals, then old bytes with their differences.
  method Fill(out: array<byte>, at: nat, lits: seq<byte>, part: seq<byte>, rle: RleDec) returns (ok: bool)
    requires at + |lits| + |part| <= out.Length
    modifies out, rle
    ensures match Take(old(rle.View()), |lits|)
            case None => !ok
            case Some(t) =>
              match Take(t.rest, |part|)
              case None => !ok
              case Some(u) => ok && rle.View() == u.rest && out[..at + |lits| + |part|] == old(out[..at]) + (lits + Added(part, u.bytes))
  {
    hide Take, Laid, Splice, Added;
    ghost var now := out[..];
    CopyIn(out, at, lits, |lits|);
    ghost var o1, r0 := out[..], rle.View();
    ok := rle.Consume(|lits|, out, 0, false);
    if !ok {
      return;
    }
    LaidFalse(out[..], o1, 0, Take(r0, |lits|).value.bytes);
    CopyIn(out, at + |lits|, part, |part|);
    ghost var o2, r1 := out[..], rle.View();
    ok := rle.Consume(|part|, out, at + |lits|, true);
    if !ok {
      return;
    }
    FillParts(now, o1, o2, out[..], at, lits, part, Take(r1, |part|).value.bytes);
  }

  lemma LaidFalse(o: seq<byte>, was: seq<byte>, at: nat, bs: seq<byte>)
    requires Laid(o, was, at, false, bs)
    ensures o == was
  {
  }

  lemma FillParts(now: seq<byte>, o1: seq<byte>, o2: seq<byte>, o3: seq<byte>, at: nat, lits: seq<byte>, part: seq<byte>, bs: seq<byte>)
    requires at + |lits| + |part| <= |now| && |bs| == |part|
    requires o1 == Splice(now, at, lits[..|lits|]) && o2 == Splice(o1, at + |lits|, part[..|part|]) && Laid(o3, o2, at + |lits|, true, bs)
    ensures o3[..at + |lits| + |part|] == now[..at] + (lits + Added(part, bs))
  {
    var n := at + |lits| + |part|;
    var want := now[..at] + (lits + Added(part, bs));
    forall j | 0 <= j < n
      ensures o3[..n][j] == want[j]
    {
      assert o3[j] == if at + |lits| <= j then Plus(o2[j], bs[j - at - |lits|]) else o2[j];
    }
  }

  // With no covers left, literals fill the rest.
  lemma LastGap(x: Input, b: seq<byte>, oldBack: nat, at: nat, r: Rle, lit: seq<byte>)
    requires at <= x.newSize
    ensures Good(x, b, 0, oldBack, at, r, lit) <==>
              b == [] && |lit| == x.newSize - at && Take(r, x.newSize - at).Some? && Done(Take(r, x.newSize - at).value.rest)
    ensures Good(x, b, 0, oldBack, at, r, lit) ==> Result(x, b, 0, oldBack, at, r, lit) == lit
  {
    hide Take, Full;
    FullTake(r, x.newSize - at);
    if Take(r, x.newSize - at).Some? {
      var t := Take(r, x.newSize - at).value;
      FullDone(t.rest);
      if Full(t.rest).Some? {
        assert |Full(r).value| == |t.bytes| + |Full(t.rest).value|;
      }
    }
  }

  // One turn of the loop over the covers.
  method Turn(x: Input, cover: seq<byte>, oldBack: nat, wrote: nat, litAt: nat, out: array<byte>, rle: RleDec)
    returns (ok: bool, cover': seq<byte>, oldBack': nat, wrote': nat, litAt': nat)
    requires out.Length == x.newSize && wrote <= x.newSize && litAt <= |x.lit|
    modifies out, rle
    ensures var a := AfterCover(x, cover, oldBack, wrote, old(rle.View()), x.lit[litAt..]);
            && ok == a.fits
            && (ok ==>
                  && cover' == a.rest && oldBack' == a.c.from + a.c.len && wrote' == a.c.to + a.c.len && litAt' == litAt + (a.c.to - wrote) <= |x.lit|
                  && rle.View() == a.r && x.lit[litAt'..] == x.lit[litAt..][a.c.to - wrote..]
                  && out[..wrote'] == old(out[..wrote]) + (x.lit[litAt..][..a.c.to - wrote] + Added(x.prior[a.c.from..a.c.from + a.c.len], a.bytes)))
  {
    hide ParseCover, Take, Added, Laid;
    cover', oldBack', wrote', litAt' := cover, oldBack, wrote, litAt;
    var p := ReadCover(cover, oldBack, wrote, |x.prior|, x.newSize);
    if p.None? {
      return false, cover, oldBack, wrote, litAt;
    }
    var c := p.value.cover;
    var gap := c.to - wrote;
    if litAt + gap > |x.lit| {
      return false, cover, oldBack, wrote, litAt;
    }
    ok := Fill(out, wrote, x.lit[litAt..litAt + gap], x.prior[c.from..c.from + c.len], rle);
    if !ok {
      return;
    }
    assert x.lit[litAt..][..gap] == x.lit[litAt..litAt + gap] && x.lit[litAt..][gap..] == x.lit[litAt + gap..];
    cover', litAt', oldBack', wrote' := p.value.rest, litAt + gap, c.from + c.len, c.to + c.len;
  }

  lemma Joined(a: seq<byte>, b: seq<byte>, c: seq<byte>, d: seq<byte>)
    ensures a + (b + c + d) == a + (b + c) + d
  {
  }

  /** applyCovers: it succeeds exactly on good patches, and makes what they say. */
  method ApplyCovers(x: Input) returns (ok: bool, out: array<byte>)
    requires x.newSize < U64 / 2
    ensures ok <==> Good(x, x.cover, x.count, 0, 0, Rle(x.ctrl, x.code, 0, 0, 0), x.lit)
    ensures ok ==> out[..] == Result(x, x.cover, x.count, 0, 0, Rle(x.ctrl, x.code, 0, 0, 0), x.lit)
  {
    hide Good, Result, AfterCover, Take, Added;
    out := new byte[x.newSize];
    var rle := new RleDec(x.ctrl, x.code);
    var cover := x.cover;
    var oldBack: nat, wrote: nat, litAt: nat := 0, 0, 0;
    ghost var first := rle.View();
    assert out[..0] == [] && x.lit[0..] == x.lit;
    for i := 0 to x.count
      invariant out.Length == x.newSize && wrote <= x.newSize && litAt <= |x.lit| && fresh(out) && fresh(rle)
      invariant Good(x, x.cover, x.count, 0, 0, first, x.lit) <==> Good(x, cover, x.count - i, oldBack, wrote, rle.View(), x.lit[litAt..])
      invariant Good(x, x.cover, x.count, 0, 0, first, x.lit) ==>
                  Result(x, x.cover, x.count, 0, 0, first, x.lit) == out[..wrote] + Result(x, cover, x.count - i, oldBack, wrote, rle.View(), x.lit[litAt..])
    {
      CoverStep(x, cover, x.count - i, oldBack, wrote, rle.View(), x.lit[litAt..]);
      ghost var a := AfterCover(x, cover, oldBack, wrote, rle.View(), x.lit[litAt..]);
      ghost var now, lits, good := out[..wrote], x.lit[litAt..], Good(x, cover, x.count - i, oldBack, wrote, rle.View(), x.lit[litAt..]);
      ok, cover, oldBack, wrote, litAt := Turn(x, cover, oldBack, wrote, litAt, out, rle);
      if !ok {
        return;
      }
      if good {
        Joined(now, lits[..a.c.to - |now|], Added(x.prior[a.c.from..a.c.from + a.c.len], a.bytes),
               Result(x, cover, x.count - i - 1, oldBack, wrote, rle.View(), x.lit[litAt..]));
      }
    }
    ok := LastTurn(x, cover, oldBack, wrote, litAt, out, rle);
  }

  // Literals after the last cover; then everything must be used up.
  method LastTurn(x: Input, cover: seq<byte>, ghost oldBack: nat, wrote: nat, litAt0: nat, out: array<byte>, rle: RleDec) returns (ok: bool)
    requires out.Length == x.newSize && wrote <= x.newSize && litAt0 <= |x.lit|
    modifies out, rle
    ensures ok <==> old(Good(x, cover, 0, oldBack, wrote, rle.View(), x.lit[litAt0..]))
    ensures ok ==> out[..] == old(out[..wrote]) + old(Result(x, cover, 0, oldBack, wrote, rle.View(), x.lit[litAt0..]))
  {
    hide Good, Result, Take, Added;
    var litAt := litAt0;
    LastGap(x, cover, oldBack, wrote, rle.View(), x.lit[litAt..]);
    if |cover| != 0 {
      return false;
    }
    var gap := x.newSize - wrote;
    if litAt + gap > |x.lit| {
      return false;
    }
    ghost var r1 := rle.View();
    ok := Fill(out, wrote, x.lit[litAt..litAt + gap], [], rle);
    TakeTurn(if Take(r1, gap).Some? then Take(r1, gap).value.rest else r1, 0);
    if !ok {
      return;
    }
    litAt := litAt + gap;
    if litAt != |x.lit| || !(rle.setLen == 0 && rle.copyLen == 0 && rle.ctrl == [] && rle.code == []) {
      return false;
    }
    assert x.lit[litAt0..litAt] == x.lit[litAt0..];
    assert out[..] == out[..x.newSize];
    NothingAdds([]);
  }

  lemma NothingAdds(s: seq<byte>)
    requires s == []
    ensures Added(s, []) == [] && forall t: seq<byte> :: t + [] == t
  {
  }
}
