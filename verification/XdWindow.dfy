/** Decoding one VCDIFF window: two half-instructions are parsed ahead and then
    carried out, which comes to carrying them out one at a time. */
module XdWindow {
  import opened Bytes
  import opened XdCodes

  datatype Window = Window(cpyLen: nat, cpyOff: nat, tgtLen: nat, data: seq<byte>, inst: seq<byte>, addr: seq<byte>)

  // What reading the window header has checked.
  predicate WindowOk(w: Window) {
    w.cpyLen + w.tgtLen < U32 && w.cpyLen + w.cpyOff < U64
  }

  // ----- one half-instruction -----

  datatype Half = Half(typ: nat, size: nat, addr: nat)

  // Where the parser is: the address of the next byte, and its place in two sections.
  datatype Pos = Pos(here: nat, ip: nat, ap: nat, cache: Cache)

  predicate PosOk(w: Window, p: Pos) {
    WindowOk(w) && p.here <= w.cpyLen + w.tgtLen && p.ip <= |w.inst| && p.ap <= |w.addr| && CacheOk(p.cache)
  }

  datatype Parsed = Parsed(half: Half, pos: Pos)

  function SizeOf(w: Window, size: nat, p: Pos): Option<Read>
    requires PosOk(w, p)
  {
    if size == 0 then ReadU32(w.inst[p.ip..], 0) else Some(Read(size, 0))
  }

  /** parseHalf */
  function Parse(w: Window, typ: nat, size: nat, p: Pos): (r: Option<Parsed>)
    requires PosOk(w, p)
    ensures r.Some? ==>
              && PosOk(w, r.value.pos) && r.value.half.typ == typ && r.value.pos.here == p.here + r.value.half.size && r.value.pos.ip >= p.ip
              && (typ >= CPY ==> r.value.half.addr < p.here && (r.value.half.addr < w.cpyLen ==> r.value.half.addr + r.value.half.size <= w.cpyLen))
  {
    match SizeOf(w, size, p)
    case None => None
    case Some(s) =>
      if typ >= CPY then
        match DecodeAddress(p.cache, p.here, typ - CPY, w.addr[p.ap..])
        case None => None
        case Some(d) =>
          if d.a >= p.here || (d.a < w.cpyLen && d.a + s.val > w.cpyLen) || p.here + s.val > w.cpyLen + w.tgtLen then None
          else Some(Parsed(Half(typ, s.val, d.a), Pos(p.here + s.val, p.ip + s.used, p.ap + d.used, d.cache)))
      else if p.here + s.val > w.cpyLen + w.tgtLen then None
      else Some(Parsed(Half(typ, s.val, 0), p.(here := p.here + s.val, ip := p.ip + s.used)))
  }

  // The target so far, and the place in the data section.
  datatype Made = Made(t: seq<byte>, dp: nat)

  /** A copy addresses the source segment and the target as one string; it may run into what it writes. */
  function CopyOut(t: seq<byte>, src: nat, n: nat): (r: seq<byte>)
    requires n > 0 ==> src < |t|
    ensures |r| == |t| + n && t <= r
    decreases n
  {
    if n == 0 then t else
      var r := CopyOut(t + [t[src]], src + 1, n - 1);
      assert t <= t + [t[src]];
      r
  }

  /** Byte by byte, the target repeats what the address points at. */
  lemma {:induction false} CopyMeans(t: seq<byte>, src: nat, n: nat, k: nat)
    requires src < |t| && k < n
    ensures CopyOut(t, src, n)[|t| + k] == CopyOut(t, src, n)[src + k]
    decreases n
  {
    var t1 := t + [t[src]];
    if k > 0 {
      CopyMeans(t1, src + 1, n - 1, k - 1);
    } else {
      var r := CopyOut(t1, src + 1, n - 1);
      assert r[..|t1|] == t1;
      assert r[|t|] == t1[|t|] && r[src] == t1[src];
    }
  }

  predicate Readable(w: Window, h: Half, m: Made) {
    h.typ > NOOP && m.dp <= |w.data| && |m.t| <= w.tgtLen && (h.typ >= CPY ==> h.addr < w.cpyLen + |m.t| && (h.addr < w.cpyLen ==> h.addr + h.size <= w.cpyLen))
  }

  /** outputHalf */
  function Output(file: seq<byte>, w: Window, h: Half, m: Made): (r: Option<Made>)
    requires WindowOk(w) && Readable(w, h, m)
    ensures r.Some? ==> |r.value.t| == |m.t| + h.size <= w.tgtLen && m.dp <= r.value.dp <= |w.data| && m.t <= r.value.t
  {
    if h.size > w.tgtLen - |m.t| then None
    else if h.typ == RUN then
      if m.dp >= |w.data| then None else Some(Made(m.t + seq(h.size, _ => w.data[m.dp]), m.dp + 1))
    else if h.typ == ADD then
      if h.size > |w.data| - m.dp then None else Some(Made(m.t + w.data[m.dp..m.dp + h.size], m.dp + h.size))
    else if h.addr < w.cpyLen then
      if h.size == 0 then Some(m)
      else
        var pos := w.cpyOff + h.addr;
        if pos > U64 / 2 - 1 || pos + h.size > |file| then None
        else Some(m.(t := m.t + file[pos..pos + h.size]))
    else Some(m.(t := CopyOut(m.t, h.addr - w.cpyLen, h.size)))
  }

  // ----- the window, one half-instruction at a time -----

  datatype State = State(p: Pos, m: Made)

  // Between half-instructions the address of the next byte is where the target ends.
  predicate StateOk(w: Window, s: State) {
    PosOk(w, s.p) && s.m.dp <= |w.data| && s.p.here == w.cpyLen + |s.m.t|
  }

  function OneHalf(file: seq<byte>, w: Window, typ: nat, size: nat, s: State): (r: Option<State>)
    requires StateOk(w, s) && typ > NOOP
    ensures r.Some? ==> StateOk(w, r.value) && r.value.p.ip >= s.p.ip && s.m.t <= r.value.m.t
  {
    match Parse(w, typ, size, s.p)
    case None => None
    case Some(h) =>
      match Output(file, w, h.half, s.m)
      case None => None
      case Some(m) => Some(State(h.pos, m))
  }

  function OneCode(file: seq<byte>, w: Window, s: State): (r: Option<State>)
    requires StateOk(w, s) && s.p.ip < |w.inst|
    ensures r.Some? ==> StateOk(w, r.value) && r.value.p.ip > s.p.ip && s.m.t <= r.value.m.t
  {
    var e := Table(w.inst[s.p.ip]);
    TableSane(w.inst[s.p.ip]);
    match OneHalf(file, w, e.t1, e.s1, s.(p := s.p.(ip := s.p.ip + 1)))
    case None => None
    case Some(s1) => if e.t2 == NOOP then Some(s1) else OneHalf(file, w, e.t2, e.s2, s1)
  }

  function Codes(file: seq<byte>, w: Window, s: State): (r: Option<State>)
    requires StateOk(w, s)
    ensures r.Some? ==> StateOk(w, r.value) && r.value.p.ip == |w.inst|
    decreases |w.inst| - s.p.ip
  {
    if s.p.ip == |w.inst| then Some(s)
    else match OneCode(file, w, s)
         case None => None
         case Some(s1) => Codes(file, w, s1)
  }

  function Start(w: Window): State {
    State(Pos(w.cpyLen, 0, 0, NoCache()), Made([], 0))
  }

  // Every section is used up, and the target is complete.
  predicate Finished(w: Window, s: State) {
    |s.m.t| == w.tgtLen && s.m.dp == |w.data| && s.p.ap == |w.addr|
  }

  /** What a window says: its half-instructions carried out one after another. */
  function Decode(file: seq<byte>, w: Window): (r: Option<seq<byte>>)
    requires WindowOk(w)
    ensures r.Some? ==> |r.value| == w.tgtLen
  {
    match Codes(file, w, Start(w))
    case None => None
    case Some(s) => if Finished(w, s) then Some(s.m.t) else None
  }

  // ----- the same in place -----

  class AddrCache {
    const near: array<nat>
    const same: array<nat>
    var nextSlot: nat

    ghost predicate Valid()
      reads this, near, same
    {
      near != same && CacheOk(View())
    }

    ghost function View(): Cache
      reads this, near, same
    {
      Cache(near[..], same[..], nextSlot)
    }

    constructor ()
      ensures Valid() && View() == NoCache() && fresh(near) && fresh(same)
    {
      near := new nat[NEAR](_ => 0);
      same := new nat[SAME * 256](_ => 0);
      nextSlot := 0;
    }

    /** decodeAddress */
    method Address(here: nat, mode: nat, addr: seq<byte>) returns (ok: bool, val: nat, n: nat)
      requires Valid() && here < U32
      modifies this, near, same
      ensures Valid()
      ensures match DecodeAddress(old(View()), here, mode, addr)
              case None => !ok && View() == old(View())
              case Some(d) => ok && val == d.a && n == d.used && View() == d.cache
    {
      hide ReadU32;
      val, n := 0, 0;
      var m := mode;
      if m < 2 + NEAR {
        var r := ReadInteger(addr);
        if r.None? {
          return false, 0, 0;
        }
        val := r.value.val;
        n := r.value.used;
        if m == 1 {
          val := (here - val) % U32;
        } else if m >= 2 {
          val := (val + near[m - 2]) % U32;
        }
      } else {
        if |addr| == 0 {
          return false, 0, 0;
        }
        m := m - (2 + NEAR);
        if m >= SAME {
          return false, 0, 0;
        }
        val := same[m * 256 + addr[0]];
        n := 1;
      }
      ghost var was := View();
      near[nextSlot] := val;
      nextSlot := (nextSlot + 1) % NEAR;
      same[val % (SAME * 256)] := val;
      assert View() == Remember(was, val);
      ok := true;
    }
  }

  /** parseHalf, in place. */
  method ParseHalf(w: Window, typ: nat, size: nat, here: nat, ip: nat, ap: nat, cache: AddrCache)
    returns (ok: bool, h: Half, here': nat, ip': nat, ap': nat)
    requires cache.Valid() && PosOk(w, Pos(here, ip, ap, cache.View()))
    modifies cache, cache.near, cache.same
    ensures cache.Valid()
    ensures match Parse(w, typ, size, Pos(here, ip, ap, old(cache.View())))
            case None => !ok
            case Some(r) => ok && h == r.half && r.pos == Pos(here', ip', ap', cache.View())
  {
    hide ReadU32, DecodeAddress, CacheOk;
    h, here', ip', ap' := Half(typ, size, 0), here, ip, ap;
    if size == 0 {
      var r := ReadInteger(w.inst[ip..]);
      if r.None? {
        return false, h, here, ip, ap;
      }
      ip' := ip + r.value.used;
      h := h.(size := r.value.val);
    }
    if typ >= CPY {
      var a, n;
      ok, a, n := cache.Address(here, typ - CPY, w.addr[ap..]);
      if !ok {
        return;
      }
      ap' := ap + n;
      h := h.(addr := a);
      if a >= here || (a < w.cpyLen && a + h.size > w.cpyLen) {
        return false, h, here', ip', ap';
      }
    }
    if here + h.size > w.cpyLen + w.tgtLen {
      return false, h, here', ip', ap';
    }
    here' := here + h.size;
    ok := true;
  }

  /** outputHalf, in place. */
  method OutputHalf(out: array<byte>, dst: nat, h: Half, file: seq<byte>, w: Window, dp: nat) returns (ok: bool, n: nat, dp': nat)
    requires WindowOk(w) && out.Length == w.tgtLen && dst <= out.Length && Readable(w, h, Made(out[..dst], dp))
    modifies out
    ensures match Output(file, w, h, Made(old(out[..dst]), dp))
            case None => !ok
            case Some(m) => ok && dst + n <= out.Length && m == Made(out[..dst + n], dp')
  {
    n, dp' := 0, dp;
    var take := h.size;
    if take > out.Length - dst {
      return false, 0, dp;
    }
    ghost var t := out[..dst];
    if h.typ == RUN {
      if dp >= |w.data| {
        return false, 0, dp;
      }
      var b := w.data[dp];
      dp' := dp + 1;
      for i := 0 to take
        invariant out[..dst] == t && forall k :: dst <= k < dst + i ==> out[k] == b
      {
        out[dst + i] := b;
      }
      assert out[..dst + take] == t + seq(take, _ => b);
    } else if h.typ == ADD {
      if take > |w.data| - dp {
        return false, 0, dp;
      }
      CopyIn(out, dst, w.data[dp..dp + take], take);
      assert out[..dst + take] == t + w.data[dp..dp + take];
      dp' := dp + take;
    } else if h.addr < w.cpyLen {
      if take == 0 {
        return true, 0, dp;
      }
      var pos := w.cpyOff + h.addr;
      if pos > U64 / 2 - 1 || pos + take > |file| {
        return false, 0, dp;
      }
      CopyIn(out, dst, file[pos..pos + take], take);
      assert out[..dst + take] == t + file[pos..pos + take];
    } else {
      CopyTarget(out, dst, h.addr - w.cpyLen, take);
    }
    return true, take, dp';
  }

  method CopyTarget(out: array<byte>, dst: nat, src: nat, take: nat)
    requires src < dst && dst + take <= out.Length
    modifies out
    ensures out[..dst + take] == CopyOut(old(out[..dst]), src, take)
  {
    ghost var t := out[..dst];
    assert out[..dst + 0] == t;
    for i := 0 to take
      invariant |out[..dst + i]| == dst + i && CopyOut(t, src, take) == CopyOut(out[..dst + i], src + i, take - i)
    {
      ghost var now := out[..dst + i];
      out[dst + i] := out[src + i];
      assert out[..dst + i + 1] == now + [now[src + i]];
    }
  }

  // One code of the table, both halves parsed before either is carried out.
  lemma CodeSplits(file: seq<byte>, w: Window, s: State)
    requires StateOk(w, s) && s.p.ip < |w.inst|
    ensures var e := Table(w.inst[s.p.ip]); var p := s.p.(ip := s.p.ip + 1);
            && e.t1 > NOOP && PosOk(w, p)
            && match Parse(w, e.t1, e.s1, p)
               case None => OneCode(file, w, s).None?
               case Some(h1) =>
                 if e.t2 > NOOP && Parse(w, e.t2, e.s2, h1.pos).None? then OneCode(file, w, s).None?
                 else
                   Readable(w, h1.half, s.m) &&
                   match Output(file, w, h1.half, s.m)
                   case None => OneCode(file, w, s).None?
                   case Some(m1) =>
                     if e.t2 == NOOP then OneCode(file, w, s) == Some(State(h1.pos, m1))
                     else
                       var h2 := Parse(w, e.t2, e.s2, h1.pos).value;
                       && Readable(w, h2.half, m1)
                       && match Output(file, w, h2.half, m1)
                          case None => OneCode(file, w, s).None?
                          case Some(m2) => OneCode(file, w, s) == Some(State(h2.pos, m2))
  {
    hide Parse, Output, Table, PosOk;
    TableSane(w.inst[s.p.ip]);
    Advance(w, s);
  }

  lemma Advance(w: Window, s: State)
    requires StateOk(w, s) && s.p.ip < |w.inst|
    ensures PosOk(w, s.p.(ip := s.p.ip + 1)) && |s.m.t| <= w.tgtLen
  {
  }

  // The halves of one code, the second for what the first has left.
  method OutputBoth(out: array<byte>, dst: nat, h1: Half, h2: Half, file: seq<byte>, w: Window, dp: nat) returns (ok: bool, dst': nat, dp': nat)
    requires WindowOk(w) && out.Length == w.tgtLen && dst <= out.Length && h1.typ != NOOP && Readable(w, h1, Made(out[..dst], dp))
    requires var m1 := Output(file, w, h1, Made(out[..dst], dp)); m1.Some? && h2.typ != NOOP ==> Readable(w, h2, m1.value)
    modifies out
    ensures match Output(file, w, h1, Made(old(out[..dst]), dp))
            case None => !ok
            case Some(m1) =>
              if h2.typ == NOOP then ok && dst' <= out.Length && m1 == Made(out[..dst'], dp')
              else Readable(w, h2, m1) && match Output(file, w, h2, m1)
                                          case None => !ok
                                          case Some(m2) => ok && dst' <= out.Length && m2 == Made(out[..dst'], dp')
  {
    hide Output, Readable;
    dst', dp' := dst, dp;
    var n: nat;
    if h1.typ != NOOP {
      ok, n, dp' := OutputHalf(out, dst', h1, file, w, dp');
      if !ok {
        return;
      }
      dst' := dst' + n;
    }
    if h2.typ != NOOP {
      ok, n, dp' := OutputHalf(out, dst', h2, file, w, dp');
      if !ok {
        return;
      }
      dst' := dst' + n;
    }
  }

  /** emitWindow: it succeeds exactly when the half-instructions can be carried
      out one at a time and use everything up, and writes what they say. */
  method EmitWindow(out: array<byte>, w: Window, file: seq<byte>) returns (ok: bool)
    requires WindowOk(w) && out.Length == w.tgtLen
    modifies out
    ensures ok <==> Decode(file, w).Some?
    ensures ok ==> out[..] == Decode(file, w).value
  {
    hide Parse, Output, Table, OneCode, PosOk, Codes, StateOk, Readable;
    var cache := new AddrCache();
    var tbl := BuildTable();
    var here: nat, ip: nat, ap: nat, dp: nat, dst: nat := w.cpyLen, 0, 0, 0, 0;
    ghost var s := Start(w);
    StartOk(w);
    while ip < |w.inst|
      invariant cache.Valid() && fresh(cache) && fresh(cache.near) && fresh(cache.same)
      invariant StateOk(w, s) && s.p == Pos(here, ip, ap, cache.View()) && dst <= out.Length && s.m == Made(out[..dst], dp)
      invariant tbl.Length == 256 && (forall k :: 0 <= k < 256 ==> tbl[k] == Table(k)) && ip <= |w.inst|
      invariant Codes(file, w, Start(w)) == Codes(file, w, s)
      decreases |w.inst| - ip
    {
      CodeSplits(file, w, s);
      CodesStep(file, w, s);
      var e := tbl[w.inst[ip]];
      ip := ip + 1;
      var h1: Half, h2: Half := Half(e.t1, e.s1, 0), Half(e.t2, e.s2, 0);
      if h1.typ != NOOP {
        ok, h1, here, ip, ap := ParseHalf(w, h1.typ, h1.size, here, ip, ap, cache);
        if !ok {
          return;
        }
      }
      if h2.typ != NOOP {
        ok, h2, here, ip, ap := ParseHalf(w, h2.typ, h2.size, here, ip, ap, cache);
        if !ok {
          return;
        }
      }
      ok, dst, dp := OutputBoth(out, dst, h1, h2, file, w, dp);
      if !ok {
        return;
      }
      s := OneCode(file, w, s).value;
      StateBounds(w, s);
    }
    CodesEnd(file, w, s);
    if dst != out.Length || dp != |w.data| || ap != |w.addr| {
      return false;
    }
    assert out[..dst] == out[..];
    ok := true;
  }

  lemma CodesStep(file: seq<byte>, w: Window, s: State)
    requires StateOk(w, s) && s.p.ip < |w.inst|
    ensures match OneCode(file, w, s) case None => Codes(file, w, s).None? case Some(s1) => StateOk(w, s1) && Codes(file, w, s) == Codes(file, w, s1)
  {
  }

  lemma CodesEnd(file: seq<byte>, w: Window, s: State)
    requires StateOk(w, s)
    ensures s.p.ip == |w.inst| ==> Codes(file, w, s) == Some(s)
  {
  }

  lemma StateBounds(w: Window, s: State)
    requires StateOk(w, s)
    ensures s.p.ip <= |w.inst| && |s.m.t| <= w.tgtLen
  {
  }

  lemma StartOk(w: Window)
    requires WindowOk(w)
    ensures StateOk(w, Start(w))
  {
  }
}
