/** Windows written by an encoder, with whatever codes it chooses, decode to what its
    instructions say. */
module XdRoundTrip {
  import opened Bytes
  import opened XdCodes
  import opened XdWindow

  datatype Instr = Run(n: nat, b: byte) | Add(bytes: seq<byte>) | Copy(n: nat, a: nat, mode: nat)

  datatype Sections = Sections(inst: seq<byte>, addr: seq<byte>, data: seq<byte>)

  // Where a window goes: its source segment in the file, and the size of its target.
  datatype Frame = Frame(file: seq<byte>, cpyOff: nat, cpyLen: nat, tgtLen: nat)

  function Length(i: Instr): nat {
    match i
    case Run(n, _) => n
    case Add(bytes) => |bytes|
    case Copy(n, _, _) => n
  }

  /** An instruction that makes sense when the target is t, and its address has the mode. */
  predicate Allowed(f: Frame, t: seq<byte>, c: Cache, i: Instr) {
    && CacheOk(c) && |t| + Length(i) <= f.tgtLen
    && (i.Copy? ==>
          && CanEncode(c, f.cpyLen + |t|, i.mode, i.a)
          && (i.a < f.cpyLen ==> i.a + i.n <= f.cpyLen && f.cpyOff + i.a < U64 / 2 && f.cpyOff + i.a + i.n <= |f.file|))
  }

  function Next(f: Frame, t: seq<byte>, c: Cache, i: Instr): seq<byte>
    requires Allowed(f, t, c, i)
  {
    match i
    case Run(n, b) => t + seq(n, _ => b)
    case Add(bytes) => t + bytes
    case Copy(n, a, _) => if a < f.cpyLen then t + f.file[f.cpyOff + a..f.cpyOff + a + n] else CopyOut(t, a - f.cpyLen, n)
  }

  function NextCache(c: Cache, i: Instr): Cache
    requires CacheOk(c) && (i.Copy? ==> i.a < U32)
  {
    if i.Copy? then Remember(c, i.a) else c
  }

  predicate AllAllowed(f: Frame, t: seq<byte>, c: Cache, list: seq<Instr>)
    decreases |list|
  {
    if list == [] then |t| == f.tgtLen && CacheOk(c)
    else Allowed(f, t, c, list[0]) && AllAllowed(f, Next(f, t, c, list[0]), NextCache(c, list[0]), list[1..])
  }

  /** The target the instructions make. */
  function Exec(f: Frame, t: seq<byte>, c: Cache, list: seq<Instr>): seq<byte>
    requires AllAllowed(f, t, c, list)
    decreases |list|
  {
    if list == [] then t else Exec(f, Next(f, t, c, list[0]), NextCache(c, list[0]), list[1..])
  }

  // ----- the encoder -----

  function Type(i: Instr): nat {
    match i
    case Run(_, _) => RUN
    case Add(_) => ADD
    case Copy(_, _, mode) => CPY + mode
  }

  /** A code, for one instruction or for two. */
  datatype Step = Step(code: byte, first: Instr, second: Option<Instr>)

  // Half a table entry can stand for an instruction: the type is right, and the size
  // is too, or is written out.
  predicate Half1(typ: nat, size: nat, i: Instr) {
    typ == Type(i) && (size == 0 || size == Length(i))
  }

  /** The table's entry for the code says these instructions. */
  predicate Says(st: Step) {
    var e := Table(st.code);
    Half1(e.t1, e.s1, st.first) && if st.second.None? then e.t2 == NOOP else Half1(e.t2, e.s2, st.second.value)
  }

  function Pair(st: Step): seq<Instr> {
    [st.first] + if st.second.None? then [] else [st.second.value]
  }

  /** The instructions of all the steps. */
  function Flat(steps: seq<Step>): seq<Instr> {
    if steps == [] then [] else Pair(steps[0]) + Flat(steps[1..])
  }

  lemma FlatParts(steps: seq<Step>)
    requires steps != []
    ensures Flat(steps) != [] && Flat(steps)[0] == steps[0].first
    ensures Flat(steps)[1..] == (if steps[0].second.None? then [] else [steps[0].second.value]) + Flat(steps[1..])
    ensures steps[0].second.None? ==> Flat(steps)[1..] == Flat(steps[1..])
    ensures steps[0].second.Some? ==> Flat(steps)[1..] != [] && Flat(steps)[1..][0] == steps[0].second.value && Flat(steps)[1..][1..] == Flat(steps[1..])
  {
    assert Flat(steps) == [steps[0].first] + ((if steps[0].second.None? then [] else [steps[0].second.value]) + Flat(steps[1..]));
  }

  /** What one instruction puts into the sections, when its code says that size, or 0. */
  function One(f: Frame, t: seq<byte>, c: Cache, i: Instr, size: nat): Sections
    requires Allowed(f, t, c, i)
  {
    var n := if size == 0 then WriteU32(Length(i)) else [];
    match i
    case Run(_, b) => Sections(n, [], [b])
    case Add(bytes) => Sections(n, [], bytes)
    case Copy(_, a, mode) => Sections(n, EncodeAddress(c, f.cpyLen + |t|, mode, a), [])
  }

  function Joined(a: Sections, b: Sections): Sections {
    Sections(a.inst + b.inst, a.addr + b.addr, a.data + b.data)
  }

  /** The encoder: code, sizes where the code leaves them out, addresses and data. */
  function Encode(f: Frame, t: seq<byte>, c: Cache, steps: seq<Step>): Sections
    requires AllAllowed(f, t, c, Flat(steps)) && forall st :: st in steps ==> Says(st)
    decreases |steps|
  {
    if steps == [] then Sections([], [], [])
    else
      FlatParts(steps);
      var st := steps[0];
      assert st in steps && Says(st);
      var e, i := Table(st.code), st.first;
      var t1, c1, o := Next(f, t, c, i), NextCache(c, i), One(f, t, c, i, e.s1);
      assert AllAllowed(f, t1, c1, Flat(steps)[1..]);
      var code := Sections([st.code], [], []);
      if st.second.None? then Joined(code, Joined(o, Encode(f, t1, c1, steps[1..])))
      else
        var i2 := st.second.value;
        Joined(code, Joined(o, Joined(One(f, t1, c1, i2, e.s2), Encode(f, Next(f, t1, c1, i2), NextCache(c1, i2), steps[1..]))))
  }

  function WindowOf(f: Frame, s: Sections): Window {
    Window(f.cpyLen, f.cpyOff, f.tgtLen, s.data, s.inst, s.addr)
  }

  // What is left of the sections, from the decoder's state on.
  predicate Ahead(w: Window, s: State, r: Sections) {
    StateOk(w, s) && w.inst[s.p.ip..] == r.inst && w.addr[s.p.ap..] == r.addr && w.data[s.m.dp..] == r.data
  }

  predicate Fits(f: Frame, w: Window) {
    WindowOk(w) && w.cpyLen == f.cpyLen && w.cpyOff == f.cpyOff && w.tgtLen == f.tgtLen
  }

  lemma Tail(s: seq<byte>, p: nat, a: seq<byte>, b: seq<byte>)
    requires p <= |s| && s[p..] == a + b
    ensures p + |a| <= |s| && s[p + |a|..] == b && s[p..p + |a|] == a
  {
    assert s[p..][|a|..] == s[p + |a|..];
    assert s[p..][..|a|] == s[p..p + |a|];
  }

  // The size is found, in the code or behind it.
  lemma SizeBack(f: Frame, w: Window, t: seq<byte>, c: Cache, i: Instr, size: nat, r: Sections, s: State)
    requires Fits(f, w) && Allowed(f, t, c, i) && (size == 0 || size == Length(i)) && Ahead(w, s, Joined(One(f, t, c, i, size), r))
    ensures SizeOf(w, size, s.p) == Some(Read(Length(i), |One(f, t, c, i, size).inst|))
  {
    hide ReadU32, WriteU32, EncodeAddress;
    if size == 0 {
      ReadWrite(Length(i), r.inst);
    }
  }

  // The decoder parses the instruction just as it was written.
  lemma ParseBack(f: Frame, w: Window, t: seq<byte>, c: Cache, i: Instr, size: nat, r: Sections, s: State)
    requires Fits(f, w) && Allowed(f, t, c, i) && s.m.t == t && s.p.cache == c && (size == 0 || size == Length(i))
    requires Ahead(w, s, Joined(One(f, t, c, i, size), r))
    ensures var o := One(f, t, c, i, size);
            Parse(w, Type(i), size, s.p) == Some(Parsed(Half(Type(i), Length(i), if i.Copy? then i.a else 0),
              Pos(s.p.here + Length(i), s.p.ip + |o.inst|, s.p.ap + |o.addr|, NextCache(c, i))))
  {
    hide ReadU32, WriteU32, DecodeAddress, EncodeAddress, Remember, SizeOf;
    var o := One(f, t, c, i, size);
    SizeBack(f, w, t, c, i, size, r, s);
    Tail(w.addr, s.p.ap, o.addr, r.addr);
    if i.Copy? {
      AddressBack(c, f.cpyLen + |t|, i.mode, i.a, r.addr);
    }
  }

  // ... and carries it out.
  lemma OutputBack(f: Frame, w: Window, t: seq<byte>, c: Cache, i: Instr, size: nat, r: Sections, s: State)
    requires Fits(f, w) && Allowed(f, t, c, i) && s.m.t == t && Ahead(w, s, Joined(One(f, t, c, i, size), r))
    ensures var h := Half(Type(i), Length(i), if i.Copy? then i.a else 0);
            Readable(w, h, s.m) && Output(f.file, w, h, s.m) == Some(Made(Next(f, t, c, i), s.m.dp + |One(f, t, c, i, size).data|))
  {
    hide WriteU32, EncodeAddress, CopyOut;
    var o := One(f, t, c, i, size);
    Tail(w.data, s.m.dp, o.data, r.data);
    match i
    case Run(n, b) =>
      assert w.data[s.m.dp] == w.data[s.m.dp..][0] == b;
      assert seq(n, _ => w.data[s.m.dp]) == seq(n, _ => b);
    case Add(bytes) =>
    case Copy(n, a, mode) =>
      if a < f.cpyLen && n == 0 {
        assert t + f.file[f.cpyOff + a..f.cpyOff + a + n] == t;
      }
  }

  lemma HalfBack(f: Frame, w: Window, t: seq<byte>, c: Cache, i: Instr, size: nat, r: Sections, s: State)
    requires Fits(f, w) && Allowed(f, t, c, i) && s.m.t == t && s.p.cache == c && (size == 0 || size == Length(i))
    requires Ahead(w, s, Joined(One(f, t, c, i, size), r))
    ensures var s1 := OneHalf(f.file, w, Type(i), size, s);
            s1.Some? && Ahead(w, s1.value, r) && s1.value.m.t == Next(f, t, c, i) && s1.value.p.cache == NextCache(c, i)
  {
    hide Parse, Output, WriteU32, EncodeAddress, Next, NextCache, Readable;
    ParseBack(f, w, t, c, i, size, r, s);
    OutputBack(f, w, t, c, i, size, r, s);
    var o := One(f, t, c, i, size);
    Tail(w.inst, s.p.ip, o.inst, r.inst);
    Tail(w.addr, s.p.ap, o.addr, r.addr);
    Tail(w.data, s.m.dp, o.data, r.data);
  }

  // The code is read, and its halves are ahead.
  lemma CodeBack(w: Window, s: State, code: byte, r: Sections)
    requires Ahead(w, s, Joined(Sections([code], [], []), r))
    ensures s.p.ip < |w.inst| && w.inst[s.p.ip] == code && Ahead(w, s.(p := s.p.(ip := s.p.ip + 1)), r)
  {
    Tail(w.inst, s.p.ip, [code], r.inst);
    assert w.inst[s.p.ip] == w.inst[s.p.ip..][0];
    assert [] + r.addr == r.addr && [] + r.data == r.data;
  }

  lemma {:induction false} CodesBack(f: Frame, w: Window, t: seq<byte>, c: Cache, steps: seq<Step>, s: State)
    requires Fits(f, w) && AllAllowed(f, t, c, Flat(steps)) && (forall st :: st in steps ==> Says(st))
    requires s.m.t == t && s.p.cache == c && Ahead(w, s, Encode(f, t, c, steps))
    ensures var e := Codes(f.file, w, s); e.Some? && e.value.m.t == Exec(f, t, c, Flat(steps)) && Finished(w, e.value)
    decreases |steps|
  {
    hide OneHalf, Next, NextCache, One, Table, StateOk, Flat;
    if steps == [] {
      FlatNone();
      LastBack(f, w, t, c, s);
    } else {
      FlatParts(steps);
      var st := steps[0];
      assert st in steps && Says(st);
      var e, i, later := Table(st.code), st.first, steps[1..];
      var t1, c1 := Next(f, t, c, i), NextCache(c, i);
      assert AllAllowed(f, t1, c1, Flat(steps)[1..]);
      if st.second.None? {
        var r := Encode(f, t1, c1, later);
        CodeBack(w, s, st.code, Joined(One(f, t, c, i, e.s1), r));
        var s0 := s.(p := s.p.(ip := s.p.ip + 1));
        HalfBack(f, w, t, c, i, e.s1, r, s0);
        CodesBack(f, w, t1, c1, later, OneHalf(f.file, w, e.t1, e.s1, s0).value);
      } else {
        var i2 := st.second.value;
        var r := Encode(f, Next(f, t1, c1, i2), NextCache(c1, i2), later);
        CodeBack(w, s, st.code, Joined(One(f, t, c, i, e.s1), Joined(One(f, t1, c1, i2, e.s2), r)));
        var s0 := s.(p := s.p.(ip := s.p.ip + 1));
        HalfBack(f, w, t, c, i, e.s1, Joined(One(f, t1, c1, i2, e.s2), r), s0);
        var s1 := OneHalf(f.file, w, e.t1, e.s1, s0).value;
        HalfBack(f, w, t1, c1, i2, e.s2, r, s1);
        CodesBack(f, w, Next(f, t1, c1, i2), NextCache(c1, i2), later, OneHalf(f.file, w, e.t2, e.s2, s1).value);
      }
    }
  }

  lemma LastBack(f: Frame, w: Window, t: seq<byte>, c: Cache, s: State)
    requires Fits(f, w) && AllAllowed(f, t, c, []) && s.m.t == t && Ahead(w, s, Sections([], [], []))
    ensures Codes(f.file, w, s) == Some(s) && Finished(w, s) && Exec(f, t, c, []) == t
  {
  }

  lemma FlatNone()
    ensures Flat([]) == []
  {
  }

  /** An encoded window decodes to the target its instructions make, whichever codes
      of the table the encoder has used for them. */
  lemma WindowBack(f: Frame, steps: seq<Step>)
    requires AllAllowed(f, [], NoCache(), Flat(steps)) && f.cpyLen + f.tgtLen < U32 && f.cpyLen + f.cpyOff < U64
    requires forall st :: st in steps ==> Says(st)
    ensures Decode(f.file, WindowOf(f, Encode(f, [], NoCache(), steps))) == Some(Exec(f, [], NoCache(), Flat(steps)))
  {
    hide Encode, Exec, Flat, Says, AllAllowed;
    var e := Encode(f, [], NoCache(), steps);
    var w := WindowOf(f, e);
    assert w.inst[0..] == e.inst && w.addr[0..] == e.addr && w.data[0..] == e.data;
    CodesBack(f, w, [], NoCache(), steps, Start(w));
  }

  // ----- every list of instructions can be written -----

  function PlainCode(i: Instr): byte
    requires i.Copy? ==> i.mode < MODES
  {
    match i
    case Run(_, _) => 0
    case Add(_) => 1
    case Copy(_, _, mode) => 19 + 16 * mode
  }

  /** One code for each instruction, all sizes written out. */
  function Plain(list: seq<Instr>): seq<Step>
    requires forall i :: i in list && i.Copy? ==> i.mode < MODES
  {
    if list == [] then [] else [Step(PlainCode(list[0]), list[0], None)] + Plain(list[1..])
  }

  lemma {:induction false} PlainSays(list: seq<Instr>)
    requires forall i :: i in list && i.Copy? ==> i.mode < MODES
    ensures Flat(Plain(list)) == list && forall st :: st in Plain(list) ==> Says(st)
  {
    hide Table;
    if list != [] {
      PlainSays(list[1..]);
      PlainTable(list[0]);
      assert [list[0]] + list[1..] == list;
      assert Plain(list)[1..] == Plain(list[1..]);
    }
  }

  lemma PlainTable(i: Instr)
    requires i.Copy? ==> i.mode < MODES
    ensures Table(PlainCode(i)) == Single(Type(i), 0)
  {
    if i.Copy? {
      TableCopies(i.mode, 0);
    }
  }
}
