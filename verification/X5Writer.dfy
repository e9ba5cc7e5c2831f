/** A patch as a writer lays it down: numbers with tags, covers, runs; and the
    decoder's way back. */
module X5Writer {
  import opened Bytes
  import opened X5Rle
  import opened X5Covers

  // ----- numbers -----

  type digit = d: nat | d < 128

  // Seven bits a digit, the most significant first; what is left on top fits below `unit`.
  function Top(v: nat, unit: nat): (t: nat)
    requires unit > 0
    ensures t < unit
  {
    if v < unit then v else Top(v / 128, unit)
  }

  function Lower(v: nat, unit: nat): seq<digit>
    requires unit > 0
  {
    if v < unit then [] else Lower(v / 128, unit) + [v % 128]
  }

  // Every byte but the last says that more follow.
  function Tail(ds: seq<digit>): seq<byte> {
    if ds == [] then [] else [Marked(ds[0], |ds| > 1)] + Tail(ds[1..])
  }

  function Marked(d: digit, more: bool): byte { if more then d + 128 else d }

  predicate TagOk(tag: nat, tagBits: nat) {
    tagBits <= 2 && tag < if tagBits == 0 then 1 else if tagBits == 1 then 2 else 4
  }

  function HeadByte(tag: nat, tagBits: nat, more: bool, d: nat): (h: byte)
    requires TagOk(tag, tagBits) && d < Unit(tagBits)
    ensures var unit := Unit(tagBits); h / unit % 2 == (if more then 1 else 0) && h % unit == d && h / (2 * unit) == tag
  {
    match tagBits
    case 0 => d + if more then 128 else 0
    case 1 => tag * 128 + d + if more then 64 else 0
    case _ => tag * 64 + d + if more then 32 else 0
  }

  /** A number behind a tag of so many bits. */
  function Pack(tag: nat, tagBits: nat, v: nat): (b: seq<byte>)
    requires TagOk(tag, tagBits)
    ensures b != []
  {
    var ds := Lower(v, Unit(tagBits));
    [HeadByte(tag, tagBits, ds != [], Top(v, Unit(tagBits)))] + Tail(ds)
  }

  // The number the digits say, behind those that say acc.
  function Value(acc: nat, ds: seq<digit>): nat
    decreases |ds|
  {
    if ds == [] then acc else Value(acc * 128 + ds[0], ds[1..])
  }

  lemma {:induction false} ValueSnoc(acc: nat, ds: seq<digit>, d: digit)
    ensures Value(acc, ds + [d]) == Value(acc, ds) * 128 + d
    decreases |ds|
  {
    if ds == [] {
      assert ([] + [d])[1..] == [];
    } else {
      assert (ds + [d])[1..] == ds[1..] + [d];
      ValueSnoc(acc * 128 + ds[0], ds[1..], d);
    }
  }

  lemma {:induction false} ValueGrows(acc: nat, ds: seq<digit>)
    ensures Value(acc, ds) >= acc
    decreases |ds|
  {
    if ds != [] {
      ValueGrows(acc * 128 + ds[0], ds[1..]);
    }
  }

  lemma {:induction false} DigitsValue(v: nat, unit: nat)
    requires unit > 0
    ensures Value(Top(v, unit), Lower(v, unit)) == v
    decreases v
  {
    if v >= unit {
      DigitsValue(v / 128, unit);
      ValueSnoc(Top(v, unit), Lower(v / 128, unit), v % 128);
    }
  }

  lemma {:induction false} TailBack(acc: nat, ds: seq<digit>, rest: seq<byte>)
    requires ds != [] && Value(acc, ds) < U64
    ensures acc < LIMIT && More(Tail(ds) + rest, acc) == Some(Tagged(Value(acc, ds), rest))
    decreases |ds|
  {
    hide Value;
    var v, b := acc * 128 + ds[0], Tail(ds) + rest;
    FirstDigit(acc, ds);
    ValueGrows(v, ds[1..]);
    assert b[0] == Marked(ds[0], |ds| > 1) && b[1..] == Tail(ds[1..]) + rest;
    if |ds| > 1 {
      TailBack(v, ds[1..], rest);
    } else {
      NoMore(v, ds[1..]);
      assert [] + rest == rest;
    }
  }

  lemma FirstDigit(acc: nat, ds: seq<digit>)
    requires ds != []
    ensures Value(acc, ds) == Value(acc * 128 + ds[0], ds[1..])
  {
  }

  lemma NoMore(acc: nat, ds: seq<digit>)
    requires |ds| == 0
    ensures Value(acc, ds) == acc && Tail(ds) == []
  {
  }

  lemma UnitPositive(tagBits: nat)
    ensures Unit(tagBits) > 0
  {
  }

  /** Every number below 2^64 comes back, and its tag. */
  lemma PackBack(tag: nat, tagBits: nat, v: nat, rest: seq<byte>)
    requires TagOk(tag, tagBits) && v < U64
    ensures Unpack(Pack(tag, tagBits, v) + rest, tagBits) == Some(Tagged(v, rest))
    ensures (Pack(tag, tagBits, v) + rest)[0] / (2 * Unit(tagBits)) == tag
  {
    hide Unit, Top, Lower, Tail, Value, HeadByte;
    UnitPositive(tagBits);
    var unit := Unit(tagBits);
    var ds, b := Lower(v, unit), Pack(tag, tagBits, v) + rest;
    DigitsValue(v, unit);
    assert b[1..] == Tail(ds) + rest;
    if ds != [] {
      TailBack(Top(v, unit), ds, rest);
    } else {
      NoMore(Top(v, unit), ds);
      assert [] + rest == rest;
    }
  }

  // ----- covers -----

  // The first file's end of the last cover, as an offset forward or back; the gap; the length.
  function CoverBytes(c: Cover, oldBack: nat, newBack: nat): seq<byte>
    requires newBack <= c.to
  {
    (if c.from < oldBack then Pack(1, 1, oldBack - c.from) else Pack(0, 1, c.from - oldBack))
    + Pack(0, 0, c.to - newBack) + Pack(0, 0, c.len)
  }

  function AllCovers(cs: seq<Cover>, oldBack: nat, newBack: nat, oldSize: nat, newSize: nat): seq<byte>
    requires InOrder(cs, newBack, oldSize, newSize)
  {
    if cs == [] then []
    else CoverBytes(cs[0], oldBack, newBack) + AllCovers(cs[1..], cs[0].from + cs[0].len, cs[0].to + cs[0].len, oldSize, newSize)
  }

  lemma CoverBack(c: Cover, oldBack: nat, newBack: nat, oldSize: nat, newSize: nat, rest: seq<byte>)
    requires newBack <= c.to && c.to + c.len <= newSize < U64 && c.from + c.len <= oldSize < U64 && oldBack < U64
    ensures ParseCover(CoverBytes(c, oldBack, newBack) + rest, oldBack, newBack, oldSize, newSize) == Some(Parsed(c, rest))
  {
    hide Unpack, Pack;
    var back := c.from < oldBack;
    var x := if back then oldBack - c.from else c.from - oldBack;
    var p, q, r := Pack(if back then 1 else 0, 1, x), Pack(0, 0, c.to - newBack), Pack(0, 0, c.len);
    var b := CoverBytes(c, oldBack, newBack) + rest;
    assert b == p + (q + (r + rest));
    PackBack(if back then 1 else 0, 1, x, q + (r + rest));
    PackBack(0, 0, c.to - newBack, r + rest);
    PackBack(0, 0, c.len, rest);
  }

  /** Covers in order come back. */
  lemma {:induction false} CoversBack(cs: seq<Cover>, oldBack: nat, newBack: nat, oldSize: nat, newSize: nat)
    requires InOrder(cs, newBack, oldSize, newSize) && oldSize < U64 && newSize < U64 && oldBack < U64
    ensures Parse(AllCovers(cs, oldBack, newBack, oldSize, newSize), |cs|, oldBack, newBack, oldSize, newSize) == Some(cs)
  {
    hide ParseCover, CoverBytes;
    if cs != [] {
      var c := cs[0];
      RoomAhead(cs[1..], c.to + c.len, oldSize, newSize);
      var rest := AllCovers(cs[1..], c.from + c.len, c.to + c.len, oldSize, newSize);
      CoverBack(c, oldBack, newBack, oldSize, newSize, rest);
      CoversBack(cs[1..], c.from + c.len, c.to + c.len, oldSize, newSize);
      assert [c] + cs[1..] == cs;
    }
  }

  // ----- runs -----

  /** What a record stands for: zeros, bytes of all ones, one byte over and over, or
      bytes as they are. */
  datatype Run = Zeros(n: nat) | Ones(n: nat) | Same(b: byte, n: nat) | Raw(s: seq<byte>)

  function Length(r: Run): nat {
    match r
    case Zeros(n) => n
    case Ones(n) => n
    case Same(_, n) => n
    case Raw(s) => |s|
  }

  predicate RunOk(r: Run) { 0 < Length(r) < U64 }

  function Expand(r: Run): (s: seq<byte>)
    ensures |s| == Length(r)
  {
    match r
    case Zeros(n) => Repeat(0, n)
    case Ones(n) => Repeat(255, n)
    case Same(b, n) => Repeat(b, n)
    case Raw(s) => s
  }

  function Kind(r: Run): (k: nat)
    ensures k < 4
  {
    match r
    case Zeros(_) => 0
    case Ones(_) => 1
    case Same(_, _) => 2
    case Raw(_) => 3
  }

  // The bytes a record needs beside its length.
  function Own(r: Run): seq<byte> {
    match r
    case Same(b, _) => [b]
    case Raw(s) => s
    case _ => []
  }

  function Controls(rs: seq<Run>): seq<byte>
    requires forall r :: r in rs ==> RunOk(r)
  {
    if rs == [] then []
    else
      assert RunOk(rs[0]);
      Pack(Kind(rs[0]), 2, Length(rs[0]) - 1) + Controls(rs[1..])
  }

  function Codes(rs: seq<Run>): seq<byte> {
    if rs == [] then [] else Own(rs[0]) + Codes(rs[1..])
  }

  function Expanded(rs: seq<Run>): seq<byte> {
    if rs == [] then [] else Expand(rs[0]) + Expanded(rs[1..])
  }

  lemma RecordBack(r: Run, ctrl: seq<byte>, code: seq<byte>, v: byte)
    requires RunOk(r)
    ensures var n := Length(r);
            Record(Rle(Pack(Kind(r), 2, n - 1) + ctrl, Own(r) + code, 0, v, 0)) ==
            Some(match r
                 case Zeros(_) => Rle(ctrl, code, n, 0, 0)
                 case Ones(_) => Rle(ctrl, code, n, 255, 0)
                 case Same(b, _) => Rle(ctrl, code, n, b, 0)
                 case Raw(s) => Rle(ctrl, s + code, 0, v, n))
  {
    hide Unpack, Pack;
    PackBack(Kind(r), 2, Length(r) - 1, ctrl);
    assert Own(r) == [] ==> Own(r) + code == code;
    assert r.Same? ==> ([r.b] + code)[1..] == code;
  }

  /** The stream stands for what was written, run after run. */
  lemma {:induction false} RunsBack(rs: seq<Run>, v: byte)
    requires forall r :: r in rs ==> RunOk(r)
    ensures Full(Rle(Controls(rs), Codes(rs), 0, v, 0)) == Some(Expanded(rs))
    decreases |rs|
  {
    hide Record, Pack, Repeat;
    if rs != [] {
      var r, ctrl, code := rs[0], Controls(rs[1..]), Codes(rs[1..]);
      RecordBack(r, ctrl, code, v);
      match r
      case Zeros(_) => RunsBack(rs[1..], 0);
      case Ones(_) => RunsBack(rs[1..], 255);
      case Same(b, _) => RunsBack(rs[1..], b);
      case Raw(s) =>
        RunsBack(rs[1..], v);
        assert (s + code)[..|s|] == s && (s + code)[|s|..] == code;
    }
  }

  // ----- the whole patch -----

  /** A patch of covers in order, runs as long as the output and literals for the rest
      is good, and makes the output those say. */
  lemma PatchBack(prior: seq<byte>, newSize: nat, cs: seq<Cover>, rs: seq<Run>, lit: seq<byte>)
    requires InOrder(cs, 0, |prior|, newSize) && |prior| < U64 && newSize < U64 && (forall r :: r in rs ==> RunOk(r))
    requires |Expanded(rs)| == newSize && |lit| + Covered(cs) == newSize
    ensures var b, first := AllCovers(cs, 0, 0, |prior|, newSize), Rle(Controls(rs), Codes(rs), 0, 0, 0);
            var x := Input(prior, newSize, |cs|, b, Controls(rs), Codes(rs), lit);
            && Good(x, b, |cs|, 0, 0, first, lit) && Sized(cs, lit, Expanded(rs), 0, |prior|, newSize)
            && Result(x, b, |cs|, 0, 0, first, lit) == Patch(prior, cs, lit, Expanded(rs), 0, newSize)
  {
    hide Parse, Full, Patch, Controls, Codes, Expanded, AllCovers;
    CoversBack(cs, 0, 0, |prior|, newSize);
    RunsBack(rs, 0);
  }
}
