/** The byte layout of the Future-LZ kernel's side data: the match records of a
    block's statistics, and the records of a spilled block. */
module SpillFormat {
  import opened Bytes
  import opened MatchHeap

  const NO_LENGTH: nat := 0xffff_ffff

  // ----- match statistics of one block -----

  predicate GoodMatch(m: Match, pos: nat, blockEnd: nat) {
    pos <= m.src < blockEnd && m.length <= blockEnd - m.src && m.src < m.dest
  }

  // One 16-byte record: literals to skip, offset to the destination (64 bits), extra length.
  function StatMatch(stat: seq<byte>, base: nat, pos: nat): Match
    requires |stat| >= 16
  {
    var src := (pos + UnLe(stat[0..4])) % U64;
    Match(src, (src + UnLe(stat[4..8]) + U32 * UnLe(stat[8..12])) % U64, (UnLe(stat[12..16]) + base) % U32)
  }

  /** The matches the records say, or None when one does not fit its block.
      Fewer than 16 bytes at the end are ignored. */
  function Stats(stat: seq<byte>, base: nat, pos: nat, blockEnd: nat): Option<seq<Match>>
  {
    if |stat| < 16 then Some([])
    else
      var m := StatMatch(stat, base, pos);
      if !GoodMatch(m, pos, blockEnd) then None
      else match Stats(stat[16..], base, m.src, blockEnd)
           case None => None
           case Some(rest) => Some([m] + rest)
  }

  // What the kernel relies on: sources lie in the block, destinations after their sources.
  predicate InBlock(m: Match, blockStart: nat, blockEnd: nat) {
    blockStart <= m.src && m.src + m.length <= blockEnd && m.src < m.dest < U64 && m.length < U32 && m.src < U64
  }

  predicate AllInBlock(ms: seq<Match>, blockStart: nat, blockEnd: nat) {
    forall k :: 0 <= k < |ms| ==> InBlock(ms[k], blockStart, blockEnd)
  }

  lemma {:induction false} StatsInBlock(stat: seq<byte>, base: nat, pos: nat, blockEnd: nat)
    ensures var r := Stats(stat, base, pos, blockEnd); r.Some? ==> AllInBlock(r.value, pos, blockEnd)
  {
    hide UnLe;
    if |stat| >= 16 {
      var m := StatMatch(stat, base, pos);
      if GoodMatch(m, pos, blockEnd) {
        StatsInBlock(stat[16..], base, m.src, blockEnd);
        var rest := Stats(stat[16..], base, m.src, blockEnd);
        if rest.Some? {
          FirstInBlock(m, rest.value, pos, blockEnd);
        }
      }
    }
  }

  lemma FirstInBlock(m: Match, rest: seq<Match>, pos: nat, blockEnd: nat)
    requires InBlock(m, pos, blockEnd) && pos <= m.src && AllInBlock(rest, m.src, blockEnd)
    ensures AllInBlock([m] + rest, pos, blockEnd)
  {
    forall k | 0 <= k < |[m] + rest|
      ensures InBlock(([m] + rest)[k], pos, blockEnd)
    {
      assert k > 0 ==> ([m] + rest)[k] == rest[k - 1];
    }
  }

  lemma {:induction false} StatsSplit(stat: seq<byte>, base: nat, pos: nat, blockEnd: nat, out: seq<Match>, rest: seq<byte>, at: nat)
    requires |rest| >= 16 && GoodMatch(StatMatch(rest, base, at), at, blockEnd)
    requires Stats(stat, base, pos, blockEnd) == Join(out, Stats(rest, base, at, blockEnd))
    ensures var m := StatMatch(rest, base, at);
            Stats(stat, base, pos, blockEnd) == Join(out + [m], Stats(rest[16..], base, m.src, blockEnd))
  {
    var m := StatMatch(rest, base, at);
    var tail := Stats(rest[16..], base, m.src, blockEnd);
    if tail.Some? {
      assert out + ([m] + tail.value) == out + [m] + tail.value;
    }
  }

  function Join(out: seq<Match>, rest: Option<seq<Match>>): Option<seq<Match>> {
    match rest
    case None => None
    case Some(r) => Some(out + r)
  }

  method DecodeStats(stat: seq<byte>, base: nat, blockStart: nat, blockEnd: nat) returns (r: Option<seq<Match>>)
    requires blockStart <= blockEnd < U64
    ensures r == Stats(stat, base, blockStart, blockEnd)
    ensures base < U32 ==> forall ms :: r == Some(ms) <==> Records(stat, base, blockStart, blockEnd, ms)
  {
    hide Records;
    if base < U32 {
      forall ms
        ensures Stats(stat, base, blockStart, blockEnd) == Some(ms) <==> Records(stat, base, blockStart, blockEnd, ms)
      {
        StatsIff(stat, base, blockStart, blockEnd, ms);
      }
    }
    var out: seq<Match> := [];
    var rest := stat;
    var pos: nat := blockStart;
    JoinUnits(out, Stats(stat, base, pos, blockEnd));
    while |rest| >= 16
      invariant pos <= blockEnd
      invariant Stats(stat, base, blockStart, blockEnd) == Join(out, Stats(rest, base, pos, blockEnd))
    {
      var lit := UnLe(rest[0..4]);
      var off := UnLe(rest[4..8]) + U32 * UnLe(rest[8..12]);
      var length := (UnLe(rest[12..16]) + base) % U32;
      var src := (pos + lit) % U64;
      var dest := (src + off) % U64;
      assert StatMatch(rest, base, pos) == Match(src, dest, length);
      if src < pos || src >= blockEnd || length > blockEnd - src || dest <= src {
        return None;
      }
      StatsSplit(stat, base, blockStart, blockEnd, out, rest, pos);
      out := out + [Match(src, dest, length)];
      rest := rest[16..];
      pos := src;
    }
    JoinUnits(out, None);
    return Some(out);
  }

  lemma JoinUnits(out: seq<Match>, rest: Option<seq<Match>>)
    ensures Join([], rest) == rest && Join(out, Some([])) == Some(out)
  {
    assert rest.Some? ==> [] + rest.value == rest.value;
    assert out + [] == out;
  }

  // ----- statistics as a writer lays them out -----

  /** The matches a block from pos to blockEnd can record: in the order of their
      sources, within the block, ahead of their sources, the skips below 2^32. */
  predicate Recordable(ms: seq<Match>, pos: nat, blockEnd: nat) {
    ms == [] ||
    var m := ms[0];
    && pos <= m.src < blockEnd && m.src + m.length <= blockEnd && m.src < m.dest < U64
    && m.length < U32 && m.src - pos < U32 && Recordable(ms[1..], m.src, blockEnd)
  }

  // The literals since the last source; the way to the destination, low half first;
  // the length beyond the least one.
  function RecordBytes(m: Match, base: nat, pos: nat): (s: seq<byte>)
    requires pos <= m.src <= m.dest
    ensures |s| == 16
  {
    Le(m.src - pos, 4) + Le((m.dest - m.src) % U32, 4) + Le((m.dest - m.src) / U32, 4) + Le((m.length - base) % U32, 4)
  }

  function StatBytes(ms: seq<Match>, base: nat, pos: nat, blockEnd: nat): (s: seq<byte>)
    requires Recordable(ms, pos, blockEnd)
    ensures |s| == 16 * |ms|
  {
    if ms == [] then [] else RecordBytes(ms[0], base, pos) + StatBytes(ms[1..], base, ms[0].src, blockEnd)
  }

  lemma RecordBack(m: Match, base: nat, pos: nat, rest: seq<byte>)
    requires base < U32 && pos <= m.src < m.dest < U64 && m.src - pos < U32 && m.length < U32
    ensures StatMatch(RecordBytes(m, base, pos) + rest, base, pos) == m
  {
    hide Le, UnLe;
    var a, b, c, d := m.src - pos, (m.dest - m.src) % U32, (m.dest - m.src) / U32, (m.length - base) % U32;
    PowU32U64();
    UnLeLe(a, 4);
    UnLeLe(b, 4);
    UnLeLe(c, 4);
    UnLeLe(d, 4);
    var s := RecordBytes(m, base, pos) + rest;
    assert s[0..4] == Le(a, 4) && s[4..8] == Le(b, 4) && s[8..12] == Le(c, 4) && s[12..16] == Le(d, 4);
    LengthBack(m.length, base);
  }

  lemma LengthBack(length: nat, base: nat)
    requires length < U32 && base < U32
    ensures ((length - base) % U32 + base) % U32 == length
  {
  }

  // Each record is the only one for its match.
  lemma RecordOnly(stat: seq<byte>, base: nat, pos: nat, m: Match)
    requires |stat| >= 16 && base < U32 && pos < U64 && m == StatMatch(stat, base, pos) && pos <= m.src < m.dest
    ensures m.src - pos < U32 && m.dest < U64 && m.length < U32 && stat[..16] == RecordBytes(m, base, pos)
  {
    hide Le, UnLe;
    var a, b, c, d := UnLe(stat[0..4]), UnLe(stat[4..8]), UnLe(stat[8..12]), UnLe(stat[12..16]);
    PowU32U64();
    LeUnLe(stat[0..4]);
    LeUnLe(stat[4..8]);
    LeUnLe(stat[8..12]);
    LeUnLe(stat[12..16]);
    FieldsOnly(pos, a, b, c, d, base, m);
    assert stat[..16] == stat[0..4] + stat[4..8] + stat[8..12] + stat[12..16];
  }

  // Sums that wrap around would go back.
  lemma FieldsOnly(pos: nat, a: nat, b: nat, c: nat, d: nat, base: nat, m: Match)
    requires pos < U64 && a < U32 && b < U32 && c < U32 && d < U32 && base < U32
    requires m == Match((pos + a) % U64, (m.src + b + U32 * c) % U64, (d + base) % U32) && pos <= m.src < m.dest
    ensures m.src - pos == a && (m.dest - m.src) % U32 == b && (m.dest - m.src) / U32 == c && (m.length - base) % U32 == d
  {
    assert m.src == pos + a;
    assert m.dest - m.src == b + U32 * c;
  }

  /** What the writer records is what the kernel reads, whatever fewer than 16
      bytes follow. */
  lemma {:induction false} StatsBack(ms: seq<Match>, base: nat, pos: nat, blockEnd: nat, tail: seq<byte>)
    requires base < U32 && Recordable(ms, pos, blockEnd) && |tail| < 16
    ensures Stats(StatBytes(ms, base, pos, blockEnd) + tail, base, pos, blockEnd) == Some(ms)
  {
    hide StatMatch, RecordBytes;
    if ms == [] {
      assert [] + tail == tail;
    } else {
      var rest := StatBytes(ms[1..], base, ms[0].src, blockEnd) + tail;
      var s := StatBytes(ms, base, pos, blockEnd) + tail;
      assert s == RecordBytes(ms[0], base, pos) + rest;
      RecordBack(ms[0], base, pos, rest);
      StatsBack(ms[1..], base, ms[0].src, blockEnd, tail);
      assert s[16..] == rest && [ms[0]] + ms[1..] == ms;
    }
  }

  // The bytes are those the writer makes of ms, and at most fifteen more.
  predicate Records(stat: seq<byte>, base: nat, pos: nat, blockEnd: nat, ms: seq<Match>) {
    Recordable(ms, pos, blockEnd) && 16 * |ms| <= |stat| < 16 * |ms| + 16 && stat[..16 * |ms|] == StatBytes(ms, base, pos, blockEnd)
  }

  lemma {:induction false} StatsOnly(stat: seq<byte>, base: nat, pos: nat, blockEnd: nat)
    requires base < U32 && pos <= blockEnd < U64 && Stats(stat, base, pos, blockEnd).Some?
    ensures var ms := Stats(stat, base, pos, blockEnd).value;
            Records(stat, base, pos, blockEnd, ms)
    decreases |stat|
  {
    hide StatMatch, RecordBytes;
    if |stat| >= 16 {
      var m := StatMatch(stat, base, pos);
      RecordOnly(stat, base, pos, m);
      StatsOnly(stat[16..], base, m.src, blockEnd);
      var rest := Stats(stat[16..], base, m.src, blockEnd).value;
      assert ([m] + rest)[1..] == rest;
      assert stat[..16 + 16 * |rest|] == stat[..16] + stat[16..][..16 * |rest|];
    }
  }

  /** The kernel reads ms exactly when the bytes record it. */
  lemma StatsIff(stat: seq<byte>, base: nat, pos: nat, blockEnd: nat, ms: seq<Match>)
    requires base < U32 && pos <= blockEnd < U64
    ensures Stats(stat, base, pos, blockEnd) == Some(ms) <==> Records(stat, base, pos, blockEnd, ms)
  {
    hide Stats, Recordable, StatBytes;
    if Stats(stat, base, pos, blockEnd) == Some(ms) {
      StatsOnly(stat, base, pos, blockEnd);
    }
    if Records(stat, base, pos, blockEnd, ms) {
      StatsBack(ms, base, pos, blockEnd, stat[16 * |ms|..]);
      assert stat == stat[..16 * |ms|] + stat[16 * |ms|..];
    }
  }

  // ----- spilled blocks -----

  // A pending match and the bytes it will copy.
  datatype Rec = Rec(m: Match, data: seq<byte>)

  predicate RecOk(r: Rec) {
    0 < r.m.length == |r.data| < U32 && r.m.src < U64 && r.m.dest < U64
  }

  function Header(m: Match): (s: seq<byte>)
    ensures |s| == 20
  {
    Le(m.length, 4) + Le(m.src, 8) + Le(m.dest, 8)
  }

  function Serialize(recs: seq<Rec>): seq<byte> {
    if recs == [] then [] else Header(recs[0].m) + recs[0].data + Serialize(recs[1..])
  }

  // A spilled block ends with a record of length 0.
  function Spilled(recs: seq<Rec>): seq<byte> {
    Serialize(recs) + Le(0, 4)
  }

  lemma Regroup(a: seq<byte>, b: seq<byte>, c: seq<byte>, d: seq<byte>)
    ensures a + (b + c + d) == a + b + c + d
  {
  }

  lemma {:induction false} SerializeSnoc(recs: seq<Rec>, r: Rec)
    ensures Serialize(recs + [r]) == Serialize(recs) + Header(r.m) + r.data
  {
    if recs == [] {
      assert recs + [r] == [r] && [r][1..] == [];
    } else {
      SerializeSnoc(recs[1..], r);
      assert (recs + [r])[1..] == recs[1..] + [r] && (recs + [r])[0] == recs[0];
      Regroup(Header(recs[0].m) + recs[0].data, Serialize(recs[1..]), Header(r.m), r.data);
    }
  }

  /** Reading a header back gives the match. */
  lemma HeaderReads(m: Match)
    requires m.length < U32 && m.src < U64 && m.dest < U64
    ensures UnLe(Header(m)[0..4]) == m.length && UnLe(Header(m)[4..12]) == m.src && UnLe(Header(m)[12..20]) == m.dest
  {
    PowU32U64();
    UnLeLe(m.length, 4);
    UnLeLe(m.src, 8);
    UnLeLe(m.dest, 8);
    assert Header(m)[0..4] == Le(m.length, 4);
    assert Header(m)[4..12] == Le(m.src, 8);
    assert Header(m)[12..20] == Le(m.dest, 8);
  }

  // The bytes from `p` on are the records from `k` on, and the terminator.
  predicate ReadsAt(s: seq<byte>, p: nat, recs: seq<Rec>, k: nat) {
    p <= |s| && k <= |recs| && s[p..] == Spilled(recs[k..])
  }

  lemma ReadRecord(s: seq<byte>, p: nat, recs: seq<Rec>, k: nat)
    requires ReadsAt(s, p, recs, k) && forall r :: r in recs ==> RecOk(r)
    ensures p + 4 <= |s|
    ensures k == |recs| ==> UnLe(s[p..p + 4]) == 0
    ensures k < |recs| ==>
              && p + 20 + recs[k].m.length <= |s|
              && UnLe(s[p..p + 4]) == recs[k].m.length && UnLe(s[p + 4..p + 12]) == recs[k].m.src && UnLe(s[p + 12..p + 20]) == recs[k].m.dest
              && s[p + 20..p + 20 + recs[k].m.length] == recs[k].data
              && ReadsAt(s, p + 20 + recs[k].m.length, recs, k + 1)
  {
    hide Le, UnLe, Header, Serialize;
    if k == |recs| {
      assert recs[k..] == [];
      EndsZero();
      Shift(s, p, 0, 4);
    } else {
      assert recs[k..] == [recs[k]] + recs[k + 1..];
      ReadOne(s[p..], recs[k], recs[k + 1..]);
      var n := recs[k].m.length;
      Shift(s, p, 0, 4);
      Shift(s, p, 4, 12);
      Shift(s, p, 12, 20);
      Shift(s, p, 20, 20 + n);
      assert s[p..][20 + n..] == s[p + 20 + n..];
    }
  }

  lemma Shift(s: seq<byte>, p: nat, a: nat, b: nat)
    requires p <= |s| && a <= b <= |s| - p
    ensures s[p..][a..b] == s[p + a..p + b]
  {
  }

  lemma EndsZero()
    ensures |Spilled([])| == 4 && UnLe(Spilled([])[0..4]) == 0
  {
    PowU32U64();
    UnLeLe(0, 4);
    assert Spilled([]) == Le(0, 4) && Le(0, 4)[0..4] == Le(0, 4);
  }

  lemma ReadOne(t: seq<byte>, r: Rec, rest: seq<Rec>)
    requires t == Spilled([r] + rest) && RecOk(r)
    ensures |t| >= 20 + r.m.length
    ensures UnLe(t[0..4]) == r.m.length && UnLe(t[4..12]) == r.m.src && UnLe(t[12..20]) == r.m.dest
    ensures t[20..20 + r.m.length] == r.data && t[20 + r.m.length..] == Spilled(rest)
  {
    hide Header, Le, UnLe, Spilled;
    var h := Header(r.m);
    HeaderReads(r.m);
    SpilledParts(r, rest);
    Parted(h, r.data, Spilled(rest));
  }

  lemma SpilledParts(r: Rec, rest: seq<Rec>)
    ensures Spilled([r] + rest) == Header(r.m) + r.data + Spilled(rest)
  {
    hide Header, Le;
    assert ([r] + rest)[1..] == rest && ([r] + rest)[0] == r;
    Regroup(Header(r.m), r.data, Serialize(rest), Le(0, 4));
  }

  lemma Parted(h: seq<byte>, d: seq<byte>, e: seq<byte>)
    requires |h| == 20
    ensures var t := h + d + e;
            && t[0..4] == h[0..4] && t[4..12] == h[4..12] && t[12..20] == h[12..20]
            && t[20..20 + |d|] == d && t[20 + |d|..] == e
  {
  }
}
