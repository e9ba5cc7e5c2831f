/** The numbers, addresses and opcodes of a VCDIFF window (RFC 3284), with the
    encoder each decoder undoes. */
module XdCodes {
  import opened Bytes

  // ----- integers: base 128, most significant first -----

  const OFLOW: nat := 0x200_0000

  datatype Read = Read(val: nat, used: nat)

  /** readU32, after `val` has been read. */
  function ReadU32(b: seq<byte>, val: nat): (r: Option<Read>)
    requires val < U32
    ensures r.Some? ==> r.value.val < U32 && 1 <= r.value.used <= |b|
  {
    if b == [] || val >= OFLOW then None
    else
      var v := val * 128 + b[0] % 128;
      if b[0] < 128 then Some(Read(v, 1))
      else match ReadU32(b[1..], v)
           case None => None
           case Some(r) => Some(Read(r.val, r.used + 1))
  }

  method ReadInteger(b: seq<byte>) returns (r: Option<Read>)
    ensures r == ReadU32(b, 0)
  {
    var val: nat := 0;
    for i := 0 to |b|
      invariant val < U32
      invariant ReadU32(b, 0) == match ReadU32(b[i..], val) { case None => None case Some(r) => Some(Read(r.val, r.used + i)) }
    {
      if val >= OFLOW {
        return None;
      }
      assert b[i..][1..] == b[i + 1..];
      val := val * 128 + b[i] % 128;
      if b[i] < 128 {
        return Some(Read(val, i + 1));
      }
    }
    return None;
  }

  function Digits(m: nat): seq<byte> {
    if m == 0 then [] else Digits(m / 128) + [128 + m % 128]
  }

  /** The shortest form of a number. */
  function WriteU32(n: nat): (b: seq<byte>)
    ensures |b| >= 1
  {
    Digits(n / 128) + [n % 128]
  }

  lemma {:induction false} ReadDigits(m: nat, rest: seq<byte>)
    requires m < OFLOW
    ensures m < U32
    ensures ReadU32(Digits(m) + rest, 0) == match ReadU32(rest, m) { case None => None case Some(r) => Some(Read(r.val, r.used + |Digits(m)|)) }
  {
    if m == 0 {
      assert [] + rest == rest;
    } else {
      var d: byte := 128 + m % 128;
      ReadDigits(m / 128, [d] + rest);
      assert Digits(m / 128) + [d] + rest == Digits(m / 128) + ([d] + rest);
      assert ([d] + rest)[1..] == rest;
      assert m / 128 * 128 + d % 128 == m;
    }
  }

  /** Reading undoes writing, and reads no further. */
  lemma ReadWrite(n: nat, rest: seq<byte>)
    requires n < U32
    ensures ReadU32(WriteU32(n) + rest, 0) == Some(Read(n, |WriteU32(n)|))
  {
    var d: byte := n % 128;
    ReadDigits(n / 128, [d] + rest);
    assert WriteU32(n) + rest == Digits(n / 128) + ([d] + rest);
    assert ([d] + rest)[0] == d && n / 128 * 128 + d % 128 == n;
  }

  /** sizeof32 */
  function SizeOf32(n: nat): nat {
    if n < 0x80 then 1 else if n < 0x4000 then 2 else if n < 0x20_0000 then 3 else if n < 0x1000_0000 then 4 else 5
  }

  /** sizeof32 tells the length of the shortest form. */
  lemma SizeIsLength(n: nat)
    requires n < U32
    ensures |WriteU32(n)| == SizeOf32(n)
  {
    var a, b, c, d := n / 128, n / 128 / 128, n / 128 / 128 / 128, n / 128 / 128 / 128 / 128;
    assert |Digits(a)| == (if a == 0 then 0 else |Digits(b)| + 1);
    assert |Digits(b)| == (if b == 0 then 0 else |Digits(c)| + 1);
    assert |Digits(c)| == (if c == 0 then 0 else |Digits(d)| + 1);
    assert |Digits(d)| == (if d == 0 then 0 else |Digits(d / 128)| + 1);
    assert d / 128 == 0;
  }

  // ----- addresses -----

  const NEAR: nat := 4
  const SAME: nat := 3
  const MODES: nat := 9

  datatype Cache = Cache(near: seq<nat>, same: seq<nat>, next: nat)

  predicate CacheOk(c: Cache) {
    && |c.near| == NEAR && |c.same| == SAME * 256 && c.next < NEAR
    && (forall i :: 0 <= i < NEAR ==> c.near[i] < U32) && (forall i :: 0 <= i < SAME * 256 ==> c.same[i] < U32)
  }

  function Zeros(n: nat): (s: seq<nat>)
    ensures |s| == n && forall i :: 0 <= i < n ==> s[i] == 0
  {
    seq(n, _ => 0)
  }

  function NoCache(): (c: Cache)
    ensures CacheOk(c)
  {
    Cache(Zeros(NEAR), Zeros(SAME * 256), 0)
  }

  function Remember(c: Cache, a: nat): (r: Cache)
    requires CacheOk(c) && a < U32
    ensures CacheOk(r)
  {
    Cache(c.near[c.next := a], c.same[a % (SAME * 256) := a], (c.next + 1) % NEAR)
  }

  // The cache after these addresses.
  function After(addresses: seq<nat>): (c: Cache)
    requires Addresses(addresses)
    ensures CacheOk(c)
  {
    if addresses == [] then NoCache()
    else Remember(After(addresses[..|addresses| - 1]), addresses[|addresses| - 1])
  }

  predicate Addresses(s: seq<nat>) {
    forall i :: 0 <= i < |s| ==> s[i] < U32
  }

  /** Section 5.1 of RFC 3284: the near cache has the last four addresses, each at its turn. */
  lemma {:induction false} NearIs(s: seq<nat>, i: nat)
    requires Addresses(s) && i < |s| <= i + NEAR
    ensures After(s).next == |s| % NEAR && After(s).near[i % NEAR] == s[i]
  {
    hide CacheOk, Zeros;
    var n := |s| - 1;
    NextIs(s);
    NextIs(s[..n]);
    Remembered(s);
    if i < n {
      NearIs(s[..n], i);
      Turns(i, n);
    }
  }

  lemma Remembered(s: seq<nat>)
    requires Addresses(s) && s != []
    ensures var n := |s| - 1; var c := After(s[..n]); After(s) == Remember(c, s[n]) && CacheOk(c) && CacheOk(After(s))
  {
  }

  lemma Turns(i: nat, n: nat)
    requires i < n < i + NEAR
    ensures i % NEAR != n % NEAR
  {
  }

  lemma {:induction false} NextIs(s: seq<nat>)
    requires Addresses(s)
    ensures After(s).next == |s| % NEAR && |After(s).near| == NEAR && |After(s).same| == SAME * 256
  {
    hide Zeros;
    if s != [] {
      NextIs(s[..|s| - 1]);
    }
  }

  // Where an address belongs in the same cache.
  function Place(a: nat): (x: nat)
    ensures x < SAME * 256
  {
    a % (SAME * 256)
  }

  /** The same cache has at each place the last address that belongs there, and at
      first nothing. */
  lemma {:induction false} SameIs(s: seq<nat>, i: nat)
    requires Addresses(s) && i < |s| && forall k :: i < k < |s| ==> Place(s[k]) != Place(s[i])
    ensures |After(s).same| == SAME * 256 && After(s).same[Place(s[i])] == s[i]
  {
    hide CacheOk, Zeros;
    var n := |s| - 1;
    NextIs(s);
    NextIs(s[..n]);
    Remembered(s);
    if i < n {
      SameIs(s[..n], i);
    }
  }

  lemma {:induction false} SameEmpty(s: seq<nat>, x: nat)
    requires Addresses(s) && x < SAME * 256 && forall i :: 0 <= i < |s| ==> Place(s[i]) != x
    ensures |After(s).same| == SAME * 256 && After(s).same[x] == 0
  {
    NextIs(s);
    if s != [] {
      NextIs(s[..|s| - 1]);
      Remembered(s);
      SameEmpty(s[..|s| - 1], x);
    }
  }

  datatype Address = Address(a: nat, used: nat, cache: Cache)

  /** decodeAddress, with 32-bit arithmetic. */
  function DecodeAddress(c: Cache, here: nat, mode: nat, b: seq<byte>): (r: Option<Address>)
    requires CacheOk(c) && here < U32
    ensures r.Some? ==> r.value.a < U32 && r.value.used <= |b| && CacheOk(r.value.cache)
  {
    if mode < 2 + NEAR then
      match ReadU32(b, 0)
      case None => None
      case Some(r) =>
        var a := if mode == 0 then r.val else if mode == 1 then (here - r.val) % U32 else (r.val + c.near[mode - 2]) % U32;
        Some(Address(a, r.used, Remember(c, a)))
    else if b == [] || mode - (2 + NEAR) >= SAME then None
    else
      var a := c.same[(mode - (2 + NEAR)) * 256 + b[0]];
      Some(Address(a, 1, Remember(c, a)))
  }

  // The mode can express the address.
  predicate CanEncode(c: Cache, here: nat, mode: nat, a: nat)
    requires CacheOk(c)
  {
    a < here < U32 && mode < MODES && (mode >= 2 + NEAR ==> c.same[a % (SAME * 256)] == a && a % (SAME * 256) / 256 == mode - (2 + NEAR))
  }

  function EncodeAddress(c: Cache, here: nat, mode: nat, a: nat): seq<byte>
    requires CacheOk(c) && CanEncode(c, here, mode, a)
  {
    if mode == 0 then WriteU32(a)
    else if mode == 1 then WriteU32(here - a)
    else if mode < 2 + NEAR then WriteU32((a - c.near[mode - 2]) % U32)
    else [a % 256]
  }

  /** Addresses come back, and the decoder's cache stays in step with the encoder's. */
  lemma AddressBack(c: Cache, here: nat, mode: nat, a: nat, rest: seq<byte>)
    requires CacheOk(c) && CanEncode(c, here, mode, a)
    ensures DecodeAddress(c, here, mode, EncodeAddress(c, here, mode, a) + rest) ==
            Some(Address(a, |EncodeAddress(c, here, mode, a)|, Remember(c, a)))
  {
    hide ReadU32, WriteU32, Remember;
    if mode == 0 {
      ReadWrite(a, rest);
    } else if mode == 1 {
      ReadWrite(here - a, rest);
    } else if mode < 2 + NEAR {
      ReadWrite((a - c.near[mode - 2]) % U32, rest);
      Nearer(a, c.near[mode - 2]);
    } else {
      SameIndex(a);
    }
  }

  lemma SameIndex(a: nat)
    ensures a % (SAME * 256) / 256 * 256 + a % 256 == a % (SAME * 256)
  {
    var i := a % (SAME * 256);
    assert a == a / (SAME * 256) * (SAME * 256) + i;
  }

  lemma Nearer(a: nat, near: nat)
    requires a < U32 && near < U32
    ensures ((a - near) % U32 + near) % U32 == a
  {
  }

  // ----- the default code table -----

  const NOOP: nat := 0
  const ADD: nat := 1
  const RUN: nat := 2
  const CPY: nat := 3

  datatype Entry = Entry(t1: nat, s1: nat, t2: nat, s2: nat)

  function Single(t: nat, s: nat): Entry { Entry(t, s, NOOP, 0) }

  /** Section 5.6 of RFC 3284, entry by entry. */
  function Table(i: nat): Entry {
    if i == 0 then Single(RUN, 0)
    else if i <= 18 then Single(ADD, i - 1)
    else if i < 163 then Single(CPY + (i - 19) / 16, if (i - 19) % 16 == 0 then 0 else (i - 19) % 16 + 3)
    else if i < 235 then Entry(ADD, (i - 163) % 12 / 3 + 1, CPY + (i - 163) / 12, (i - 163) % 3 + 4)
    else if i < 247 then Entry(ADD, (i - 235) % 4 + 1, CPY + 6 + (i - 235) / 4, 4)
    else Entry(CPY + (i - 247), 4, ADD, 1)
  }

  /** buildCodeTable */
  method BuildTable() returns (tbl: array<Entry>)
    ensures fresh(tbl) && tbl.Length == 256 && forall k :: 0 <= k < 256 ==> tbl[k] == Table(k)
  {
    hide Table;
    tbl := new Entry[256](_ => Single(NOOP, 0));
    TableSingles();
    tbl[0] := Single(RUN, 0);
    tbl[1] := Single(ADD, 0);
    var i := 2;
    for size := 1 to 18
      invariant i == size + 1 && forall k :: 0 <= k < i ==> tbl[k] == Table(k)
    {
      tbl[i] := Single(ADD, size);
      i := i + 1;
    }
    for mode := 0 to MODES
      invariant i == 19 + 16 * mode && forall k :: 0 <= k < i ==> tbl[k] == Table(k)
    {
      TableCopies(mode, 0);
      tbl[i] := Single(CPY + mode, 0);
      i := i + 1;
      for size := 4 to 19
        invariant i == 19 + 16 * mode + size - 3 && forall k :: 0 <= k < i ==> tbl[k] == Table(k)
      {
        TableCopies(mode, size - 3);
        tbl[i] := Single(CPY + mode, size);
        i := i + 1;
      }
    }
    for mode := 0 to MODES
      invariant i == Pairs(mode, 0) && forall k :: 0 <= k < i ==> tbl[k] == Table(k)
    {
      var max := if mode < 2 + NEAR then 6 else 4;
      for add := 1 to 5
        invariant i == Pairs(mode, add - 1) && forall k :: 0 <= k < i ==> tbl[k] == Table(k)
      {
        for size := 4 to max + 1
          invariant i == Pairs(mode, add - 1) + size - 4 && forall k :: 0 <= k < i ==> tbl[k] == Table(k)
        {
          TablePairs(mode, add, size);
          tbl[i] := Entry(ADD, add, CPY + mode, size);
          i := i + 1;
        }
      }
    }
    for mode := 0 to MODES
      invariant i == 247 + mode && forall k :: 0 <= k < i ==> tbl[k] == Table(k)
    {
      TableLast(mode);
      tbl[i] := Entry(CPY + mode, 4, ADD, 1);
      i := i + 1;
    }
  }

  // Where the pairs of an ADD and a COPY begin, by mode and by the size of the ADD.
  function Pairs(mode: nat, add: nat): nat {
    if mode < 6 then 163 + 12 * mode + 3 * add else 235 + 4 * (mode - 6) + add
  }

  lemma TableSingles()
    ensures Table(0) == Single(RUN, 0) && forall k: nat {:trigger Table(k)} :: 1 <= k <= 18 ==> Table(k) == Single(ADD, k - 1)
  {
  }

  lemma TableCopies(mode: nat, k: nat)
    requires mode < MODES && k < 16
    ensures Table(19 + 16 * mode + k) == Single(CPY + mode, if k == 0 then 0 else k + 3)
  {
  }

  lemma TablePairs(mode: nat, add: nat, size: nat)
    requires mode < MODES && 1 <= add <= 4 && 4 <= size <= if mode < 6 then 6 else 4
    ensures Pairs(mode, add - 1) + size - 4 < 247 && Table(Pairs(mode, add - 1) + size - 4) == Entry(ADD, add, CPY + mode, size)
  {
    if mode < 6 {
      PairDigits(mode, add - 1, size - 4);
    } else {
      assert mode == 6 || mode == 7 || mode == 8;
    }
  }

  lemma PairDigits(mode: nat, add: nat, size: nat)
    requires add < 4 && size < 3
    ensures var x := 12 * mode + 3 * add + size; x / 12 == mode && x % 12 / 3 == add && x % 3 == size
  {
  }

  lemma TableLast(mode: nat)
    requires mode < MODES
    ensures Table(247 + mode) == Entry(CPY + mode, 4, ADD, 1)
  {
  }

  /** Every entry does something, and its types are known. */
  lemma TableSane(i: nat)
    requires i < 256
    ensures var e := Table(i); NOOP < e.t1 < CPY + MODES && e.t2 < CPY + MODES && e.s1 <= 18 && e.s2 <= 18
  {
  }
}
