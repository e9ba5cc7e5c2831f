/** The block reader around the Future-LZ kernel: from the bytes of a stream to
    the output and its explanation. */
module SrepStream {
  import opened Bytes
  import opened MatchHeap
  import opened SpillFormat
  import opened SrepHistory
  import opened SrepKernel
  import L = SrepLedger

  const MAX_BLOCK: nat := 0x80_0000

  datatype Part = Part(stat: seq<byte>, lits: seq<byte>, size: nat)

  datatype Next = Block(part: Part, rest: seq<byte>) | End | Bad

  /** What the reader finds at the front of `src`, after `start` bytes of output. */
  function NextBlock(src: seq<byte>, hdrSize: nat, start: nat): (r: Next)
    requires hdrSize >= 12
    ensures r.Block? ==> |r.rest| < |src| && r.part.size <= MAX_BLOCK
  {
    if src == [] then End
    else if |src| < hdrSize then Bad
    else
      var dataSize, origSize, statSize := UnLe(src[0..4]), UnLe(src[4..8]), UnLe(src[8..12]);
      if dataSize == 0 && origSize == 0 then End
      else if origSize > MAX_BLOCK || dataSize > MAX_BLOCK || statSize > MAX_BLOCK then
        if start > 0 then End else Bad
      else if |src| < hdrSize + statSize + dataSize then Bad
      else
        var body := src[hdrSize..];
        Block(Part(body[..statSize], body[statSize..statSize + dataSize], origSize), body[statSize + dataSize..])
  }

  /** The blocks of a stream, or None when it does not end properly. */
  function Parts(src: seq<byte>, hdrSize: nat, start: nat): Option<seq<Part>>
    requires hdrSize >= 12
    decreases |src|
  {
    match NextBlock(src, hdrSize, start)
    case End => Some([])
    case Bad => None
    case Block(part, rest) =>
      match Parts(rest, hdrSize, start + part.size)
      case None => None
      case Some(parts) => Some([part] + parts)
  }

  /** The bytes of a stream with these blocks; `hash` fills the rest of each header. */
  function Wire(parts: seq<Part>, hash: seq<byte>): seq<byte> {
    if parts == [] then []
    else
      var p := parts[0];
      Le(|p.lits|, 4) + Le(p.size, 4) + Le(|p.stat|, 4) + hash + (p.stat + p.lits) + Wire(parts[1..], hash)
  }

  // A block the header can tell of, that does not look like the end.
  predicate Framed(p: Part) {
    |p.lits| <= MAX_BLOCK && p.size <= MAX_BLOCK && |p.stat| <= MAX_BLOCK && |p.lits| + p.size > 0
  }

  lemma FrameBack(p: Part, hash: seq<byte>, rest: seq<byte>, start: nat)
    requires Framed(p)
    ensures NextBlock(Le(|p.lits|, 4) + Le(p.size, 4) + Le(|p.stat|, 4) + hash + (p.stat + p.lits) + rest, 12 + |hash|, start) == Block(p, rest)
  {
    hide Le, UnLe;
    PowU32U64();
    UnLeLe(|p.lits|, 4);
    UnLeLe(p.size, 4);
    UnLeLe(|p.stat|, 4);
    var src := Le(|p.lits|, 4) + Le(p.size, 4) + Le(|p.stat|, 4) + hash + (p.stat + p.lits) + rest;
    assert src[0..4] == Le(|p.lits|, 4) && src[4..8] == Le(p.size, 4) && src[8..12] == Le(|p.stat|, 4);
    var body := src[12 + |hash|..];
    assert body == p.stat + p.lits + rest;
    assert body[..|p.stat|] == p.stat && body[|p.stat|..|p.stat| + |p.lits|] == p.lits && body[|p.stat| + |p.lits|..] == rest;
  }

  /** The reader finds the blocks the bytes were made of. */
  lemma {:induction false} WireBack(parts: seq<Part>, hash: seq<byte>, start: nat)
    requires forall p :: p in parts ==> Framed(p)
    ensures Parts(Wire(parts, hash), 12 + |hash|, start) == Some(parts)
  {
    hide NextBlock, Framed;
    if parts == [] {
      NothingThere(12 + |hash|, start);
    } else {
      FrameBack(parts[0], hash, Wire(parts[1..], hash), start);
      WireBack(parts[1..], hash, start + parts[0].size);
      assert [parts[0]] + parts[1..] == parts;
    }
  }

  lemma NothingThere(hdrSize: nat, start: nat)
    requires hdrSize >= 12
    ensures Parts([], hdrSize, start) == Some([])
  {
  }

  function Size(parts: seq<Part>): nat {
    if parts == [] then 0 else parts[0].size + Size(parts[1..])
  }

  function AllLits(parts: seq<Part>): seq<byte> {
    if parts == [] then [] else parts[0].lits + AllLits(parts[1..])
  }

  // The matches of the blocks up to the first whose statistics do not fit.
  function AllMatches(parts: seq<Part>, base: nat, start: nat): seq<Match> {
    if parts == [] then []
    else match Stats(parts[0].stat, base, start, start + parts[0].size)
         case None => []
         case Some(ms) => ms + AllMatches(parts[1..], base, start + parts[0].size)
  }

  // A block as a writer has it: matches, literals, size.
  datatype Raw = Raw(ms: seq<Match>, lits: seq<byte>, size: nat)

  predicate Writable(raws: seq<Raw>, start: nat) {
    raws == [] ||
    var r := raws[0];
    && Recordable(r.ms, start, start + r.size) && 16 * |r.ms| <= MAX_BLOCK && |r.lits| <= MAX_BLOCK && r.size <= MAX_BLOCK
    && |r.lits| + r.size > 0 && Writable(raws[1..], start + r.size)
  }

  function Written(raws: seq<Raw>, base: nat, start: nat): seq<Part>
    requires Writable(raws, start)
  {
    if raws == [] then []
    else
      var r := raws[0];
      [Part(StatBytes(r.ms, base, start, start + r.size), r.lits, r.size)] + Written(raws[1..], base, start + r.size)
  }

  function RawMatches(raws: seq<Raw>): seq<Match> {
    if raws == [] then [] else raws[0].ms + RawMatches(raws[1..])
  }

  function RawLits(raws: seq<Raw>): seq<byte> {
    if raws == [] then [] else raws[0].lits + RawLits(raws[1..])
  }

  /** From blocks to bytes and back: the reader finds exactly the matches and the
      literals that were written, whatever the least length. */
  lemma StreamBack(raws: seq<Raw>, base: nat, hash: seq<byte>)
    requires base < U32 && Writable(raws, 0)
    ensures var r := Parts(Wire(Written(raws, base, 0), hash), 12 + |hash|, 0);
            r.Some? && AllMatches(r.value, base, 0) == RawMatches(raws) && AllLits(r.value) == RawLits(raws)
  {
    hide Wire, Parts, Framed, AllMatches, AllLits, Written, Writable;
    WrittenFramed(raws, base, 0);
    WireBack(Written(raws, base, 0), hash, 0);
  }

  lemma {:induction false} WrittenFramed(raws: seq<Raw>, base: nat, start: nat)
    requires base < U32 && Writable(raws, start)
    ensures var parts := Written(raws, base, start);
            && (forall p :: p in parts ==> Framed(p))
            && AllMatches(parts, base, start) == RawMatches(raws) && AllLits(parts) == RawLits(raws)
  {
    hide StatBytes, Stats, Recordable;
    if raws != [] {
      var r := raws[0];
      var stat := StatBytes(r.ms, base, start, start + r.size);
      StatsBack(r.ms, base, start, start + r.size, []);
      assert stat + [] == stat;
      WrittenFramed(raws[1..], base, start + r.size);
      var more := Written(raws[1..], base, start + r.size);
      assert Written(raws, base, start) == [Part(stat, r.lits, r.size)] + more && Written(raws, base, start)[1..] == more;
    }
  }

  // No two matches of the stream have the same destination.
  predicate Distinct(ms: seq<Match>) {
    forall j, k :: 0 <= j < k < |ms| ==> ms[j].dest != ms[k].dest
  }

  // The blocks the reader comes to before the stream ends or goes wrong.
  function Leading(src: seq<byte>, hdrSize: nat, start: nat): seq<Part>
    requires hdrSize >= 12
    decreases |src|
  {
    match NextBlock(src, hdrSize, start)
    case Block(part, rest) => [part] + Leading(rest, hdrSize, start + part.size)
    case _ => []
  }

  lemma {:induction false} PartsLead(src: seq<byte>, hdrSize: nat, start: nat)
    requires hdrSize >= 12 && Parts(src, hdrSize, start).Some?
    ensures Leading(src, hdrSize, start) == Parts(src, hdrSize, start).value
    decreases |src|
  {
    var n := NextBlock(src, hdrSize, start);
    if n.Block? {
      PartsLead(n.rest, hdrSize, start + n.part.size);
    }
  }

  /** What a finished decoding means. */
  ghost predicate Decodes(h: History, parts: seq<Part>, base: nat) {
    && Sound(h) && Counted(h)
    && h.lits == AllLits(parts) && |h.o| == Size(parts) && h.matches == All(AllMatches(parts, base, 0))
  }

  lemma AllAppend(a: seq<Match>, b: seq<Match>)
    ensures All(a + b) == All(a) + All(b)
  {
    forall m | m in All(a) + All(b)
      ensures m in All(a + b)
    {
      if m in All(a) {
        var k :| 0 <= k < |a| && a[k] == m;
        assert (a + b)[k] == m;
      } else {
        var k :| 0 <= k < |b| && b[k] == m;
        assert (a + b)[|a| + k] == m;
      }
    }
  }

  lemma FreshNext(h: History, before: seq<Match>, ms: seq<Match>, more: seq<Match>)
    requires Distinct(before + (ms + more)) && h.matches == All(before)
    ensures Fresh(h, ms)
  {
    var s := before + (ms + more);
    forall k | 0 <= k < |ms|
      ensures ms[k].dest !in Seen(h)
    {
      assert s[|before| + k] == ms[k];
      forall j | 0 <= j < |before|
        ensures before[j].dest != ms[k].dest
      {
        assert s[j] == before[j];
      }
    }
    forall j, k | 0 <= j < k < |ms|
      ensures ms[j].dest != ms[k].dest
    {
      assert s[|before| + j] == ms[j] && s[|before| + k] == ms[k];
    }
  }

  // How far the reader has come: what has been decoded, and what is ahead.
  ghost predicate Along(h: History, ms: seq<Match>, all: seq<Part>, rest: seq<Part>, base: nat, start: nat) {
    && AllLits(all) == h.lits + AllLits(rest) && Size(all) == start + Size(rest) && |h.o| == start
    && AllMatches(all, base, 0) == ms + AllMatches(rest, base, start) && h.matches == All(ms)
  }

  lemma AlongStart(h: History, all: seq<Part>, base: nat)
    requires h == History({}, [], [], [], {})
    ensures Along(h, [], all, all, base, 0)
  {
  }

  lemma AlongStep(h: History, h': History, ms: seq<Match>, all: seq<Part>, p: Part, rest: seq<Part>, base: nat, start: nat)
    requires Along(h, ms, all, [p] + rest, base, start)
    ensures start + p.size + Size(rest) == Size(all)
    ensures var st := Stats(p.stat, base, start, start + p.size);
            && (st.Some? && Distinct(AllMatches(all, base, 0)) ==> Fresh(h, st.value))
            && (st.Some? && NoneEmpty(AllMatches(all, base, 0)) ==> NoneEmpty(st.value))
            && (st.Some? ==> AllMatches(all, base, 0) == ms + st.value + AllMatches(rest, base, start + p.size))
            && (st.Some? && h'.matches == h.matches + All(st.value) && h'.lits == h.lits + p.lits && |h'.o| == start + p.size ==>
                  Along(h', ms + st.value, all, rest, base, start + p.size))
  {
    assert ([p] + rest)[1..] == rest && ([p] + rest)[0] == p;
    var st := Stats(p.stat, base, start, start + p.size);
    if st.Some? {
      var more := AllMatches(rest, base, start + p.size);
      assert ms + (st.value + more) == ms + st.value + more;
      AllAppend(ms, st.value);
      if Distinct(AllMatches(all, base, 0)) {
        FreshNext(h, ms, st.value, more);
      }
      if NoneEmpty(AllMatches(all, base, 0)) {
        NoneEmptyIn(ms, st.value, more);
      }
      assert h.lits + (p.lits + AllLits(rest)) == h.lits + p.lits + AllLits(rest);
    }
  }

  lemma AlongEnd(h: History, ms: seq<Match>, all: seq<Part>, base: nat, g: L.Ledger, v: L.View)
    requires Along(h, ms, all, [], base, |h.o|) && Told(h, g, v)
    ensures Decodes(h, all, base)
  {
    assert h.lits + [] == h.lits && ms + [] == ms;
  }

  lemma NoneEmptyIn(a: seq<Match>, b: seq<Match>, c: seq<Match>)
    requires NoneEmpty(a + b + c)
    ensures NoneEmpty(b)
  {
    forall k | 0 <= k < |b|
      ensures b[k].length > 0
    {
      assert (a + b + c)[|a| + k] == b[k];
    }
  }

  /** The matches due within the output and the literals fill the output: a
      condition on the bytes of the stream alone. */
  ghost predicate Fills(parts: seq<Part>, base: nat) {
    Total(set m | m in All(AllMatches(parts, base, 0)) && m.dest < Size(parts)) + |AllLits(parts)| == Size(parts)
  }

  /** Whether a match was left out can be read off the stream alone. */
  lemma LeftOut(h: History, parts: seq<Part>, base: nat)
    requires Decodes(h, parts, base)
    ensures Complete(h) <==> Fills(parts, base)
  {
    CompleteMeans(h);
    assert Due(h) == set m | m in All(AllMatches(parts, base, 0)) && m.dest < Size(parts);
  }

  /** Memory limits, block sizes and spills leave no trace: either every finished
      decoding of a stream applies all its matches, and then they agree, or every
      one leaves a match out. */
  lemma LimitsDoNotMatter(h: History, h': History, parts: seq<Part>, base: nat)
    requires Decodes(h, parts, base) && Decodes(h', parts, base)
    ensures Complete(h) <==> Complete(h')
    ensures Fills(parts, base) ==> h.o == h'.o
  {
    hide Fills, Complete;
    LeftOut(h, parts, base);
    LeftOut(h', parts, base);
    if Fills(parts, base) {
      SameOutput(h, h');
    }
  }

  /** The whole stream: header after header, block after block, until the end. */
  method Decode(src: seq<byte>, hdrSize: nat, k: Kernel, fuel: nat) returns (v: Verdict, out: seq<byte>, ghost h: History)
    requires hdrSize >= 12 && k.Between(History({}, [], [], [], {})) && k.g.pending == map[] && L.Marks(k.heap.View(), k.g)
    requires Size(Leading(src, hdrSize, 0)) < U64 && Distinct(AllMatches(Leading(src, hdrSize, 0), k.base, 0))
    modifies k, k.mm, k.heap, k.buf
    ensures v.Done? ==> Parts(src, hdrSize, 0).Some? && Decodes(h, Parts(src, hdrSize, 0).value, k.base) && out == h.o
    ensures v.Done? && k.low ==> Complete(h)
    ensures v.Exhausted? && NoneEmpty(AllMatches(Leading(src, hdrSize, 0), k.base, 0)) ==> fuel <= MAX_BLOCK
  {
    hide Told, L.Inv, L.AllLow, L.Marks, Kernel.State, Roomy, Loaded, Idle, Decodes, Stats, Distinct, Fresh, Along, Sound, Counted, NoneEmpty, AllMatches, AllLits, Size, NextBlock, Complete;
    ghost var all, ms := Leading(src, hdrSize, 0), [];
    h := History({}, [], [], [], {});
    out := [];
    AlongStart(h, all, k.base);
    var rest := src;
    while true
      invariant k.Between(h) && out == h.o && Along(h, ms, all, Leading(rest, hdrSize, |out|), k.base, |out|)
      invariant Parts(src, hdrSize, 0).Some? <==> Parts(rest, hdrSize, |out|).Some?
      invariant NoneEmpty(AllMatches(all, k.base, 0)) ==> L.Marks(k.heap.View(), k.g)
      invariant k.low ==> L.Ahead(k.g, |h.o|)
      decreases |rest|
    {
      var n := NextBlock(rest, hdrSize, |out|);
      if n.End? {
        break;
      }
      if n.Bad? {
        return Broken, out, h;
      }
      var p := n.part;
      var buf := new byte[p.size];
      ghost var h0, start, ahead := h, |out|, Leading(n.rest, hdrSize, |out| + p.size);
      AlongStep(h, h, ms, all, p, ahead, k.base, start);
      v, h := k.Block(p.stat, p.lits, buf, |out|, fuel, h);
      if !v.Done? {
        return v, out, h;
      }
      ghost var stats := Stats(p.stat, k.base, start, start + p.size).value;
      out := out + buf[..];
      rest := n.rest;
      AlongStep(h0, h, ms, all, p, ahead, k.base, start);
      ms := ms + stats;
    }
    PartsLead(src, hdrSize, 0);
    AlongEnd(h, ms, all, k.base, k.g, k.heap.View());
    if k.low {
      AheadApplied(h, k.g, k.heap.View());
    }
    v := Done;
  }

  /** The same bytes under two memory limits and spill sizes: runs that finish agree
      when the stream fills its output, which one run without a late spill shows. */
  method DecodeTwice(src: seq<byte>, hdrSize: nat, base: nat, fuel: nat, limit: nat, block: nat, limit': nat, block': nat)
    returns (v: Verdict, out: seq<byte>, v': Verdict, out': seq<byte>, ghost low: bool)
    requires hdrSize >= 12 && limit < U64 && limit' < U64
    requires Size(Leading(src, hdrSize, 0)) < U64 && Distinct(AllMatches(Leading(src, hdrSize, 0), base, 0))
    ensures v.Done? && v'.Done? ==> Parts(src, hdrSize, 0).Some? && (Fills(Parts(src, hdrSize, 0).value, base) ==> out == out')
    ensures v.Done? && v'.Done? && low ==> Fills(Parts(src, hdrSize, 0).value, base)
  {
    hide Told, L.Inv, L.AllLow, L.Marks, L.Ahead, Distinct, AllMatches, AllLits, Size, NextBlock, Complete, Fills, Decodes, Kernel.State;
    var k := new Kernel(base, limit, block);
    ghost var h, h';
    v, out, h := Decode(src, hdrSize, k, fuel);
    var k' := new Kernel(base, limit', block');
    v', out', h' := Decode(src, hdrSize, k', fuel);
    low := k.low || k'.low;
    if v.Done? && v'.Done? {
      var parts := Parts(src, hdrSize, 0).value;
      LimitsDoNotMatter(h, h', parts, base);
      LeftOut(h, parts, base);
    }
  }
}
