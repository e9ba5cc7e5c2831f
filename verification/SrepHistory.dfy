/** What the output of the Future-LZ decoder means: every byte is either the
    next literal, or repeats the byte its match points at. */
module SrepHistory {
  import opened Bytes
  import opened MatchHeap
  import opened SpillFormat
  import L = SrepLedger

  type Origin = seq<Option<Match>>

  // The bytes that no match wrote, in order.
  function Literals(o: seq<byte>, origin: Origin): seq<byte>
    requires |o| == |origin|
  {
    if o == [] then []
    else
      var n := |o| - 1;
      Literals(o[..n], origin[..n]) + (if origin[n].None? then [o[n]] else [])
  }

  // Byte p was written by m, and is the byte m points at.
  predicate Repeats(o: seq<byte>, p: nat, m: Match)
    requires p < |o|
  {
    && m.dest <= p < m.dest + m.length
    && m.src < m.dest
    && o[p] == o[m.src + (p - m.dest)]
  }

  /** Output `o` explained by `origin`: the match, if any, that wrote each byte. */
  ghost predicate Explained(o: seq<byte>, origin: Origin, lits: seq<byte>) {
    && |o| == |origin|
    && (forall p {:trigger origin[p]} :: 0 <= p < |o| && origin[p].Some? ==> Repeats(o, p, origin[p].value))
    && Literals(o, origin) == lits
  }

  /** All bytes of m's destination were written by m. */
  predicate Applied(m: Match, origin: Origin) {
    m.dest + m.length <= |origin| && forall p :: m.dest <= p < m.dest + m.length ==> origin[p] == Some(m)
  }

  function Lits(n: nat): Origin { seq(n, _ => None) }
  function By(m: Match): Origin { seq(m.length, _ => Some(m)) }

  lemma {:induction false} LiteralsAppend(o: seq<byte>, origin: Origin, more: seq<byte>)
    requires |o| == |origin|
    ensures Literals(o + more, origin + Lits(|more|)) == Literals(o, origin) + more
  {
    if more == [] {
      assert o + more == o && origin + Lits(0) == origin;
    } else {
      var n := |more| - 1;
      LiteralsAppend(o, origin, more[..n]);
      assert (o + more)[..|o| + n] == o + more[..n];
      assert (origin + Lits(n + 1))[..|o| + n] == origin + Lits(n);
      assert more == more[..n] + [more[n]];
    }
  }

  lemma {:induction false} LiteralsSkip(o: seq<byte>, origin: Origin, more: seq<byte>, m: Match)
    requires |o| == |origin| && |more| <= m.length
    ensures Literals(o + more, origin + By(m)[..|more|]) == Literals(o, origin)
  {
    if more == [] {
      assert o + more == o && origin + By(m)[..0] == origin;
    } else {
      var n := |more| - 1;
      LiteralsSkip(o, origin, more[..n], m);
      assert (o + more)[..|o| + n] == o + more[..n];
      assert (origin + By(m)[..n + 1])[..|o| + n] == origin + By(m)[..n];
    }
  }

  lemma ExplainGap(o: seq<byte>, origin: Origin, lits: seq<byte>, more: seq<byte>)
    requires Explained(o, origin, lits)
    ensures Explained(o + more, origin + Lits(|more|), lits + more)
  {
    hide Literals;
    LiteralsAppend(o, origin, more);
    var o', origin' := o + more, origin + Lits(|more|);
    forall p {:trigger origin'[p]} | 0 <= p < |o'| && origin'[p].Some?
      ensures Repeats(o', p, origin'[p].value)
    {
      assert origin[p] == origin'[p];
    }
  }

  lemma ExplainCopy(o: seq<byte>, origin: Origin, lits: seq<byte>, m: Match, data: seq<byte>)
    requires Explained(o, origin, lits) && |o| == m.dest && |data| == m.length && m.src < m.dest
    requires forall i :: 0 <= i < m.length ==> data[i] == (o + data)[m.src + i]
    ensures Explained(o + data, origin + By(m), lits)
    ensures Applied(m, origin + By(m))
  {
    hide Literals;
    LiteralsSkip(o, origin, data, m);
    assert By(m)[..|data|] == By(m);
    var o', origin' := o + data, origin + By(m);
    forall p {:trigger origin'[p]} | 0 <= p < |o'| && origin'[p].Some?
      ensures Repeats(o', p, origin'[p].value)
    {
      if p < |o| {
        assert origin[p] == origin'[p];
      } else {
        assert data[p - |o|] == o'[m.src + (p - |o|)];
      }
    }
  }

  // What was applied stays applied.
  lemma AppliedStays(m: Match, origin: Origin, more: Origin)
    requires Applied(m, origin)
    ensures Applied(m, origin + more)
  {
  }

  /** The stream so far: its matches, its output, where each byte came from, its
      literals, and the matches that have been applied. */
  datatype History = History(matches: set<Match>, o: seq<byte>, origin: Origin, lits: seq<byte>, done: set<Match>)

  // m waits in the ledger with the bytes it will copy.
  predicate Waits(m: Match, g: L.Ledger, o: seq<byte>) {
    && m.dest in g.pending && m.src + m.length <= |o|
    && g.pending[m.dest] == Rec(m, o[m.src..m.src + m.length])
  }

  // m is in the heap, to be copied within the current block.
  predicate Local(m: Match, v: L.View, locals: map<nat, int>) {
    m.dest in locals && locals[m.dest] in v && v[locals[m.dest]] == Entry(m, 0)
  }

  ghost predicate Sound(h: History) {
    && Explained(h.o, h.origin, h.lits)
    && (forall p :: 0 <= p < |h.origin| && h.origin[p].Some? ==> h.origin[p].value in h.matches)
    && (forall m :: m in h.matches ==> m.src < m.dest)
  }

  // ----- how many bytes were copied -----

  ghost function Total(s: set<Match>): nat {
    if s == {} then 0 else var m :| m in s; m.length + Total(s - {m})
  }

  lemma {:induction false} TotalAdd(s: set<Match>, m: Match)
    requires m !in s
    ensures Total(s + {m}) == Total(s) + m.length
  {
    var x :| x in s + {m} && Total(s + {m}) == x.length + Total(s + {m} - {x});
    if x == m {
      assert s + {m} - {x} == s;
    } else {
      assert s + {m} - {x} == (s - {x}) + {m} && (s - {x}) + {x} == s;
      TotalAdd(s - {x}, m);
      TotalAdd(s - {x}, x);
    }
  }

  lemma {:induction false} TotalSplit(a: set<Match>, b: set<Match>)
    requires a !! b
    ensures Total(a + b) == Total(a) + Total(b)
  {
    if b == {} {
      assert a + b == a;
    } else {
      var m :| m in b;
      TotalSplit(a, b - {m});
      assert a + b == (a + (b - {m})) + {m} && b == (b - {m}) + {m};
      TotalAdd(a + (b - {m}), m);
      TotalAdd(b - {m}, m);
    }
  }

  lemma {:induction false} TotalZero(s: set<Match>)
    ensures Total(s) == 0 <==> forall m :: m in s ==> m.length == 0
  {
    if s != {} {
      var x :| x in s && Total(s) == x.length + Total(s - {x});
      TotalZero(s - {x});
    }
  }

  /** The matches applied and the literals make up the output. */
  ghost predicate Counted(h: History) {
    && |h.o| == |h.origin|
    && (forall p {:trigger h.origin[p]} :: 0 <= p < |h.origin| && h.origin[p].Some? ==> h.origin[p].value in h.done)
    && (forall m :: m in h.done ==> m in h.matches && Applied(m, h.origin) && m.dest < |h.o|)
    && Total(h.done) + |h.lits| == |h.o|
  }

  lemma CountedGap(h: History, more: seq<byte>)
    requires Counted(h)
    ensures Counted(Gapped(h, more))
  {
  }

  lemma CountedCopy(h: History, m: Match, data: seq<byte>)
    requires Counted(h) && m.dest == |h.o| && |data| == m.length > 0 && m in h.matches
    ensures Counted(Copied(h, m, data))
  {
    TotalAdd(h.done, m);
    forall x | x in h.done ensures Applied(x, h.origin + By(m)) { AppliedStays(x, h.origin, By(m)); }
  }

  lemma CountedMore(h: History, h': History)
    requires Counted(h) && h.matches <= h'.matches && h' == h.(matches := h'.matches)
    ensures Counted(h')
  {
  }

  // The matches whose destination has been reached.
  function Due(h: History): set<Match> {
    set m | m in h.matches && m.dest < |h.o|
  }

  // All of them have been applied.
  ghost predicate Complete(h: History) {
    forall m :: m in Due(h) && m.length > 0 ==> Applied(m, h.origin)
  }

  /** No match has been left out exactly when the literals and the matches due
      account for the size of the output. */
  lemma CompleteMeans(h: History)
    requires Counted(h)
    ensures Complete(h) <==> Total(Due(h)) + |h.lits| == |h.o|
  {
    TotalSplit(h.done, Due(h) - h.done);
    assert h.done + (Due(h) - h.done) == Due(h);
    TotalZero(Due(h) - h.done);
    forall m | m in Due(h) && m.length > 0
      ensures Applied(m, h.origin) <==> m in h.done
    {
      if Applied(m, h.origin) {
        assert h.origin[m.dest] == Some(m);
      }
    }
  }

  // Every match has been applied, waits with its bytes, or is local to the block.
  ghost predicate Accounted(h: History, g: L.Ledger, v: L.View, locals: map<nat, int>) {
    && (forall m :: m in h.matches && m.length > 0 ==> Applied(m, h.origin) || Waits(m, g, h.o) || Local(m, v, locals))
    && (forall d :: d in g.pending ==> g.pending[d].m in h.matches && g.pending[d].m.dest == d && d !in locals && Waits(g.pending[d].m, g, h.o))
  }

  // Apart from the local matches, a heap node without bytes is a mark or a barrier.
  ghost predicate Barriers(v: L.View, locals: map<nat, int>, blockStart: nat) {
    forall x :: x in v && v[x].index == 0 && v[x].m.length != 0 ==>
      || (v[x].m.dest in locals && locals[v[x].m.dest] == x)
      || (v[x].m.length == NO_LENGTH && (v[x].m.src < blockStart || v[x].m.dest == U64 - 1))
  }

  // The local matches lie in the current block.
  ghost predicate Locals(v: L.View, locals: map<nat, int>, h: History, blockStart: nat, blockEnd: nat) {
    forall d :: d in locals ==>
      && locals[d] in v && v[locals[d]].index == 0 && v[locals[d]].m.dest == d < blockEnd
      && v[locals[d]].m.length > 0 && v[locals[d]].m in h.matches && InBlock(v[locals[d]].m, blockStart, blockEnd)
  }

  ghost predicate Told(h: History, g: L.Ledger, v: L.View) {
    Sound(h) && Counted(h) && Accounted(h, g, v, map[]) && Barriers(v, map[], |h.o|)
  }

  /** The history, the ledger and the heap in the middle of a block. */
  ghost predicate Mid(h: History, g: L.Ledger, v: L.View, locals: map<nat, int>, blockStart: nat, blockEnd: nat) {
    Sound(h) && Counted(h) && Accounted(h, g, v, locals) && Barriers(v, locals, blockStart) && Locals(v, locals, h, blockStart, blockEnd)
  }

  function Seen(h: History): set<nat> {
    set m | m in h.matches :: m.dest
  }

  // The maps after a match of the block has entered the heap as node n.
  function Entered(locals: map<nat, int>, m: Match, n: int): map<nat, int> {
    if m.length == 0 then locals else locals[m.dest := n]
  }

  /** A match of the block enters the heap. */
  lemma EnterKeeps(h: History, g: L.Ledger, v: L.View, locals: map<nat, int>, blockStart: nat, blockEnd: nat, m: Match, n: int)
    requires Mid(h, g, v, locals, blockStart, blockEnd) && InBlock(m, blockStart, blockEnd) && m.dest < blockEnd
    requires m.dest !in Seen(h) && n !in v
    ensures m.dest !in g.pending
    ensures Mid(h.(matches := h.matches + {m}), g, v[n := Entry(m, 0)], Entered(locals, m, n), blockStart, blockEnd)
  {
    hide Counted, Accounted, Barriers, Locals, Entered, Seen;
    CountedMore(h, h.(matches := h.matches + {m}));
    EnterSound(h, m, blockStart, blockEnd);
    EnterAccount(h, g, v, locals, blockStart, blockEnd, m, n);
    EnterLocals(h, v, locals, blockStart, blockEnd, m, n);
  }

  lemma EnterSound(h: History, m: Match, blockStart: nat, blockEnd: nat)
    requires Sound(h) && InBlock(m, blockStart, blockEnd)
    ensures Sound(h.(matches := h.matches + {m}))
  {
    hide Explained;
  }

  lemma EnterAccount(h: History, g: L.Ledger, v: L.View, locals: map<nat, int>, blockStart: nat, blockEnd: nat, m: Match, n: int)
    requires Accounted(h, g, v, locals) && Locals(v, locals, h, blockStart, blockEnd) && m.dest !in Seen(h) && n !in v
    ensures m.dest !in g.pending
    ensures Accounted(h.(matches := h.matches + {m}), g, v[n := Entry(m, 0)], Entered(locals, m, n))
  {
    hide Applied, InBlock;
    var h', v', locals' := h.(matches := h.matches + {m}), v[n := Entry(m, 0)], Entered(locals, m, n);
    forall d | d in g.pending
      ensures d != m.dest
    {
      assert g.pending[d].m.dest in Seen(h);
    }
    forall d | d in locals
      ensures d != m.dest
    {
      assert v[locals[d]].m.dest in Seen(h);
    }
    forall x | x in h'.matches && x.length > 0
      ensures Applied(x, h.origin) || Waits(x, g, h.o) || Local(x, v', locals')
    {
      if x != m {
        assert Applied(x, h.origin) || Waits(x, g, h.o) || Local(x, v, locals);
      }
    }
  }

  lemma EnterLocals(h: History, v: L.View, locals: map<nat, int>, blockStart: nat, blockEnd: nat, m: Match, n: int)
    requires Locals(v, locals, h, blockStart, blockEnd) && Barriers(v, locals, blockStart) && m.dest !in Seen(h) && n !in v
    requires InBlock(m, blockStart, blockEnd) && m.dest < blockEnd
    ensures Locals(v[n := Entry(m, 0)], Entered(locals, m, n), h.(matches := h.matches + {m}), blockStart, blockEnd)
    ensures Barriers(v[n := Entry(m, 0)], Entered(locals, m, n), blockStart)
  {
    hide InBlock;
    forall d | d in locals
      ensures d != m.dest
    {
      assert v[locals[d]].m.dest in Seen(h);
    }
  }

  // What spilling, restoring and erasing marks do to the heap.
  ghost predicate Calm(v: L.View, v': L.View, pending: map<nat, Rec>) {
    && (forall x :: x in v && v[x].m.dest !in pending && v[x].m.length != 0 ==> x in v' && v'[x] == v[x])
    && (forall x :: x in v' && v'[x].index == 0 && v'[x].m.length != 0 ==> x in v && v'[x] == v[x])
  }

  lemma CalmKeeps(h: History, g: L.Ledger, g': L.Ledger, v: L.View, v': L.View, locals: map<nat, int>, blockStart: nat, blockEnd: nat)
    requires Mid(h, g, v, locals, blockStart, blockEnd) && Calm(v, v', g.pending) && g'.pending == g.pending
    ensures Mid(h, g', v', locals, blockStart, blockEnd)
  {
    hide Sound, Counted, Applied;
    forall d | d in locals
      ensures locals[d] in v' && v'[locals[d]] == v[locals[d]]
    {
      var x := locals[d];
      assert d in g.pending ==> d !in locals;
      assert x in v && v[x].m.dest == d && v[x].m.length != 0;
    }
    forall x | x in h.matches && x.length > 0
      ensures Applied(x, h.origin) || Waits(x, g', h.o) || Local(x, v', locals)
    {
      assert Applied(x, h.origin) || Waits(x, g, h.o) || Local(x, v, locals);
    }
  }

  function Gapped(h: History, more: seq<byte>): History {
    h.(o := h.o + more, origin := h.origin + Lits(|more|), lits := h.lits + more)
  }

  /** Literals up to the next destination. */
  lemma GapKeeps(h: History, g: L.Ledger, v: L.View, locals: map<nat, int>, blockStart: nat, blockEnd: nat, more: seq<byte>)
    requires Mid(h, g, v, locals, blockStart, blockEnd)
    ensures Mid(Gapped(h, more), g, v, locals, blockStart, blockEnd)
  {
    hide Explained, Counted;
    ExplainGap(h.o, h.origin, h.lits, more);
    CountedGap(h, more);
    GrowAccount(h, Gapped(h, more), g, v, locals, Lits(|more|), more);
  }

  lemma GrowAccount(h: History, h': History, g: L.Ledger, v: L.View, locals: map<nat, int>, origin: Origin, more: seq<byte>)
    requires Accounted(h, g, v, locals) && h'.matches == h.matches && h'.o == h.o + more && h'.origin == h.origin + origin
    ensures Accounted(h', g, v, locals)
  {
    forall x | x in h.matches && x.length > 0
      ensures Applied(x, h'.origin) || Waits(x, g, h'.o) || Local(x, v, locals)
    {
      assert Applied(x, h.origin) || Waits(x, g, h.o) || Local(x, v, locals);
      if Waits(x, g, h.o) { WaitsOn(x, g, h.o, more); }
    }
    forall d | d in g.pending
      ensures Waits(g.pending[d].m, g, h'.o)
    {
      WaitsOn(g.pending[d].m, g, h.o, more);
    }
  }

  lemma WaitsOn(m: Match, g: L.Ledger, o: seq<byte>, more: seq<byte>)
    requires Waits(m, g, o)
    ensures Waits(m, g, o + more)
  {
    assert (o + more)[m.src..m.src + m.length] == o[m.src..m.src + m.length];
  }

  function Copied(h: History, m: Match, data: seq<byte>): History {
    h.(o := h.o + data, origin := h.origin + By(m), done := h.done + {m})
  }

  /** A waiting match is applied from its saved bytes. */
  lemma HeldKeeps(h: History, g: L.Ledger, v: L.View, locals: map<nat, int>, blockStart: nat, blockEnd: nat, x: int, i: nat)
    requires Mid(h, g, v, locals, blockStart, blockEnd) && x in v && v[x].index != 0 && v[x].m.length > 0
    requires v[x].m.dest == |h.o| && v[x].m.src < v[x].m.dest && v[x].m.dest in g.pending && g.pending[v[x].m.dest].m == v[x].m
    ensures Mid(Copied(h, v[x].m, g.pending[v[x].m.dest].data), L.Applied(g, v[x].m.dest, i), v - {x}, locals, blockStart, blockEnd)
  {
    hide Explained, Counted;
    var m := v[x].m;
    var data := g.pending[m.dest].data;
    assert Waits(m, g, h.o);
    forall k | 0 <= k < m.length
      ensures data[k] == (h.o + data)[m.src + k]
    {
      assert data[k] == h.o[m.src..m.src + m.length][k];
    }
    ExplainCopy(h.o, h.origin, h.lits, m, data);
    CountedCopy(h, m, data);
    CopyAccount(h, g, v, locals, x, m, data, L.Applied(g, m.dest, i), locals);
  }

  /** A local match is applied from the block's own output. */
  lemma LocalKeeps(h: History, g: L.Ledger, v: L.View, locals: map<nat, int>, blockStart: nat, blockEnd: nat, x: int, data: seq<byte>)
    requires Mid(h, g, v, locals, blockStart, blockEnd) && x in v && v[x].m.dest == |h.o| && v[x].m.dest in locals && locals[v[x].m.dest] == x
    requires |data| == v[x].m.length && v[x].m.src < v[x].m.dest
    requires forall k :: 0 <= k < |data| ==> data[k] == (h.o + data)[v[x].m.src + k]
    ensures Mid(Copied(h, v[x].m, data), g, v - {x}, locals - {v[x].m.dest}, blockStart, blockEnd)
  {
    hide Explained, Counted;
    var m := v[x].m;
    ExplainCopy(h.o, h.origin, h.lits, m, data);
    CountedCopy(h, m, data);
    CopyAccount(h, g, v, locals, x, m, data, g, locals - {m.dest});
  }

  lemma CopyAccount(h: History, g: L.Ledger, v: L.View, locals: map<nat, int>, x: int, m: Match, data: seq<byte>, g': L.Ledger, locals': map<nat, int>)
    requires Accounted(h, g, v, locals) && x in v && v[x].m == m && |data| == m.length
    requires m in h.matches && Applied(m, h.origin + By(m))
    requires locals' == locals - {m.dest} && g'.pending == g.pending - {m.dest}
    requires m.dest in locals ==> locals[m.dest] == x
    requires m.dest in g.pending ==> g.pending[m.dest].m == m
    requires forall d :: d in locals && locals[d] in v && d != m.dest ==> v[locals[d]].m.dest == d
    ensures Accounted(Copied(h, m, data), g', v - {x}, locals')
  {
    var h', v' := Copied(h, m, data), v - {x};
    forall y | y in h.matches && y.length > 0
      ensures Applied(y, h'.origin) || Waits(y, g', h'.o) || Local(y, v', locals')
    {
      assert Applied(y, h.origin) || Waits(y, g, h.o) || Local(y, v, locals);
      if y != m {
        if Applied(y, h.origin) {
          AppliedStays(y, h.origin, By(m));
        } else if Waits(y, g, h.o) {
          WaitsOn(y, g, h.o, data);
        }
      }
    }
    forall d | d in g'.pending
      ensures Waits(g'.pending[d].m, g', h'.o)
    {
      WaitsOn(g.pending[d].m, g, h.o, data);
    }
  }

  /** A match whose destination lies beyond the block is put off. */
  lemma DeferAccount(h: History, g: L.Ledger, v: L.View, m: Match, n: int, i: nat)
    requires Mid(h, g, v, map[], |h.o|, |h.o|) && m.dest !in Seen(h) && n !in v
    requires m.src + m.length <= |h.o| && m.src < m.dest && |h.o| <= m.dest && m.length > 0
    requires i == 0 ==> m.length == NO_LENGTH && m.src < |h.o|
    ensures m.dest !in g.pending
    ensures forall g': L.Ledger :: g'.pending == g.pending[m.dest := Rec(m, h.o[m.src..m.src + m.length])] ==>
              Mid(h.(matches := h.matches + {m}), g', v[n := Entry(m, i)], map[], |h.o|, |h.o|)
  {
    hide Explained, Counted;
    CountedMore(h, h.(matches := h.matches + {m}));
    forall d | d in g.pending
      ensures d != m.dest
    {
      assert g.pending[d].m.dest in Seen(h);
    }
    forall g': L.Ledger | g'.pending == g.pending[m.dest := Rec(m, h.o[m.src..m.src + m.length])]
      ensures Mid(h.(matches := h.matches + {m}), g', v[n := Entry(m, i)], map[], |h.o|, |h.o|)
    {
      var h', v' := h.(matches := h.matches + {m}), v[n := Entry(m, i)];
      forall x | x in h'.matches && x.length > 0
        ensures Applied(x, h.origin) || Waits(x, g', h.o) || Local(x, v', map[])
      {
        if x != m {
          assert Applied(x, h.origin) || Waits(x, g, h.o) || Local(x, v, map[]);
        }
      }
    }
  }

  /** A match of length 0 only leaves a node that looks like a mark. */
  lemma EmptyAccount(h: History, g: L.Ledger, v: L.View, m: Match, n: int)
    requires Mid(h, g, v, map[], |h.o|, |h.o|) && m.length == 0 && m.src < m.dest && n !in v && m.dest !in Seen(h)
    ensures m.dest !in g.pending
    ensures Mid(h.(matches := h.matches + {m}), g, v[n := Entry(m, 0)], map[], |h.o|, |h.o|)
  {
    hide Explained, Counted;
    CountedMore(h, h.(matches := h.matches + {m}));
    forall d | d in g.pending
      ensures d != m.dest
    {
      assert g.pending[d].m.dest in Seen(h);
    }
    forall x | x in h.matches && x.length > 0
      ensures Applied(x, h.origin) || Waits(x, g, h.o) || Local(x, v[n := Entry(m, 0)], map[])
    {
      assert Applied(x, h.origin) || Waits(x, g, h.o) || Local(x, v, map[]);
    }
  }

  // ----- the output is determined by the matches and the literals -----

  lemma ExplainedPrefix(o: seq<byte>, origin: Origin, lits: seq<byte>)
    requires Explained(o, origin, lits) && o != []
    ensures var n := |o| - 1; Explained(o[..n], origin[..n], Literals(o[..n], origin[..n]))
  {
    hide Literals;
    var n := |o| - 1;
    var o', origin' := o[..n], origin[..n];
    forall p {:trigger origin'[p]} | 0 <= p < n && origin'[p].Some?
      ensures Repeats(o', p, origin'[p].value)
    {
      assert origin[p] == origin'[p];
    }
  }

  lemma {:induction false} SameBytes(o: seq<byte>, o': seq<byte>, origin: Origin, lits: seq<byte>)
    requires Explained(o, origin, lits) && Explained(o', origin, lits)
    ensures o == o'
  {
    if o != [] {
      var n := |o| - 1;
      ExplainedPrefix(o, origin, lits);
      ExplainedPrefix(o', origin, lits);
      var a, b := Literals(o[..n], origin[..n]), Literals(o'[..n], origin[..n]);
      if origin[n].None? {
        assert lits == a + [o[n]] && lits == b + [o'[n]];
        assert a == lits[..|lits| - 1] && b == lits[..|lits| - 1];
      } else {
        assert lits == a + [] == a && lits == b + [] == b;
      }
      SameBytes(o[..n], o'[..n], origin[..n], Literals(o[..n], origin[..n]));
      if origin[n].Some? {
        var m := origin[n].value;
        var q := m.src + (n - m.dest);
        assert o[q] == o[..n][q] && o'[q] == o'[..n][q];
      }
      assert o == o[..n] + [o[n]] && o' == o'[..n] + [o'[n]];
    } else {
      assert o' == [];
    }
  }

  /** Whatever was held, spilled or restored on the way, two complete decodings
      of the same matches and literals to the same size agree. */
  lemma SameOutput(h: History, h': History)
    requires Sound(h) && Counted(h) && Complete(h) && Sound(h') && Counted(h') && Complete(h')
    requires h.matches == h'.matches && h.lits == h'.lits && |h.o| == |h'.o|
    ensures h.o == h'.o
  {
    hide Explained, Literals;
    SameOrigin(h, h');
    SameOrigin(h', h);
    SoundSize(h);
    SoundSize(h');
    forall p | 0 <= p < |h.o|
      ensures h.origin[p] == h'.origin[p]
    {
      if h.origin[p].None? && h'.origin[p].Some? {
        assert h.origin[p] == h'.origin[p];
      }
    }
    assert h.origin == h'.origin;
    SameBytes(h.o, h'.o, h.origin, h.lits);
  }

  lemma SoundSize(h: History)
    requires Sound(h)
    ensures |h.o| == |h.origin| && forall p :: 0 <= p < |h.origin| && h.origin[p].Some? ==> InMatch(p, h.origin[p].value)
  {
    forall p | 0 <= p < |h.origin| && h.origin[p].Some?
      ensures InMatch(p, h.origin[p].value)
    {
      assert Repeats(h.o, p, h.origin[p].value);
    }
  }

  predicate InMatch(p: int, m: Match) {
    m.dest <= p < m.dest + m.length
  }

  lemma SameOrigin(h: History, h': History)
    requires Sound(h) && Counted(h) && Counted(h') && Complete(h') && h.matches == h'.matches && |h.o| == |h'.o|
    ensures forall p :: 0 <= p < |h.origin| && h.origin[p].Some? ==> h'.origin[p] == h.origin[p]
  {
    SoundSize(h);
    forall p | 0 <= p < |h.origin| && h.origin[p].Some?
      ensures h'.origin[p] == h.origin[p]
    {
      var m := h.origin[p].value;
      assert InMatch(p, m) && m in h.done && m in Due(h');
      assert Applied(m, h'.origin);
    }
  }
}
