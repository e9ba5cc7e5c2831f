/** The abstract machine of the installer-bytecode analysis: known and unknown
    values, stack slots that may be references, and the join of two states. */
module PsMachine {
  import opened Bytes

  /** psValue: a string, a 64-bit number, or nothing known. */
  datatype Val = Unknown | Num(n: int) | Str(s: string)

  datatype Operand = Operand(tag: nat, address: nat, value: Val)

  datatype Ins = Ins(offset: int, end: int, op: nat, sub: nat, arg: nat, operands: seq<Operand>)

  datatype Proc = Proc(name: string, decl: string, external: bool, code: seq<Ins>)

  datatype Slot = Slot(value: Val, ref: nat, indirect: bool)

  const EMPTY := Slot(Unknown, 0, false)
  const GLOBALS: nat := 0x4000_0000
  const STACK: nat := 0x6000_0000
  const CHAIN: nat := 64

  // The abstract value of a psState.
  datatype AState = AState(stack: seq<Slot>, globals: map<nat, Val>, params: seq<Val>, flag: Val)

  // ----- addresses -----

  datatype Loc = Global(a: nat) | Param(i: nat) | Cell(i: nat) | Nowhere

  // Which slots are references, and to what.
  type Refs = seq<Option<nat>>

  /** Where an address leads, through at most `n` references. */
  function Resolve(refs: Refs, a: nat, n: nat): (l: Loc)
    ensures l.Cell? ==> l.i < |refs| && refs[l.i].None?
    decreases n
  {
    if n == 0 then Nowhere
    else if a < GLOBALS then Global(a)
    else if a < STACK then Param(STACK - a - 1)
    else
      var i := a - STACK;
      if i >= |refs| then Nowhere
      else if refs[i].None? then Cell(i)
      else Resolve(refs, refs[i].value, n - 1)
  }

  function RefsOf(stack: seq<Slot>): (r: Refs)
    ensures |r| == |stack|
  {
    seq(|stack|, i requires 0 <= i < |stack| => if stack[i].indirect then Some(stack[i].ref) else None)
  }

  // A reference carries no value of its own, and a variable no address.
  predicate PlainRefs(stack: seq<Slot>) {
    forall i :: 0 <= i < |stack| ==> if stack[i].indirect then stack[i].value == Unknown else stack[i].ref == 0
  }

  function GlobalOf(globals: map<nat, Val>, a: nat): Val {
    if a in globals then globals[a] else Unknown
  }

  function Get(s: AState, a: nat): Val {
    match Resolve(RefsOf(s.stack), a, CHAIN)
    case Global(g) => GlobalOf(s.globals, g)
    case Param(i) => if i < |s.params| then s.params[i] else Unknown
    case Cell(i) => s.stack[i].value
    case Nowhere => Unknown
  }

  /** Writes to parameters, and past the end of the stack or of a chain, are dropped. */
  function Set(s: AState, a: nat, v: Val): AState {
    match Resolve(RefsOf(s.stack), a, CHAIN)
    case Global(g) => s.(globals := s.globals[g := v])
    case Cell(i) => s.(stack := s.stack[i := s.stack[i].(value := v)])
    case _ => s
  }

  lemma SetKeepsRefs(s: AState, a: nat, v: Val)
    ensures RefsOf(Set(s, a, v).stack) == RefsOf(s.stack) && Set(s, a, v).params == s.params
    ensures PlainRefs(s.stack) ==> PlainRefs(Set(s, a, v).stack)
  {
    assert |Set(s, a, v).stack| == |s.stack|;
  }

  function Value(s: AState, o: Operand): Val {
    if o.tag == 1 then o.value else if o.tag == 0 then Get(s, o.address) else Unknown
  }

  // ----- joins -----

  function JoinSlot(a: Slot, b: Slot): Slot {
    if a != b && a != EMPTY then EMPTY else a
  }

  function JoinVal(a: Val, b: Val): Val {
    if a != b && !a.Unknown? then Unknown else a
  }

  function Join(t: AState, s: AState): (r: AState)
    requires |t.stack| == |s.stack|
    ensures |r.stack| == |t.stack|
  {
    AState(
      seq(|t.stack|, i requires 0 <= i < |t.stack| => JoinSlot(t.stack[i], s.stack[i])),
      map a | a in t.globals :: JoinVal(t.globals[a], GlobalOf(s.globals, a)),
      t.params, JoinVal(t.flag, s.flag))
  }

  /** t knows nothing that s does not confirm. */
  predicate Covers(t: AState, s: AState) {
    && |t.stack| == |s.stack| && t.params == s.params
    && (forall i :: 0 <= i < |t.stack| ==> t.stack[i] == EMPTY || t.stack[i] == s.stack[i])
    && (forall a :: a in t.globals ==> t.globals[a].Unknown? || t.globals[a] == GlobalOf(s.globals, a))
    && (t.flag.Unknown? || t.flag == s.flag)
  }

  /** A join covers both sides: what either covered stays covered. */
  lemma JoinCovers(t: AState, s: AState)
    requires |t.stack| == |s.stack| && t.params == s.params
    ensures Covers(Join(t, s), s) && Covers(Join(t, s), t)
    ensures forall u :: Covers(t, u) ==> Covers(Join(t, s), u)
  {
  }

  lemma CoversSelf(s: AState)
    ensures Covers(s, s)
  {
  }

  /** Where references agree, a join forgets none. */
  lemma JoinKeepsRefs(t: AState, s: AState)
    requires RefsOf(t.stack) == RefsOf(s.stack) && PlainRefs(t.stack) && PlainRefs(s.stack)
    ensures |t.stack| == |s.stack| && RefsOf(Join(t, s).stack) == RefsOf(t.stack) && PlainRefs(Join(t, s).stack)
  {
    var r := Join(t, s).stack;
    assert |RefsOf(t.stack)| == |t.stack| && |RefsOf(s.stack)| == |s.stack|;
    forall i | 0 <= i < |r|
      ensures RefsOf(r)[i] == RefsOf(t.stack)[i] && if r[i].indirect then r[i].value == Unknown else r[i].ref == 0
    {
      assert RefsOf(t.stack)[i] == RefsOf(s.stack)[i];
      if t.stack[i].indirect {
        assert t.stack[i] == s.stack[i];
      }
    }
  }

  // ----- how much a state knows -----

  function NonEmpty(stack: seq<Slot>): nat {
    if stack == [] then 0 else (if stack[0] == EMPTY then 0 else 1) + NonEmpty(stack[1..])
  }

  function Known(globals: map<nat, Val>): set<nat> {
    set a | a in globals && !globals[a].Unknown?
  }

  function Weight(s: AState): nat {
    NonEmpty(s.stack) + |Known(s.globals)| + (if s.flag.Unknown? then 0 else 1)
  }

  lemma {:induction false} FewerSlots(t: seq<Slot>, r: seq<Slot>)
    requires |t| == |r| && forall i :: 0 <= i < |t| ==> r[i] == EMPTY || r[i] == t[i]
    ensures NonEmpty(r) <= NonEmpty(t) && (r != t ==> NonEmpty(r) < NonEmpty(t))
  {
    if t != [] {
      FewerSlots(t[1..], r[1..]);
      assert t == [t[0]] + t[1..] && r == [r[0]] + r[1..];
    }
  }

  /** A join either changes nothing or knows strictly less. */
  lemma JoinShrinks(t: AState, s: AState)
    requires |t.stack| == |s.stack|
    ensures Weight(Join(t, s)) <= Weight(t) && (Join(t, s) != t ==> Weight(Join(t, s)) < Weight(t))
  {
    var r := Join(t, s);
    FewerSlots(t.stack, r.stack);
    assert Known(r.globals) <= Known(t.globals);
    SubsetSize(Known(r.globals), Known(t.globals));
    if Known(r.globals) == Known(t.globals) {
      forall a | a in t.globals
        ensures r.globals[a] == t.globals[a]
      {
        assert a in Known(t.globals) <==> a in Known(r.globals);
      }
      assert r.globals == t.globals;
    }
  }

  lemma SubsetSize(a: set<nat>, b: set<nat>)
    requires a <= b
    ensures |a| <= |b| && (a != b ==> |a| < |b|)
  {
    assert b == a + (b - a);
    assert |b| == |a| + |b - a|;
    if a != b {
      assert b - a != {};
    }
  }

  // ----- the state the analysis updates in place -----

  // The globals g joined with o, but for the addresses still to be visited.
  function HalfMerged(g: map<nat, Val>, o: map<nat, Val>, keys: set<nat>): map<nat, Val> {
    map a | a in g :: if a in keys then g[a] else JoinVal(g[a], GlobalOf(o, a))
  }

  lemma HalfStart(g: map<nat, Val>, o: map<nat, Val>)
    ensures HalfMerged(g, o, g.Keys) == g
  {
  }

  lemma HalfNext(g: map<nat, Val>, o: map<nat, Val>, keys: set<nat>, k: nat)
    requires k in keys && keys <= g.Keys
    ensures var m, m' := HalfMerged(g, o, keys), HalfMerged(g, o, keys - {k});
            && m.Keys == m'.Keys == g.Keys && m[k] == g[k]
            && m' == (if g[k] != (if k in o then o[k] else Unknown) && !g[k].Unknown? then m[k := Unknown] else m)
            && (m' != g <==> m != g || m'[k] != g[k])
  {
    var m, m' := HalfMerged(g, o, keys), HalfMerged(g, o, keys - {k});
    if m != g {
      var a :| a in g && m[a] != g[a];
      assert m'[a] == m[a];
    }
  }

  lemma HalfEnd(g: map<nat, Val>, o: map<nat, Val>)
    ensures HalfMerged(g, o, {}) == map a | a in g :: JoinVal(g[a], GlobalOf(o, a))
  {
  }

  class State {
    var stack: seq<Slot>
    var globals: map<nat, Val>
    const params: seq<Val>
    var flag: Val

    function Abs(): AState
      reads this
    {
      AState(stack, globals, params, flag)
    }

    constructor (stack: seq<Slot>, globals: map<nat, Val>, params: seq<Val>, flag: Val)
      ensures Abs() == AState(stack, globals, params, flag)
    {
      this.stack, this.globals, this.params, this.flag := stack, globals, params, flag;
    }

    method Clone() returns (s: State)
      ensures fresh(s) && s.Abs() == Abs()
    {
      s := new State(stack, globals, params, flag);
    }

    method Read(address: nat) returns (v: Val)
      ensures v == Get(Abs(), address)
    {
      var a: nat := address;
      ghost var refs := RefsOf(stack);
      for k := 0 to CHAIN
        invariant k <= CHAIN && Resolve(refs, address, CHAIN) == Resolve(refs, a, CHAIN - k)
      {
        if a < GLOBALS {
          return if a in globals then globals[a] else Unknown;
        }
        if a < STACK {
          var i := STACK - a - 1;
          if i < |params| {
            return params[i];
          }
          return Unknown;
        }
        var i := a - STACK;
        if i >= |stack| {
          return Unknown;
        }
        var v := stack[i];
        if !v.indirect {
          return v.value;
        }
        a := v.ref;
      }
      return Unknown;
    }

    method Write(address: nat, v: Val)
      modifies this`stack, this`globals
      ensures Abs() == Set(old(Abs()), address, v)
    {
      var a: nat := address;
      ghost var refs := RefsOf(stack);
      for k := 0 to CHAIN
        invariant k <= CHAIN && Abs() == old(Abs()) && Resolve(refs, address, CHAIN) == Resolve(refs, a, CHAIN - k)
      {
        if a < GLOBALS {
          globals := globals[a := v];
          return;
        }
        if a < STACK {
          return;
        }
        var i := a - STACK;
        if i >= |stack| {
          return;
        }
        if !stack[i].indirect {
          stack := stack[i := stack[i].(value := v)];
          return;
        }
        a := stack[i].ref;
      }
    }

    method Operand(o: Operand) returns (v: Val)
      ensures v == Value(Abs(), o)
    {
      if o.tag == 1 {
        return o.value;
      }
      if o.tag == 0 {
        v := Read(o.address);
        return;
      }
      return Unknown;
    }

    method MergeStack(other: State) returns (changed: bool)
      requires other != this && |stack| == |other.stack|
      modifies this`stack
      ensures |stack| == |old(stack)| && forall k :: 0 <= k < |stack| ==> stack[k] == JoinSlot(old(stack)[k], other.stack[k])
      ensures changed <==> stack != old(stack)
    {
      changed := false;
      var i := 0;
      while i < |stack|
        invariant 0 <= i <= |stack| == |old(stack)|
        invariant forall k :: 0 <= k < |stack| ==> stack[k] == if k < i then JoinSlot(old(stack)[k], other.stack[k]) else old(stack)[k]
        invariant changed <==> stack != old(stack)
      {
        var a, b := stack[i], other.stack[i];
        if a != b && a != EMPTY {
          stack := stack[i := EMPTY];
          changed := true;
          assert stack[i] != old(stack)[i];
        }
        i := i + 1;
      }
    }

    method MergeGlobals(other: State) returns (changed: bool)
      requires other != this
      modifies this`globals
      ensures globals == map a | a in old(globals) :: JoinVal(old(globals)[a], GlobalOf(other.globals, a))
      ensures changed <==> globals != old(globals)
    {
      hide HalfMerged, JoinVal, GlobalOf;
      changed := false;
      var keys := globals.Keys;
      HalfStart(globals, other.globals);
      while keys != {}
        invariant keys <= globals.Keys == old(globals).Keys
        invariant globals == HalfMerged(old(globals), other.globals, keys)
        invariant changed <==> globals != old(globals)
        decreases |keys|
      {
        var k :| k in keys;
        var a := globals[k];
        HalfNext(old(globals), other.globals, keys, k);
        if a != (if k in other.globals then other.globals[k] else Unknown) && !a.Unknown? {
          globals := globals[k := Unknown];
          changed := true;
        }
        keys := keys - {k};
      }
      HalfEnd(old(globals), other.globals);
    }

    /** merge: what the two states do not agree on is forgotten. The answer tells
        whether anything was. */
    method Merge(other: State) returns (ok: bool, changed: bool)
      requires other != this
      modifies this`stack, this`globals, this`flag
      ensures ok <==> |old(stack)| == |other.stack|
      ensures !ok ==> Abs() == old(Abs())
      ensures ok ==> Abs() == Join(old(Abs()), other.Abs()) && (changed <==> Abs() != old(Abs()))
    {
      if |stack| != |other.stack| {
        return false, false;
      }
      ghost var t := Abs();
      var c1 := MergeStack(other);
      var c2 := MergeGlobals(other);
      changed := c1 || c2;
      if flag != other.flag && !flag.Unknown? {
        flag := Unknown;
        changed := true;
      }
      ok := true;
    }
  }
}
