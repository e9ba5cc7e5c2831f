/** Running the bytecode for real: a step relation on memory, for the fragment in
    which calls write only their result and parameters are never assigned; and
    the proof that the abstract machine follows it. */
module PsRun {
  import opened Bytes
  import opened PsMachine
  import opened PsFlow

  // A value at run time: a number, a string, or anything else.
  datatype CVal = CNum(n: int) | CStr(s: string) | Other(id: int)

  // A stack slot at run time: a variable, or a reference to one.
  datatype CSlot = Var(v: CVal) | Ref(a: nat)

  datatype CState = CState(stack: seq<CSlot>, globals: map<nat, CVal>, params: seq<CVal>, flag: CVal)

  function CRefs(stack: seq<CSlot>): (r: Refs)
    ensures |r| == |stack|
  {
    seq(|stack|, i requires 0 <= i < |stack| => if stack[i].Ref? then Some(stack[i].a) else None)
  }

  // ----- memory -----

  function Fetch(c: CState, a: nat): Option<CVal> {
    match Resolve(CRefs(c.stack), a, CHAIN)
    case Global(g) => if g in c.globals then Some(c.globals[g]) else None
    case Param(i) => if i < |c.params| then Some(c.params[i]) else None
    case Cell(i) => Some(c.stack[i].v)
    case Nowhere => None
  }

  // Parameters are never assigned in the fragment, and chains are short.
  function Store(c: CState, o: Operand, v: CVal): Option<CState> {
    if o.tag != 0 then Some(c)
    else match Resolve(CRefs(c.stack), o.address, CHAIN)
         case Global(g) => Some(c.(globals := c.globals[g := v]))
         case Cell(i) => Some(c.(stack := c.stack[i := Var(v)]))
         case _ => None
  }

  // Aggregate members, and constants the decoder does not read, may have any value.
  ghost predicate Holds(c: CState, o: Operand, v: CVal) {
    if o.tag == 0 then Fetch(c, o.address) == Some(v)
    else if o.tag == 1 then Agrees(o.value, v)
    else true
  }

  // What is known of a value is true of it.
  ghost predicate Agrees(v: Val, c: CVal) {
    match v
    case Unknown => true
    case Num(n) => c == CNum(n)
    case Str(s) => c == CStr(s)
  }

  // ----- values -----

  ghost predicate Calculated(sub: nat, a: CVal, b: CVal, v: CVal) {
    && (sub == 0 && a.CStr? && b.CStr? ==> v == CStr(a.s + b.s))
    && (sub == 0 && a.CNum? && b.CNum? ==> v == CNum(Wrap(a.n + b.n)))
    && (sub == 1 && a.CNum? && b.CNum? ==> v == CNum(Wrap(a.n - b.n)))
  }

  ghost predicate Compared(sub: nat, a: CVal, b: CVal, v: CVal) {
    (a.CNum? && b.CNum?) || (a.CStr? && b.CStr?) ==>
      && (sub == 4 ==> v == CNum(if a != b then 1 else 0))
      && (sub == 5 ==> v == CNum(if a == b then 1 else 0))
  }

  // A string has no negation: such a run stops with a type error.
  ghost predicate Inverted(a: CVal, v: CVal) {
    match a
    case CNum(n) => v == CNum(Not(n))
    case CStr(_) => false
    case Other(_) => true
  }

  // What an external procedure may return.
  ghost predicate Returns(name: string, args: seq<CVal>, v: CVal) {
    if name == "ISExec" || name == "ISArcExtract" then v == CNum(1)
    else |args| > 0 && args[0].CStr? && Builtin(name, args[0].s).Some? ==> v == CStr(Builtin(name, args[0].s).value)
  }

  /** The values of the n slots below the result, top first. */
  ghost predicate Passed(c: CState, result: bool, n: nat, args: seq<CVal>) {
    var end := |c.stack| - 1 - (if result then 1 else 0);
    && n <= end && |args| == n
    && forall i :: 0 <= i < n ==> Fetch(c, STACK + end - i) == Some(args[i])
  }

  // ----- one instruction -----

  function Top(c: CState): Operand
    requires |c.stack| > 0
  {
    Operand(0, STACK + |c.stack| - 1, Unknown)
  }

  ghost predicate CallStep(p: seq<Proc>, x: Ins, c: CState, c': CState) {
    x.arg < |p| &&
    var g := SignatureOf(p[x.arg]);
    if !g.result then c' == c
    else
      && |c.stack| > 1
      && exists args, v :: Passed(c, true, g.n, args) && Returns(g.name, args, v) && Store(c, Top(c), v) == Some(c')
  }

  // An instruction that leaves v where its first operand says.
  ghost predicate Leaves(x: Ins, c: CState, v: CVal, c': CState)
    requires |x.operands| > 0
  {
    Store(c, x.operands[0], v) == Some(c')
  }

  ghost predicate MoveStep(x: Ins, c: CState, c': CState)
    requires |x.operands| > 1
  {
    exists v :: Holds(c, x.operands[1], v) && Leaves(x, c, v, c')
  }

  ghost predicate CalcStep(x: Ins, c: CState, c': CState)
    requires |x.operands| > 1
  {
    exists a, b, v :: Holds(c, x.operands[0], a) && Holds(c, x.operands[1], b) && Calculated(x.sub, a, b, v) && Leaves(x, c, v, c')
  }

  ghost predicate CompareStep(x: Ins, c: CState, c': CState)
    requires |x.operands| > 2
  {
    exists a, b, v :: Holds(c, x.operands[1], a) && Holds(c, x.operands[2], b) && Compared(x.sub, a, b, v) && Leaves(x, c, v, c')
  }

  ghost predicate NotStep(x: Ins, c: CState, c': CState)
    requires |x.operands| > 0
  {
    exists a, v :: Holds(c, x.operands[0], a) && Inverted(a, v) && Leaves(x, c, v, c')
  }

  ghost predicate AnyStep(x: Ins, c: CState, c': CState)
    requires |x.operands| > 0
  {
    exists v :: Leaves(x, c, v, c')
  }

  ghost predicate PushStep(x: Ins, c: CState, c': CState)
    requires |x.operands| > 0
  {
    exists v :: Holds(c, x.operands[0], v) && c' == c.(stack := c.stack + [Var(v)])
  }

  ghost predicate FlagStep(x: Ins, c: CState, c': CState)
    requires |x.operands| > 0
  {
    exists a, v :: Holds(c, x.operands[0], a) && (if x.sub != 0 then Inverted(a, v) else v == a) && c' == c.(flag := v)
  }

  ghost predicate NewStep(c: CState, c': CState) {
    exists v :: c' == c.(stack := c.stack + [Var(v)])
  }

  ghost predicate DropStep(n: nat, c: CState, c': CState) {
    |c.stack| > n && c' == c.(stack := c.stack[..|c.stack| - n])
  }

  /** What an instruction may do to memory. Without a handler nothing is thrown,
      and references are taken of plain variables only. */
  ghost predicate CEffect(p: seq<Proc>, x: Ins, c: CState, c': CState)
    requires Decoded(x)
  {
    match x.op
    case 0 => MoveStep(x, c, c')
    case 1 => CalcStep(x, c, c')
    case 2 => PushStep(x, c, c')
    case 3 => x.operands[0].tag == 0 && c' == c.(stack := c.stack + [Ref(x.operands[0].address)])
    case 11 => NewStep(c, c')
    case 4 => DropStep(1, c, c')
    case 25 => DropStep(1, c, c')
    case 26 => DropStep(2, c, c')
    case 5 => CallStep(p, x, c, c')
    case 12 => CompareStep(x, c, c')
    case 15 => NotStep(x, c, c')
    case 16 => AnyStep(x, c, c')
    case 21 => AnyStep(x, c, c')
    case 23 => AnyStep(x, c, c')
    case 24 => AnyStep(x, c, c')
    case 14 => AnyStep(x, c, c')
    case 22 => AnyStep(x, c, c')
    case 17 => FlagStep(x, c, c')
    case _ => c' == c
  }

  // Whether a branch is taken on this value; a value that is no number may go either way.
  ghost predicate Decides(v: CVal, taken: bool) {
    v.CNum? ==> (taken <==> v.n != 0)
  }

  ghost predicate Branches(x: Ins, c: CState, taken: bool)
    requires Decoded(x)
  {
    if x.op == 7 then exists v :: Holds(c, x.operands[0], v) && Decides(v, taken)
    else if x.op == 8 then exists v :: Holds(c, x.operands[0], v) && Decides(v, !taken)
    else Decides(c.flag, taken)
  }

  ghost predicate CNext(ins: seq<Ins>, i: nat, c: CState, j: nat)
    requires i < |ins| && Decoded(ins[i])
  {
    var x := ins[i];
    if x.op == 9 then false
    else if !Jumps(x.op) then j == i + 1
    else
      var t := x.end + Signed(x.arg);
      t in Offsets(ins) &&
      var target := Offsets(ins)[t];
      if x.op == 6 || x.op == 25 || x.op == 26 then j == target
      else (j == target && Branches(x, c, true)) || (j == i + 1 && Branches(x, c, false))
  }

  // A point of a run: the instruction about to run, and memory.
  datatype Point = Point(pc: nat, c: CState)

  ghost predicate Step(p: seq<Proc>, ins: seq<Ins>, a: Point, b: Point)
    requires forall x :: x in ins ==> Decoded(x)
  {
    a.pc < |ins| && CEffect(p, ins[a.pc], a.c, b.c) && CNext(ins, a.pc, b.c, b.pc)
  }

  // ----- the abstract state is true of memory -----

  ghost predicate Models(s: AState, c: CState) {
    && CRefs(c.stack) == RefsOf(s.stack) && PlainRefs(s.stack)
    && (forall i :: 0 <= i < |c.stack| && i < |s.stack| && c.stack[i].Var? ==> Agrees(s.stack[i].value, c.stack[i].v))
    && (forall a :: a in c.globals ==> Agrees(GlobalOf(s.globals, a), c.globals[a]))
    && (forall i :: 0 <= i < |s.params| && i < |c.params| ==> Agrees(s.params[i], c.params[i]))
    && Agrees(s.flag, c.flag)
  }

  lemma SameHeight(s: AState, c: CState)
    requires Models(s, c)
    ensures |s.stack| == |c.stack|
    ensures forall i :: 0 <= i < |s.stack| ==> (c.stack[i].Var? <==> !s.stack[i].indirect) && (c.stack[i].Ref? ==> c.stack[i].a == s.stack[i].ref)
  {
    assert |CRefs(c.stack)| == |RefsOf(s.stack)|;
    forall i | 0 <= i < |s.stack|
      ensures (c.stack[i].Var? <==> !s.stack[i].indirect) && (c.stack[i].Ref? ==> c.stack[i].a == s.stack[i].ref)
    {
      assert CRefs(c.stack)[i] == RefsOf(s.stack)[i];
    }
  }

  lemma GetSound(s: AState, c: CState, a: nat)
    requires Models(s, c) && Fetch(c, a).Some?
    ensures Agrees(Get(s, a), Fetch(c, a).value)
  {
    SameHeight(s, c);
  }

  lemma SameRefs(stack: seq<CSlot>, i: nat, v: CVal)
    requires i < |stack| && stack[i].Var?
    ensures CRefs(stack[i := Var(v)]) == CRefs(stack)
  {
  }

  lemma PutSound(s: AState, c: CState, o: Operand, v: Val, w: CVal, c': CState)
    requires Models(s, c) && Agrees(v, w) && Store(c, o, w) == Some(c')
    ensures Models(Put(s, o, v), c') && RefsOf(Put(s, o, v).stack) == RefsOf(s.stack)
  {
    SameHeight(s, c);
    SetKeepsRefs(s, o.address, v);
    var l := Resolve(CRefs(c.stack), o.address, CHAIN);
    if o.tag == 0 && l.Cell? {
      assert CRefs(c.stack)[l.i].None?;
      SameRefs(c.stack, l.i, w);
    }
  }

  lemma ValueSound(s: AState, c: CState, o: Operand, v: CVal)
    requires Models(s, c) && Holds(c, o, v)
    ensures Agrees(Value(s, o), v)
  {
    if o.tag == 0 {
      GetSound(s, c, o.address);
    }
  }

  lemma PushSound(s: AState, c: CState, l: Slot, d: CSlot)
    requires Models(s, c) && (l.indirect <==> d.Ref?) && (d.Ref? ==> d.a == l.ref && l.value == Unknown) && (d.Var? ==> l.ref == 0 && Agrees(l.value, d.v))
    ensures Models(s.(stack := s.stack + [l]), c.(stack := c.stack + [d]))
    ensures RefsOf(s.stack + [l]) == RefsOf(s.stack) + [if l.indirect then Some(l.ref) else None]
  {
    SameHeight(s, c);
    assert RefsOf(s.stack + [l]) == RefsOf(s.stack) + [if l.indirect then Some(l.ref) else None];
    assert CRefs(c.stack + [d]) == CRefs(c.stack) + [if d.Ref? then Some(d.a) else None];
  }

  lemma PopSound(s: AState, c: CState, n: nat)
    requires Models(s, c) && n < |c.stack|
    ensures |s.stack| == |c.stack|
    ensures Models(s.(stack := s.stack[..|s.stack| - n]), c.(stack := c.stack[..|c.stack| - n]))
    ensures RefsOf(s.stack[..|s.stack| - n]) == RefsOf(s.stack)[..|s.stack| - n]
  {
    SameHeight(s, c);
    assert RefsOf(s.stack[..|s.stack| - n]) == RefsOf(s.stack)[..|s.stack| - n];
    assert CRefs(c.stack[..|c.stack| - n]) == CRefs(c.stack)[..|c.stack| - n];
  }

  lemma Height(s: AState, c: CState)
    requires Models(s, c)
    ensures |s.stack| == |c.stack|
  {
    SameHeight(s, c);
  }

  /** Every argument reported as known is the value passed. */
  lemma ArgumentsSound(s: AState, c: CState, result: bool, n: nat, args: seq<CVal>)
    requires Models(s, c) && Passed(c, result, n, args)
    ensures |Arguments(s, result, n)| == n && forall i :: 0 <= i < n ==> Agrees(Arguments(s, result, n)[i], args[i])
  {
    hide Models, Get, Fetch, Agrees;
    Height(s, c);
    var end := |s.stack| - 1 - (if result then 1 else 0);
    forall i | 0 <= i < n
      ensures Agrees(Arguments(s, result, n)[i], args[i])
    {
      assert Fetch(c, STACK + end - i) == Some(args[i]);
      GetSound(s, c, STACK + end - i);
    }
  }

  lemma CalledSound(p: seq<Proc>, x: Ins, s: AState, c: CState, c': CState)
    requires Models(s, c) && x.arg < |p| && CallStep(p, x, c, c')
    ensures Models(Called(p, x, s), c') && RefsOf(Called(p, x, s).stack) == RefsOf(s.stack)
  {
    hide Builtin, SignatureOf, Models, Fetch, Get, Set, RefsOf, Store, Agrees, Returns, Returned, Arguments;
    Height(s, c);
    var g := SignatureOf(p[x.arg]);
    if g.result {
      var args, v :| Passed(c, true, g.n, args) && Returns(g.name, args, v) && Store(c, Top(c), v) == Some(c');
      ArgumentsSound(s, c, true, g.n, args);
      ReturnedSound(g.name, Arguments(s, true, g.n), args, v);
      PutSound(s, c, Top(c), Returned(g.name, Arguments(s, true, g.n)), v, c');
    }
  }

  // What is known of a result follows from what is known of the arguments.
  lemma ReturnedSound(name: string, known: seq<Val>, args: seq<CVal>, v: CVal)
    requires |known| == |args| && (forall i :: 0 <= i < |args| ==> Agrees(known[i], args[i])) && Returns(name, args, v)
    ensures Agrees(Returned(name, known), v)
  {
    hide Builtin;
    assert |known| > 0 ==> Agrees(known[0], args[0]);
  }

  // ----- one instruction, abstractly and for real -----

  /** What an instruction does to the references on the stack. */
  function Shape(x: Ins, refs: Refs): Refs
    requires Decoded(x)
  {
    match x.op
    case 2 => refs + [None]
    case 11 => refs + [None]
    case 3 => refs + [if x.operands[0].tag == 0 then Some(x.operands[0].address) else None]
    case 4 => refs[..if |refs| > 1 then |refs| - 1 else 0]
    case 25 => refs[..if |refs| > 1 then |refs| - 1 else 0]
    case 26 => refs[..if |refs| > 2 then |refs| - 2 else 0]
    case _ => refs
  }

  lemma EffectShape(p: seq<Proc>, x: Ins, s: AState)
    requires Decoded(x) && Effect(p, x, s).Ok?
    ensures RefsOf(Effect(p, x, s).value.stack) == Shape(x, RefsOf(s.stack)) && Effect(p, x, s).value.params == s.params
    ensures PlainRefs(s.stack) ==> PlainRefs(Effect(p, x, s).value.stack)
  {
    hide Set, Get, Returned, Calc, Compare, Resolve, RefsOf, PlainRefs;
    forall a, v
      ensures RefsOf(Set(s, a, v).stack) == RefsOf(s.stack) && Set(s, a, v).params == s.params
      ensures PlainRefs(s.stack) ==> PlainRefs(Set(s, a, v).stack)
    {
      SetKeepsRefs(s, a, v);
    }
    if x.op == 2 {
      PushShape(s.stack, Slot(Value(s, x.operands[0]), 0, false));
    } else if x.op == 3 {
      assert x.operands[0] in x.operands;
      PushShape(s.stack, Slot(Unknown, x.operands[0].address, x.operands[0].tag == 0));
    } else if x.op == 11 {
      PushShape(s.stack, EMPTY);
    } else if x.op == 4 || x.op == 25 || x.op == 26 {
      PopShape(s.stack, if x.op == 26 then 2 else 1);
    }
  }

  lemma PushShape(stack: seq<Slot>, l: Slot)
    ensures RefsOf(stack + [l]) == RefsOf(stack) + [if l.indirect then Some(l.ref) else None]
    ensures PlainRefs(stack) && (if l.indirect then l.value == Unknown else l.ref == 0) ==> PlainRefs(stack + [l])
  {
  }

  lemma PopShape(stack: seq<Slot>, n: nat)
    ensures n <= |stack| ==> RefsOf(stack[..|stack| - n]) == RefsOf(stack)[..|stack| - n]
    ensures n <= |stack| && PlainRefs(stack) ==> PlainRefs(stack[..|stack| - n])
  {
  }

  lemma CalcSound(sub: nat, a: Val, b: Val, ca: CVal, cb: CVal, v: CVal)
    requires Agrees(a, ca) && Agrees(b, cb) && Calculated(sub, ca, cb, v)
    ensures Agrees(Calc(sub, a, b), v)
  {
  }

  lemma CompareSound(sub: nat, a: Val, b: Val, ca: CVal, cb: CVal, v: CVal)
    requires Agrees(a, ca) && Agrees(b, cb) && Compared(sub, ca, cb, v)
    ensures Agrees(Compare(sub, a, b), v)
  {
  }

  lemma InvertSound(a: Val, ca: CVal, v: CVal)
    requires Agrees(a, ca) && Inverted(ca, v)
    ensures Agrees(Invert(a), v)
  {
  }

  lemma PutsSound(p: seq<Proc>, x: Ins, s: AState, c: CState, c': CState)
    requires Decoded(x) && x.op in {0, 1, 12, 15, 16, 21, 23, 24, 14, 22} && Models(s, c) && CEffect(p, x, c, c')
    ensures Effect(p, x, s).Ok? && Models(Effect(p, x, s).value, c')
  {
    hide Models, Agrees, Value, Put, Store, Calc, Compare, Invert, Calculated, Compared, Inverted, Holds, Resolve;
    var o := x.operands;
    if x.op == 0 {
      var v :| Holds(c, o[1], v) && Leaves(x, c, v, c');
      ValueSound(s, c, o[1], v);
      PutSound(s, c, o[0], Value(s, o[1]), v, c');
    } else if x.op == 1 {
      var a, b, v :| Holds(c, o[0], a) && Holds(c, o[1], b) && Calculated(x.sub, a, b, v) && Leaves(x, c, v, c');
      ValueSound(s, c, o[0], a);
      ValueSound(s, c, o[1], b);
      CalcSound(x.sub, Value(s, o[0]), Value(s, o[1]), a, b, v);
      PutSound(s, c, o[0], Calc(x.sub, Value(s, o[0]), Value(s, o[1])), v, c');
    } else if x.op == 12 {
      var a, b, v :| Holds(c, o[1], a) && Holds(c, o[2], b) && Compared(x.sub, a, b, v) && Leaves(x, c, v, c');
      ValueSound(s, c, o[1], a);
      ValueSound(s, c, o[2], b);
      CompareSound(x.sub, Value(s, o[1]), Value(s, o[2]), a, b, v);
      PutSound(s, c, o[0], Compare(x.sub, Value(s, o[1]), Value(s, o[2])), v, c');
    } else if x.op == 15 {
      var a, v :| Holds(c, o[0], a) && Inverted(a, v) && Leaves(x, c, v, c');
      ValueSound(s, c, o[0], a);
      InvertSound(Value(s, o[0]), a, v);
      PutSound(s, c, o[0], Invert(Value(s, o[0])), v, c');
    } else {
      var v :| Leaves(x, c, v, c');
      NothingKnown(v);
      PutSound(s, c, o[0], Unknown, v, c');
    }
  }

  lemma NothingKnown(v: CVal)
    ensures Agrees(Unknown, v)
  {
  }

  lemma FlagSound(x: Ins, s: AState, c: CState, c': CState)
    requires |x.operands| > 0 && Models(s, c) && FlagStep(x, c, c')
    ensures Models(s.(flag := Flagged(x, Value(s, x.operands[0]))), c')
  {
    var a, v :| Holds(c, x.operands[0], a) && (if x.sub != 0 then Inverted(a, v) else v == a) && c' == c.(flag := v);
    ValueSound(s, c, x.operands[0], a);
  }

  lemma StacksSound(p: seq<Proc>, x: Ins, s: AState, c: CState, c': CState)
    requires Decoded(x) && x.op in {2, 3, 11, 4, 25, 26} && Models(s, c) && CEffect(p, x, c, c')
    ensures Effect(p, x, s).Ok? && Models(Effect(p, x, s).value, c')
  {
    hide Models, Agrees, Value, Store, Holds, Resolve;
    if x.op == 2 {
      var v :| Holds(c, x.operands[0], v) && c' == c.(stack := c.stack + [Var(v)]);
      ValueSound(s, c, x.operands[0], v);
      PushSound(s, c, Slot(Value(s, x.operands[0]), 0, false), Var(v));
    } else if x.op == 3 {
      PushSound(s, c, Slot(Unknown, x.operands[0].address, true), Ref(x.operands[0].address));
    } else if x.op == 11 {
      var v :| c' == c.(stack := c.stack + [Var(v)]);
      NothingKnown(v);
      PushSound(s, c, EMPTY, Var(v));
    } else {
      PopSound(s, c, if x.op == 26 then 2 else 1);
    }
  }

  lemma EffectSound(p: seq<Proc>, x: Ins, s: AState, c: CState, c': CState)
    requires Decoded(x) && Models(s, c) && CEffect(p, x, c, c')
    ensures Effect(p, x, s).Ok? && Models(Effect(p, x, s).value, c')
  {
    hide Models, Put, Called, Value;
    if x.op in {0, 1, 12, 15, 16, 21, 23, 24, 14, 22} {
      PutsSound(p, x, s, c, c');
    } else if x.op in {2, 3, 11, 4, 25, 26} {
      StacksSound(p, x, s, c, c');
    } else if x.op == 5 {
      CalledSound(p, x, s, c, c');
    } else if x.op == 17 {
      FlagSound(x, s, c, c');
    }
  }

  lemma ConditionSound(x: Ins, s: AState, c: CState, taken: bool)
    requires Decoded(x) && Models(s, c) && Branches(x, c, taken)
    ensures Condition(x, s).Num? ==> (taken <==> Condition(x, s).n != 0)
  {
    hide Models, Value;
    if x.op == 7 {
      var v :| Holds(c, x.operands[0], v) && Decides(v, taken);
      ValueSound(s, c, x.operands[0], v);
    } else if x.op == 8 {
      var v :| Holds(c, x.operands[0], v) && Decides(v, !taken);
      ValueSound(s, c, x.operands[0], v);
    } else {
      FlagOf(s, c);
    }
  }

  lemma FlagOf(s: AState, c: CState)
    requires Models(s, c)
    ensures Agrees(s.flag, c.flag)
  {
  }

  /** Where a run goes, the analysis goes too. */
  lemma FlowSound(p: seq<Proc>, ins: seq<Ins>, s: AState, a: Point, b: Point)
    requires (forall x :: x in ins ==> Decoded(x)) && Step(p, ins, a, b) && Models(s, a.c)
    requires Flow(p, ins, a.pc, s).Ok?
    ensures Models(Flow(p, ins, a.pc, s).value.s, b.c) && b.pc in Flow(p, ins, a.pc, s).value.to
  {
    hide Models, CEffect, Effect, Offsets, Condition, Branches, Value;
    var x := ins[a.pc];
    EffectSound(p, x, s, a.c, b.c);
    var t := Effect(p, x, s).value;
    if Jumps(x.op) && Branches(x, b.c, true) {
      ConditionSound(x, t, b.c, true);
    }
    if Jumps(x.op) && Branches(x, b.c, false) {
      ConditionSound(x, t, b.c, false);
    }
  }

  /** What a state that covers another one says is still true. */
  lemma CoverSound(t: AState, s: AState, c: CState)
    requires Covers(t, s) && Models(s, c) && RefsOf(t.stack) == RefsOf(s.stack) && PlainRefs(t.stack)
    ensures Models(t, c)
  {
    SameHeight(s, c);
  }
}
