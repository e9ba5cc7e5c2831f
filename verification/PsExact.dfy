/** What the analysis must not forget: runs in which every value either follows from
    known ones or is nothing in particular, and the abstract state that says all
    there is to say of them. */
module PsExact {
  import opened Bytes
  import opened PsMachine
  import opened PsFlow
  import opened PsRun

  // What can be said of a value: all of a number or a string, nothing of the others.
  function Seen(v: CVal): Val {
    match v
    case CNum(n) => Num(n)
    case CStr(s) => Str(s)
    case Other(_) => Unknown
  }

  function Real(v: Val): (c: CVal)
    requires !v.Unknown?
    ensures Seen(c) == v && forall d :: Seen(d) == v ==> d == c
  {
    match v
    case Num(n) => CNum(n)
    case Str(s) => CStr(s)
  }

  // ----- values that follow from others -----

  // The operands allow one value only.
  ghost predicate OnlyCalc(sub: nat, a: CVal, b: CVal, v: CVal) { forall w :: Calculated(sub, a, b, w) <==> w == v }
  ghost predicate OnlyCompare(sub: nat, a: CVal, b: CVal, v: CVal) { forall w :: Compared(sub, a, b, w) <==> w == v }
  ghost predicate OnlyInvert(a: CVal, v: CVal) { forall w :: Inverted(a, w) <==> w == v }
  ghost predicate OnlyReturn(name: string, args: seq<CVal>, v: CVal) { forall w :: Returns(name, args, w) <==> w == v }

  // Strings that are joined stay below the limit of the analysis.
  predicate Short(a: CVal, b: CVal) {
    a.CStr? && b.CStr? ==> |a.s| + |b.s| <= MAX_TEXT
  }

  /** A result is known exactly when the operands allow one value only, and then it
      is that value; strings above the limit are given up. */
  lemma CalcExact(sub: nat, a: CVal, b: CVal, v: CVal)
    requires Short(a, b)
    ensures OnlyCalc(sub, a, b, v) <==> !Calc(sub, Seen(a), Seen(b)).Unknown? && Seen(v) == Calc(sub, Seen(a), Seen(b))
  {
    var r := Calc(sub, Seen(a), Seen(b));
    if r.Unknown? {
      assert Calculated(sub, a, b, Other(0)) && Calculated(sub, a, b, Other(1));
    } else {
      assert Calculated(sub, a, b, Real(r));
    }
  }

  lemma CompareExact(sub: nat, a: CVal, b: CVal, v: CVal)
    ensures OnlyCompare(sub, a, b, v) <==> !Compare(sub, Seen(a), Seen(b)).Unknown? && Seen(v) == Compare(sub, Seen(a), Seen(b))
  {
    var r := Compare(sub, Seen(a), Seen(b));
    if r.Unknown? {
      assert Compared(sub, a, b, Other(0)) && Compared(sub, a, b, Other(1));
    } else {
      assert Compared(sub, a, b, Real(r));
    }
  }

  // A string cannot be negated: no value is allowed.
  lemma InvertExact(a: CVal, v: CVal)
    requires !a.CStr?
    ensures OnlyInvert(a, v) <==> !Invert(Seen(a)).Unknown? && Seen(v) == Invert(Seen(a))
  {
    var r := Invert(Seen(a));
    if r.Unknown? {
      assert Inverted(a, Other(0)) && Inverted(a, Other(1));
    } else {
      assert Inverted(a, Real(r));
    }
  }

  function AllSeen(vs: seq<CVal>): (r: seq<Val>)
    ensures |r| == |vs|
  {
    seq(|vs|, i requires 0 <= i < |vs| => Seen(vs[i]))
  }

  lemma ReturnExact(name: string, args: seq<CVal>, v: CVal)
    ensures OnlyReturn(name, args, v) <==> !Returned(name, AllSeen(args)).Unknown? && Seen(v) == Returned(name, AllSeen(args))
  {
    hide Builtin;
    var r := Returned(name, AllSeen(args));
    if r.Unknown? {
      assert Returns(name, args, Other(0)) && Returns(name, args, Other(1));
    } else {
      assert Returns(name, args, Real(r));
    }
  }

  lemma TooLong(sub: nat, a: CVal, b: CVal)
    requires !Short(a, b)
    ensures Calc(sub, Seen(a), Seen(b)) == Unknown
  {
  }

  // ----- runs in which nothing is left to chance -----

  // A value that is nothing in particular stands for any.
  ghost predicate HoldsSure(c: CState, o: Operand, v: CVal) {
    if o.tag == 0 then Fetch(c, o.address) == Some(v)
    else if o.tag == 1 then Seen(v) == o.value
    else v.Other?
  }

  /** The value that instruction x makes: where the operands allow several, it is
      nothing in particular. */
  ghost predicate Yields(x: Ins, c: CState, v: CVal)
    requires Decoded(x)
  {
    match x.op
    case 0 => HoldsSure(c, x.operands[1], v)
    case 1 => exists a, b :: HoldsSure(c, x.operands[0], a) && HoldsSure(c, x.operands[1], b) && Short(a, b)
                             && Calculated(x.sub, a, b, v) && (v.Other? || OnlyCalc(x.sub, a, b, v))
    case 2 => HoldsSure(c, x.operands[0], v)
    case 12 => exists a, b :: HoldsSure(c, x.operands[1], a) && HoldsSure(c, x.operands[2], b)
                              && Compared(x.sub, a, b, v) && (v.Other? || OnlyCompare(x.sub, a, b, v))
    case 15 => exists a :: HoldsSure(c, x.operands[0], a) && Inverted(a, v) && (v.Other? || OnlyInvert(a, v))
    case 17 => exists a :: HoldsSure(c, x.operands[0], a)
                           && if x.sub == 0 then v == a else Inverted(a, v) && (v.Other? || OnlyInvert(a, v))
    case _ => v.Other?
  }

  ghost predicate CallSure(p: seq<Proc>, x: Ins, c: CState, c': CState) {
    x.arg < |p| &&
    var g := SignatureOf(p[x.arg]);
    if !g.result then c' == c
    else
      && |c.stack| > 1
      && exists args, v :: Passed(c, true, g.n, args) && Returns(g.name, args, v) && (v.Other? || OnlyReturn(g.name, args, v))
                           && Store(c, Top(c), v) == Some(c')
  }

  // The instructions that leave a value where their first operand says.
  predicate Puts(op: nat) { op in {0, 1, 12, 15, 16, 21, 23, 24, 14, 22} }

  ghost predicate EffectSure(p: seq<Proc>, x: Ins, c: CState, c': CState)
    requires Decoded(x)
  {
    if Puts(x.op) then exists v :: Yields(x, c, v) && Leaves(x, c, v, c')
    else match x.op
         case 2 => exists v :: Yields(x, c, v) && c' == c.(stack := c.stack + [Var(v)])
         case 3 => x.operands[0].tag == 0 && c' == c.(stack := c.stack + [Ref(x.operands[0].address)])
         case 11 => exists v :: Yields(x, c, v) && c' == c.(stack := c.stack + [Var(v)])
         case 4 => DropStep(1, c, c')
         case 25 => DropStep(1, c, c')
         case 26 => DropStep(2, c, c')
         case 5 => CallSure(p, x, c, c')
         case 17 => exists v :: Yields(x, c, v) && c' == c.(flag := v)
         case _ => c' == c
  }

  /** Such steps are steps. */
  lemma SureIsReal(p: seq<Proc>, x: Ins, c: CState, c': CState)
    requires Decoded(x) && EffectSure(p, x, c, c')
    ensures CEffect(p, x, c, c')
  {
    hide Store, Fetch, OnlyCalc, OnlyCompare, OnlyInvert, OnlyReturn, Calculated, Compared, Inverted, Returns, SignatureOf;
    if Puts(x.op) {
      var v :| Yields(x, c, v) && Leaves(x, c, v, c');
      PutIsReal(p, x, c, v, c');
    } else if x.op == 2 {
      var v :| Yields(x, c, v) && c' == c.(stack := c.stack + [Var(v)]);
      HoldsIsReal(c, x.operands[0], v);
    } else if x.op == 17 {
      var v :| Yields(x, c, v) && c' == c.(flag := v);
      var a :| HoldsSure(c, x.operands[0], a) && if x.sub == 0 then v == a else Inverted(a, v) && (v.Other? || OnlyInvert(a, v));
      HoldsIsReal(c, x.operands[0], a);
    }
  }

  lemma HoldsIsReal(c: CState, o: Operand, v: CVal)
    requires HoldsSure(c, o, v)
    ensures Holds(c, o, v)
  {
  }

  lemma PutIsReal(p: seq<Proc>, x: Ins, c: CState, v: CVal, c': CState)
    requires Decoded(x) && Puts(x.op) && Yields(x, c, v) && Leaves(x, c, v, c')
    ensures CEffect(p, x, c, c')
  {
    hide Leaves, HoldsSure, Holds, OnlyCalc, OnlyCompare, OnlyInvert, Calculated, Compared, Inverted;
    var o := x.operands;
    if x.op == 0 {
      HoldsIsReal(c, o[1], v);
    } else if x.op == 1 {
      var a, b :| HoldsSure(c, o[0], a) && HoldsSure(c, o[1], b) && Short(a, b) && Calculated(x.sub, a, b, v) && (v.Other? || OnlyCalc(x.sub, a, b, v));
      HoldsIsReal(c, o[0], a);
      HoldsIsReal(c, o[1], b);
    } else if x.op == 12 {
      var a, b :| HoldsSure(c, o[1], a) && HoldsSure(c, o[2], b) && Compared(x.sub, a, b, v) && (v.Other? || OnlyCompare(x.sub, a, b, v));
      HoldsIsReal(c, o[1], a);
      HoldsIsReal(c, o[2], b);
    } else if x.op == 15 {
      var a :| HoldsSure(c, o[0], a) && Inverted(a, v) && (v.Other? || OnlyInvert(a, v));
      HoldsIsReal(c, o[0], a);
    }
  }

  // ----- the state that knows everything -----

  // All there is to say of memory.
  ghost predicate Knows(s: AState, c: CState) {
    && CRefs(c.stack) == RefsOf(s.stack) && PlainRefs(s.stack)
    && (forall i :: 0 <= i < |c.stack| && i < |s.stack| && c.stack[i].Var? ==> s.stack[i].value == Seen(c.stack[i].v))
    && (forall a :: a in c.globals ==> GlobalOf(s.globals, a) == Seen(c.globals[a]))
    && |s.params| == |c.params| && (forall i :: 0 <= i < |s.params| ==> s.params[i] == Seen(c.params[i]))
    && s.flag == Seen(c.flag)
  }

  lemma KnowsModels(s: AState, c: CState)
    requires Knows(s, c)
    ensures Models(s, c)
  {
  }

  lemma GetKnows(s: AState, c: CState, a: nat)
    requires Knows(s, c) && Fetch(c, a).Some?
    ensures Get(s, a) == Seen(Fetch(c, a).value)
  {
    KnowsModels(s, c);
    SameHeight(s, c);
  }

  lemma ValueKnows(s: AState, c: CState, o: Operand, v: CVal)
    requires Knows(s, c) && HoldsSure(c, o, v)
    ensures Value(s, o) == Seen(v)
  {
    if o.tag == 0 {
      GetKnows(s, c, o.address);
    }
  }

  lemma PutKnows(s: AState, c: CState, o: Operand, w: CVal, c': CState)
    requires Knows(s, c) && Store(c, o, w) == Some(c')
    ensures Knows(Put(s, o, Seen(w)), c')
  {
    KnowsModels(s, c);
    SameHeight(s, c);
    SetKeepsRefs(s, o.address, Seen(w));
    var l := Resolve(CRefs(c.stack), o.address, CHAIN);
    if o.tag == 0 && l.Cell? {
      assert CRefs(c.stack)[l.i].None?;
      SameRefs(c.stack, l.i, w);
    }
  }

  lemma PushKnows(s: AState, c: CState, l: Slot, d: CSlot)
    requires Knows(s, c) && (l.indirect <==> d.Ref?) && (d.Ref? ==> d.a == l.ref && l.value == Unknown) && (d.Var? ==> l.ref == 0 && l.value == Seen(d.v))
    ensures Knows(s.(stack := s.stack + [l]), c.(stack := c.stack + [d]))
  {
    KnowsModels(s, c);
    SameHeight(s, c);
    assert RefsOf(s.stack + [l]) == RefsOf(s.stack) + [if l.indirect then Some(l.ref) else None];
    assert CRefs(c.stack + [d]) == CRefs(c.stack) + [if d.Ref? then Some(d.a) else None];
  }

  lemma PopKnows(s: AState, c: CState, n: nat)
    requires Knows(s, c) && n < |c.stack|
    ensures |s.stack| == |c.stack|
    ensures Knows(s.(stack := s.stack[..|s.stack| - n]), c.(stack := c.stack[..|c.stack| - n]))
  {
    KnowsModels(s, c);
    SameHeight(s, c);
    assert RefsOf(s.stack[..|s.stack| - n]) == RefsOf(s.stack)[..|s.stack| - n];
    assert CRefs(c.stack[..|c.stack| - n]) == CRefs(c.stack)[..|c.stack| - n];
  }

  lemma HeightKnows(s: AState, c: CState)
    requires Knows(s, c)
    ensures |s.stack| == |c.stack|
  {
    KnowsModels(s, c);
    SameHeight(s, c);
  }

  lemma ArgumentsKnow(s: AState, c: CState, result: bool, n: nat, args: seq<CVal>)
    requires Knows(s, c) && Passed(c, result, n, args)
    ensures Arguments(s, result, n) == AllSeen(args)
  {
    hide Knows, Get, Fetch, Seen;
    HeightKnows(s, c);
    var end := |s.stack| - 1 - (if result then 1 else 0);
    forall i | 0 <= i < n
      ensures Get(s, STACK + end - i) == Seen(args[i])
    {
      assert Fetch(c, STACK + end - i) == Some(args[i]);
      GetKnows(s, c, STACK + end - i);
    }
  }

  lemma CalcKnows(sub: nat, a: CVal, b: CVal, v: CVal)
    requires Short(a, b) && Calculated(sub, a, b, v) && (v.Other? || OnlyCalc(sub, a, b, v))
    ensures Calc(sub, Seen(a), Seen(b)) == Seen(v)
  {
    CalcExact(sub, a, b, v);
  }

  lemma CompareKnows(sub: nat, a: CVal, b: CVal, v: CVal)
    requires Compared(sub, a, b, v) && (v.Other? || OnlyCompare(sub, a, b, v))
    ensures Compare(sub, Seen(a), Seen(b)) == Seen(v)
  {
    CompareExact(sub, a, b, v);
  }

  lemma InvertKnows(a: CVal, v: CVal)
    requires Inverted(a, v) && (v.Other? || OnlyInvert(a, v))
    ensures Invert(Seen(a)) == Seen(v)
  {
    InvertExact(a, v);
  }

  lemma ReturnKnows(name: string, args: seq<CVal>, v: CVal)
    requires Returns(name, args, v) && (v.Other? || OnlyReturn(name, args, v))
    ensures Returned(name, AllSeen(args)) == Seen(v)
  {
    hide Builtin;
    ReturnExact(name, args, v);
    assert |args| > 0 ==> AllSeen(args)[0] == Seen(args[0]);
  }

  lemma PutsKnow(p: seq<Proc>, x: Ins, s: AState, c: CState, v: CVal, c': CState)
    requires Decoded(x) && Puts(x.op) && Knows(s, c) && Yields(x, c, v) && Leaves(x, c, v, c')
    ensures Effect(p, x, s).Ok? && Knows(Effect(p, x, s).value, c')
  {
    hide Knows, Seen, HoldsSure, Value, Put, Store, Calc, Compare, Invert, Calculated, Compared, Inverted, OnlyCalc, OnlyCompare, OnlyInvert, Short;
    var o := x.operands;
    PutKnows(s, c, o[0], v, c');
    if x.op == 0 {
      ValueKnows(s, c, o[1], v);
    } else if x.op == 1 {
      var a, b :| HoldsSure(c, o[0], a) && HoldsSure(c, o[1], b) && Short(a, b) && Calculated(x.sub, a, b, v) && (v.Other? || OnlyCalc(x.sub, a, b, v));
      ValueKnows(s, c, o[0], a);
      ValueKnows(s, c, o[1], b);
      CalcKnows(x.sub, a, b, v);
    } else if x.op == 12 {
      var a, b :| HoldsSure(c, o[1], a) && HoldsSure(c, o[2], b) && Compared(x.sub, a, b, v) && (v.Other? || OnlyCompare(x.sub, a, b, v));
      ValueKnows(s, c, o[1], a);
      ValueKnows(s, c, o[2], b);
      CompareKnows(x.sub, a, b, v);
    } else if x.op == 15 {
      var a :| HoldsSure(c, o[0], a) && Inverted(a, v) && (v.Other? || OnlyInvert(a, v));
      ValueKnows(s, c, o[0], a);
      InvertKnows(a, v);
    } else {
      NothingSeen(v);
    }
  }

  lemma NothingSeen(v: CVal)
    ensures v.Other? ==> Seen(v) == Unknown
  {
  }

  lemma CalledKnows(p: seq<Proc>, x: Ins, s: AState, c: CState, c': CState)
    requires Knows(s, c) && x.arg < |p| && CallSure(p, x, c, c')
    ensures Knows(Called(p, x, s), c')
  {
    hide Builtin, SignatureOf, Knows, Fetch, Get, Set, Store, Seen, Returns, Returned, Arguments, AllSeen, OnlyReturn;
    HeightKnows(s, c);
    var g := SignatureOf(p[x.arg]);
    if g.result {
      var args, v :| Passed(c, true, g.n, args) && Returns(g.name, args, v) && (v.Other? || OnlyReturn(g.name, args, v)) && Store(c, Top(c), v) == Some(c');
      ArgumentsKnow(s, c, true, g.n, args);
      ReturnKnows(g.name, args, v);
      PutKnows(s, c, Top(c), v, c');
    }
  }

  lemma FlagKnows(x: Ins, s: AState, c: CState, v: CVal)
    requires Decoded(x) && x.op == 17 && Knows(s, c) && Yields(x, c, v)
    ensures Flagged(x, Value(s, x.operands[0])) == Seen(v)
  {
    hide Knows, Value, HoldsSure, Seen, Invert, Inverted, OnlyInvert;
    var a :| HoldsSure(c, x.operands[0], a) && if x.sub == 0 then v == a else Inverted(a, v) && (v.Other? || OnlyInvert(a, v));
    ValueKnows(s, c, x.operands[0], a);
    if x.sub != 0 {
      InvertKnows(a, v);
    }
  }

  /** What the analysis knows of a state in full, it knows in full of the next one. */
  lemma EffectKnows(p: seq<Proc>, x: Ins, s: AState, c: CState, c': CState)
    requires Decoded(x) && Knows(s, c) && EffectSure(p, x, c, c')
    ensures Effect(p, x, s).Ok? && Knows(Effect(p, x, s).value, c')
  {
    hide Knows, Put, Called, Value, Seen, HoldsSure, CallSure;
    if Puts(x.op) {
      var v :| Yields(x, c, v) && Leaves(x, c, v, c');
      PutsKnow(p, x, s, c, v, c');
    } else if x.op == 2 {
      var v :| Yields(x, c, v) && c' == c.(stack := c.stack + [Var(v)]);
      ValueKnows(s, c, x.operands[0], v);
      PushKnows(s, c, Slot(Value(s, x.operands[0]), 0, false), Var(v));
    } else if x.op == 3 {
      PushKnows(s, c, Slot(Unknown, x.operands[0].address, true), Ref(x.operands[0].address));
    } else if x.op == 11 {
      var v :| Yields(x, c, v) && c' == c.(stack := c.stack + [Var(v)]);
      NothingSeen(v);
      PushKnows(s, c, EMPTY, Var(v));
    } else if x.op == 4 || x.op == 25 || x.op == 26 {
      PopKnows(s, c, if x.op == 26 then 2 else 1);
    } else if x.op == 5 {
      assert CallSure(p, x, c, c');
      Callee(p, x, c, c');
      CalledKnows(p, x, s, c, c');
    } else if x.op == 17 {
      var v :| Yields(x, c, v) && c' == c.(flag := v);
      FlagKnows(x, s, c, v);
      FlagSet(s, c, v);
    }
  }

  lemma Callee(p: seq<Proc>, x: Ins, c: CState, c': CState)
    requires CallSure(p, x, c, c')
    ensures x.arg < |p|
  {
  }

  lemma FlagSet(s: AState, c: CState, v: CVal)
    requires Knows(s, c)
    ensures Knows(s.(flag := Seen(v)), c.(flag := v))
  {
  }
}
