/** Knowing more before an instruction is knowing more after it: the order on
    abstract states, the join as a least upper bound, and the transfer function. */
module PsMonotone {
  import opened Bytes
  import opened PsMachine
  import opened PsFlow

  // t's references are s's, and carry no values.
  ghost predicate RefsAlike(t: AState, s: AState) {
    RefsOf(t.stack) == RefsOf(s.stack) && PlainRefs(t.stack) && PlainRefs(s.stack)
  }

  // u says nothing, or what v says.
  predicate Vaguer(u: Val, v: Val) { u.Unknown? || u == v }

  lemma CoversTwice(u: AState, t: AState, s: AState)
    requires Covers(u, t) && Covers(t, s)
    ensures Covers(u, s)
  {
    forall a | a in u.globals
      ensures u.globals[a].Unknown? || u.globals[a] == GlobalOf(s.globals, a)
    {
      assert u.globals[a].Unknown? || u.globals[a] == GlobalOf(t.globals, a);
      assert a in t.globals ==> t.globals[a].Unknown? || t.globals[a] == GlobalOf(s.globals, a);
    }
  }

  /** Of all states that cover both sides, the join knows most. */
  lemma JoinLeast(t: AState, s: AState, u: AState)
    requires Covers(u, t) && Covers(u, s)
    ensures Covers(u, Join(t, s))
  {
    var r := Join(t, s);
    forall a | a in u.globals
      ensures u.globals[a].Unknown? || u.globals[a] == GlobalOf(r.globals, a)
    {
      assert u.globals[a].Unknown? || (u.globals[a] == GlobalOf(t.globals, a) && u.globals[a] == GlobalOf(s.globals, a));
    }
  }

  lemma GetMore(t: AState, s: AState, a: nat)
    requires Covers(t, s) && RefsAlike(t, s)
    ensures Vaguer(Get(t, a), Get(s, a))
  {
    var l := Resolve(RefsOf(s.stack), a, CHAIN);
    if l.Global? {
      assert l.a in t.globals ==> t.globals[l.a].Unknown? || t.globals[l.a] == GlobalOf(s.globals, l.a);
    }
  }

  lemma ValueMore(t: AState, s: AState, o: Operand)
    requires Covers(t, s) && RefsAlike(t, s)
    ensures Vaguer(Value(t, o), Value(s, o))
  {
    GetMore(t, s, o.address);
  }

  lemma SetMore(t: AState, s: AState, a: nat, u: Val, v: Val)
    requires Covers(t, s) && RefsAlike(t, s) && Vaguer(u, v)
    ensures Covers(Set(t, a, u), Set(s, a, v))
  {
    var l := Resolve(RefsOf(s.stack), a, CHAIN);
    if l.Cell? {
      assert RefsOf(t.stack)[l.i].None? && RefsOf(s.stack)[l.i].None?;
      SlotMore(t, s, l.i, u, v);
    }
  }

  lemma SlotMore(t: AState, s: AState, i: nat, u: Val, v: Val)
    requires Covers(t, s) && i < |t.stack| && Vaguer(u, v) && !s.stack[i].indirect
    requires PlainRefs(t.stack) && PlainRefs(s.stack)
    ensures Covers(t.(stack := t.stack[i := t.stack[i].(value := u)]), s.(stack := s.stack[i := s.stack[i].(value := v)]))
  {
  }

  lemma PutMore(t: AState, s: AState, o: Operand, u: Val, v: Val)
    requires Covers(t, s) && RefsAlike(t, s) && Vaguer(u, v)
    ensures Covers(Put(t, o, u), Put(s, o, v))
  {
    hide Set, Covers, RefsAlike;
    SetMore(t, s, o.address, u, v);
  }

  lemma CalcMore(sub: nat, a: Val, b: Val, a': Val, b': Val)
    requires Vaguer(a, a') && Vaguer(b, b')
    ensures Vaguer(Calc(sub, a, b), Calc(sub, a', b')) && Vaguer(Compare(sub, a, b), Compare(sub, a', b')) && Vaguer(Invert(a), Invert(a'))
  {
  }

  lemma ReturnedMore(name: string, args: seq<Val>, args': seq<Val>)
    requires |args| == |args'| && forall i :: 0 <= i < |args| ==> Vaguer(args[i], args'[i])
    ensures Vaguer(Returned(name, args), Returned(name, args'))
  {
    hide Builtin;
    assert |args| > 0 ==> Vaguer(args[0], args'[0]);
  }

  lemma ArgumentsMore(t: AState, s: AState, result: bool, n: nat)
    requires Covers(t, s) && RefsAlike(t, s)
    ensures |Arguments(t, result, n)| == |Arguments(s, result, n)|
    ensures forall i :: 0 <= i < |Arguments(t, result, n)| ==> Vaguer(Arguments(t, result, n)[i], Arguments(s, result, n)[i])
  {
    hide Get, Vaguer, RefsAlike;
    var end := |s.stack| - 1 - (if result then 1 else 0);
    forall a: nat
      ensures Vaguer(Get(t, a), Get(s, a))
    {
      GetMore(t, s, a);
    }
  }

  lemma CalledMore(p: seq<Proc>, x: Ins, t: AState, s: AState)
    requires Covers(t, s) && RefsAlike(t, s) && x.arg < |p|
    ensures Covers(Called(p, x, t), Called(p, x, s))
  {
    hide SignatureOf, Set, Returned, Arguments, RefsAlike, Vaguer;
    var g := SignatureOf(p[x.arg]);
    ArgumentsMore(t, s, g.result, g.n);
    ReturnedMore(g.name, Arguments(t, g.result, g.n), Arguments(s, g.result, g.n));
    if |s.stack| > 1 {
      SetMore(t, s, STACK + |s.stack| - 1, Returned(g.name, Arguments(t, g.result, g.n)), Returned(g.name, Arguments(s, g.result, g.n)));
    }
  }

  lemma PutsMore(p: seq<Proc>, x: Ins, t: AState, s: AState)
    requires Decoded(x) && x.op in {0, 1, 12, 15, 16, 21, 23, 24, 14, 22} && Covers(t, s) && RefsAlike(t, s)
    ensures Effect(p, x, t).Ok? && Effect(p, x, s).Ok? && Covers(Effect(p, x, t).value, Effect(p, x, s).value)
  {
    hide Covers, RefsAlike, Put, Value, Calc, Compare, Invert;
    var o := x.operands;
    forall i | 0 <= i < |o|
      ensures Vaguer(Value(t, o[i]), Value(s, o[i]))
    {
      ValueMore(t, s, o[i]);
    }
    match x.op
    case 0 => PutMore(t, s, o[0], Value(t, o[1]), Value(s, o[1]));
    case 1 =>
      CalcMore(x.sub, Value(t, o[0]), Value(t, o[1]), Value(s, o[0]), Value(s, o[1]));
      PutMore(t, s, o[0], Calc(x.sub, Value(t, o[0]), Value(t, o[1])), Calc(x.sub, Value(s, o[0]), Value(s, o[1])));
    case 12 =>
      CalcMore(x.sub, Value(t, o[1]), Value(t, o[2]), Value(s, o[1]), Value(s, o[2]));
      PutMore(t, s, o[0], Compare(x.sub, Value(t, o[1]), Value(t, o[2])), Compare(x.sub, Value(s, o[1]), Value(s, o[2])));
    case 15 =>
      CalcMore(0, Value(t, o[0]), Value(t, o[0]), Value(s, o[0]), Value(s, o[0]));
      PutMore(t, s, o[0], Invert(Value(t, o[0])), Invert(Value(s, o[0])));
    case _ => PutMore(t, s, o[0], Unknown, Unknown);
  }

  lemma PushMore(t: AState, s: AState, a: Slot, b: Slot)
    requires Covers(t, s) && (a == EMPTY || a == b)
    ensures Covers(t.(stack := t.stack + [a]), s.(stack := s.stack + [b]))
  {
  }

  lemma PopMore(t: AState, s: AState, n: nat)
    requires Covers(t, s) && n < |t.stack|
    ensures Covers(t.(stack := t.stack[..|t.stack| - n]), s.(stack := s.stack[..|s.stack| - n]))
  {
  }

  lemma FlagMore(t: AState, s: AState, u: Val, v: Val)
    requires Covers(t, s) && Vaguer(u, v)
    ensures Covers(t.(flag := u), s.(flag := v))
  {
  }

  lemma SameHeights(t: AState, s: AState)
    requires Covers(t, s)
    ensures |t.stack| == |s.stack| && Vaguer(t.flag, s.flag)
  {
  }

  /** An instruction knows more of what is known better. */
  lemma EffectMore(p: seq<Proc>, x: Ins, t: AState, s: AState)
    requires Decoded(x) && Covers(t, s) && RefsAlike(t, s) && Effect(p, x, t).Ok?
    ensures Effect(p, x, s).Ok? && Covers(Effect(p, x, t).value, Effect(p, x, s).value)
  {
    hide Covers, RefsAlike, Put, Called, Value, Invert;
    SameHeights(t, s);
    if x.op in {0, 1, 12, 15, 16, 21, 23, 24, 14, 22} {
      PutsMore(p, x, t, s);
    } else if x.op == 2 {
      ValueMore(t, s, x.operands[0]);
      PushMore(t, s, Slot(Value(t, x.operands[0]), 0, false), Slot(Value(s, x.operands[0]), 0, false));
    } else if x.op == 3 {
      var l := Slot(Unknown, x.operands[0].address, x.operands[0].tag == 0);
      PushMore(t, s, l, l);
    } else if x.op == 11 {
      PushMore(t, s, EMPTY, EMPTY);
    } else if x.op == 4 || x.op == 25 || x.op == 26 {
      PopMore(t, s, if x.op == 26 then 2 else 1);
    } else if x.op == 5 {
      CalledMore(p, x, t, s);
    } else if x.op == 17 {
      var a, b := Value(t, x.operands[0]), Value(s, x.operands[0]);
      ValueMore(t, s, x.operands[0]);
      CalcMore(0, a, a, b, b);
      FlagMore(t, s, Flagged(x, a), Flagged(x, b));
    }
  }

  lemma ConditionMore(x: Ins, t: AState, s: AState)
    requires Decoded(x) && Covers(t, s) && RefsAlike(t, s)
    ensures Vaguer(Condition(x, t), Condition(x, s))
  {
    hide Covers, RefsAlike, Value, Invert;
    SameHeights(t, s);
    if x.op == 7 || x.op == 8 {
      ValueMore(t, s, x.operands[0]);
      var a, b := Value(t, x.operands[0]), Value(s, x.operands[0]);
      CalcMore(0, a, a, b, b);
    }
  }

  /** The transfer function is monotone: no new successor, and no less known. */
  lemma FlowMore(p: seq<Proc>, ins: seq<Ins>, i: nat, t: AState, s: AState)
    requires i < |ins| && Decoded(ins[i]) && Covers(t, s) && RefsAlike(t, s) && Flow(p, ins, i, t).Ok?
    requires Effect(p, ins[i], t).Ok? && Effect(p, ins[i], s).Ok? ==> RefsAlike(Effect(p, ins[i], t).value, Effect(p, ins[i], s).value)
    ensures Flow(p, ins, i, s).Ok? && Covers(Flow(p, ins, i, t).value.s, Flow(p, ins, i, s).value.s)
    ensures forall j :: j in Flow(p, ins, i, s).value.to ==> j in Flow(p, ins, i, t).value.to
  {
    hide Covers, RefsAlike, Effect, Condition, Offsets;
    EffectMore(p, ins[i], t, s);
    var t1, s1 := Effect(p, ins[i], t).value, Effect(p, ins[i], s).value;
    SameHeights(t1, s1);
    ConditionMore(ins[i], t1, s1);
  }
}
