/** Runs that leave nothing to chance and never come back to an instruction: the
    worklist follows them, and knows of every point what there is to know. */
module PsSure {
  import opened Bytes
  import opened PsMachine
  import opened PsFlow
  import opened PsRun
  import opened PsExact
  import opened PsSolve

  // A branch on a number.
  ghost predicate NextSure(ins: seq<Ins>, i: nat, c: CState, j: nat)
    requires i < |ins| && Decoded(ins[i])
  {
    && CNext(ins, i, c, j)
    && (ins[i].op == 7 || ins[i].op == 8 ==> exists n :: HoldsSure(c, ins[i].operands[0], CNum(n)))
    && (ins[i].op == 18 ==> c.flag.CNum?)
  }

  ghost predicate StepSure(p: seq<Proc>, ins: seq<Ins>, a: Point, b: Point)
    requires AllDecoded(ins)
  {
    a.pc < |ins| && EffectSure(p, ins[a.pc], a.c, b.c) && NextSure(ins, a.pc, b.c, b.pc) && |b.c.stack| <= MAX_STACK
  }

  lemma StepIsReal(p: seq<Proc>, ins: seq<Ins>, a: Point, b: Point)
    requires AllDecoded(ins) && StepSure(p, ins, a, b)
    ensures Step(p, ins, a, b)
  {
    hide EffectSure, CEffect, CNext;
    SureIsReal(p, ins[a.pc], a.c, b.c);
  }

  // The value a branch looks at.
  lemma ConditionKnows(x: Ins, s: AState, c: CState, taken: bool)
    requires Decoded(x) && Knows(s, c) && Branches(x, c, taken)
    requires if x.op == 7 || x.op == 8 then exists n :: HoldsSure(c, x.operands[0], CNum(n)) else c.flag.CNum?
    ensures Condition(x, s).Num? && (taken <==> Condition(x, s).n != 0)
  {
    hide Knows, Value;
    if x.op == 7 || x.op == 8 {
      var n :| HoldsSure(c, x.operands[0], CNum(n));
      ValueKnows(s, c, x.operands[0], CNum(n));
    } else {
      FlagIs(s, c);
    }
  }

  lemma FlagIs(s: AState, c: CState)
    requires Knows(s, c)
    ensures s.flag == Seen(c.flag)
  {
  }

  /** Where such a step goes, the transfer function goes, and nowhere else. */
  lemma FlowKnows(p: seq<Proc>, ins: seq<Ins>, s: AState, a: Point, b: Point)
    requires AllDecoded(ins) && StepSure(p, ins, a, b) && Knows(s, a.c)
    ensures Flow(p, ins, a.pc, s).Ok? && Knows(Flow(p, ins, a.pc, s).value.s, b.c) && Flow(p, ins, a.pc, s).value.to == [b.pc]
  {
    hide Knows, EffectSure, Effect, Offsets, Condition, Branches, HoldsSure;
    var x := ins[a.pc];
    EffectKnows(p, x, s, a.c, b.c);
    var t := Effect(p, x, s).value;
    HeightKnows(t, b.c);
    if x.op == 7 || x.op == 8 || x.op == 18 {
      ConditionKnows(x, t, b.c, Branches(x, b.c, true) && b.pc == Offsets(ins)[x.end + Signed(x.arg)]);
    }
  }

  // From nothing known but the parameters.
  ghost predicate Fresh(c: CState, cs: seq<CVal>) {
    && c.params == cs && |c.stack| == 1 && c.stack[0].Var? && c.stack[0].v.Other?
    && c.flag.Other? && forall a :: a in c.globals ==> c.globals[a].Other?
  }

  ghost predicate After(p: seq<Proc>, ins: seq<Ins>, run: seq<Point>, k: nat)
    requires AllDecoded(ins) && 0 < k < |run|
  {
    StepSure(p, ins, run[k - 1], run[k])
  }

  // Control leaves the procedure.
  ghost predicate Leaving(p: seq<Proc>, ins: seq<Ins>, a: Point)
    requires AllDecoded(ins)
  {
    a.pc < |ins| && (ins[a.pc].op == 9 || exists b :: StepSure(p, ins, a, b) && b.pc >= |ins|)
  }

  /** A whole run of a procedure, from its start to its end. */
  ghost predicate Whole(p: seq<Proc>, ins: seq<Ins>, cs: seq<CVal>, run: seq<Point>)
    requires AllDecoded(ins)
  {
    && run != [] && run[0].pc == 0 && Fresh(run[0].c, cs)
    && (forall k {:trigger After(p, ins, run, k)} :: 0 < k < |run| ==> After(p, ins, run, k))
    && (forall k :: 0 <= k < |run| ==> run[k].pc < |ins|)
    && Leaving(p, ins, run[|run| - 1])
    && (forall j, k :: 0 <= j < k < |run| ==> run[j].pc != run[k].pc)
  }

  lemma FreshKnows(c: CState, cs: seq<CVal>)
    requires Fresh(c, cs)
    ensures Knows(Init(AllSeen(cs)), c)
  {
    assert CRefs(c.stack) == [None] == RefsOf(Init(AllSeen(cs)).stack);
  }

  // The nodes of the first n points.
  ghost predicate Follows(p: seq<Proc>, ins: seq<Ins>, cs: seq<CVal>, run: seq<Point>, line: seq<Node>, n: nat)
    requires AllDecoded(ins) && n <= |run| && forall k :: 0 <= k < |run| ==> run[k].pc < |ins|
  {
    && |line| == n && (n > 0 ==> line[0] == Node(0, Init(AllSeen(cs))))
    && (forall k :: 0 <= k < n ==> line[k].i == run[k].pc && Knows(line[k].s, run[k].c))
    && (forall k {:trigger OneWay(p, ins, line, k)} :: 0 < k < n ==> OneWay(p, ins, line, k))
  }

  lemma {:induction false} FirstNodes(p: seq<Proc>, ins: seq<Ins>, cs: seq<CVal>, run: seq<Point>, n: nat) returns (line: seq<Node>)
    requires AllDecoded(ins) && Whole(p, ins, cs, run) && 0 < n <= |run|
    ensures Follows(p, ins, cs, run, line, n)
  {
    hide Flow, Knows, StepSure, Leaving;
    if n == 1 {
      FreshKnows(run[0].c, cs);
      line := [Node(0, Init(AllSeen(cs)))];
    } else {
      var l := FirstNodes(p, ins, cs, run, n - 1);
      assert After(p, ins, run, n - 1);
      FlowKnows(p, ins, l[n - 2].s, run[n - 2], run[n - 1]);
      line := l + [Node(run[n - 1].pc, Flow(p, ins, l[n - 2].i, l[n - 2].s).value.s)];
      forall k | 0 < k < n
        ensures OneWay(p, ins, line, k)
      {
        assert k < n - 1 ==> OneWay(p, ins, l, k);
      }
    }
  }

  lemma LastFlow(p: seq<Proc>, ins: seq<Ins>, s: AState, a: Point)
    requires AllDecoded(ins) && Knows(s, a.c) && Leaving(p, ins, a) && |a.c.stack| <= MAX_STACK
    ensures Flow(p, ins, a.pc, s).Ok? && Leads(ins, Flow(p, ins, a.pc, s).value)
  {
    hide Knows, Offsets, StepSure;
    HeightKnows(s, a.c);
    if ins[a.pc].op != 9 {
      var b :| StepSure(p, ins, a, b) && b.pc >= |ins|;
      FlowKnows(p, ins, s, a, b);
    }
  }

  /** The run, as the analysis sees it. */
  lemma RunIsLine(p: seq<Proc>, ins: seq<Ins>, cs: seq<CVal>, run: seq<Point>) returns (line: seq<Node>)
    requires AllDecoded(ins) && Whole(p, ins, cs, run)
    ensures Line(p, ins, AllSeen(cs), line) && Follows(p, ins, cs, run, line, |run|)
  {
    hide Flow, Knows, StepSure, Leaving;
    var n := |run|;
    line := FirstNodes(p, ins, cs, run, n);
    Bounded(p, ins, run);
    LastFlow(p, ins, line[n - 1].s, run[n - 1]);
    forall k | 0 <= k < n
      ensures Flow(p, ins, line[k].i, line[k].s).Ok?
    {
      assert k + 1 < n ==> OneWay(p, ins, line, k + 1);
    }
  }

  lemma Bounded(p: seq<Proc>, ins: seq<Ins>, run: seq<Point>)
    requires AllDecoded(ins) && run != [] && |run[0].c.stack| == 1 && (1 < |run| ==> After(p, ins, run, |run| - 1))
    ensures |run[|run| - 1].c.stack| <= MAX_STACK
  {
  }

  // There is one line only.
  lemma {:induction false} OneLine(p: seq<Proc>, ins: seq<Ins>, params: seq<Val>, a: seq<Node>, b: seq<Node>, k: nat)
    requires AllDecoded(ins) && Line(p, ins, params, a) && Line(p, ins, params, b) && k < |a|
    ensures k < |b| && a[k] == b[k]
  {
    hide Flow;
    if k > 0 {
      OneLine(p, ins, params, a, b, k - 1);
      assert OneWay(p, ins, a, k) && a[k].i in [a[k].i];
      assert k < |b|;
      assert OneWay(p, ins, b, k);
    }
  }
}
