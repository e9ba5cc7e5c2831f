/** The worklist: it stops at a fixed point, and a fixed point is true of every run. */
module PsSolve {
  import opened Bytes
  import opened PsMachine
  import opened PsFlow
  import opened PsRun
  import opened PsMonotone
  import Permutations

  // The state of each instruction, for those reached so far.
  type View = seq<Option<AState>>

  function Init(params: seq<Val>): AState {
    AState([EMPTY], map[], params, Unknown)
  }

  ghost predicate AllDecoded(ins: seq<Ins>) {
    forall x :: x in ins ==> Decoded(x)
  }

  // Instruction i's outcome is covered wherever control goes next.
  ghost predicate Settled(p: seq<Proc>, ins: seq<Ins>, view: View, i: nat)
    requires AllDecoded(ins) && |view| == |ins| && i < |ins|
  {
    view[i].Some? ==>
      && Flow(p, ins, i, view[i].value).Ok?
      && Reaches(ins, view, Flow(p, ins, i, view[i].value).value, |Flow(p, ins, i, view[i].value).value.to|)
  }

  // The first k successors cover the outcome.
  ghost predicate Reaches(ins: seq<Ins>, view: View, n: Outcome, k: nat)
    requires |view| == |ins| && k <= |n.to|
  {
    forall m :: 0 <= m < k && n.to[m] < |ins| ==> CoveredAt(view, n.to[m], n.s)
  }

  ghost predicate CoveredAt(view: View, j: nat, s: AState)
    requires j < |view|
  {
    view[j].Some? && Covers(view[j].value, s)
  }

  ghost predicate Grounded(ins: seq<Ins>, params: seq<Val>, view: View) {
    && |view| == |ins| && |ins| > 0
    && CoveredAt(view, 0, Init(params))
    && forall i :: 0 <= i < |view| && view[i].Some? ==> view[i].value.params == params
  }

  /** The worklist's invariant: what is not queued is settled. */
  ghost predicate Work(p: seq<Proc>, ins: seq<Ins>, params: seq<Val>, view: View, queue: seq<nat>)
    requires AllDecoded(ins)
  {
    && Grounded(ins, params, view)
    && (forall q :: q in queue ==> q < |ins| && view[q].Some?)
    && (forall i :: 0 <= i < |ins| && i !in queue ==> Settled(p, ins, view, i))
  }

  /** Every state reached is covered along every edge. */
  ghost predicate FixedPoint(p: seq<Proc>, ins: seq<Ins>, params: seq<Val>, view: View)
    requires AllDecoded(ins)
  {
    Grounded(ins, params, view) && forall i :: 0 <= i < |ins| ==> Settled(p, ins, view, i)
  }

  // ----- merging into one state -----

  predicate Mergeable(view: View, j: nat, s: AState)
    requires j < |view|
  {
    view[j].Some? ==> |view[j].value.stack| == |s.stack| && view[j].value.params == s.params
  }

  function Merged(view: View, j: nat, s: AState): (r: View)
    requires j < |view| && Mergeable(view, j, s)
    ensures |r| == |view|
  {
    view[j := Some(if view[j].None? then s else Join(view[j].value, s))]
  }

  lemma MergeCovers(view: View, j: nat, s: AState)
    requires j < |view| && Mergeable(view, j, s)
    ensures CoveredAt(Merged(view, j, s), j, s)
    ensures forall i, u :: 0 <= i < |view| && CoveredAt(view, i, u) ==> CoveredAt(Merged(view, j, s), i, u)
  {
    if view[j].Some? {
      JoinCovers(view[j].value, s);
    } else {
      CoversSelf(s);
    }
  }

  lemma MergeReaches(ins: seq<Ins>, view: View, j: nat, s: AState, n: Outcome, k: nat)
    requires |view| == |ins| && j < |view| && Mergeable(view, j, s) && k <= |n.to| && Reaches(ins, view, n, k)
    ensures Reaches(ins, Merged(view, j, s), n, k)
    ensures k < |n.to| && n.to[k] == j && n.s == s ==> Reaches(ins, Merged(view, j, s), n, k + 1)
  {
    MergeCovers(view, j, s);
  }

  lemma MergeSettled(p: seq<Proc>, ins: seq<Ins>, view: View, j: nat, s: AState, i: nat)
    requires AllDecoded(ins) && |view| == |ins| && j < |view| && Mergeable(view, j, s) && i < |ins|
    requires Settled(p, ins, view, i) && Merged(view, j, s)[i] == view[i]
    ensures Settled(p, ins, Merged(view, j, s), i)
  {
    hide Flow, Merged, Reaches;
    if view[i].Some? {
      var n := Flow(p, ins, i, view[i].value).value;
      MergeReaches(ins, view, j, s, n, |n.to|);
    }
  }

  // ----- the measure -----

  function Missing(view: View): nat {
    if view == [] then 0 else (if view[0].None? then 1 else 0) + Missing(view[1..])
  }

  function Weights(view: View): nat {
    if view == [] then 0 else (if view[0].None? then 0 else Weight(view[0].value)) + Weights(view[1..])
  }

  lemma {:induction false} UpdateMeasure(view: View, j: nat, s: AState)
    requires j < |view|
    ensures Missing(view[j := Some(s)]) == Missing(view) - (if view[j].None? then 1 else 0)
    ensures Weights(view[j := Some(s)]) == Weights(view) - (if view[j].None? then 0 else Weight(view[j].value)) + Weight(s)
  {
    var v' := view[j := Some(s)];
    if j == 0 {
      assert v'[1..] == view[1..];
    } else {
      UpdateMeasure(view[1..], j - 1, s);
      assert v'[1..] == view[1..][j - 1 := Some(s)];
    }
  }

  // States come to be, or know less, or the queue gets shorter.
  predicate Below(view': View, q': nat, view: View, q: nat) {
    || Missing(view') < Missing(view)
    || (Missing(view') == Missing(view) && (Weights(view') < Weights(view) || (Weights(view') == Weights(view) && q' <= q)))
  }

  lemma MergeBelow(view: View, j: nat, s: AState, q: nat)
    requires j < |view| && Mergeable(view, j, s)
    ensures Below(Merged(view, j, s), if Merged(view, j, s) == view then q else q + 1, view, q)
  {
    if view[j].Some? {
      JoinShrinks(view[j].value, s);
      UpdateMeasure(view, j, Join(view[j].value, s));
    } else {
      UpdateMeasure(view, j, s);
    }
  }

  lemma BelowTwice(v0: View, q0: nat, v1: View, q1: nat, v2: View, q2: nat)
    requires Below(v1, q1, v0, q0) && Below(v2, q2, v1, q1)
    ensures Below(v2, q2, v0, q0)
  {
  }

  // ----- references that agree at joins -----

  // Where control may go from instruction i, whatever the values.
  function Edges(ins: seq<Ins>, i: nat): seq<nat>
    requires i < |ins|
  {
    var x := ins[i];
    if x.op == 9 then []
    else if !Jumps(x.op) then [i + 1]
    else if x.end + Signed(x.arg) !in Offsets(ins) then []
    else if x.op == 6 || x.op == 25 || x.op == 26 then [Offsets(ins)[x.end + Signed(x.arg)]]
    else [i + 1, Offsets(ins)[x.end + Signed(x.arg)]]
  }

  /** A layout tells, for each instruction, which slots are references and to
      what; every edge respects it. */
  ghost predicate Laid(ins: seq<Ins>, lay: seq<Option<Refs>>)
    requires AllDecoded(ins)
  {
    && |lay| == |ins|
    && (ins != [] ==> lay[0] == Some([None]))
    && forall i, j :: 0 <= i < |ins| && lay[i].Some? && j in Edges(ins, i) && j < |ins| ==> lay[j] == Some(Shape(ins[i], lay[i].value))
  }

  ghost predicate Fits(lay: seq<Option<Refs>>, view: View) {
    && |lay| == |view|
    && forall i :: 0 <= i < |view| && view[i].Some? ==> lay[i] == Some(RefsOf(view[i].value.stack)) && PlainRefs(view[i].value.stack)
  }

  lemma FlowFits(p: seq<Proc>, ins: seq<Ins>, lay: seq<Option<Refs>>, i: nat, s: AState)
    requires AllDecoded(ins) && Laid(ins, lay) && i < |ins| && lay[i] == Some(RefsOf(s.stack)) && PlainRefs(s.stack)
    requires Flow(p, ins, i, s).Ok?
    ensures var n := Flow(p, ins, i, s).value;
            && n.s.params == s.params && PlainRefs(n.s.stack)
            && forall j :: j in n.to && j < |ins| ==> lay[j] == Some(RefsOf(n.s.stack))
  {
    hide Effect, Offsets, Shape;
    EffectShape(p, ins[i], s);
    var n := Flow(p, ins, i, s).value;
    assert forall j :: j in n.to ==> j in Edges(ins, i);
  }

  lemma FlowParams(p: seq<Proc>, ins: seq<Ins>, i: nat, s: AState)
    requires AllDecoded(ins) && i < |ins| && Flow(p, ins, i, s).Ok?
    ensures Flow(p, ins, i, s).value.s.params == s.params
  {
    hide Offsets, Shape;
    EffectShape(p, ins[i], s);
  }

  lemma MergeFits(lay: seq<Option<Refs>>, view: View, j: nat, s: AState)
    requires Fits(lay, view) && j < |view| && Mergeable(view, j, s) && lay[j] == Some(RefsOf(s.stack)) && PlainRefs(s.stack)
    ensures Fits(lay, Merged(view, j, s))
  {
    if view[j].Some? {
      JoinKeepsRefs(view[j].value, s);
    }
  }

  // ----- a fixed point is true of every run -----

  ghost predicate Run(p: seq<Proc>, ins: seq<Ins>, run: seq<Point>)
    requires AllDecoded(ins)
  {
    run != [] && forall k {:trigger run[k]} :: 0 < k < |run| ==> Step(p, ins, run[k - 1], run[k])
  }

  lemma StepCovered(p: seq<Proc>, ins: seq<Ins>, params: seq<Val>, view: View, lay: seq<Option<Refs>>, a: Point, b: Point)
    requires AllDecoded(ins) && FixedPoint(p, ins, params, view) && Laid(ins, lay) && Fits(lay, view)
    requires a.pc < |ins| && view[a.pc].Some? && Models(view[a.pc].value, a.c) && Step(p, ins, a, b)
    ensures b.pc < |ins| ==> view[b.pc].Some? && Models(view[b.pc].value, b.c)
  {
    hide Flow, Models, Covers, Laid, Step;
    assert Settled(p, ins, view, a.pc);
    var s := view[a.pc].value;
    var n := Flow(p, ins, a.pc, s).value;
    FlowSound(p, ins, s, a, b);
    FlowFits(p, ins, lay, a.pc, s);
    if b.pc < |ins| {
      var m :| 0 <= m < |n.to| && n.to[m] == b.pc;
      assert CoveredAt(view, n.to[m], n.s);
      CoverSound(view[b.pc].value, n.s, b.c);
    }
  }

  /** Soundness: wherever a run gets to, the state there is true of memory. */
  lemma {:induction false} RunCovered(p: seq<Proc>, ins: seq<Ins>, params: seq<Val>, view: View, lay: seq<Option<Refs>>, run: seq<Point>)
    requires AllDecoded(ins) && FixedPoint(p, ins, params, view) && Laid(ins, lay) && Fits(lay, view)
    requires Run(p, ins, run) && run[0].pc == 0 && Models(Init(params), run[0].c)
    ensures var b := run[|run| - 1]; b.pc < |ins| ==> view[b.pc].Some? && Models(view[b.pc].value, b.c)
  {
    hide Settled, Step, Models, Covers;
    if |run| == 1 {
      assert RefsOf(Init(params).stack) == [None];
      CoverSound(view[0].value, Init(params), run[0].c);
    } else {
      var n := |run| - 1;
      RunCovered(p, ins, params, view, lay, run[..n]);
      assert Step(p, ins, run[n - 1], run[n]);
      StepPc(p, ins, run[n - 1], run[n]);
      StepCovered(p, ins, params, view, lay, run[n - 1], run[n]);
    }
  }

  lemma StepPc(p: seq<Proc>, ins: seq<Ins>, a: Point, b: Point)
    requires AllDecoded(ins) && Step(p, ins, a, b)
    ensures a.pc < |ins|
  {
  }

  // ----- a fixed point that forgets nothing without need -----

  /** view says of each instruction what other says, and maybe more. */
  ghost predicate Finer(view: View, other: View) {
    && |view| == |other|
    && forall i :: 0 <= i < |view| && view[i].Some? ==> CoveredAt(other, i, view[i].value)
  }

  /** No fixed point with the same references says more anywhere. */
  ghost predicate Least(p: seq<Proc>, ins: seq<Ins>, params: seq<Val>, lay: seq<Option<Refs>>, view: View)
    requires AllDecoded(ins)
  {
    forall other :: FixedPoint(p, ins, params, other) && Fits(lay, other) ==> Finer(view, other)
  }

  lemma FlowFiner(p: seq<Proc>, ins: seq<Ins>, params: seq<Val>, lay: seq<Option<Refs>>, view: View, other: View, i: nat, n: Outcome, j: nat)
    requires AllDecoded(ins) && Laid(ins, lay) && FixedPoint(p, ins, params, other) && Fits(lay, other) && Fits(lay, view) && Finer(view, other)
    requires i < |view| == |ins| && view[i].Some? && Flow(p, ins, i, view[i].value) == Ok(n) && j in n.to && j < |ins|
    ensures CoveredAt(other, j, n.s)
  {
    hide Flow, Laid, Covers, Effect;
    assert CoveredAt(other, i, view[i].value);
    var t, s := other[i].value, view[i].value;
    assert Settled(p, ins, other, i);
    FlowFits(p, ins, lay, i, s);
    FlowFits(p, ins, lay, i, t);
    EffectRefs(p, ins, i, t, s);
    FlowMore(p, ins, i, t, s);
    var m := Flow(p, ins, i, t).value;
    var k :| 0 <= k < |m.to| && m.to[k] == j;
    assert CoveredAt(other, m.to[k], m.s);
    CoversTwice(other[j].value, m.s, n.s);
  }

  lemma EffectRefs(p: seq<Proc>, ins: seq<Ins>, i: nat, t: AState, s: AState)
    requires i < |ins| && Decoded(ins[i]) && RefsOf(t.stack) == RefsOf(s.stack) && PlainRefs(t.stack) && PlainRefs(s.stack)
    ensures Effect(p, ins[i], t).Ok? && Effect(p, ins[i], s).Ok? ==> RefsAlike(Effect(p, ins[i], t).value, Effect(p, ins[i], s).value)
  {
    hide Effect, Shape;
    if Effect(p, ins[i], t).Ok? && Effect(p, ins[i], s).Ok? {
      EffectShape(p, ins[i], t);
      EffectShape(p, ins[i], s);
    }
  }

  lemma MergeFiner(view: View, other: View, j: nat, s: AState)
    requires Finer(view, other) && j < |view| && Mergeable(view, j, s) && CoveredAt(other, j, s)
    ensures Finer(Merged(view, j, s), other)
  {
    hide Covers, Join;
    if view[j].Some? {
      JoinLeast(view[j].value, s, other[j].value);
    }
  }

  /** What a visit adds, every fixed point says as well. `was` is the view the visit began with. */
  lemma MergeLeast(p: seq<Proc>, ins: seq<Ins>, params: seq<Val>, lay: seq<Option<Refs>>, was: View, view: View, i: nat, n: Outcome, j: nat)
    requires AllDecoded(ins) && Laid(ins, lay) && Fits(lay, was) && Least(p, ins, params, lay, was) && Least(p, ins, params, lay, view)
    requires i < |was| == |ins| == |view| && was[i].Some? && Flow(p, ins, i, was[i].value) == Ok(n) && j in n.to && j < |ins| && Mergeable(view, j, n.s)
    ensures Least(p, ins, params, lay, Merged(view, j, n.s))
  {
    hide FixedPoint, Finer, Laid, Fits, Flow, Merged;
    forall other | FixedPoint(p, ins, params, other) && Fits(lay, other)
      ensures Finer(Merged(view, j, n.s), other)
    {
      FlowFiner(p, ins, params, lay, was, other, i, n, j);
      MergeFiner(view, other, j, n.s);
    }
  }

  lemma StartLeast(p: seq<Proc>, ins: seq<Ins>, params: seq<Val>, lay: seq<Option<Refs>>, view: View)
    requires AllDecoded(ins) && |ins| == |view| > 0
    requires forall i :: 0 <= i < |ins| ==> view[i] == if i == 0 then Some(Init(params)) else None
    ensures Least(p, ins, params, lay, view)
  {
    hide Covers, Fits;
  }

  // ----- code that goes one way -----

  // An instruction and the state it is reached with.
  datatype Node = Node(i: nat, s: AState)

  // Node k is all that comes after the node before it.
  predicate OneWay(p: seq<Proc>, ins: seq<Ins>, line: seq<Node>, k: nat)
    requires AllDecoded(ins) && 0 < k < |line| && line[k - 1].i < |ins|
  {
    Flow(p, ins, line[k - 1].i, line[k - 1].s) == Ok(Outcome(line[k].s, [line[k].i]))
  }

  // Control goes nowhere within the code.
  predicate Leads(ins: seq<Ins>, n: Outcome) {
    forall j :: j in n.to ==> j >= |ins|
  }

  // One successor, which has no state yet.
  predicate NewOnly(ins: seq<Ins>, view: View, n: Outcome) {
    |n.to| == 1 && n.to[0] < |ins| == |view| && view[n.to[0]].None?
  }

  /** From the start, each instruction has one successor, never one that has been
      there, until there is none. */
  ghost predicate Line(p: seq<Proc>, ins: seq<Ins>, params: seq<Val>, line: seq<Node>)
    requires AllDecoded(ins)
  {
    && line != [] && line[0] == Node(0, Init(params))
    && (forall k :: 0 <= k < |line| ==> line[k].i < |ins| && Flow(p, ins, line[k].i, line[k].s).Ok?)
    && (forall k {:trigger OneWay(p, ins, line, k)} :: 0 < k < |line| ==> OneWay(p, ins, line, k))
    && Leads(ins, Flow(p, ins, line[|line| - 1].i, line[|line| - 1].s).value)
    && (forall j, k :: 0 <= j < k < |line| ==> line[j].i != line[k].i)
  }

  // The view holds the first m nodes, and nothing else.
  ghost predicate Holding(line: seq<Node>, m: nat, view: View)
    requires m <= |line|
  {
    && (forall k :: 0 <= k < m ==> line[k].i < |view| && view[line[k].i] == Some(line[k].s))
    && (forall i :: 0 <= i < |view| && view[i].Some? ==> exists k :: 0 <= k < m && line[k].i == i)
  }

  /** m nodes have been visited, and the next one waits. */
  ghost predicate Tracked(line: seq<Node>, m: nat, view: View, queue: seq<nat>)
    requires m <= |line|
  {
    if m < |line| then Holding(line, m + 1, view) && queue == [line[m].i]
    else Holding(line, m, view) && queue == []
  }

  lemma TrackStart(p: seq<Proc>, ins: seq<Ins>, params: seq<Val>, line: seq<Node>, view: View)
    requires AllDecoded(ins) && |ins| == |view| > 0 && Line(p, ins, params, line)
    requires forall i :: 0 <= i < |ins| ==> view[i] == if i == 0 then Some(Init(params)) else None
    ensures Tracked(line, 0, view, [0])
  {
    hide Flow;
  }

  // What the visit of node m does.
  lemma TrackVisit(p: seq<Proc>, ins: seq<Ins>, params: seq<Val>, line: seq<Node>, m: nat, view: View, i: nat, queue: seq<nat>)
    requires AllDecoded(ins) && Line(p, ins, params, line) && m <= |line| && |view| == |ins| && Tracked(line, m, view, [i] + queue)
    ensures m < |line| && i == line[m].i < |ins| && queue == [] && [i] + queue == [i] && view[i] == Some(line[m].s) && Flow(p, ins, i, line[m].s).Ok?
    ensures var n := Flow(p, ins, i, line[m].s).value; NewOnly(ins, view, n) || Leads(ins, n)
    ensures var n := Flow(p, ins, i, line[m].s).value;
            if m + 1 < |line| then n == Outcome(line[m + 1].s, [line[m + 1].i]) && line[m + 1].i < |ins| && view[line[m + 1].i].None?
            else Leads(ins, n)
  {
    hide Flow;
    assert ([i] + queue)[0] == i && |[i] + queue| == 1 + |queue|;
    if m + 1 < |line| {
      assert OneWay(p, ins, line, m + 1);
      assert forall k :: 0 <= k < m + 1 ==> line[k].i != line[m + 1].i;
    }
  }

  lemma TrackNext(p: seq<Proc>, ins: seq<Ins>, params: seq<Val>, line: seq<Node>, m: nat, view: View)
    requires AllDecoded(ins) && Line(p, ins, params, line) && m < |line| && |view| == |ins| && Holding(line, m + 1, view)
    ensures m + 1 < |line| ==> line[m + 1].i < |ins| && Tracked(line, m + 1, view[line[m + 1].i := Some(line[m + 1].s)], [line[m + 1].i])
    ensures m + 1 == |line| ==> Tracked(line, m + 1, view, [])
  {
    hide Flow;
    if m + 1 < |line| {
      var j := line[m + 1].i;
      var v' := view[j := Some(line[m + 1].s)];
      forall i | 0 <= i < |v'| && v'[i].Some?
        ensures exists k :: 0 <= k < m + 2 && line[k].i == i
      {
        if i != j {
          var k :| 0 <= k < m + 1 && line[k].i == i;
        }
      }
      assert forall k :: 0 <= k < m + 1 ==> line[k].i != line[m + 1].i;
    }
  }

  lemma TrackOver(line: seq<Node>, m: nat, view: View)
    requires m <= |line| && Tracked(line, m, view, [])
    ensures Holding(line, |line|, view)
  {
  }

  lemma LineShort(p: seq<Proc>, ins: seq<Ins>, params: seq<Val>, line: seq<Node>)
    requires AllDecoded(ins) && Line(p, ins, params, line)
    ensures |line| <= |ins|
  {
    hide Flow;
    var order: seq<nat> := seq(|line|, k requires 0 <= k < |line| => line[k].i);
    Permutations.Distinct(order);
    assert Permutations.Elems(order) <= Permutations.Upto(|ins|);
    SubsetSize(Permutations.Elems(order), Permutations.Upto(|ins|));
  }

  // ----- one visit, value by value -----

  /** Instruction i has been taken from the queue, and k of its successors covered. */
  ghost predicate Visiting(p: seq<Proc>, ins: seq<Ins>, params: seq<Val>, view: View, queue: seq<nat>, i: nat, n: Outcome, k: nat)
    requires AllDecoded(ins)
  {
    && Grounded(ins, params, view) && i < |ins| && k <= |n.to| && n.s.params == params
    && (forall q :: q in queue ==> q < |ins| && view[q].Some?)
    && (forall m :: 0 <= m < |ins| && m !in queue && m != i ==> Settled(p, ins, view, m))
    && (i in queue || (view[i].Some? && Flow(p, ins, i, view[i].value) == Ok(n) && Reaches(ins, view, n, k)))
  }

  lemma VisitStarts(p: seq<Proc>, ins: seq<Ins>, params: seq<Val>, view: View, queue: seq<nat>, i: nat)
    requires AllDecoded(ins) && Work(p, ins, params, view, [i] + queue) && i < |ins| && view[i].Some?
    requires Flow(p, ins, i, view[i].value).Ok?
    ensures Visiting(p, ins, params, view, queue, i, Flow(p, ins, i, view[i].value).value, 0)
  {
    hide Settled, Flow;
    FlowParams(p, ins, i, view[i].value);
    forall q | q in queue
      ensures q < |ins| && view[q].Some?
    {
      assert q in [i] + queue;
    }
  }

  lemma VisitSkips(p: seq<Proc>, ins: seq<Ins>, params: seq<Val>, view: View, queue: seq<nat>, i: nat, n: Outcome, k: nat)
    requires AllDecoded(ins) && Visiting(p, ins, params, view, queue, i, n, k) && k < |n.to| && n.to[k] >= |ins|
    ensures Visiting(p, ins, params, view, queue, i, n, k + 1)
  {
    hide Settled, Flow, CoveredAt;
  }

  lemma VisitGoes(p: seq<Proc>, ins: seq<Ins>, params: seq<Val>, view: View, queue: seq<nat>, i: nat, n: Outcome, k: nat)
    requires AllDecoded(ins) && Visiting(p, ins, params, view, queue, i, n, k) && k < |n.to|
    requires var j := n.to[k]; j < |ins| && Mergeable(view, j, n.s)
    ensures var v' := Merged(view, n.to[k], n.s);
            Visiting(p, ins, params, v', if v' == view then queue else queue + [n.to[k]], i, n, k + 1)
  {
    hide Settled, Flow, CoveredAt, Reaches, Join;
    var j := n.to[k];
    var v' := Merged(view, j, n.s);
    var queue' := if v' == view then queue else queue + [j];
    MergeGrounded(ins, params, view, j, n.s);
    if i !in queue' {
      MergeReaches(ins, view, j, n.s, n, k);
    }
    forall m | 0 <= m < |ins| && m !in queue' && m != i
      ensures Settled(p, ins, v', m)
    {
      MergeSettled(p, ins, view, j, n.s, m);
    }
  }

  lemma MergeGrounded(ins: seq<Ins>, params: seq<Val>, view: View, j: nat, s: AState)
    requires Grounded(ins, params, view) && j < |view| && Mergeable(view, j, s) && s.params == params
    ensures Grounded(ins, params, Merged(view, j, s))
  {
    hide CoveredAt;
    MergeCovers(view, j, s);
  }

  lemma VisitEnds(p: seq<Proc>, ins: seq<Ins>, params: seq<Val>, view: View, queue: seq<nat>, i: nat, n: Outcome)
    requires AllDecoded(ins) && Visiting(p, ins, params, view, queue, i, n, |n.to|)
    ensures Work(p, ins, params, view, queue)
  {
    hide Flow, CoveredAt, Reaches;
  }

  // ----- the loop -----

  ghost predicate Linked(states: array<State?>, view: View)
    reads states, states[..]
  {
    && |view| == states.Length
    && (forall i :: 0 <= i < states.Length ==> (states[i] == null <==> view[i].None?) && (states[i] != null ==> states[i].Abs() == view[i].value))
    && (forall i, j :: 0 <= i < j < states.Length && states[i] != null ==> states[i] != states[j])
  }

  /** A successor gets a state, or what it has is merged. */
  method Propagate(states: array<State?>, j: nat, s: State, queue: seq<nat>, ghost view: View) returns (ok: bool, queue': seq<nat>)
    requires Linked(states, view) && j < states.Length && s !in states[..]
    requires view[j].Some? ==> view[j].value.params == s.params
    modifies states, if states[j] == null then {} else {states[j]}
    ensures ok <==> Mergeable(view, j, old(s.Abs()))
    ensures ok ==> Mergeable(view, j, s.Abs()) && Linked(states, Merged(view, j, s.Abs()))
    ensures ok ==> queue' == if Merged(view, j, s.Abs()) == view then queue else queue + [j]
    ensures s.Abs() == old(s.Abs()) && s !in states[..]
    ensures forall i :: 0 <= i < states.Length && states[i] != old(states[i]) ==> fresh(states[i])
  {
    hide Join;
    queue' := queue;
    if states[j] == null {
      var c := s.Clone();
      states[j] := c;
      queue' := queue' + [j];
    } else {
      var changed;
      ok, changed := states[j].Merge(s);
      if !ok {
        return;
      }
      if changed {
        queue' := queue' + [j];
      }
    }
    ok := true;
  }

  lemma QueueHead(p: seq<Proc>, ins: seq<Ins>, params: seq<Val>, view: View, queue: seq<nat>, i: nat)
    requires AllDecoded(ins) && Work(p, ins, params, view, [i] + queue)
    ensures |view| == |ins| && i < |ins| && view[i].Some?
  {
    assert i in [i] + queue;
  }

  lemma VisitSize(p: seq<Proc>, ins: seq<Ins>, params: seq<Val>, view: View, queue: seq<nat>, i: nat, n: Outcome, k: nat)
    requires AllDecoded(ins) && Visiting(p, ins, params, view, queue, i, n, k)
    ensures |view| == |ins| && n.s.params == params
    ensures forall j :: 0 <= j < |view| && view[j].Some? ==> view[j].value.params == params
  {
  }

  lemma FitsNext(p: seq<Proc>, ins: seq<Ins>, lay: seq<Option<Refs>>, view0: View, view: View, i: nat, n: Outcome, j: nat)
    requires AllDecoded(ins) && Laid(ins, lay) && Fits(lay, view0) && Fits(lay, view) && i < |view0| == |ins| == |view| && view0[i].Some?
    requires Flow(p, ins, i, view0[i].value) == Ok(n) && j in n.to && j < |ins| && Mergeable(view, j, n.s)
    ensures Fits(lay, Merged(view, j, n.s))
  {
    hide Laid, Flow;
    FlowFits(p, ins, lay, i, view0[i].value);
    MergeFits(lay, view, j, n.s);
  }

  /** One turn of the worklist: the state of i is run through its instruction and
      joined into the successors. */
  method Visit(p: seq<Proc>, ins: seq<Ins>, byOffset: map<int, nat>, states: array<State?>, i: nat, queue: seq<nat>,
               ghost params: seq<Val>, ghost view: View, ghost lay: seq<Option<Refs>>, ghost line: seq<Node>, ghost turn: nat)
    returns (err: Option<Error>, queue': seq<nat>, ghost view': View)
    requires turn <= |line| && AllDecoded(ins) && byOffset == Offsets(ins) && i < |ins|
    requires Linked(states, view) && Work(p, ins, params, view, [i] + queue)
    modifies states, set s: State | s in states[..]
    ensures err.None? ==> Linked(states, view') && Work(p, ins, params, view', queue')
    ensures err.None? ==> Below(view', |queue'|, view, |queue|)
    ensures err.None? && Laid(ins, lay) && Fits(lay, view) ==> Fits(lay, view')
    ensures err.None? && Laid(ins, lay) && Fits(lay, view) && Least(p, ins, params, lay, view) ==> Least(p, ins, params, lay, view')
    ensures Line(p, ins, params, line) && Tracked(line, turn, view, [i] + queue) ==> turn < |line| && err.None? && Tracked(line, turn + 1, view', queue')
    ensures forall k :: 0 <= k < states.Length && states[k] != old(states[k]) ==> fresh(states[k])
  {
    hide Flow, Settled, Reaches, Grounded, Work, Visiting, Join, Laid, Fits, Covers, Below, Offsets, Least, Line, Tracked, Holding, During, Merged, NewOnly, Leads, Mergeable;
    queue', view' := queue, view;
    QueueHead(p, ins, params, view, queue, i);
    ghost var alone := Line(p, ins, params, line) && Tracked(line, turn, view, [i] + queue);
    if alone {
      TrackVisit(p, ins, params, line, turn, view, i, queue);
    }
    var s, next;
    err, s, next := Transfer(p, ins, byOffset, i, states[i]);
    if err.Some? {
      return;
    }
    ghost var n := Outcome(s.Abs(), next);
    DuringStarts(p, ins, params, lay, view, queue, i, n);
    for k := 0 to |next|
      invariant Linked(states, view') && s !in states[..] && s.Abs() == n.s
      invariant During(p, ins, params, lay, view, queue, view', queue', i, n, k)
      invariant forall k :: 0 <= k < states.Length && states[k] != old(states[k]) ==> fresh(states[k])
    {
      var j := next[k];
      DuringMeans(p, ins, params, lay, view, queue, view', queue', i, n, k);
      if j >= |ins| {
        DuringSkips(p, ins, params, lay, view, queue, view', queue', i, n, k);
      } else {
        ghost var v0, q0 := view', queue';
        var ok;
        ok, queue' := Propagate(states, j, s, queue', view');
        if !ok {
          return Some(Inconsistent), queue, view;
        }
        view' := Merged(view', j, n.s);
        DuringGoes(p, ins, params, lay, view, queue, v0, q0, i, n, k);
      }
    }
    DuringEnds(p, ins, params, lay, view, queue, view', queue', i, n);
    if alone {
      TrackEnds(p, ins, params, line, turn, view, i, n, view', queue');
    }
  }

  /** The state after instruction i, and where control goes: the transfer function. */
  method Transfer(p: seq<Proc>, ins: seq<Ins>, byOffset: map<int, nat>, i: nat, t: State) returns (err: Option<Error>, s: State, next: seq<nat>)
    requires AllDecoded(ins) && byOffset == Offsets(ins) && i < |ins|
    ensures fresh(s) && Flow(p, ins, i, t.Abs()) == match err { case None => Ok(Outcome(s.Abs(), next)) case Some(e) => Err(e) }
  {
    hide Effect, Onward, Offsets;
    s := t.Clone();
    next := [];
    err := Execute(p, ins[i], s);
    if err.Some? {
      return;
    }
    if |s.stack| > MAX_STACK {
      return Some(ExcessiveStack), s, [];
    }
    var r := NextOf(ins, byOffset, i, s);
    if r.Err? {
      return Some(r.error), s, [];
    }
    next := r.value;
  }

  /** A visit under way: from view and queue it has come to v and q, with k successors covered. */
  ghost predicate During(p: seq<Proc>, ins: seq<Ins>, params: seq<Val>, lay: seq<Option<Refs>>, view: View, queue: seq<nat>, v: View, q: seq<nat>,
                         i: nat, n: Outcome, k: nat)
    requires AllDecoded(ins)
  {
    && Visiting(p, ins, params, v, q, i, n, k) && Below(v, |q|, view, |queue|)
    && i < |view| == |ins| && view[i].Some? && Flow(p, ins, i, view[i].value) == Ok(n)
    && (Laid(ins, lay) && Fits(lay, view) ==> Fits(lay, v) && (Least(p, ins, params, lay, view) ==> Least(p, ins, params, lay, v)))
    && (k == 0 || Leads(ins, n) ==> v == view && q == queue)
    && (k == 1 && NewOnly(ins, view, n) ==> v == view[n.to[0] := Some(n.s)] && q == queue + n.to)
  }

  lemma BelowSelf(view: View, q: nat)
    ensures Below(view, q, view, q)
  {
  }

  lemma DuringStarts(p: seq<Proc>, ins: seq<Ins>, params: seq<Val>, lay: seq<Option<Refs>>, view: View, queue: seq<nat>, i: nat, n: Outcome)
    requires AllDecoded(ins) && Work(p, ins, params, view, [i] + queue) && i < |ins| == |view| && view[i].Some?
    requires Flow(p, ins, i, view[i].value) == Ok(n)
    ensures During(p, ins, params, lay, view, queue, view, queue, i, n, 0)
  {
    hide Flow, Work, Laid, Fits, Least, Visiting, Leads, NewOnly;
    VisitStarts(p, ins, params, view, queue, i);
    BelowSelf(view, |queue|);
  }

  lemma DuringMeans(p: seq<Proc>, ins: seq<Ins>, params: seq<Val>, lay: seq<Option<Refs>>, view: View, queue: seq<nat>, v: View, q: seq<nat>,
                    i: nat, n: Outcome, k: nat)
    requires AllDecoded(ins) && During(p, ins, params, lay, view, queue, v, q, i, n, k)
    ensures k < |n.to| ==> (NewOnly(ins, view, n) ==> n.to[k] < |ins| && Mergeable(v, n.to[k], n.s)) && (Leads(ins, n) ==> n.to[k] >= |ins|)
    ensures |v| == |ins| && forall j :: 0 <= j < |v| && v[j].Some? ==> v[j].value.params == n.s.params
  {
    hide Flow, Laid, Fits, Least, Settled, Reaches;
    VisitSize(p, ins, params, v, q, i, n, k);
    assert k < |n.to| ==> n.to[k] in n.to;
  }

  lemma DuringSkips(p: seq<Proc>, ins: seq<Ins>, params: seq<Val>, lay: seq<Option<Refs>>, view: View, queue: seq<nat>, v: View, q: seq<nat>,
                    i: nat, n: Outcome, k: nat)
    requires AllDecoded(ins) && During(p, ins, params, lay, view, queue, v, q, i, n, k) && k < |n.to| && n.to[k] >= |ins|
    ensures During(p, ins, params, lay, view, queue, v, q, i, n, k + 1)
  {
    hide Flow, Laid, Fits, Least, Visiting, Below;
    VisitSkips(p, ins, params, v, q, i, n, k);
  }

  lemma DuringGoes(p: seq<Proc>, ins: seq<Ins>, params: seq<Val>, lay: seq<Option<Refs>>, view: View, queue: seq<nat>, v: View, q: seq<nat>,
                   i: nat, n: Outcome, k: nat)
    requires AllDecoded(ins) && During(p, ins, params, lay, view, queue, v, q, i, n, k) && k < |n.to|
    requires n.to[k] < |ins| == |v| && Mergeable(v, n.to[k], n.s)
    ensures var v' := Merged(v, n.to[k], n.s);
            During(p, ins, params, lay, view, queue, v', if v' == v then q else q + [n.to[k]], i, n, k + 1)
  {
    hide Flow, Laid, Fits, Least, Visiting, Below, Mergeable;
    var j := n.to[k];
    var v' := Merged(v, j, n.s);
    VisitGoes(p, ins, params, v, q, i, n, k);
    MergeBelow(v, j, n.s, |q|);
    BelowTwice(view, |queue|, v, |q|, v', if v' == v then |q| else |q| + 1);
    if Laid(ins, lay) && Fits(lay, view) {
      FitsNext(p, ins, lay, view, v, i, n, j);
      if Least(p, ins, params, lay, view) {
        MergeLeast(p, ins, params, lay, view, v, i, n, j);
      }
    }
    if k == 0 && NewOnly(ins, view, n) {
      assert n.to == [j] && v' == view[j := Some(n.s)] && v' != v;
    }
  }

  lemma DuringEnds(p: seq<Proc>, ins: seq<Ins>, params: seq<Val>, lay: seq<Option<Refs>>, view: View, queue: seq<nat>, v: View, q: seq<nat>,
                   i: nat, n: Outcome)
    requires AllDecoded(ins) && During(p, ins, params, lay, view, queue, v, q, i, n, |n.to|)
    ensures Work(p, ins, params, v, q) && Below(v, |q|, view, |queue|)
    ensures Laid(ins, lay) && Fits(lay, view) ==> Fits(lay, v) && (Least(p, ins, params, lay, view) ==> Least(p, ins, params, lay, v))
    ensures Leads(ins, n) ==> v == view && q == queue
    ensures NewOnly(ins, view, n) ==> v == view[n.to[0] := Some(n.s)] && q == queue + n.to
  {
    hide Flow, Laid, Fits, Least, Visiting, Below, Work, Leads;
    VisitEnds(p, ins, params, v, q, i, n);
  }

  lemma TrackEnds(p: seq<Proc>, ins: seq<Ins>, params: seq<Val>, line: seq<Node>, m: nat, view: View, i: nat, n: Outcome, v: View, q: seq<nat>)
    requires AllDecoded(ins) && Line(p, ins, params, line) && m < |line| && |view| == |ins| && i == line[m].i < |ins| && view[i] == Some(line[m].s)
    requires Tracked(line, m, view, [i]) && Flow(p, ins, i, line[m].s) == Ok(n)
    requires Leads(ins, n) ==> v == view && q == []
    requires NewOnly(ins, view, n) ==> v == view[n.to[0] := Some(n.s)] && q == [] + n.to
    ensures Tracked(line, m + 1, v, q)
  {
    hide Flow, Line, Holding, Leads;
    TrackVisit(p, ins, params, line, m, view, i, []);
    assert [i] + [] == [i];
    TrackNext(p, ins, params, line, m, view);
  }

  /** The whole worklist. It ends for every program: each turn brings a new state
      to be, lowers what some state knows, or shortens the queue. The cap on the
      number of turns is not what ends it. */
  method Solve(p: seq<Proc>, ins: seq<Ins>, params: seq<Val>, ghost lay: seq<Option<Refs>>, ghost line: seq<Node>)
    returns (err: Option<Error>, states: array<State?>, ghost view: View)
    requires AllDecoded(ins) && |ins| > 0
    ensures err.None? ==> fresh(states) && Linked(states, view) && FixedPoint(p, ins, params, view)
    ensures err.None? && Laid(ins, lay) ==> Fits(lay, view) && Least(p, ins, params, lay, view)
    ensures Line(p, ins, params, line) ==> err.None? && Holding(line, |line|, view)
  {
    hide Flow, Settled, Reaches, Grounded, Visiting, Join, Laid, Fits, Covers, Below, Offsets, Missing, Weights, AllDecoded, Work, FixedPoint, RefsOf, Linked, Least, Line, Tracked, Holding;
    var byOffset := OffsetsOf(ins);
    states := new State?[|ins|](_ => null);
    var s0 := new State([EMPTY], map[], params, Unknown);
    states[0] := s0;
    view := seq(|ins|, i => if i == 0 then Some(Init(params)) else None);
    var queue := [0];
    var steps := 0;
    LinkedStart(states, s0, view);
    Beginning(p, ins, params, view, lay);
    StartLeast(p, ins, params, lay, view);
    ghost var alone := Line(p, ins, params, line);
    if alone {
      TrackStart(p, ins, params, line, view);
      LineShort(p, ins, params, line);
    }
    while |queue| > 0
      invariant fresh(states) && Linked(states, view) && Work(p, ins, params, view, queue)
      invariant forall k :: 0 <= k < states.Length && states[k] != null ==> fresh(states[k])
      invariant Laid(ins, lay) ==> Fits(lay, view) && Least(p, ins, params, lay, view)
      invariant alone ==> steps <= |line| <= |ins| && Tracked(line, steps, view, queue)
      decreases Missing(view), Weights(view), |queue|
    {
      var i := queue[0];
      ghost var v0, q0 := view, queue;
      HeadTail(queue);
      queue := queue[1..];
      QueueHead(p, ins, params, view, queue, i);
      if alone {
        TrackVisit(p, ins, params, line, steps, view, i, queue);
      }
      steps := steps + 1;
      if steps > |ins| * 64 {
        return Some(NotConverged), states, view;
      }
      assert forall s: State :: s in states[..] ==> fresh(s);
      err, queue, view := Visit(p, ins, byOffset, states, i, queue, params, view, lay, line, if alone then steps - 1 else 0);
      if err.Some? {
        return;
      }
      BelowMeans(view, |queue|, v0, |q0|);
    }
    Ending(p, ins, params, view);
    if alone {
      TrackOver(line, steps, view);
    }
    err := None;
  }

  lemma LinkedStart(states: array<State?>, s: State, view: View)
    requires 0 < states.Length == |view| && forall i :: 0 <= i < |view| ==> states[i] == if i == 0 then s else null
    requires forall i :: 0 <= i < |view| ==> view[i] == if i == 0 then Some(s.Abs()) else None
    ensures Linked(states, view)
  {
  }

  lemma HeadTail(q: seq<nat>)
    requires q != []
    ensures [q[0]] + q[1..] == q
  {
  }

  lemma BelowMeans(v': View, q': nat, v: View, q: nat)
    requires q > 0 && Below(v', q', v, q - 1)
    ensures Missing(v') <= Missing(v) && (Missing(v') == Missing(v) ==> Weights(v') <= Weights(v) && (Weights(v') == Weights(v) ==> q' < q))
  {
  }

  lemma Beginning(p: seq<Proc>, ins: seq<Ins>, params: seq<Val>, view: View, lay: seq<Option<Refs>>)
    requires AllDecoded(ins) && |ins| == |view| > 0
    requires forall i :: 0 <= i < |ins| ==> view[i] == if i == 0 then Some(Init(params)) else None
    ensures Work(p, ins, params, view, [0])
    ensures Laid(ins, lay) ==> Fits(lay, view)
  {
    CoversSelf(Init(params));
    assert RefsOf(Init(params).stack) == [None];
  }

  lemma Ending(p: seq<Proc>, ins: seq<Ins>, params: seq<Val>, view: View)
    requires AllDecoded(ins) && Work(p, ins, params, view, [])
    ensures FixedPoint(p, ins, params, view)
  {
    hide Settled;
  }
}
