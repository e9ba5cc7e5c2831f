/** Cancellation from outside: when the reader can be told of the end of the stream
    although blocks are missing, or the input does not end well. */
module ParallelEnds {
  import opened Bytes
  import opened ParallelBlocks

  function After(t: Task, s: State, acts: seq<Action>): Option<State>
    decreases |acts|
  {
    if acts == [] then Some(s)
    else if Enabled(t, s, acts[0]) then After(t, Apply(t, s, acts[0]), acts[1..])
    else None
  }

  lemma AfterFirst(t: Task, s: State, a: Action, rest: seq<Action>)
    requires Enabled(t, s, a)
    ensures After(t, s, [a] + rest) == After(t, Apply(t, s, a), rest)
  {
    assert ([a] + rest)[1..] == rest;
  }

  // Block k has been delivered or is on its way to the consumer.
  predicate Onway(s: State, k: nat) {
    k < s.want || k in s.hold || exists j :: 0 <= j < |s.results| && s.results[j].k == k
  }

  // No error is on its way.
  predicate NoError(s: State) {
    forall j :: 0 <= j < |s.results| ==> s.results[j].out.Some?
  }

  /** What may happen next, when nobody hands anything on any more. */
  lemma Dropping(t: Task, s: State) returns (a: Action)
    requires Inv(t, s) && s.outcome.Running? && s.cancelled
    ensures Enabled(t, s, a) && !a.Cancel? && !a.Send? && !a.Report? && !a.Offer?
  {
    if s.want in s.hold { return Release; }
    if s.results != [] { return Receive; }
    if s.resultsClosed { return End; }
    if i :| 0 <= i < |s.workers| && s.workers[i].Working? { return Decode(i); }
    if i :| 0 <= i < |s.workers| && s.workers[i].Sending? { return Drop(i); }
    if i :| 0 <= i < |s.workers| && s.workers[i].Quitting? { return Exit(i); }
    if i :| 0 <= i < |s.workers| && s.workers[i].Idle? && (s.jobs != [] || s.jobsClosed) {
      return if s.jobs != [] then Take(i) else Finish(i);
    }
    match s.producer
    case Reading(_) => a := Read;
    case Leaving => a := Leave;
    case Failing(_) => a := GiveUp;
    case Offering(_) => a := GiveUp;
    case Gone => a := Close;
  }

  lemma StillMissing(t: Task, s: State, a: Action, k: nat)
    requires Enabled(t, s, a) && !a.Send? && !a.Report? && !Onway(s, k) && NoError(s) && s.outcome.Running? && s.cancelled
    ensures var s' := Apply(t, s, a); !Onway(s', k) && NoError(s') && !s'.outcome.Failed? && s'.cancelled
  {
  }

  /** A block that is not on its way yet can be dropped: the schedule ends in the end
      of the stream, without it. */
  lemma {:induction false} EndsWithout(t: Task, s: State, k: nat) returns (acts: seq<Action>)
    requires t.n >= 1 && Inv(t, s) && s.outcome.Running? && s.cancelled && NoError(s) && !Onway(s, k)
    ensures var e := After(t, s, acts); e.Some? && e.value.outcome.Eof? && e.value.want <= k
    decreases Work(t, s)
  {
    hide Apply, Enabled, Shape, Placed, Contents, Causes, Endings, Work, Onway;
    var a := Dropping(t, s);
    StepInv(t, s, a);
    StillMissing(t, s, a, k);
    WorkShrinks(t, s, a);
    var s' := Apply(t, s, a);
    WorkLeft(t, s');
    var rest := [];
    if s'.outcome.Running? {
      rest := EndsWithout(t, s', k);
    } else {
      Missing(s', k);
    }
    acts := [a] + rest;
    AfterFirst(t, s, a, rest);
  }

  lemma Missing(s: State, k: nat)
    requires !Onway(s, k)
    ensures s.want <= k
  {
  }

  lemma Arrives(s: State, k: nat)
    requires s.results != [] && Onway(s, k)
    ensures Received(s).outcome.Failed? || Onway(Received(s), k)
  {
    if j :| 0 <= j < |s.results| && s.results[j].k == k {
      assert j > 0 ==> s.results[1..][j - 1].k == k;
    }
  }

  lemma Waits(t: Task, s: State, a: Action)
    requires Enabled(t, s, a) && !a.Receive? && !a.Release?
    ensures var s' := Apply(t, s, a); s.results <= s'.results && s'.want == s.want && s'.hold == s.hold
  {
    hide Produced, Worked;
    if ByProducer(a) {
      ProducerWaits(t, s, a);
    } else if ByWorker(a) {
      WorkerWaits(t, s, a);
    }
  }

  lemma ProducerWaits(t: Task, s: State, a: Action)
    requires Enabled(t, s, a) && ByProducer(a)
    ensures var s' := Produced(t, s, a); s.results <= s'.results && s'.want == s.want && s'.hold == s.hold
  {
  }

  lemma WorkerWaits(t: Task, s: State, a: Action)
    requires Enabled(t, s, a) && ByWorker(a)
    ensures var s' := Worked(t, s, a); s.results <= s'.results && s'.want == s.want && s'.hold == s.hold
  {
  }

  lemma Releases(t: Task, s: State, k: nat)
    requires Enabled(t, s, Release) && Onway(s, k)
    ensures Onway(Apply(t, s, Release), k)
  {
    var s' := Apply(t, s, Release);
    if j :| 0 <= j < |s.results| && s.results[j].k == k {
      assert s'.results[j].k == k;
    }
  }

  /** What is on its way arrives, unless an error ends the stream. */
  lemma OnwayStays(t: Task, s: State, a: Action, k: nat)
    requires Enabled(t, s, a) && Onway(s, k)
    ensures Apply(t, s, a).outcome.Failed? || Onway(Apply(t, s, a), k)
  {
    hide Received;
    if a.Receive? {
      Arrives(s, k);
    } else if a.Release? {
      Releases(t, s, k);
    } else {
      hide Apply;
      var s' := Apply(t, s, a);
      Waits(t, s, a);
      if j :| 0 <= j < |s.results| && s.results[j].k == k {
        assert s'.results[j].k == k;
      }
    }
  }

  lemma FailedStays(t: Task, s: State, a: Action)
    requires Enabled(t, s, a) && s.outcome.Failed?
    ensures Apply(t, s, a).outcome.Failed?
  {
  }

  lemma {:induction false} AllArrives(t: Task, s: State, acts: seq<Action>, k: nat)
    requires Onway(s, k) || s.outcome.Failed?
    ensures var e := After(t, s, acts); e.Some? ==> e.value.outcome.Failed? || Onway(e.value, k)
    decreases |acts|
  {
    hide Apply, Enabled, Onway;
    if acts != [] && Enabled(t, s, acts[0]) {
      if s.outcome.Failed? {
        FailedStays(t, s, acts[0]);
      } else {
        OnwayStays(t, s, acts[0], k);
      }
      AllArrives(t, Apply(t, s, acts[0]), acts[1..], k);
    }
  }

  lemma {:induction false} AfterInv(t: Task, s: State, acts: seq<Action>)
    requires t.n >= 1 && Inv(t, s) && After(t, s, acts).Some?
    ensures Inv(t, After(t, s, acts).value)
    decreases |acts|
  {
    hide Apply, Enabled, Shape, Placed, Contents, Causes, Endings;
    if acts != [] {
      StepInv(t, s, acts[0]);
      AfterInv(t, Apply(t, s, acts[0]), acts[1..]);
    }
  }

  lemma EofTook(t: Task, s: State)
    requires Inv(t, s) && s.outcome.Eof?
    ensures !Onway(s, s.want) && s.want <= |t.outs|
  {
  }

  lemma ErrorStays(t: Task, s: State, a: Action)
    requires Enabled(t, s, a) && !NoError(s)
    ensures Apply(t, s, a).outcome.Failed? || !NoError(Apply(t, s, a))
  {
    hide Received;
    var j :| 0 <= j < |s.results| && s.results[j].out.None?;
    var s' := Apply(t, s, a);
    if a.Receive? {
      ErrorArrives(s, j);
    } else if a.Release? {
      assert s'.results[j].out.None?;
    } else {
      hide Apply;
      Waits(t, s, a);
      assert s'.results[j].out.None?;
    }
  }

  lemma ErrorArrives(s: State, j: nat)
    requires j < |s.results| && s.results[j].out.None?
    ensures Received(s).outcome.Failed? || !NoError(Received(s))
  {
    assert j > 0 ==> s.results[1..][j - 1].out.None?;
  }

  /** An error on its way is all the reader can get. */
  lemma {:induction false} ErrorEnds(t: Task, s: State, acts: seq<Action>)
    requires !NoError(s) || s.outcome.Failed?
    ensures var e := After(t, s, acts); e.Some? ==> e.value.outcome.Failed? || !NoError(e.value)
    decreases |acts|
  {
    hide Apply, Enabled, NoError;
    if acts != [] && Enabled(t, s, acts[0]) {
      if s.outcome.Failed? {
        FailedStays(t, s, acts[0]);
      } else {
        ErrorStays(t, s, acts[0]);
      }
      ErrorEnds(t, Apply(t, s, acts[0]), acts[1..]);
    }
  }

  lemma EofQuiet(t: Task, s: State)
    requires Inv(t, s) && s.outcome.Eof?
    ensures NoError(s)
  {
  }

  // Past the last block nothing is on its way but the error of an unreadable end.
  lemma NothingBeyond(t: Task, s: State)
    requires Inv(t, s) && NoError(s)
    ensures !Onway(s, |t.outs|)
  {
  }

  // What is told at the end is true only of a clean input, wholly handed over.
  ghost predicate EndsEarly(t: Task, s: State, acts: seq<Action>) {
    var e := After(t, s, acts);
    e.Some? && e.value.outcome.Eof? && !(Clean(t) && e.value.want == |t.outs|)
  }

  // Something has not reached the results yet, a block or the unreadable end.
  ghost predicate Droppable(t: Task, s: State) {
    t.bad || exists k: nat :: k < |t.outs| && !Onway(s, k)
  }

  lemma EarlyMeans(t: Task, s: State, acts: seq<Action>)
    requires t.n >= 1 && Inv(t, s) && s.outcome.Running? && EndsEarly(t, s, acts)
    ensures NoError(s) && Droppable(t, s)
  {
    hide Inv, Onway, NoError;
    var e := After(t, s, acts).value;
    AfterInv(t, s, acts);
    EofTook(t, e);
    EofQuiet(t, e);
    if !NoError(s) {
      ErrorEnds(t, s, acts);
    }
    if e.want < |t.outs| {
      if Onway(s, e.want) {
        AllArrives(t, s, acts, e.want);
      }
    } else {
      AllGood(t, e);
    }
  }

  lemma AllGood(t: Task, s: State)
    requires Inv(t, s) && s.want >= |t.outs|
    ensures s.want == |t.outs| && (Clean(t) <==> !t.bad)
  {
    forall k | 0 <= k < |t.outs|
      ensures t.outs[k].Some?
    {
      assert t.outs[k] == Some(s.emitted[k]);
    }
  }

  lemma DropAt(t: Task, s: State, k: nat) returns (acts: seq<Action>)
    requires t.n >= 1 && Inv(t, s) && s.outcome.Running? && NoError(s) && !Onway(s, k)
    requires k < |t.outs| || (t.bad && k == |t.outs|)
    ensures EndsEarly(t, s, acts)
  {
    hide Inv;
    if s.cancelled {
      acts := EndsWithout(t, s, k);
    } else {
      CancelReady(t, s, k);
      StepInv(t, s, Cancel);
      acts := EndsWithout(t, Apply(t, s, Cancel), k);
      AfterFirst(t, s, Cancel, acts);
      acts := [Cancel] + acts;
    }
  }

  lemma CancelReady(t: Task, s: State, k: nat)
    requires Inv(t, s) && s.outcome.Running? && !s.cancelled && NoError(s) && !Onway(s, k)
    ensures Enabled(t, s, Cancel)
    ensures var s' := Apply(t, s, Cancel); s'.outcome.Running? && s'.cancelled && NoError(s') && !Onway(s', k)
  {
  }

  /** From any state of a run: the reader can be told of an end that is not the end of
      a clean input exactly when no error is on its way, and the input is unreadable
      at its end or some block is not on its way yet. */
  lemma EarlyEndIff(t: Task, s: State)
    requires t.n >= 1 && Inv(t, s) && s.outcome.Running?
    ensures (exists acts :: EndsEarly(t, s, acts)) <==> NoError(s) && Droppable(t, s)
  {
    hide Inv, Onway, NoError, EndsEarly;
    if acts :| EndsEarly(t, s, acts) {
      EarlyMeans(t, s, acts);
    }
    if NoError(s) && Droppable(t, s) {
      var k: nat := |t.outs|;
      if t.bad {
        NothingBeyond(t, s);
      } else {
        k :| k < |t.outs| && !Onway(s, k);
      }
      var acts := DropAt(t, s, k);
    }
  }

  /** Cancelled before the first step, every input can look empty. */
  lemma CancelledEmpty(t: Task) returns (acts: seq<Action>)
    requires t.n >= 1
    ensures var e := After(t, Init(t), [Cancel] + acts); e.Some? && e.value.outcome.Eof? && e.value.emitted == []
  {
    hide Apply, Shape, Placed, Contents, Causes, Endings;
    InitInv(t);
    var s := Cancelled(t);
    StepInv(t, Init(t), Cancel);
    acts := EndsWithout(t, s, 0);
    AfterFirst(t, Init(t), Cancel, acts);
    AfterInv(t, s, acts);
    EmittedCount(t, After(t, s, acts).value);
  }

  lemma EmittedCount(t: Task, s: State)
    requires Inv(t, s)
    ensures |s.emitted| == s.want
  {
  }

  lemma Cancelled(t: Task) returns (s: State)
    ensures Enabled(t, Init(t), Cancel) && s == Apply(t, Init(t), Cancel)
    ensures s.outcome.Running? && s.cancelled && NoError(s) && !Onway(s, 0)
  {
    s := Apply(t, Init(t), Cancel);
  }
}
