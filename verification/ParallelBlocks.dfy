/** The parallel block decoder: a producer that splits the input into jobs, workers
    that decode them in any order, and a consumer that puts the blocks back in
    order, as a step system over all interleavings. */
module ParallelBlocks {
  import opened Counting
  import opened Bytes

  /** One input: the outcome of decoding each job (None when that fails), whether
      the input ends in something unreadable, and the number of workers. */
  datatype Task = Task(outs: seq<Option<seq<byte>>>, bad: bool, n: nat)

  datatype Producer = Reading(k: nat) | Offering(k: nat) | Failing(k: nat) | Leaving | Gone

  datatype Worker = Idle | Working(k: nat) | Sending(k: nat) | Quitting | Exited

  // A message on the results channel.
  datatype Msg = Msg(k: nat, out: Option<seq<byte>>)

  datatype Outcome = Running | Failed | Eof

  /** jobs and results are the contents of the two channels. `outside` says that
      the context was cancelled from outside. `lost` collects what was dropped
      because of a cancellation, `spent` the errors the consumer has seen, and
      `issued` counts the numbers given out. */
  datatype State = State(
    producer: Producer, workers: seq<Worker>,
    jobs: seq<nat>, jobsClosed: bool, results: seq<Msg>, resultsClosed: bool,
    cancelled: bool, outside: bool,
    hold: map<nat, seq<byte>>, want: nat, emitted: seq<seq<byte>>, outcome: Outcome,
    issued: nat, lost: seq<nat>, spent: seq<nat>)

  function Init(t: Task): State {
    State(Reading(0), seq(t.n, _ => Idle), [], false, [], false, false, false, map[], 0, [], Running, 0, [], [])
  }

  datatype Action =
    | Read | Offer | GiveUp | Report | Leave
    | Take(i: nat) | Finish(i: nat) | Decode(i: nat) | Send(i: nat) | Drop(i: nat) | Exit(i: nat)
    | Close | Cancel
    | Release | Receive | End

  predicate Enabled(t: Task, s: State, a: Action) {
    match a
    case Read => s.producer.Reading?
    case Offer => s.producer.Offering? && |s.jobs| < 1
    case GiveUp => (s.producer.Offering? || s.producer.Failing?) && s.cancelled
    case Report => s.producer.Failing? && |s.results| < t.n
    case Leave => s.producer.Leaving?
    case Take(i) => i < |s.workers| && s.workers[i].Idle? && s.jobs != []
    case Finish(i) => i < |s.workers| && s.workers[i].Idle? && s.jobs == [] && s.jobsClosed
    case Decode(i) => i < |s.workers| && s.workers[i].Working?
    case Send(i) => i < |s.workers| && s.workers[i].Sending? && |s.results| < t.n
    case Drop(i) => i < |s.workers| && s.workers[i].Sending? && s.cancelled
    case Exit(i) => i < |s.workers| && s.workers[i].Quitting?
    case Close => s.producer.Gone? && (forall i :: 0 <= i < |s.workers| ==> s.workers[i].Exited?) && !s.resultsClosed
    case Cancel => !s.outside
    case Release => s.outcome.Running? && s.want in s.hold
    case Receive => s.outcome.Running? && s.want !in s.hold && s.results != []
    case End => s.outcome.Running? && s.want !in s.hold && s.results == [] && s.resultsClosed
  }

  // The consumer takes a message: an error, the block it wants, or one to hold.
  function Received(s: State): State
    requires s.results != []
  {
    var b := s.results[0];
    if b.out.None? then s.(results := s.results[1..], outcome := Failed, spent := s.spent + [b.k])
    else if b.k == s.want then Wanted(s, b.out.value)
    else Early(s, b.k, b.out.value)
  }

  function Wanted(s: State, out: seq<byte>): State
    requires s.results != []
  {
    s.(results := s.results[1..], emitted := s.emitted + [out], want := s.want + 1)
  }

  function Early(s: State, k: nat, out: seq<byte>): State
    requires s.results != []
  {
    s.(results := s.results[1..], hold := s.hold[k := out])
  }

  predicate ByProducer(a: Action) { a.Read? || a.Offer? || a.GiveUp? || a.Report? || a.Leave? }
  predicate ByWorker(a: Action) { a.Take? || a.Finish? || a.Decode? || a.Send? || a.Drop? || a.Exit? }

  function Apply(t: Task, s: State, a: Action): State
    requires Enabled(t, s, a)
  {
    if ByProducer(a) then Produced(t, s, a) else if ByWorker(a) then Worked(t, s, a) else Consumed(t, s, a)
  }

  function Produced(t: Task, s: State, a: Action): State
    requires Enabled(t, s, a) && ByProducer(a)
  {
    match a
    case Read =>
      var k := s.producer.k;
      if k < |t.outs| then s.(producer := Offering(k), issued := k + 1)
      else if t.bad then s.(producer := Failing(k), issued := k + 1)
      else s.(producer := Gone, jobsClosed := true)
    case Offer => s.(jobs := s.jobs + [s.producer.k], producer := Reading(s.producer.k + 1))
    case GiveUp => s.(producer := Leaving, lost := s.lost + [s.producer.k])
    case Report => s.(producer := Leaving, results := s.results + [Msg(s.producer.k, None)])
    case Leave => s.(producer := Gone, jobsClosed := true, cancelled := true)
  }

  function Worked(t: Task, s: State, a: Action): State
    requires Enabled(t, s, a) && ByWorker(a)
  {
    match a
    case Take(i) => s.(workers := s.workers[i := Working(s.jobs[0])], jobs := s.jobs[1..])
    case Finish(i) => s.(workers := s.workers[i := Exited])
    case Decode(i) => s.(workers := s.workers[i := Sending(s.workers[i].k)])
    case Send(i) =>
      var k := s.workers[i].k;
      var out := if k < |t.outs| then t.outs[k] else None;
      s.(results := s.results + [Msg(k, out)], workers := s.workers[i := if out.Some? then Idle else Quitting])
    case Drop(i) => s.(workers := s.workers[i := Quitting], lost := s.lost + [s.workers[i].k])
    case Exit(i) => s.(workers := s.workers[i := Exited], cancelled := true)
  }

  // The results channel is closed, the consumer goes on, or there is a cancellation.
  function Consumed(t: Task, s: State, a: Action): State
    requires Enabled(t, s, a) && !ByProducer(a) && !ByWorker(a)
  {
    match a
    case Close => s.(resultsClosed := true)
    case Cancel => s.(cancelled := true, outside := true)
    case Release => s.(emitted := s.emitted + [s.hold[s.want]], hold := s.hold - {s.want}, want := s.want + 1)
    case Receive => Received(s)
    case End => s.(outcome := Eof)
  }

  // ----- where each block is -----

  function InSeq(xs: seq<nat>, k: nat): nat {
    if xs == [] then 0 else One(xs[0] == k) + InSeq(xs[1..], k)
  }

  function InWorkers(ws: seq<Worker>, k: nat): nat {
    if ws == [] then 0 else At(ws[0], k) + InWorkers(ws[1..], k)
  }

  function At(w: Worker, k: nat): nat {
    One((w.Working? || w.Sending?) && w.k == k)
  }

  function InResults(ms: seq<Msg>, k: nat): nat {
    if ms == [] then 0 else One(ms[0].k == k) + InResults(ms[1..], k)
  }

  function InProducer(p: Producer, k: nat): nat {
    One((p.Offering? || p.Failing?) && p.k == k)
  }

  // In how many places block k is.
  function Places(s: State, k: nat): nat {
    InProducer(s.producer, k) + InSeq(s.jobs, k) + InWorkers(s.workers, k) + InResults(s.results, k)
    + One(k in s.hold) + One(k < s.want) + InSeq(s.lost, k) + InSeq(s.spent, k)
  }

  lemma {:induction false} SeqSnoc(xs: seq<nat>, x: nat, k: nat)
    ensures InSeq(xs + [x], k) == InSeq(xs, k) + One(x == k)
  {
    if xs == [] {
      assert [] + [x] == [x] && [x][1..] == [];
    } else {
      SeqSnoc(xs[1..], x, k);
      assert (xs + [x])[1..] == xs[1..] + [x];
    }
  }

  lemma {:induction false} WorkersUpdate(ws: seq<Worker>, i: nat, w: Worker, k: nat)
    requires i < |ws|
    ensures InWorkers(ws[i := w], k) == InWorkers(ws, k) - At(ws[i], k) + At(w, k)
  {
    if i > 0 {
      WorkersUpdate(ws[1..], i - 1, w, k);
      assert ws[i := w][1..] == ws[1..][i - 1 := w];
    } else {
      assert ws[i := w][1..] == ws[1..];
    }
  }

  lemma {:induction false} ResultsSnoc(ms: seq<Msg>, m: Msg, k: nat)
    ensures InResults(ms + [m], k) == InResults(ms, k) + One(m.k == k)
  {
    if ms == [] {
      assert [] + [m] == [m] && [m][1..] == [];
    } else {
      ResultsSnoc(ms[1..], m, k);
      assert (ms + [m])[1..] == ms[1..] + [m];
    }
  }

  /** Every block given out is in exactly one place. */
  ghost predicate Placed(s: State) {
    forall k: nat :: Places(s, k) == One(k < s.issued)
  }

  predicate Shape(t: Task, s: State) {
    && |s.workers| == t.n >= 1 && |s.jobs| <= 1 && |s.results| <= t.n
    && match s.producer
       case Reading(k) => k == s.issued <= |t.outs|
       case Offering(k) => k + 1 == s.issued <= |t.outs|
       case Failing(k) => k == |t.outs| && s.issued == k + 1 && t.bad
       case Leaving => s.issued <= |t.outs| + 1
       case Gone => s.issued <= |t.outs| + 1 && s.jobsClosed && (!s.cancelled ==> s.issued == |t.outs| && !t.bad)
  }

  // What the decoding of block k comes to; the unreadable end counts as a block.
  function Verdict(t: Task, k: nat): Option<seq<byte>> {
    if k < |t.outs| then t.outs[k] else None
  }

  predicate Fails(t: Task, k: nat) {
    (k < |t.outs| && t.outs[k].None?) || (k == |t.outs| && t.bad)
  }

  predicate MsgOk(t: Task, m: Msg) {
    m.out == Verdict(t, m.k) && (m.out.None? ==> Fails(t, m.k))
  }

  ghost predicate Contents(t: Task, s: State) {
    && (forall j :: 0 <= j < |s.jobs| ==> s.jobs[j] < |t.outs|)
    && (forall i :: 0 <= i < |s.workers| ==> (s.workers[i].Working? || s.workers[i].Sending?) ==> s.workers[i].k < |t.outs|)
    && (forall j :: 0 <= j < |s.results| ==> MsgOk(t, s.results[j]))
    && (forall k :: k in s.hold ==> k < |t.outs| && t.outs[k] == Some(s.hold[k]))
    && |s.emitted| == s.want <= |t.outs|
    && (forall k :: 0 <= k < s.want ==> t.outs[k] == Some(s.emitted[k]))
    && (s.outcome.Failed? ==> exists k :: Fails(t, k))
  }

  // Something was cancelled from outside, or an error is on its way or has been delivered.
  predicate Trouble(s: State) {
    s.outside || s.outcome.Failed? || exists j :: 0 <= j < |s.results| && s.results[j].out.None?
  }

  predicate Quiet(s: State) {
    !s.cancelled && !s.producer.Leaving? && forall i :: 0 <= i < |s.workers| ==> !s.workers[i].Quitting?
  }

  predicate Causes(s: State) {
    && (!Trouble(s) ==> Quiet(s))
    && (s.lost != [] ==> s.cancelled)
    && (s.outside ==> s.cancelled)
    && (s.spent != [] ==> s.outcome.Failed?)
  }

  predicate Endings(s: State) {
    && (forall i :: 0 <= i < |s.workers| && s.workers[i].Exited? ==> s.cancelled || (s.jobsClosed && s.jobs == []))
    && (s.jobsClosed ==> s.producer.Gone?)
    && (s.resultsClosed ==> s.producer.Gone? && forall i :: 0 <= i < |s.workers| ==> s.workers[i].Exited?)
    && (s.outcome.Eof? ==> s.resultsClosed && s.results == [] && s.want !in s.hold)
  }

  /** What every interleaving keeps. */
  ghost predicate Inv(t: Task, s: State) {
    Placed(s) && Shape(t, s) && Contents(t, s) && Causes(s) && Endings(s)
  }

  lemma InitInv(t: Task)
    requires t.n >= 1
    ensures Inv(t, Init(t))
  {
    forall k: nat
      ensures Places(Init(t), k) == One(k < Init(t).issued)
    {
      NoneHeld(t.n, k);
    }
  }

  lemma {:induction false} NoneHeld(n: nat, k: nat)
    ensures InWorkers(seq(n, _ => Idle), k) == 0
  {
    if n > 0 {
      NoneHeld(n - 1, k);
      assert seq(n, _ => Idle)[1..] == seq(n - 1, _ => Idle);
    }
  }

  // Every step moves block k along, or gives it out.
  ghost predicate Moves(t: Task, s: State, a: Action, k: nat)
    requires Enabled(t, s, a)
  {
    Places(s, k) == One(k < s.issued) ==> Places(Apply(t, s, a), k) == One(k < Apply(t, s, a).issued)
  }

  lemma ProducerMoves(t: Task, s: State, a: Action, k: nat)
    requires ByProducer(a) && Shape(t, s) && Enabled(t, s, a)
    ensures Moves(t, s, a, k)
  {
    hide Moves, Shape;
    match a
    case Read => ReadMoves(t, s, k);
    case Offer => OfferMoves(t, s, k);
    case GiveUp => GiveUpMoves(t, s, k);
    case Report => ReportMoves(t, s, k);
    case Leave => LeaveMoves(t, s, k);
  }

  lemma ReadMoves(t: Task, s: State, k: nat)
    requires Shape(t, s) && Enabled(t, s, Read)
    ensures Moves(t, s, Read, k)
  {
    hide InWorkers, InResults, InSeq;
  }

  lemma OfferMoves(t: Task, s: State, k: nat)
    requires Enabled(t, s, Offer)
    ensures Moves(t, s, Offer, k)
  {
    hide InWorkers, InResults, InSeq;
    SeqSnoc(s.jobs, s.producer.k, k);
  }

  lemma GiveUpMoves(t: Task, s: State, k: nat)
    requires Enabled(t, s, GiveUp)
    ensures Moves(t, s, GiveUp, k)
  {
    hide InWorkers, InResults, InSeq;
    SeqSnoc(s.lost, s.producer.k, k);
  }

  lemma ReportMoves(t: Task, s: State, k: nat)
    requires Enabled(t, s, Report)
    ensures Moves(t, s, Report, k)
  {
    hide InWorkers, InResults, InSeq;
    ResultsSnoc(s.results, Msg(s.producer.k, None), k);
  }

  lemma LeaveMoves(t: Task, s: State, k: nat)
    requires Enabled(t, s, Leave)
    ensures Moves(t, s, Leave, k)
  {
    hide InWorkers, InResults, InSeq;
  }

  lemma WorkerMoves(t: Task, s: State, a: Action, k: nat)
    requires ByWorker(a) && Enabled(t, s, a)
    ensures Moves(t, s, a, k)
  {
    hide Moves;
    match a
    case Take(i) => TakeMoves(t, s, i, k);
    case Send(i) => SendMoves(t, s, i, k);
    case Drop(i) => DropMoves(t, s, i, k);
    case _ => OwnMoves(t, s, a, k);
  }

  // A worker turns to something else and hands on nothing.
  lemma OwnMoves(t: Task, s: State, a: Action, k: nat)
    requires (a.Finish? || a.Decode? || a.Exit?) && Enabled(t, s, a)
    ensures Moves(t, s, a, k)
  {
    hide InWorkers, InResults, InSeq, InProducer;
    match a
    case Finish(i) => WorkersUpdate(s.workers, i, Exited, k);
    case Decode(i) => WorkersUpdate(s.workers, i, Sending(s.workers[i].k), k);
    case Exit(i) => WorkersUpdate(s.workers, i, Exited, k);
  }

  lemma TakeMoves(t: Task, s: State, i: nat, k: nat)
    requires Enabled(t, s, Take(i))
    ensures Moves(t, s, Take(i), k)
  {
    hide InWorkers, InResults, InSeq, InProducer;
    WorkersUpdate(s.workers, i, Working(s.jobs[0]), k);
    SeqHead(s.jobs, k);
  }

  lemma DropMoves(t: Task, s: State, i: nat, k: nat)
    requires Enabled(t, s, Drop(i))
    ensures Moves(t, s, Drop(i), k)
  {
    hide InWorkers, InResults, InSeq, InProducer;
    WorkersUpdate(s.workers, i, Quitting, k);
    SeqSnoc(s.lost, s.workers[i].k, k);
  }

  lemma SendMoves(t: Task, s: State, i: nat, k: nat)
    requires Enabled(t, s, Send(i))
    ensures Moves(t, s, Send(i), k)
  {
    hide InWorkers, InResults, InSeq, InProducer;
    var s' := Apply(t, s, Send(i));
    WorkersUpdate(s.workers, i, s'.workers[i], k);
    ResultsSnoc(s.results, s'.results[|s.results|], k);
  }

  lemma WantedPlace(s: State, out: seq<byte>, k: nat)
    requires s.results != [] && s.results[0].k == s.want
    ensures Places(Wanted(s, out), k) == Places(s, k)
  {
    hide InWorkers, InResults, InSeq, InProducer;
    ResultsHead(s.results, k);
  }

  lemma EarlyPlace(s: State, out: seq<byte>, k: nat)
    requires s.results != [] && s.results[0].k !in s.hold
    ensures Places(Early(s, s.results[0].k, out), k) == Places(s, k)
  {
    hide InWorkers, InResults, InSeq, InProducer;
    ResultsHead(s.results, k);
  }

  lemma ReceivePlace(s: State, k: nat)
    requires s.results != [] && s.results[0].k !in s.hold && s.results[0].k >= s.want
    ensures Places(Received(s), k) == Places(s, k)
  {
    hide InWorkers, InResults, InSeq, InProducer, Wanted, Early;
    var b := s.results[0];
    if b.out.None? {
      ResultsHead(s.results, k);
      SeqSnoc(s.spent, b.k, k);
    } else if b.k == s.want {
      WantedPlace(s, b.out.value, k);
    } else {
      EarlyPlace(s, b.out.value, k);
    }
  }

  lemma ReceiveMoves(t: Task, s: State, k: nat)
    requires Enabled(t, s, Receive) && s.results[0].k !in s.hold && s.results[0].k >= s.want
    ensures Moves(t, s, Receive, k)
  {
    hide Places;
    ReceivePlace(s, k);
  }

  lemma ConsumerMoves(t: Task, s: State, a: Action, k: nat)
    requires !ByProducer(a) && !ByWorker(a) && !a.Receive? && Enabled(t, s, a)
    ensures Moves(t, s, a, k)
  {
    hide InWorkers, InResults, InSeq, InProducer;
  }

  lemma SeqHead(xs: seq<nat>, k: nat)
    requires xs != []
    ensures InSeq(xs, k) == One(xs[0] == k) + InSeq(xs[1..], k)
  {
  }

  lemma ResultsHead(ms: seq<Msg>, k: nat)
    requires ms != []
    ensures InResults(ms, k) == One(ms[0].k == k) + InResults(ms[1..], k)
  {
  }

  // A block on the channel is neither held nor emitted.
  lemma Arriving(s: State)
    requires Placed(s) && s.results != []
    ensures s.results[0].k !in s.hold && s.results[0].k >= s.want
  {
    var k := s.results[0].k;
    ResultsHead(s.results, k);
    assert Places(s, k) <= 1;
  }

  lemma KeepsPlaced(t: Task, s: State, a: Action)
    requires Inv(t, s) && Enabled(t, s, a)
    ensures Placed(Apply(t, s, a))
  {
    hide Places, Contents, Causes, Endings, Apply, Shape, Enabled, Received;
    if s.results != [] {
      Arriving(s);
    }
    ReceiveNeeds(t, s, a);
    forall k: nat
      ensures Places(Apply(t, s, a), k) == One(k < Apply(t, s, a).issued)
    {
      if ByProducer(a) {
        ProducerMoves(t, s, a, k);
      } else if ByWorker(a) {
        WorkerMoves(t, s, a, k);
      } else if a.Receive? {
        ReceiveMoves(t, s, k);
      } else {
        ConsumerMoves(t, s, a, k);
      }
      assert Moves(t, s, a, k);
    }
  }

  lemma ReceiveNeeds(t: Task, s: State, a: Action)
    requires Enabled(t, s, a)
    ensures a.Receive? ==> s.results != []
  {
  }

  lemma KeepsShape(t: Task, s: State, a: Action)
    requires Inv(t, s) && Enabled(t, s, a)
    ensures Shape(t, Apply(t, s, a))
  {
    hide Placed, Contents, Shape, Worked, Produced;
    if ByProducer(a) {
      ProducerShape(t, s, a);
    } else if ByWorker(a) {
      WorkerShape(t, s, a);
    } else {
      ConsumerShape(t, s, a);
    }
  }

  lemma ProducerShape(t: Task, s: State, a: Action)
    requires Shape(t, s) && Causes(s) && Enabled(t, s, a) && ByProducer(a)
    ensures Shape(t, Produced(t, s, a))
  {
  }

  lemma WorkerShape(t: Task, s: State, a: Action)
    requires Shape(t, s) && Enabled(t, s, a) && ByWorker(a)
    ensures Shape(t, Worked(t, s, a))
  {
  }

  lemma ConsumerShape(t: Task, s: State, a: Action)
    requires Shape(t, s) && Enabled(t, s, a) && !ByProducer(a) && !ByWorker(a)
    ensures Shape(t, Consumed(t, s, a))
  {
  }

  lemma KeepsContents(t: Task, s: State, a: Action)
    requires Inv(t, s) && Enabled(t, s, a)
    ensures Contents(t, Apply(t, s, a))
  {
    hide Placed, Causes, Endings, Contents, Received;
    if ByProducer(a) {
      ProducerContents(t, s, a);
    } else if ByWorker(a) {
      WorkerContents(t, s, a);
    } else if a.Receive? {
      ReceiveContents(t, s);
    } else {
      ConsumerContents(t, s, a);
    }
  }

  lemma ProducerContents(t: Task, s: State, a: Action)
    requires Shape(t, s) && Contents(t, s) && Enabled(t, s, a) && ByProducer(a)
    ensures Contents(t, Apply(t, s, a))
  {
  }

  lemma WorkerContents(t: Task, s: State, a: Action)
    requires Shape(t, s) && Contents(t, s) && Enabled(t, s, a) && ByWorker(a)
    ensures Contents(t, Apply(t, s, a))
  {
  }

  lemma WantedContents(t: Task, s: State, out: seq<byte>)
    requires Contents(t, s) && s.results != [] && s.want < |t.outs| && t.outs[s.want] == Some(out)
    ensures Contents(t, Wanted(s, out))
  {
  }

  lemma EarlyContents(t: Task, s: State, k: nat, out: seq<byte>)
    requires Contents(t, s) && s.results != [] && k < |t.outs| && t.outs[k] == Some(out)
    ensures Contents(t, Early(s, k, out))
  {
  }

  lemma ReceiveContents(t: Task, s: State)
    requires Contents(t, s) && s.results != [] && s.outcome.Running?
    ensures Contents(t, Received(s))
  {
    hide Wanted, Early;
    var b := s.results[0];
    assert MsgOk(t, b);
    if b.out.Some? {
      if b.k == s.want {
        WantedContents(t, s, b.out.value);
      } else {
        EarlyContents(t, s, b.k, b.out.value);
      }
    }
  }

  lemma ConsumerContents(t: Task, s: State, a: Action)
    requires Contents(t, s) && Enabled(t, s, a) && !ByProducer(a) && !ByWorker(a) && !a.Receive?
    ensures Contents(t, Apply(t, s, a))
  {
  }

  // An error stays on its way until it is delivered.
  lemma TroubleStays(t: Task, s: State, a: Action)
    requires Enabled(t, s, a) && Trouble(s) && s.outcome != Eof
    ensures Trouble(Apply(t, s, a))
  {
    var s' := Apply(t, s, a);
    if !s.outside && !s.outcome.Failed? {
      var j :| 0 <= j < |s.results| && s.results[j].out.None?;
      if a.Receive? {
        assert j > 0 ==> s'.results[j - 1] == s.results[j];
      } else {
        assert s'.results[j] == s.results[j];
      }
    }
  }

  lemma KeepsCauses(t: Task, s: State, a: Action)
    requires Inv(t, s) && Enabled(t, s, a)
    ensures Causes(Apply(t, s, a))
  {
    hide Placed, Contents, Shape;
    if Trouble(s) && s.outcome != Eof {
      TroubleStays(t, s, a);
    }
    if a.Send? || a.Report? {
      assert Apply(t, s, a).results[|s.results|].out.None? ==> Trouble(Apply(t, s, a));
    }
  }

  lemma KeepsEndings(t: Task, s: State, a: Action)
    requires Inv(t, s) && Enabled(t, s, a)
    ensures Endings(Apply(t, s, a))
  {
    hide Placed, Contents, Causes, Worked;
    if ByWorker(a) {
      WorkerEndings(t, s, a);
    }
  }

  lemma WorkerEndings(t: Task, s: State, a: Action)
    requires Shape(t, s) && Endings(s) && Enabled(t, s, a) && ByWorker(a)
    ensures Endings(Worked(t, s, a))
  {
  }

  lemma StepInv(t: Task, s: State, a: Action)
    requires Inv(t, s) && Enabled(t, s, a)
    ensures Inv(t, Apply(t, s, a))
  {
    hide Placed, Contents, Causes, Endings, Shape, Apply, Enabled;
    KeepsPlaced(t, s, a);
    KeepsShape(t, s, a);
    KeepsContents(t, s, a);
    KeepsCauses(t, s, a);
    KeepsEndings(t, s, a);
  }

  // ----- safety -----

  // Decoding the blocks one after another, up to the first failure.
  function Sequential(outs: seq<Option<seq<byte>>>): seq<seq<byte>> {
    if outs == [] || outs[0].None? then [] else [outs[0].value] + Sequential(outs[1..])
  }

  lemma {:induction false} SequentialPrefix(outs: seq<Option<seq<byte>>>, e: seq<seq<byte>>)
    requires |e| <= |outs| && forall k :: 0 <= k < |e| ==> outs[k] == Some(e[k])
    ensures e <= Sequential(outs)
  {
    if e != [] {
      forall k | 0 <= k < |e[1..]|
        ensures outs[1..][k] == Some(e[1..][k])
      {
        assert outs[k + 1] == Some(e[k + 1]);
      }
      SequentialPrefix(outs[1..], e[1..]);
      assert e == [e[0]] + e[1..];
    }
  }

  /** Whatever the interleaving, what the reader has got is a prefix of
      decoding block by block. */
  lemma EmittedPrefix(t: Task, s: State)
    requires Inv(t, s)
    ensures s.emitted <= Sequential(t.outs)
  {
    SequentialPrefix(t.outs, s.emitted);
  }

  predicate Clean(t: Task) {
    !t.bad && forall k :: 0 <= k < |t.outs| ==> t.outs[k].Some?
  }

  lemma {:induction false} NoneInWorkers(ws: seq<Worker>, k: nat)
    requires forall i :: 0 <= i < |ws| ==> ws[i].Exited?
    ensures InWorkers(ws, k) == 0
  {
    if ws != [] {
      NoneInWorkers(ws[1..], k);
    }
  }

  /** The end of the stream is reported, unless someone outside cancelled, only
      after every block has been handed over and none has failed. */
  lemma EofComplete(t: Task, s: State)
    requires Inv(t, s) && s.outcome.Eof? && !s.outside
    ensures Clean(t) && s.want == |t.outs| && s.emitted == Sequential(t.outs)
  {
    assert !Trouble(s);
    assert s.workers[0].Exited?;
    NoneInWorkers(s.workers, s.want);
    assert Places(s, s.want) == One(s.want < s.issued);
    EmittedPrefix(t, s);
    SequentialSize(t.outs);
  }

  lemma {:induction false} SequentialSize(outs: seq<Option<seq<byte>>>)
    ensures |Sequential(outs)| <= |outs|
  {
    if outs != [] {
      SequentialSize(outs[1..]);
    }
  }

  // ----- liveness -----

  function ProducerWork(p: Producer, n: nat): int {
    match p
    case Reading(k) => 10 * (n - k) + 5
    case Offering(k) => 10 * (n - k) + 4
    case Failing(_) => 4
    case Leaving => 1
    case Gone => 0
  }

  function WorkerWork(w: Worker): nat {
    match w
    case Idle => 2
    case Working(_) => 7
    case Sending(_) => 6
    case Quitting => 1
    case Exited => 0
  }

  function WorkersWork(ws: seq<Worker>): nat {
    if ws == [] then 0 else WorkerWork(ws[0]) + WorkersWork(ws[1..])
  }

  // The steps that can still come.
  function Work(t: Task, s: State): int {
    ProducerWork(s.producer, |t.outs|) + WorkersWork(s.workers) + 6 * |s.jobs| + 2 * |s.results| + |s.hold|
    + One(!s.resultsClosed) + One(!s.outside) + One(s.outcome.Running?)
  }

  lemma {:induction false} WorkUpdate(ws: seq<Worker>, i: nat, w: Worker)
    requires i < |ws|
    ensures WorkersWork(ws[i := w]) == WorkersWork(ws) - WorkerWork(ws[i]) + WorkerWork(w)
  {
    if i > 0 {
      WorkUpdate(ws[1..], i - 1, w);
      assert ws[i := w][1..] == ws[1..][i - 1 := w];
    } else {
      assert ws[i := w][1..] == ws[1..];
    }
  }

  lemma HoldSize(h: map<nat, seq<byte>>, k: nat, v: seq<byte>)
    ensures |h[k := v]| <= |h| + 1
    ensures k in h ==> |h - {k}| == |h| - 1
  {
    assert h[k := v].Keys == h.Keys + {k};
    assert k in h ==> (h - {k}).Keys == h.Keys - {k};
  }

  lemma WorkerShrinks(t: Task, s: State, a: Action)
    requires Enabled(t, s, a) && ByWorker(a)
    ensures Work(t, Apply(t, s, a)) < Work(t, s)
  {
    hide WorkersWork, ProducerWork;
    var s' := Apply(t, s, a);
    match a
    case Take(i) => WorkUpdate(s.workers, i, s'.workers[i]);
    case Finish(i) => WorkUpdate(s.workers, i, s'.workers[i]);
    case Decode(i) => WorkUpdate(s.workers, i, s'.workers[i]);
    case Send(i) => WorkUpdate(s.workers, i, s'.workers[i]);
    case Drop(i) => WorkUpdate(s.workers, i, s'.workers[i]);
    case Exit(i) => WorkUpdate(s.workers, i, s'.workers[i]);
  }

  lemma ProducerShrinks(t: Task, s: State, a: Action)
    requires Shape(t, s) && Enabled(t, s, a) && ByProducer(a)
    ensures Work(t, Apply(t, s, a)) < Work(t, s)
  {
    hide WorkersWork, WorkerWork;
  }

  lemma EarlyShrinks(t: Task, s: State, k: nat, out: seq<byte>)
    requires s.results != []
    ensures Work(t, Early(s, k, out)) < Work(t, s)
  {
    hide WorkersWork, WorkerWork, ProducerWork;
    HoldSize(s.hold, k, out);
  }

  lemma ReceiveShrinks(t: Task, s: State)
    requires s.results != [] && s.outcome.Running?
    ensures Work(t, Received(s)) < Work(t, s)
  {
    hide WorkersWork, WorkerWork, ProducerWork, Early;
    if s.results[0].out.Some? {
      EarlyShrinks(t, s, s.results[0].k, s.results[0].out.value);
    }
  }

  lemma ConsumerShrinks(t: Task, s: State, a: Action)
    requires Enabled(t, s, a) && !ByWorker(a) && !ByProducer(a) && !a.Receive?
    ensures Work(t, Apply(t, s, a)) < Work(t, s)
  {
    hide WorkersWork, WorkerWork, ProducerWork, Shape;
    if a.Release? {
      HoldSize(s.hold, s.want, []);
    }
  }

  /** Every step brings the end closer: no schedule runs for ever. */
  lemma WorkShrinks(t: Task, s: State, a: Action)
    requires Shape(t, s) && Enabled(t, s, a)
    ensures Work(t, Apply(t, s, a)) < Work(t, s)
  {
    hide Work, Shape, Received;
    if ByWorker(a) {
      WorkerShrinks(t, s, a);
    } else if ByProducer(a) {
      ProducerShrinks(t, s, a);
    } else if a.Receive? {
      ReceiveShrinks(t, s);
    } else {
      ConsumerShrinks(t, s, a);
    }
  }

  lemma WorkLeft(t: Task, s: State)
    requires Shape(t, s)
    ensures Work(t, s) >= 0
  {
  }

  /** As long as the reader waits, something can happen that is no cancellation. */
  lemma Progress(t: Task, s: State) returns (a: Action)
    requires Inv(t, s) && s.outcome.Running?
    ensures Enabled(t, s, a) && !a.Cancel?
  {
    if s.want in s.hold { return Release; }
    if s.results != [] { return Receive; }
    if s.resultsClosed { return End; }
    if i :| 0 <= i < |s.workers| && s.workers[i].Working? { return Decode(i); }
    if i :| 0 <= i < |s.workers| && s.workers[i].Sending? { return Send(i); }
    if i :| 0 <= i < |s.workers| && s.workers[i].Quitting? { return Exit(i); }
    if i :| 0 <= i < |s.workers| && s.workers[i].Idle? && (s.jobs != [] || s.jobsClosed) {
      return if s.jobs != [] then Take(i) else Finish(i);
    }
    match s.producer
    case Reading(_) => a := Read;
    case Leaving => a := Leave;
    case Failing(_) => a := Report;
    case Offering(_) =>
      if s.jobs == [] {
        a := Offer;
      } else {
        assert s.workers[0].Exited?;
        a := GiveUp;
      }
    case Gone => a := Close;
  }

  // ----- runs -----

  ghost predicate Run(t: Task, ss: seq<State>, acts: seq<Action>) {
    && |ss| == |acts| + 1 && ss[0] == Init(t)
    && forall k :: 0 <= k < |acts| ==> Enabled(t, ss[k], acts[k]) && Apply(t, ss[k], acts[k]) == ss[k + 1]
  }

  lemma {:induction false} RunInv(t: Task, ss: seq<State>, acts: seq<Action>, k: nat)
    requires t.n >= 1 && Run(t, ss, acts) && k < |ss|
    ensures Inv(t, ss[k])
  {
    if k == 0 {
      InitInv(t);
    } else {
      RunInv(t, ss, acts, k - 1);
      StepInv(t, ss[k - 1], acts[k - 1]);
    }
  }

  lemma {:induction false} RunShort(t: Task, ss: seq<State>, acts: seq<Action>, k: nat)
    requires t.n >= 1 && Run(t, ss, acts) && k < |ss|
    ensures 0 <= Work(t, ss[k]) <= Work(t, Init(t)) - k
  {
    hide Work, Apply, Enabled, Shape, Placed, Contents, Causes, Endings, Init;
    RunInv(t, ss, acts, k);
    WorkLeft(t, ss[k]);
    if k > 0 {
      RunShort(t, ss, acts, k - 1);
      RunInv(t, ss, acts, k - 1);
      WorkShrinks(t, ss[k - 1], acts[k - 1]);
    }
  }

  /** Every run is short, and one that cannot go on, without a cancellation from
      outside, has told the reader the truth: the end of the stream after all of
      the blocks, exactly when nothing failed. */
  lemma Delivers(t: Task, ss: seq<State>, acts: seq<Action>)
    requires t.n >= 1 && Run(t, ss, acts)
    ensures |acts| <= Work(t, Init(t))
    ensures var s := ss[|acts|];
            (forall a :: Enabled(t, s, a) ==> a.Cancel?) && !s.outside ==>
              && (s.outcome.Eof? <==> Clean(t)) && (s.outcome.Failed? <==> !Clean(t))
              && (Clean(t) ==> s.emitted == Sequential(t.outs))
  {
    hide Enabled, Apply, Placed, Shape, Causes, Endings, Run;
    RunLast(t, ss, acts);
    RunShort(t, ss, acts, |acts|);
    RunInv(t, ss, acts, |acts|);
    var s := ss[|acts|];
    if (forall a :: Enabled(t, s, a) ==> a.Cancel?) && !s.outside {
      if s.outcome.Running? {
        var a := Progress(t, s);
      } else if s.outcome.Eof? {
        EofComplete(t, s);
      }
    }
  }

  lemma RunLast(t: Task, ss: seq<State>, acts: seq<Action>)
    requires Run(t, ss, acts)
    ensures |ss| == |acts| + 1
  {
  }
}
