/** The calls a program makes: the analysis records every call site a run can
    reach, once, with arguments that are true of every run that reaches it, and
    known in full where a run leaves nothing to chance. */
module PsCalls {
  import opened Bytes
  import opened PsMachine
  import opened PsFlow
  import opened PsRun
  import opened PsExact
  import opened PsSolve
  import opened PsSure

  /** psCall. */
  datatype Call = Call(name: string, values: seq<Val>)

  // A call as it happens: the procedure's name and the values passed.
  datatype Event = Event(name: string, args: seq<CVal>)

  predicate Watched(name: string) {
    name in {"ISExec", "ISArcExtract", "EXEC", "SHELLEXEC", "DELETEFILE", "DELTREE"}
  }

  ghost predicate AllAgree(vs: seq<Val>, cs: seq<CVal>) {
    |vs| == |cs| && forall i :: 0 <= i < |vs| ==> Agrees(vs[i], cs[i])
  }

  // What is recorded under that name agrees with the event, argument by argument;
  // when the event is sure, it is all there is to say.
  ghost predicate Matches(k: Call, e: Event, sure: bool) {
    k.name == e.name && Told(k.values, e.args, sure)
  }

  ghost predicate Told(vs: seq<Val>, cs: seq<CVal>, sure: bool) {
    if sure then vs == AllSeen(cs) else AllAgree(vs, cs)
  }

  // What the analysis has of memory.
  ghost predicate Pictures(s: AState, c: CState, sure: bool) {
    if sure then Knows(s, c) else Models(s, c)
  }

  /** A place where a call is made: the call instructions that lead to it, from
      the outermost procedure to the call itself. */
  type Site = seq<nat>

  // The order in which the sites are visited.
  predicate Before(a: Site, b: Site) {
    a != [] && b != [] && (a[0] < b[0] || (a[0] == b[0] && Before(a[1..], b[1..])))
  }

  ghost predicate InOrder(sites: seq<Site>) {
    forall i, j :: 0 <= i < j < |sites| ==> Before(sites[i], sites[j])
  }

  ghost predicate Sized(p: seq<Proc>) {
    forall f :: f in p ==> AllDecoded(f.code)
  }

  // A run of a procedure starts with one fresh variable on its stack.
  ghost predicate Starts(p: seq<Proc>, index: nat, params: seq<CVal>, run: seq<Point>)
    requires index < |p| && Sized(p)
  {
    && Run(p, p[index].code, run) && run[0].pc == 0
    && run[0].c.params == params && |run[0].c.stack| == 1 && run[0].c.stack[0].Var?
  }

  // A run up to some point; a sure one is part of a whole run that leaves nothing to chance.
  ghost predicate Comes(p: seq<Proc>, index: nat, params: seq<CVal>, run: seq<Point>, sure: bool)
    requires index < |p| && Sized(p)
  {
    if sure then run != [] && exists whole :: Whole(p, p[index].code, params, whole) && run <= whole
    else Starts(p, index, params, run)
  }

  /** A call that happens at a site in some run of a procedure, or of one it calls. */
  ghost predicate Happens(p: seq<Proc>, index: nat, params: seq<CVal>, e: Event, site: Site, sure: bool)
    requires index < |p| && Sized(p)
    decreases |site|, 1
  {
    exists run :: Comes(p, index, params, run, sure) && run != [] && HappensAt(p, p[index].code, run[|run| - 1], e, site, sure)
  }

  ghost predicate HappensAt(p: seq<Proc>, ins: seq<Ins>, at: Point, e: Event, site: Site, sure: bool)
    requires Sized(p)
    decreases |site|, 0
  {
    && at.pc < |ins| && ins[at.pc].op == 5 && ins[at.pc].arg < |p|
    && site != [] && site[0] == at.pc
    && var f := p[ins[at.pc].arg];
    if f.external then
      var g := SignatureOf(f);
      |site| == 1 && g.name == e.name && Watched(g.name) && Passed(at.c, g.result, g.n, e.args)
    else
      exists args :: PassesAll(at.c, args) && Happens(p, ins[at.pc].arg, args, e, site[1..], sure)
  }

  // A procedure of the program gets everything above the first slot.
  ghost predicate PassesAll(c: CState, args: seq<CVal>) {
    |c.stack| > 0 && Passed(c, false, |c.stack| - 1, args)
  }

  // The watched call a site names, whether or not a run reaches it.
  ghost predicate Names(p: seq<Proc>, index: nat, site: Site, name: string)
    requires index < |p|
    decreases |site|
  {
    var ins := p[index].code;
    && site != [] && site[0] < |ins| && ins[site[0]].op == 5 && ins[site[0]].arg < |p|
    && var f := p[ins[site[0]].arg];
    if f.external then |site| == 1 && name == SignatureOf(f).name && Watched(name)
    else Names(p, ins[site[0]].arg, site[1..], name)
  }

  lemma {:induction false} NamesWatched(p: seq<Proc>, index: nat, site: Site, name: string)
    requires index < |p| && Names(p, index, site, name)
    ensures Watched(name)
    decreases |site|
  {
    hide Watched;
    var f := p[p[index].code[site[0]].arg];
    if !f.external {
      NamesWatched(p, p[index].code[site[0]].arg, site[1..], name);
    }
  }

  // What the records, one for each site, say of an event: its site is among them,
  // and what is recorded there is true of it.
  ghost predicate Recorded(out: seq<Call>, sites: seq<Site>, e: Event, site: Site, sure: bool)
    requires |out| == |sites|
  {
    site in sites && forall k :: 0 <= k < |out| && sites[k] == site ==> Matches(out[k], e, sure)
  }

  // The records name the calls at their sites, and come in the order of the program.
  ghost predicate Listed(p: seq<Proc>, index: nat, out: seq<Call>, sites: seq<Site>)
    requires index < |p|
  {
    && |sites| == |out| && InOrder(sites)
    && forall k :: 0 <= k < |out| ==> Names(p, index, sites[k], out[k].name)
  }

  lemma ListedWatched(p: seq<Proc>, index: nat, out: seq<Call>, sites: seq<Site>)
    requires index < |p| && Listed(p, index, out, sites)
    ensures forall k :: 0 <= k < |out| ==> Watched(out[k].name)
  {
    hide Watched;
    forall k | 0 <= k < |out|
      ensures Watched(out[k].name)
    {
      NamesWatched(p, index, sites[k], out[k].name);
    }
  }

  /** Every call that can happen is recorded at its site, and every argument
      recorded there as known is the one passed, whatever run gets there. Of a
      sure call every argument is recorded in full. */
  ghost predicate Sees(p: seq<Proc>, index: nat, params: seq<Val>, out: seq<Call>, sites: seq<Site>, sure: bool)
    requires index < |p| && Sized(p) && |out| == |sites|
  {
    forall cs: seq<CVal>, e, site {:trigger Happens(p, index, cs, e, site, sure)} ::
      Told(params, cs, sure) && Happens(p, index, cs, e, site, sure) ==> Recorded(out, sites, e, site, sure)
  }

  // ... as far as instruction m is concerned.
  ghost predicate SiteSeen(p: seq<Proc>, ins: seq<Ins>, view: View, m: nat, out: seq<Call>, sites: seq<Site>, sure: bool)
    requires Sized(p) && m < |view| && |out| == |sites|
  {
    forall c: CState, e, site {:trigger HappensAt(p, ins, Point(m, c), e, site, sure)} ::
      view[m].Some? && Pictures(view[m].value, c, sure) && HappensAt(p, ins, Point(m, c), e, site, sure) ==> Recorded(out, sites, e, site, sure)
  }

  // All sites begin at instruction m.
  ghost predicate From(m: nat, sites: seq<Site>) {
    forall s :: s in sites ==> s != [] && s[0] == m
  }

  // ... or before it.
  ghost predicate UpTo(m: nat, sites: seq<Site>) {
    forall s :: s in sites ==> s != [] && s[0] < m
  }

  lemma RecordedMore(out: seq<Call>, sites: seq<Site>, more: seq<Call>, paths: seq<Site>, e: Event, site: Site, sure: bool)
    requires |out| == |sites| && |more| == |paths|
    requires (Recorded(out, sites, e, site, sure) && site !in paths) || (Recorded(more, paths, e, site, sure) && site !in sites)
    ensures Recorded(out + more, sites + paths, e, site, sure)
  {
    hide Matches;
    forall k | 0 <= k < |out + more| && (sites + paths)[k] == site
      ensures Matches((out + more)[k], e, sure)
    {
      assert k < |out| ==> sites[k] == site && (out + more)[k] == out[k];
      assert k >= |out| ==> paths[k - |out|] == site && (out + more)[k] == more[k - |out|];
    }
  }

  // An instruction keeps what it has when others add their records.
  lemma SiteMore(p: seq<Proc>, ins: seq<Ins>, view: View, m: nat, i: nat, out: seq<Call>, sites: seq<Site>, more: seq<Call>, paths: seq<Site>,
                 sure: bool)
    requires Sized(p) && m <= i < |view| && |out| == |sites| && |more| == |paths| && UpTo(i, sites) && From(i, paths)
    requires if m < i then SiteSeen(p, ins, view, m, out, sites, sure) else SiteSeen(p, ins, view, m, more, paths, sure)
    ensures SiteSeen(p, ins, view, m, out + more, sites + paths, sure)
  {
    hide Pictures, Recorded;
    forall c: CState, e, site | view[m].Some? && Pictures(view[m].value, c, sure) && HappensAt(p, ins, Point(m, c), e, site, sure)
      ensures Recorded(out + more, sites + paths, e, site, sure)
    {
      assert site[0] == m;
      RecordedMore(out, sites, more, paths, e, site, sure);
    }
  }

  lemma ListedMore(p: seq<Proc>, index: nat, i: nat, out: seq<Call>, sites: seq<Site>, more: seq<Call>, paths: seq<Site>)
    requires index < |p| && Listed(p, index, out, sites) && Listed(p, index, more, paths) && UpTo(i, sites) && From(i, paths)
    ensures Listed(p, index, out + more, sites + paths) && UpTo(i + 1, sites + paths)
  {
    hide Names;
    var all := sites + paths;
    forall a, b | 0 <= a < b < |all|
      ensures Before(all[a], all[b])
    {
      if a < |sites| <= b {
        assert all[a] == sites[a] && all[b] == paths[b - |sites|];
        assert sites[a] in sites && paths[b - |sites|] in paths;
      }
    }
  }

  /** The records of a procedure called at instruction i, as the caller sees them. */
  function Under(i: nat, sites: seq<Site>): (r: seq<Site>)
    ensures |r| == |sites|
  {
    seq(|sites|, k requires 0 <= k < |sites| => [i] + sites[k])
  }

  lemma UnderListed(p: seq<Proc>, index: nat, i: nat, out: seq<Call>, sites: seq<Site>)
    requires index < |p| && i < |p[index].code|
    requires p[index].code[i].op == 5 && p[index].code[i].arg < |p| && !p[p[index].code[i].arg].external
    requires Listed(p, p[index].code[i].arg, out, sites)
    ensures Listed(p, index, out, Under(i, sites)) && From(i, Under(i, sites))
  {
    var r := Under(i, sites);
    forall k | 0 <= k < |r|
      ensures r[k][1..] == sites[k] && Names(p, index, r[k], out[k].name)
    {
      assert r[k][1..] == sites[k];
    }
    forall a, b | 0 <= a < b < |r|
      ensures Before(r[a], r[b])
    {
      assert Before(sites[a], sites[b]);
    }
  }

  lemma UnderRecorded(i: nat, out: seq<Call>, sites: seq<Site>, e: Event, site: Site, sure: bool)
    requires |out| == |sites| && site != [] && site[0] == i && Recorded(out, sites, e, site[1..], sure)
    ensures Recorded(out, Under(i, sites), e, site, sure)
  {
    hide Matches;
    var k :| 0 <= k < |sites| && sites[k] == site[1..];
    assert Under(i, sites)[k] == [i] + site[1..] == site;
    forall j | 0 <= j < |out| && Under(i, sites)[j] == site
      ensures Matches(out[j], e, sure)
    {
      assert sites[j] == ([i] + sites[j])[1..] == site[1..];
    }
  }

  lemma ArgumentsTold(s: AState, c: CState, result: bool, n: nat, args: seq<CVal>, sure: bool)
    requires Pictures(s, c, sure) && Passed(c, result, n, args)
    ensures |args| == n && Told(Arguments(s, result, n), args, sure)
  {
    hide Models, Knows, Arguments;
    PassedSize(c, result, n, args);
    if sure {
      ArgumentsKnow(s, c, result, n, args);
    } else {
      ArgumentsSound(s, c, result, n, args);
    }
  }

  // A call into an external procedure is recorded with the arguments the analysis has.
  lemma ExternalSeen(p: seq<Proc>, ins: seq<Ins>, view: View, m: nat, out: seq<Call>, sites: seq<Site>, sure: bool)
    requires Sized(p) && m < |view| && m < |ins| && view[m].Some? && ins[m].op == 5 && ins[m].arg < |p| && p[ins[m].arg].external
    requires |out| == |sites|
    requires var g := SignatureOf(p[ins[m].arg]);
             Watched(g.name) ==> out == [Call(g.name, Arguments(view[m].value, g.result, g.n))] && sites == [[m]]
    ensures SiteSeen(p, ins, view, m, out, sites, sure)
  {
    hide Pictures, Told, Passed, Arguments, SignatureOf;
    var g := SignatureOf(p[ins[m].arg]);
    forall c: CState, e, site | Pictures(view[m].value, c, sure) && HappensAt(p, ins, Point(m, c), e, site, sure)
      ensures Recorded(out, sites, e, site, sure)
    {
      ArgumentsTold(view[m].value, c, g.result, g.n, e.args, sure);
      assert site == [m] == sites[0];
      assert Matches(out[0], e, sure);
    }
  }

  lemma InternalSeen(p: seq<Proc>, ins: seq<Ins>, view: View, m: nat, out: seq<Call>, sites: seq<Site>, sure: bool)
    requires Sized(p) && m < |view| && m < |ins| && view[m].Some? && ins[m].op == 5 && ins[m].arg < |p| && !p[ins[m].arg].external
    requires |out| == |sites|
    requires |view[m].value.stack| > 0 ==> Sees(p, ins[m].arg, Arguments(view[m].value, false, |view[m].value.stack| - 1), out, sites, sure)
    ensures SiteSeen(p, ins, view, m, out, Under(m, sites), sure)
  {
    hide Pictures, Told, Passed, Arguments, Happens, Recorded, Under;
    var s := view[m].value;
    forall c: CState, e, site | Pictures(s, c, sure) && HappensAt(p, ins, Point(m, c), e, site, sure)
      ensures Recorded(out, Under(m, sites), e, site, sure)
    {
      PictureHeight(s, c, sure);
      Underneath(p, ins, Point(m, c), e, site, sure);
      var args :| PassesAll(c, args) && Happens(p, ins[m].arg, args, e, site[1..], sure);
      ArgumentsTold(s, c, false, |s.stack| - 1, args, sure);
      UnderRecorded(m, out, sites, e, site, sure);
    }
  }

  lemma PictureHeight(s: AState, c: CState, sure: bool)
    requires Pictures(s, c, sure)
    ensures |s.stack| == |c.stack|
  {
    hide Models, Knows;
    if sure {
      HeightKnows(s, c);
    } else {
      Height(s, c);
    }
  }

  lemma Underneath(p: seq<Proc>, ins: seq<Ins>, at: Point, e: Event, site: Site, sure: bool)
    requires Sized(p) && HappensAt(p, ins, at, e, site, sure) && !p[ins[at.pc].arg].external
    ensures |at.c.stack| > 0
  {
  }

  lemma PassedSize(c: CState, result: bool, n: nat, args: seq<CVal>)
    requires Passed(c, result, n, args)
    ensures |args| == n
  {
  }

  /** What is true of all points is true of all runs. */
  lemma RunsSeen(p: seq<Proc>, index: nat, params: seq<Val>, view: View, lay: seq<Option<Refs>>, out: seq<Call>, sites: seq<Site>)
    requires |out| == |sites| && index < |p| && Sized(p) && FixedPoint(p, p[index].code, params, view) && Laid(p[index].code, lay) && Fits(lay, view)
    requires forall m :: 0 <= m < |view| ==> SiteSeen(p, p[index].code, view, m, out, sites, false)
    ensures Sees(p, index, params, out, sites, false)
  {
    hide FixedPoint, Laid, Fits, HappensAt, Recorded, Models;
    var ins := p[index].code;
    ViewSize(p, ins, params, view);
    forall cs: seq<CVal>, e, site | Told(params, cs, false) && Happens(p, index, cs, e, site, false)
      ensures Recorded(out, sites, e, site, false)
    {
      var run: seq<Point> :| Comes(p, index, cs, run, false) && run != [] && HappensAt(p, ins, run[|run| - 1], e, site, false);
      StartModels(params, run[0].c);
      RunCovered(p, ins, params, view, lay, run);
      var b := run[|run| - 1];
      EventPc(p, ins, b, e, site, false);
      assert b == Point(b.pc, b.c);
      assert SiteSeen(p, ins, view, b.pc, out, sites, false);
    }
  }

  /** Of whole runs, the states of the worklist are all there is to say. */
  lemma WholeSeen(p: seq<Proc>, index: nat, params: seq<Val>, view: View, line: seq<Node>, out: seq<Call>, sites: seq<Site>)
    requires |out| == |sites| && index < |p| && Sized(p) && |view| == |p[index].code|
    requires (exists l :: Line(p, p[index].code, params, l)) ==> Line(p, p[index].code, params, line)
    requires Line(p, p[index].code, params, line) ==> Holding(line, |line|, view)
    requires forall m :: 0 <= m < |view| ==> SiteSeen(p, p[index].code, view, m, out, sites, true)
    ensures Sees(p, index, params, out, sites, true)
  {
    hide HappensAt, Recorded, Knows, Line, Holding, Whole;
    var ins := p[index].code;
    forall cs: seq<CVal>, e, site | Told(params, cs, true) && Happens(p, index, cs, e, site, true)
      ensures Recorded(out, sites, e, site, true)
    {
      var run: seq<Point> :| Comes(p, index, cs, run, true) && run != [] && HappensAt(p, ins, run[|run| - 1], e, site, true);
      var whole: seq<Point> :| Whole(p, ins, cs, whole) && run <= whole;
      var b := whole[|run| - 1];
      PointKnown(p, ins, params, cs, whole, line, view, |run| - 1);
      assert b == Point(b.pc, b.c);
      assert SiteSeen(p, ins, view, b.pc, out, sites, true);
    }
  }

  // Each point of a whole run is known in full.
  lemma PointKnown(p: seq<Proc>, ins: seq<Ins>, params: seq<Val>, cs: seq<CVal>, whole: seq<Point>, line: seq<Node>, view: View, k: nat)
    requires AllDecoded(ins) && Whole(p, ins, cs, whole) && params == AllSeen(cs) && k < |whole| && |view| == |ins|
    requires (exists l :: Line(p, ins, params, l)) ==> Line(p, ins, params, line)
    requires Line(p, ins, params, line) ==> Holding(line, |line|, view)
    ensures whole[k].pc < |ins| && view[whole[k].pc].Some? && Knows(view[whole[k].pc].value, whole[k].c)
  {
    hide Knows, Line, AllDecoded, OneWay, Leaving, After;
    var own := RunIsLine(p, ins, cs, whole);
    OneLine(p, ins, params, own, line, k);
  }

  lemma EventPc(p: seq<Proc>, ins: seq<Ins>, at: Point, e: Event, site: Site, sure: bool)
    requires Sized(p) && HappensAt(p, ins, at, e, site, sure)
    ensures at.pc < |ins|
  {
  }

  lemma ViewSize(p: seq<Proc>, ins: seq<Ins>, params: seq<Val>, view: View)
    requires AllDecoded(ins) && FixedPoint(p, ins, params, view)
    ensures |view| == |ins|
  {
  }

  lemma StartModels(params: seq<Val>, c: CState)
    requires AllAgree(params, c.params) && |c.stack| == 1 && c.stack[0].Var?
    ensures Models(Init(params), c)
  {
    assert CRefs(c.stack) == [None] == RefsOf(Init(params).stack);
  }

  // Each call instruction that is reached names a procedure.
  lemma SiteValid(p: seq<Proc>, ins: seq<Ins>, params: seq<Val>, view: View, m: nat)
    requires AllDecoded(ins) && FixedPoint(p, ins, params, view) && m < |view| && view[m].Some?
    ensures m < |ins| && (ins[m].op == 5 ==> ins[m].arg < |p|)
  {
    assert Settled(p, ins, view, m);
  }

  ghost predicate AllLaid(p: seq<Proc>, lays: seq<seq<Option<Refs>>>)
    requires Sized(p)
  {
    |lays| == |p| && forall k :: 0 <= k < |p| ==> Laid(p[k].code, lays[k])
  }

  /** A run of the procedure, and of all it calls, that leaves nothing to chance and
      nests no deeper than the analysis goes. */
  ghost predicate Certain(p: seq<Proc>, index: nat, params: seq<CVal>, depth: nat)
    requires index < |p| && Sized(p)
    decreases if depth <= 32 then 33 - depth else 0
  {
    depth <= 32 && (p[index].code == [] ||
                    exists run :: Whole(p, p[index].code, params, run) &&
                                  forall k :: 0 <= k < |run| ==> CertainAt(p, p[index].code, run[k], depth))
  }

  ghost predicate CertainAt(p: seq<Proc>, ins: seq<Ins>, at: Point, depth: nat)
    requires Sized(p) && depth <= 32
    decreases 33 - depth, 0
  {
    at.pc < |ins| && ins[at.pc].op == 5 && ins[at.pc].arg < |p| && !p[ins[at.pc].arg].external ==>
      exists args :: PassesAll(at.c, args) && Certain(p, ins[at.pc].arg, args, depth + 1)
  }

  // Some run with these parameters is certain.
  ghost predicate Assured(p: seq<Proc>, index: nat, params: seq<Val>, depth: nat)
    requires index < |p| && Sized(p)
  {
    exists cs :: AllSeen(cs) == params && Certain(p, index, cs, depth)
  }

  // ... from a call on that is reached in state s.
  ghost predicate AssuredAt(p: seq<Proc>, ins: seq<Ins>, i: nat, s: AState, depth: nat)
    requires Sized(p) && depth <= 32
  {
    exists c: CState :: Knows(s, c) && CertainAt(p, ins, Point(i, c), depth)
  }

  lemma AssuredLine(p: seq<Proc>, index: nat, params: seq<Val>, depth: nat)
    requires index < |p| && Sized(p) && Assured(p, index, params, depth) && p[index].code != []
    ensures depth <= 32 && exists l :: Line(p, p[index].code, params, l)
  {
    hide Line, Whole, Follows;
    var cs :| AllSeen(cs) == params && Certain(p, index, cs, depth);
    var run: seq<Point> :| Whole(p, p[index].code, cs, run);
    var l := RunIsLine(p, p[index].code, cs, run);
  }

  lemma AssuredPoint(p: seq<Proc>, index: nat, params: seq<Val>, depth: nat, line: seq<Node>, view: View, i: nat)
    requires index < |p| && Sized(p) && Assured(p, index, params, depth) && i < |view| == |p[index].code| && view[i].Some? && depth <= 32
    requires Line(p, p[index].code, params, line) && Holding(line, |line|, view)
    ensures AssuredAt(p, p[index].code, i, view[i].value, depth)
  {
    hide Line, Whole, Knows, CertainAt;
    var cs :| AllSeen(cs) == params && Certain(p, index, cs, depth);
    var run: seq<Point> :| Whole(p, p[index].code, cs, run) && forall k :: 0 <= k < |run| ==> CertainAt(p, p[index].code, run[k], depth);
    var k :| 0 <= k < |line| && line[k].i == i;
    var own := RunIsLine(p, p[index].code, cs, run);
    OneLine(p, p[index].code, params, line, own, k);
    assert run[k] == Point(i, run[k].c);
  }

  // What is passed on is certain too.
  lemma AssuredBelow(p: seq<Proc>, ins: seq<Ins>, i: nat, s: AState, depth: nat)
    requires Sized(p) && depth <= 32 && i < |ins| && ins[i].op == 5 && ins[i].arg < |p| && !p[ins[i].arg].external && AssuredAt(p, ins, i, s, depth)
    ensures |s.stack| > 0 && Assured(p, ins[i].arg, Arguments(s, false, |s.stack| - 1), depth + 1)
  {
    hide Knows, Certain, Arguments;
    var c: CState :| Knows(s, c) && CertainAt(p, ins, Point(i, c), depth);
    var args :| PassesAll(c, args) && Certain(p, ins[i].arg, args, depth + 1);
    HeightKnows(s, c);
    ArgumentsKnow(s, c, false, |s.stack| - 1, args);
  }

  /** psProgram.calls. The records are in the order of their sites, one for each
      site. Whatever the layouts `lays` are, if they fit the program, every call
      that happens is recorded at its site with true arguments. What happens in a
      run that leaves nothing to chance is recorded in full, and when there is
      such a run the analysis does not fail. */
  method Calls(p: seq<Proc>, index: nat, params: seq<Val>, depth: nat, ghost lays: seq<seq<Option<Refs>>>)
    returns (r: Result<seq<Call>>, ghost sites: seq<Site>)
    requires Sized(p) && index < |p|
    ensures depth > 32 ==> r == Err(Recursive)
    ensures r.Ok? ==> forall k :: 0 <= k < |r.value| ==> Watched(r.value[k].name)
    ensures r.Ok? ==> Listed(p, index, r.value, sites)
    ensures r.Ok? && AllLaid(p, lays) ==> Sees(p, index, params, r.value, sites, false)
    ensures r.Ok? ==> Sees(p, index, params, r.value, sites, true)
    ensures Assured(p, index, params, depth) ==> r.Ok?
    decreases if depth <= 32 then 33 - depth else 0
  {
    hide FixedPoint, Laid, Fits, Least, Line, Holding, Sees, SiteSeen, Listed, From, UpTo, Get, IndexOf, Watched, RefsOf, AllLaid, Under, Certain, CertainAt, Assured, AssuredAt;
    sites := [];
    if depth > 32 {
      TooDeep(p, index, params, depth);
      return Err(Recursive), [];
    }
    var ins := p[index].code;
    NothingListed(p, index);
    if |ins| == 0 {
      NothingHappens(p, index, params, false);
      NothingHappens(p, index, params, true);
      return Ok([]), [];
    }
    ghost var laid, assured := AllLaid(p, lays), Assured(p, index, params, depth);
    ghost var lay := LayoutOf(p, lays, index);
    ghost var line := LineOf(p, ins, params);
    if assured {
      AssuredLine(p, index, params, depth);
    }
    var err, states;
    ghost var view;
    err, states, view := Solve(p, ins, params, lay, line);
    if err.Some? {
      return Err(err.value), [];
    }
    ViewSize(p, ins, params, view);
    var out: seq<Call> := [];
    for i := 0 to |ins|
      invariant Linked(states, view) && |out| == |sites| && Listed(p, index, out, sites) && UpTo(i, sites)
      invariant laid ==> forall m :: 0 <= m < i ==> SiteSeen(p, ins, view, m, out, sites, false)
      invariant forall m :: 0 <= m < i ==> SiteSeen(p, ins, view, m, out, sites, true)
    {
      var x := ins[i];
      ghost var out0, sites0 := out, sites;
      var more;
      ghost var paths;
      if x.op == 5 && states[i] != null {
        SiteValid(p, ins, params, view, i);
        if assured {
          AssuredPoint(p, index, params, depth, line, view, i);
        }
        var err;
        err, more, paths := CallsAt(p, index, i, states[i], depth, lays, params, view);
        if err.Some? {
          return Err(err.value), [];
        }
      } else {
        more, paths := [], [];
        NothingListed(p, index);
        NoCall(p, ins, view, i, false);
        NoCall(p, ins, view, i, true);
      }
      out, sites := out + more, sites + paths;
      ListedMore(p, index, i, out0, sites0, more, paths);
      ListedSize(p, index, out, sites);
      AllMore(p, ins, view, i, out0, sites0, more, paths, true);
      if laid {
        AllMore(p, ins, view, i, out0, sites0, more, paths, false);
      }
    }
    WholeSeen(p, index, params, view, line, out, sites);
    if laid {
      RunsSeen(p, index, params, view, lay, out, sites);
    }
    ListedWatched(p, index, out, sites);
    r := Ok(out);
  }

  lemma AllMore(p: seq<Proc>, ins: seq<Ins>, view: View, i: nat, out: seq<Call>, sites: seq<Site>, more: seq<Call>, paths: seq<Site>, sure: bool)
    requires Sized(p) && i < |view| && |out| == |sites| && |more| == |paths| && UpTo(i, sites) && From(i, paths)
    requires forall m :: 0 <= m < i ==> SiteSeen(p, ins, view, m, out, sites, sure)
    requires SiteSeen(p, ins, view, i, more, paths, sure)
    ensures forall m :: 0 <= m <= i ==> SiteSeen(p, ins, view, m, out + more, sites + paths, sure)
  {
    hide SiteSeen, UpTo, From;
    forall m | 0 <= m <= i
      ensures SiteSeen(p, ins, view, m, out + more, sites + paths, sure)
    {
      SiteMore(p, ins, view, m, i, out, sites, more, paths, sure);
    }
  }

  lemma TooDeep(p: seq<Proc>, index: nat, params: seq<Val>, depth: nat)
    requires index < |p| && Sized(p) && depth > 32
    ensures !Assured(p, index, params, depth)
  {
  }

  // The line of the code, if it goes one way.
  ghost function LineOf(p: seq<Proc>, ins: seq<Ins>, params: seq<Val>): (line: seq<Node>)
    requires AllDecoded(ins)
    ensures (exists l :: Line(p, ins, params, l)) ==> Line(p, ins, params, line)
  {
    if l :| Line(p, ins, params, l) then l else []
  }

  // The records of one call instruction that was reached.
  method CallsAt(p: seq<Proc>, index: nat, i: nat, s: State, depth: nat, ghost lays: seq<seq<Option<Refs>>>, ghost params: seq<Val>, ghost view: View)
    returns (err: Option<Error>, out: seq<Call>, ghost sites: seq<Site>)
    requires Sized(p) && index < |p| && i < |p[index].code| && depth <= 32
    requires p[index].code[i].op == 5 && p[index].code[i].arg < |p|
    requires i < |view| && view[i] == Some(s.Abs())
    ensures err.None? ==> |out| == |sites| && Listed(p, index, out, sites) && From(i, sites)
    ensures err.None? && AllLaid(p, lays) ==> SiteSeen(p, p[index].code, view, i, out, sites, false)
    ensures err.None? ==> SiteSeen(p, p[index].code, view, i, out, sites, true)
    ensures AssuredAt(p, p[index].code, i, s.Abs(), depth) ==> err.None?
    decreases 33 - depth, 0
  {
    hide Sees, SiteSeen, Get, IndexOf, Watched, AllLaid, Arguments, Assured, AssuredAt;
    var x := p[index].code[i];
    var f := p[x.arg];
    if !f.external {
      var args := [];
      if |s.stack| > 0 {
        args := ArgumentsOf(s, false, |s.stack| - 1);
      }
      if AssuredAt(p, p[index].code, i, s.Abs(), depth) {
        AssuredBelow(p, p[index].code, i, s.Abs(), depth);
      }
      var nested;
      ghost var inner;
      nested, inner := Calls(p, x.arg, args, depth + 1, lays);
      if nested.Err? {
        return Some(nested.error), [], [];
      }
      out, sites := nested.value, Under(i, inner);
      UnderListed(p, index, i, out, inner);
      InternalSeen(p, p[index].code, view, i, out, inner, true);
      if AllLaid(p, lays) {
        InternalSeen(p, p[index].code, view, i, out, inner, false);
      }
    } else {
      var g := SignatureOf(f);
      out, sites := [], [];
      if Watched(g.name) {
        var args := ArgumentsOf(s, g.result, g.n);
        out, sites := [Call(g.name, args)], [[i]];
      }
      ExternalSeen(p, p[index].code, view, i, out, sites, false);
      ExternalSeen(p, p[index].code, view, i, out, sites, true);
    }
    err := None;
  }

  ghost function LayoutOf(p: seq<Proc>, lays: seq<seq<Option<Refs>>>, index: nat): (lay: seq<Option<Refs>>)
    requires Sized(p) && index < |p|
    ensures AllLaid(p, lays) ==> Laid(p[index].code, lay)
  {
    if AllLaid(p, lays) then lays[index] else []
  }

  lemma NothingHappens(p: seq<Proc>, index: nat, params: seq<Val>, sure: bool)
    requires Sized(p) && index < |p| && p[index].code == []
    ensures Sees(p, index, params, [], [], sure)
  {
    hide HappensAt;
    forall cs: seq<CVal>, e, site | Happens(p, index, cs, e, site, sure)
      ensures false
    {
      var run: seq<Point> :| Comes(p, index, cs, run, sure) && run != [] && HappensAt(p, p[index].code, run[|run| - 1], e, site, sure);
      EventPc(p, p[index].code, run[|run| - 1], e, site, sure);
    }
  }

  lemma NothingListed(p: seq<Proc>, index: nat)
    requires index < |p|
    ensures Listed(p, index, [], []) && forall i: nat :: UpTo(i, []) && From(i, [])
  {
  }

  lemma ListedSize(p: seq<Proc>, index: nat, out: seq<Call>, sites: seq<Site>)
    requires index < |p| && Listed(p, index, out, sites)
    ensures |out| == |sites|
  {
  }

  lemma NoCall(p: seq<Proc>, ins: seq<Ins>, view: View, m: nat, sure: bool)
    requires Sized(p) && m < |view| && (m < |ins| ==> ins[m].op != 5 || view[m].None?)
    ensures SiteSeen(p, ins, view, m, [], [], sure)
  {
  }
}
