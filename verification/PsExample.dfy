/** A script that builds a path from two constants and deletes it. */
module PsExample {
  import opened Bytes
  import opened PsMachine
  import opened PsFlow
  import opened PsRun
  import opened PsExact
  import opened PsSolve
  import opened PsSure
  import opened PsCalls

  const NAME := "DELETEFILE"
  const DIR := "{app}"
  const FILE := "\\x.bin"

  // One parameter, no result.
  const DELETE := Proc(NAME, [NUL, 'a'], true, [])

  // Push the directory, append the file, call, return.
  const PUSH := Ins(0, 5, 2, 0, 0, [Operand(1, 0, Str(DIR))])
  const APPEND := Ins(5, 10, 1, 0, 0, [Operand(0, STACK + 1, Unknown), Operand(1, 0, Str(FILE))])
  const CALL := Ins(10, 15, 5, 0, 1, [])
  const RETURN := Ins(15, 16, 9, 0, 0, [])

  const CODE := [PUSH, APPEND, CALL, RETURN]
  const PROGRAM := [Proc("MAIN", "", false, CODE), DELETE]

  function Memory(more: seq<CSlot>): CState {
    CState([Var(Other(0))] + more, map[], [], Other(0))
  }

  const RUN := [Point(0, Memory([])), Point(1, Memory([Var(CStr(DIR))])),
                Point(2, Memory([Var(CStr(DIR + FILE))])), Point(3, Memory([Var(CStr(DIR + FILE))]))]

  lemma ProgramSized()
    ensures |PROGRAM| == 2 && Sized(PROGRAM) && SignatureOf(DELETE) == Signature(NAME, false, 1)
  {
    assert forall x :: x in CODE ==> Decoded(x);
  }

  lemma Pushes()
    ensures AllDecoded(CODE) && StepSure(PROGRAM, CODE, RUN[0], RUN[1])
  {
    ProgramSized();
    var c := RUN[0].c;
    assert Yields(PUSH, c, CStr(DIR));
    assert c.stack + [Var(CStr(DIR))] == RUN[1].c.stack;
  }

  lemma TopCell(v: CVal)
    ensures Resolve(CRefs(Memory([Var(v)]).stack), STACK + 1, CHAIN) == Cell(1)
  {
    assert CRefs(Memory([Var(v)]).stack) == [None, None];
  }

  lemma Appends()
    ensures AllDecoded(CODE) && StepSure(PROGRAM, CODE, RUN[1], RUN[2])
  {
    ProgramSized();
    var c, v := RUN[1].c, CStr(DIR + FILE);
    TopCell(CStr(DIR));
    CalcExact(0, CStr(DIR), CStr(FILE), v);
    assert HoldsSure(c, APPEND.operands[0], CStr(DIR)) && HoldsSure(c, APPEND.operands[1], CStr(FILE));
    assert Yields(APPEND, c, v);
    assert c.stack[1 := Var(v)] == RUN[2].c.stack;
    assert Leaves(APPEND, c, v, RUN[2].c);
  }

  lemma Deletes()
    ensures AllDecoded(CODE) && StepSure(PROGRAM, CODE, RUN[2], RUN[3]) && Passed(RUN[2].c, false, 1, [CStr(DIR + FILE)])
  {
    ProgramSized();
    TopCell(CStr(DIR + FILE));
  }

  lemma RunsThrough()
    ensures AllDecoded(CODE) && Whole(PROGRAM, CODE, [], RUN) && Sized(PROGRAM)
  {
    hide StepSure, Sized;
    ProgramSized();
    Pushes();
    Appends();
    Deletes();
    assert After(PROGRAM, CODE, RUN, 1) && After(PROGRAM, CODE, RUN, 2) && After(PROGRAM, CODE, RUN, 3);
  }

  /** The analysis ends, and records the deletion with the whole path. */
  method RecordsPath() returns (r: Result<seq<Call>>)
    ensures r.Ok? && Call(NAME, [Str(DIR + FILE)]) in r.value
  {
    hide PROGRAM, EVENT, Sees, Listed, Assured, Sized, Happens;
    ProgramSized();
    RunCertain();
    PathHappens();
    ghost var sites;
    r, sites := Calls(PROGRAM, 0, [], 0, []);
    ListedSize(PROGRAM, 0, r.value, sites);
    PathRecorded(r.value, sites);
  }

  lemma RunCertain()
    ensures Sized(PROGRAM) && Assured(PROGRAM, 0, [], 0)
  {
    hide Whole;
    RunsThrough();
    assert AllSeen([]) == [];
    assert forall k :: 0 <= k < |RUN| ==> CertainAt(PROGRAM, CODE, RUN[k], 0);
    assert Certain(PROGRAM, 0, [], 0);
  }

  const EVENT := Event(NAME, [CStr(DIR + FILE)])

  lemma CallIs()
    requires Sized(PROGRAM)
    ensures HappensAt(PROGRAM, CODE, RUN[2], EVENT, [2], true)
  {
    ProgramSized();
    Deletes();
    assert CODE[2] == CALL && PROGRAM[1] == DELETE;
    assert Watched(NAME);
  }

  lemma PartComes(p: seq<Proc>, index: nat, cs: seq<CVal>, run: seq<Point>, whole: seq<Point>)
    requires index < |p| && Sized(p) && Whole(p, p[index].code, cs, whole) && run != [] && run <= whole
    ensures Comes(p, index, cs, run, true)
  {
    hide Whole;
  }

  lemma EventHappens(p: seq<Proc>, index: nat, cs: seq<CVal>, run: seq<Point>, e: Event, site: Site)
    requires index < |p| && Sized(p) && Comes(p, index, cs, run, true) && run != []
    requires HappensAt(p, p[index].code, run[|run| - 1], e, site, true)
    ensures Happens(p, index, cs, e, site, true)
  {
    hide Comes, HappensAt;
  }

  lemma PathHappens()
    ensures |PROGRAM| == 2 && Sized(PROGRAM) && Happens(PROGRAM, 0, [], EVENT, [2], true)
  {
    hide Whole, Comes, HappensAt;
    RunsThrough();
    ProgramSized();
    CallIs();
    var run := RUN[..3];
    assert run <= RUN && run[|run| - 1] == RUN[2] && PROGRAM[0].code == CODE;
    PartComes(PROGRAM, 0, [], run, RUN);
    EventHappens(PROGRAM, 0, [], run, EVENT, [2]);
  }

  lemma PathRecorded(out: seq<Call>, sites: seq<Site>)
    requires |PROGRAM| == 2 && Sized(PROGRAM) && |out| == |sites| && Sees(PROGRAM, 0, [], out, sites, true) && Happens(PROGRAM, 0, [], EVENT, [2], true)
    ensures Call(NAME, [Str(DIR + FILE)]) in out
  {
    hide Happens, Sized, PROGRAM;
    assert Told([], [], true);
    assert Recorded(out, sites, EVENT, [2], true);
    var k :| 0 <= k < |sites| && sites[k] == [2];
    assert Matches(out[k], EVENT, true);
    assert AllSeen(EVENT.args) == [Str(DIR + FILE)];
    assert out[k] == Call(NAME, [Str(DIR + FILE)]);
  }
}
