/** Dependencies between the steps of an installation recipe, from the files each
    one reads and writes, and what running the steps in any order that respects
    them leaves behind. */
module RecipeOrder {

  type Path = string

  /** A step: the files it reads and writes, or anything at all. */
  datatype Leaf = Leaf(inputs: seq<Path>, outputs: seq<Path>, glob: bool)

  // ----- the tables after some leaves, by their meaning; leaf k has number k + 1 -----

  function LastWrite(ls: seq<Leaf>, p: Path): (id: nat)
    ensures id <= |ls|
  {
    if ls == [] then 0
    else
      var l := ls[|ls| - 1];
      if !l.glob && p in l.outputs then |ls| else LastWrite(ls[..|ls| - 1], p)
  }

  function LastUse(ls: seq<Leaf>, p: Path): (id: nat)
    ensures id <= |ls|
  {
    if ls == [] then 0
    else
      var l := ls[|ls| - 1];
      if !l.glob && p in l.outputs then 0
      else if !l.glob && p in l.inputs then |ls|
      else LastUse(ls[..|ls| - 1], p)
  }

  function Globs(ls: seq<Leaf>): set<nat> {
    set k | 0 <= k < |ls| && ls[k].glob :: k + 1
  }

  // The numbers of n leaves.
  function All(n: nat): (s: set<nat>)
    ensures forall k :: k in s <==> 1 <= k <= n
  {
    if n == 0 then {} else All(n - 1) + {n}
  }

  function WritersOf(ls: seq<Leaf>, ps: seq<Path>): set<nat> {
    set p | p in ps :: LastWrite(ls, p)
  }

  function UsersOf(ls: seq<Leaf>, ps: seq<Path>): set<nat> {
    set p | p in ps :: LastUse(ls, p)
  }

  /** What a leaf after `ls` waits for. */
  function DepSet(ls: seq<Leaf>, l: Leaf): set<nat> {
    if l.glob then All(|ls|)
    else WritersOf(ls, l.inputs) + WritersOf(ls, l.outputs) + UsersOf(ls, l.outputs) + Globs(ls) - {0}
  }

  // ----- the plan -----

  function At(m: map<Path, nat>, p: Path): nat { if p in m then m[p] else 0 }

  function Ids(s: seq<nat>): set<nat> { set d | d in s }

  lemma IdsAppend(s: seq<nat>, t: seq<nat>)
    ensures Ids(s + t) == Ids(s) + Ids(t)
  {
  }

  lemma IdsSnoc(s: seq<nat>, x: nat)
    ensures Ids(s + [x]) == Ids(s) + {x}
  {
  }

  predicate NoRepeats(s: seq<nat>) {
    0 !in s && forall i, j :: 0 <= i < j < |s| ==> s[i] != s[j]
  }

  // One more dependency, unless there is none or it is known.
  function Add(deps: seq<nat>, id: nat): (r: seq<nat>)
    requires NoRepeats(deps)
    ensures NoRepeats(r) && Ids(r) == Ids(deps) + ({id} - {0})
  {
    if id == 0 || id in deps then deps else (IdsAppend(deps, [id]); deps + [id])
  }

  lemma TablesGrow(ls: seq<Leaf>, l: Leaf)
    ensures forall p :: LastWrite(ls + [l], p) == if !l.glob && p in l.outputs then |ls| + 1 else LastWrite(ls, p)
    ensures forall p :: LastUse(ls + [l], p) == if l.glob then LastUse(ls, p) else if p in l.outputs then 0 else if p in l.inputs then |ls| + 1 else LastUse(ls, p)
    ensures Globs(ls + [l]) == Globs(ls) + (if l.glob then {|ls| + 1} else {})
    ensures All(|ls| + 1) == All(|ls|) + {|ls| + 1}
  {
    assert (ls + [l])[..|ls|] == ls;
    assert forall k :: 0 <= k < |ls| ==> (ls + [l])[k] == ls[k];
    var g := ls + [l];
    forall x | x in Globs(ls) ensures x in Globs(g) {
      assert g[x - 1].glob;
    }
    assert l.glob ==> g[|ls|].glob;
  }

  lemma GlobsIn(ls: seq<Leaf>)
    ensures Globs(ls) <= All(|ls|)
  {
  }

  lemma NoNames(ls: seq<Leaf>)
    ensures WritersOf(ls, []) == {} && UsersOf(ls, []) == {} && Ids([]) == {}
  {
  }

  // The first n paths have got the entry x, the others are as they were; 0 is no entry.
  ghost predicate Set(was: map<Path, nat>, m: map<Path, nat>, ps: seq<Path>, n: nat, x: nat)
    requires n <= |ps|
  {
    forall p :: At(m, p) == if p in ps[..n] then x else At(was, p)
  }

  lemma SetNone(m: map<Path, nat>, ps: seq<Path>, x: nat)
    ensures Set(m, m, ps, 0, x)
  {
  }

  lemma SetNext(was: map<Path, nat>, m: map<Path, nat>, m': map<Path, nat>, ps: seq<Path>, n: nat, x: nat)
    requires n < |ps| && Set(was, m, ps, n, x)
    requires m' == m[ps[n] := x] || (x == 0 && m' == m - {ps[n]})
    ensures Set(was, m', ps, n + 1, x)
  {
    assert ps[..n + 1] == ps[..n] + [ps[n]];
  }

  lemma SetAll(was: map<Path, nat>, m: map<Path, nat>, ps: seq<Path>, x: nat)
    requires Set(was, m, ps, |ps|, x)
    ensures forall p :: At(m, p) == if p in ps then x else At(was, p)
  {
    assert ps[..|ps|] == ps;
  }

  class Plan {
    var lastWrite: map<Path, nat>
    var lastUse: map<Path, nat>
    var prior: seq<nat>
    var unknown: seq<nat>
    ghost var leaves: seq<Leaf>

    /** The tables mean what they should. */
    ghost predicate Valid()
      reads this
    {
      && (forall p :: At(lastWrite, p) == LastWrite(leaves, p))
      && (forall p :: At(lastUse, p) == LastUse(leaves, p))
      && |prior| == |leaves| && Ids(prior) == All(|leaves|)
      && Ids(unknown) == Globs(leaves)
    }

    constructor ()
      ensures Valid() && leaves == []
    {
      lastWrite, lastUse, prior, unknown, leaves := map[], map[], [], [], [];
    }

    /** fileDeps */
    method FileDeps(inputs: seq<Path>, outputs: seq<Path>, glob: bool) returns (deps: seq<nat>)
      requires Valid()
      ensures Ids(deps) == DepSet(leaves, Leaf(inputs, outputs, glob)) && (!glob ==> NoRepeats(deps))
    {
      hide LastWrite, LastUse, Globs, All, Ids, WritersOf, UsersOf;
      NoNames(leaves);
      if glob {
        deps := prior + unknown;
        IdsAppend(prior, unknown);
        GlobsIn(leaves);
        return;
      }
      deps := [];
      for i := 0 to |inputs|
        invariant NoRepeats(deps) && Ids(deps) == WritersOf(leaves, inputs[..i]) - {0}
      {
        deps := Add(deps, At(lastWrite, inputs[i]));
        NamesGrow(leaves, inputs, i);
      }
      assert inputs[..|inputs|] == inputs;
      for i := 0 to |outputs|
        invariant NoRepeats(deps)
        invariant Ids(deps) == WritersOf(leaves, inputs) + WritersOf(leaves, outputs[..i]) + UsersOf(leaves, outputs[..i]) - {0}
      {
        deps := Add(deps, At(lastWrite, outputs[i]));
        deps := Add(deps, At(lastUse, outputs[i]));
        NamesGrow(leaves, outputs, i);
      }
      assert outputs[..|outputs|] == outputs;
      ghost var named := Ids(deps);
      for i := 0 to |unknown|
        invariant NoRepeats(deps) && Ids(deps) == named + (Ids(unknown[..i]) - {0})
      {
        deps := Add(deps, unknown[i]);
        IdsSnoc(unknown[..i], unknown[i]);
        assert unknown[..i + 1] == unknown[..i] + [unknown[i]];
      }
      assert unknown[..|unknown|] == unknown;
    }

    lemma NamesGrow(ls: seq<Leaf>, ps: seq<Path>, i: nat)
      requires i < |ps|
      ensures WritersOf(ls, ps[..i + 1]) == WritersOf(ls, ps[..i]) + {LastWrite(ls, ps[i])}
      ensures UsersOf(ls, ps[..i + 1]) == UsersOf(ls, ps[..i]) + {LastUse(ls, ps[i])}
    {
      hide LastWrite, LastUse;
      assert ps[..i + 1] == ps[..i] + [ps[i]];
    }

    /** recordLeaf */
    method RecordLeaf(id: nat, inputs: seq<Path>, outputs: seq<Path>, glob: bool)
      requires Valid() && id == |leaves| + 1
      modifies this
      ensures Valid() && leaves == old(leaves) + [Leaf(inputs, outputs, glob)]
    {
      hide LastWrite, LastUse, Globs, All, Set, At;
      TablesGrow(leaves, Leaf(inputs, outputs, glob));
      IdsAppend(prior, [id]);
      IdsAppend(unknown, [id]);
      prior := prior + [id];
      leaves := leaves + [Leaf(inputs, outputs, glob)];
      if glob {
        unknown := unknown + [id];
        return;
      }
      ghost var w, u := lastWrite, lastUse;
      SetNone(u, inputs, id);
      for i := 0 to |inputs|
        invariant lastWrite == w && unknown == old(unknown) && prior == old(prior) + [id] && leaves == old(leaves) + [Leaf(inputs, outputs, glob)]
        invariant Set(u, lastUse, inputs, i, id)
      {
        SetNext(u, lastUse, lastUse[inputs[i] := id], inputs, i, id);
        lastUse := lastUse[inputs[i] := id];
      }
      ghost var u1 := lastUse;
      SetNone(w, outputs, id);
      SetNone(u1, outputs, 0);
      for i := 0 to |outputs|
        invariant unknown == old(unknown) && prior == old(prior) + [id] && leaves == old(leaves) + [Leaf(inputs, outputs, glob)]
        invariant Set(w, lastWrite, outputs, i, id) && Set(u1, lastUse, outputs, i, 0)
      {
        SetNext(w, lastWrite, lastWrite[outputs[i] := id], outputs, i, id);
        SetNext(u1, lastUse, lastUse - {outputs[i]}, outputs, i, 0);
        lastWrite := lastWrite[outputs[i] := id];
        lastUse := lastUse - {outputs[i]};
      }
      SetAll(u, u1, inputs, id);
      SetAll(w, lastWrite, outputs, id);
      SetAll(u1, lastUse, outputs, 0);
    }

    /** scheduleLeaf: the leaf's dependencies, then its number in the tables. */
    method ScheduleLeaf(inputs: seq<Path>, outputs: seq<Path>, glob: bool) returns (id: nat, deps: seq<nat>)
      requires Valid()
      modifies this
      ensures Valid() && leaves == old(leaves) + [Leaf(inputs, outputs, glob)] && id == |leaves|
      ensures Ids(deps) == DepSet(old(leaves), Leaf(inputs, outputs, glob))
    {
      deps := FileDeps(inputs, outputs, glob);
      id := Next();
      RecordLeaf(id, inputs, outputs, glob);
    }

    // The number the task group gives the next task.
    method Next() returns (id: nat)
      requires Valid()
      ensures id == |leaves| + 1
    {
      id := |prior| + 1;
    }
  }
}
