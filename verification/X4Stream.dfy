/** The RC4 state that masks every second block of an x4 archive. */
module X4Stream {
  import opened Bytes

  datatype Pass = Pass(box: seq<byte>, out: seq<byte>)

  function Swapped(s: seq<byte>, i: nat, j: nat): (r: seq<byte>)
    requires i < |s| && j < |s|
    ensures |r| == |s|
  {
    s[i := s[j]][j := s[i]]
  }

  function Pick(s: seq<byte>, i: nat, j: nat): byte
    requires |s| == 256 && i < 256 && j < 256
  {
    s[(s[i] as int + s[j] as int) % 256]
  }

  /** RC4 steps i to 4 from index j. */
  function Turn(s: seq<byte>, j: byte, i: nat): (p: Pass)
    requires |s| == 256
    ensures |p.box| == 256 && |p.out| == if i <= 4 then 5 - i else 0
    decreases 5 - i
  {
    if i > 4 then Pass(s, []) else
      var j': byte := (j + s[i]) % 256;
      var u := Swapped(s, i, j');
      var rest := Turn(u, j', i + 1);
      Pass(rest.box, [Pick(u, i, j')] + rest.out)
  }

  /** Eight keystream bytes: two runs of plain RC4's first four steps. */
  function Eight(s: seq<byte>): (p: Pass)
    requires |s| == 256
    ensures |p.box| == 256 && |p.out| == 8
  {
    var first := Turn(s, 0, 1);
    var second := Turn(first.box, 0, 1);
    Pass(second.box, first.out + second.out)
  }

  predicate Shuffle(s: seq<byte>) {
    |s| == 256 && forall a, b :: 0 <= a < b < 256 ==> s[a] != s[b]
  }

  lemma SwapShuffle(s: seq<byte>, i: nat, j: nat)
    requires Shuffle(s) && i < 256 && j < 256
    ensures Shuffle(Swapped(s, i, j))
  {
  }

  lemma {:induction false} TurnShuffle(s: seq<byte>, j: byte, i: nat)
    requires Shuffle(s)
    ensures Shuffle(Turn(s, j, i).box)
    decreases 5 - i
  {
    if i <= 4 {
      var j': byte := (j + s[i]) % 256;
      SwapShuffle(s, i, j');
      TurnShuffle(Swapped(s, i, j'), j', i + 1);
    }
  }

  /** `out` and what turning (s, j, i) on would bring are what turning `was` from the start brings. */
  ghost predicate Midway(was: seq<byte>, s: seq<byte>, j: byte, i: nat, out: seq<byte>) {
    |was| == 256 && |s| == 256 && var p := Turn(s, j, i); Turn(was, 0, 1) == Pass(p.box, out + p.out)
  }

  lemma Stepped(was: seq<byte>, s: seq<byte>, j: byte, i: nat, out: seq<byte>)
    requires Midway(was, s, j, i, out) && i <= 4
    ensures var j' := (j + s[i]) % 256; var u := Swapped(s, i, j'); Midway(was, u, j', i + 1, out + [Pick(u, i, j')])
  {
    var j' := (j + s[i]) % 256;
    var u := Swapped(s, i, j');
    var rest := Turn(u, j', i + 1);
    assert out + ([Pick(u, i, j')] + rest.out) == (out + [Pick(u, i, j')]) + rest.out;
  }

  lemma Arrived(was: seq<byte>, s: seq<byte>, j: byte, out: seq<byte>)
    requires Midway(was, s, j, 5, out)
    ensures Turn(was, 0, 1) == Pass(s, out)
  {
    assert out + [] == out;
  }

  lemma Started(s: seq<byte>)
    requires |s| == 256
    ensures Midway(s, s, 0, 1, [])
  {
    assert [] + Turn(s, 0, 1).out == Turn(s, 0, 1).out;
  }

  method Keystream(state: array<byte>) returns (out: seq<byte>)
    requires state.Length == 256
    modifies state
    ensures Eight(old(state[..])) == Pass(state[..], out)
  {
    hide Turn, Pick, Midway;
    ghost var was := state[..];
    Started(was);
    var j: byte := 0;
    out := [];
    var i := 1;
    while i <= 4
      invariant 1 <= i <= 5
      invariant Midway(was, state[..], j, i, out)
    {
      Stepped(was, state[..], j, i, out);
      ghost var here := state[..];
      j := (j + state[i]) % 256;
      state[i], state[j] := state[j], state[i];
      assert state[..] == Swapped(here, i, j);
      out := out + [Pick(state[..], i, j)];
      i := i + 1;
    }
    Arrived(was, state[..], j, out);
    ghost var mid, half := state[..], out;
    ghost var tail := [];
    Started(mid);
    j := state[1];
    i := 1;
    while i <= 4
      invariant 1 <= i <= 5 && out == half + tail
      invariant i == 1 ==> j == state[1]
      invariant Midway(mid, state[..], if i == 1 then 0 else j, i, tail)
    {
      Stepped(mid, state[..], if i == 1 then 0 else j, i, tail);
      ghost var here := state[..];
      if i > 1 {
        j := (j + state[i]) % 256;
      }
      state[i], state[j] := state[j], state[i];
      assert state[..] == Swapped(here, i, j);
      tail := tail + [Pick(state[..], i, j)];
      out := out + [Pick(state[..], i, j)];
      i := i + 1;
    }
    Arrived(mid, state[..], j, tail);
  }

  /** The key bytes in the order the key setup takes the key's words. */
  function Sched(key: seq<nat>): (s: seq<byte>)
    requires |key| == 4
    ensures |s| == 16
  {
    Le(key[2], 4) + Le(key[3], 4) + Le(key[0], 4) + Le(key[1], 4)
  }

  function Identity(n: nat): (s: seq<byte>)
    requires n <= 256
    ensures |s| == n && forall k: nat :: k < n ==> s[k] == k
  {
    if n == 0 then [] else Identity(n - 1) + [n - 1]
  }

  datatype Setting = Setting(box: seq<byte>, j: byte)

  /** The box and the index after i steps of RC4's key setup. */
  function Set(sched: seq<byte>, i: nat): (r: Setting)
    requires |sched| == 16 && i <= 256
    ensures |r.box| == 256
  {
    if i == 0 then Setting(Identity(256), 0) else
      var p := Set(sched, i - 1);
      var j: byte := (p.j as int + p.box[i - 1] as int + sched[(i - 1) % 16] as int) % 256;
      Setting(Swapped(p.box, i - 1, j), j)
  }

  function KeyBox(key: seq<nat>): (s: seq<byte>)
    requires |key| == 4
    ensures |s| == 256
  {
    Set(Sched(key), 256).box
  }

  /** The key setup leaves a permutation of the bytes, for every key. */
  lemma {:induction false} SetShuffle(sched: seq<byte>, i: nat)
    requires |sched| == 16 && i <= 256
    ensures Shuffle(Set(sched, i).box)
  {
    if i > 0 {
      SetShuffle(sched, i - 1);
      SwapShuffle(Set(sched, i - 1).box, i - 1, Set(sched, i).j);
    }
  }

  lemma SetStep(sched: seq<byte>, i: nat)
    requires |sched| == 16 && i <= 256
    ensures i == 0 ==> Set(sched, i) == Setting(Identity(256), 0)
    ensures i > 0 ==>
      var p := Set(sched, i - 1);
      var j: byte := (p.j as int + p.box[i - 1] as int + sched[(i - 1) % 16] as int) % 256;
      Set(sched, i) == Setting(Swapped(p.box, i - 1, j), j)
  {
  }

  lemma SwappedIs(s: seq<byte>, r: seq<byte>, i: nat, j: nat)
    requires i < |s| && j < |s| && r == s[i := s[j]][j := s[i]]
    ensures r == Swapped(s, i, j)
  {
  }

  /** The RC4 part of the cipher's construction. */
  method Setup(key: seq<nat>) returns (s: array<byte>)
    requires |key| == 4
    ensures fresh(s) && s[..] == KeyBox(key) && Shuffle(s[..])
  {
    hide Identity, Shuffle, Set, Swapped;
    var sched := Sched(key);
    s := new byte[256];
    for i := 0 to 256
      invariant s[..i] == Identity(256)[..i]
    {
      s[i] := i;
    }
    assert s[..] == Identity(256);
    var j: byte := 0;
    SetStep(sched, 0);
    for i := 0 to 256
      invariant Set(sched, i) == Setting(s[..], j)
    {
      ghost var here := s[..];
      SetStep(sched, i + 1);
      j := (j as int + s[i] as int + sched[i % 16] as int) % 256;
      s[i], s[j] := s[j], s[i];
      SwappedIs(here, s[..], i, j);
    }
    SetShuffle(sched, 256);
  }

  datatype Params = Params(rounds: nat, rc4: bool)

  function BlockParams(pos: nat): (p: Params)
    ensures p.rounds <= 16
  {
    var cycle := pos % 34;
    if cycle <= 31 then Params((cycle + 2) / 2, (cycle + 1) % 2 == 0)
    else Params(0, cycle != 32)
  }

  /** Blocks go in pairs, of which the second uses RC4; a pair has one round more than
      the pair before it, from 1 to 16, then none, and so on again. */
  lemma BlockParamsAre(pair: nat)
    ensures BlockParams(2 * pair) == Params((pair + 1) % 17, false)
    ensures BlockParams(2 * pair + 1) == Params((pair + 1) % 17, true)
  {
    hide BlockParams;
    var q, r := pair / 17, pair % 17;
    InCycle(2 * pair, q, 2 * r);
    InCycle(2 * pair + 1, q, 2 * r + 1);
    NextPair(pair, r);
  }

  lemma InCycle(pos: nat, q: nat, c: nat)
    requires pos == 34 * q + c && c < 34
    ensures BlockParams(pos) == BlockParams(c)
    ensures BlockParams(c) == Params(if c < 32 then c / 2 + 1 else 0, c % 2 == 1)
  {
    assert pos % 34 == c;
  }

  lemma NextPair(pair: nat, r: nat)
    requires r == pair % 17
    ensures (pair + 1) % 17 == if r < 16 then r + 1 else 0
    ensures 2 * r / 2 == r == (2 * r + 1) / 2 && 2 * r % 2 == 0 && (2 * r + 1) % 2 == 1
  {
  }

  /** The RC4 state in front of block pos: the same on both sides, whatever the data. */
  function BoxAt(s: seq<byte>, pos: nat): (r: seq<byte>)
    requires |s| == 256
    ensures |r| == 256
  {
    if pos == 0 then s
    else if BlockParams(pos - 1).rc4 then Eight(BoxAt(s, pos - 1)).box
    else BoxAt(s, pos - 1)
  }

  lemma {:induction false} BoxShuffle(s: seq<byte>, pos: nat)
    requires Shuffle(s)
    ensures Shuffle(BoxAt(s, pos))
  {
    if pos > 0 {
      BoxShuffle(s, pos - 1);
      var b := BoxAt(s, pos - 1);
      TurnShuffle(b, 0, 1);
      TurnShuffle(Turn(b, 0, 1).box, 0, 1);
    }
  }
}
