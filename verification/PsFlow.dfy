/** What one instruction does to an abstract state, and where control goes. */
module PsFlow {
  import opened Bytes
  import opened PsMachine

  datatype Error = Underflow | InvalidCall | ExcessiveStack | BadTarget | Inconsistent | NotConverged | Recursive

  datatype Result<+T> = Ok(value: T) | Err(error: Error)

  const MAX_STACK: nat := 65536
  const MAX_TEXT: nat := 0x10_0000

  // ----- what the decoder of instructions guarantees -----

  function Operands(op: nat): nat {
    match op
    case 0 => 2 case 1 => 2 case 14 => 2 case 22 => 2
    case 12 => 3
    case 2 => 1 case 3 => 1 case 13 => 1 case 15 => 1 case 16 => 1 case 17 => 1
    case 21 => 1 case 23 => 1 case 24 => 1 case 7 => 1 case 8 => 1
    case _ => 0
  }

  predicate Decoded(x: Ins) {
    && |x.operands| == Operands(x.op) && x.arg < U32
    && forall o :: o in x.operands ==> o.address < U32 && (o.tag != 0 ==> o.address == 0)
  }

  // ----- declarations -----

  function IndexOf(d: string, c: char, from: nat): (r: nat)
    requires from <= |d|
    ensures from <= r <= |d| && (r < |d| ==> d[r] == c)
    decreases |d| - from
  {
    if from == |d| || d[from] == c then from else IndexOf(d, c, from + 1)
  }

  datatype Signature = Signature(name: string, result: bool, n: nat)

  const NUL: char := 0 as char

  // The parameters of a declaration: whether there is a result, then one character each.
  function Counted(name: string, d: string): Signature {
    if d == "" then Signature(name, false, 0) else Signature(name, d[0] != NUL, |d| - 1)
  }

  function SignatureOf(f: Proc): Signature {
    if !f.external then Signature(f.name, false, 0)
    else if "dll:" <= f.decl then
      var i := IndexOf(f.decl, NUL, 0);
      if i == |f.decl| then Signature(f.name, false, 0)
      else
        var j := IndexOf(f.decl, NUL, i + 1);
        if j == |f.decl| || |f.decl| - (j + 1) < 4 then Signature(f.name, false, 0)
        else Counted(f.decl[i + 1..j], f.decl[j + 4..])
    else if "class:" <= f.decl then Signature(f.name, false, 0)
    else Counted(f.name, f.decl)
  }

  // What an import of a library function is declared with: the library, the function,
  // three bytes of options, then the result and the parameters, one byte each.
  function Imported(lib: string, name: string, options: string, params: string): string {
    "dll:" + lib + [NUL] + name + [NUL] + options + params
  }

  lemma {:induction false} IndexFirst(a: string, c: char, b: string, from: nat)
    requires from <= |a| && c !in a
    ensures IndexOf(a + [c] + b, c, from) == |a|
    decreases |a| - from
  {
    var d := a + [c] + b;
    if from < |a| {
      assert d[from] == a[from];
      IndexFirst(a, c, b, from + 1);
    } else {
      assert d[|a|] == c;
    }
  }

  /** The signature is the one declared: the name within the library, a result when
      the first byte says so, and one parameter for each byte that follows. */
  lemma ImportedBack(f: Proc, lib: string, name: string, options: string, params: string)
    requires f.external && NUL !in lib && NUL !in name && |options| == 3 && params != ""
    requires f.decl == Imported(lib, name, options, params)
    ensures SignatureOf(f) == Signature(name, params[0] != NUL, |params| - 1)
  {
    hide IndexOf, SignatureOf;
    var head, rest := "dll:" + lib, options + params;
    var i, j := |head|, |head| + 1 + |name|;
    Grouped(head, name, options, params);
    ThreeParts(head, name, rest);
    SignatureIs(f, i, j);
  }

  lemma Grouped(head: string, name: string, options: string, params: string)
    requires |options| == 3
    ensures var d, j := head + [NUL] + name + [NUL] + options + params, |head| + 1 + |name|;
            d == head + [NUL] + (name + [NUL] + (options + params)) && d[j + 4..] == params && d[..|head|] == head
  {
  }

  lemma SignatureIs(f: Proc, i: nat, j: nat)
    requires f.external && "dll:" <= f.decl && i == IndexOf(f.decl, NUL, 0) < |f.decl| && j == IndexOf(f.decl, NUL, i + 1) && j + 4 < |f.decl|
    ensures SignatureOf(f) == Signature(f.decl[i + 1..j], f.decl[j + 4] != NUL, |f.decl| - (j + 5))
  {
    hide IndexOf;
  }

  lemma ThreeParts(head: string, name: string, rest: string)
    requires NUL !in head && NUL !in name
    ensures var d, i, j := head + [NUL] + (name + [NUL] + rest), |head|, |head| + 1 + |name|;
            IndexOf(d, NUL, 0) == i && IndexOf(d, NUL, i + 1) == j < |d| && d[i + 1..j] == name && d[j + 1..] == rest
  {
    hide IndexOf;
    var d, i := head + [NUL] + (name + [NUL] + rest), |head|;
    IndexFirst(head, NUL, name + [NUL] + rest, 0);
    assert d[i + 1..] == name + [NUL] + rest;
    IndexFirst(name, NUL, rest, 0);
    IndexLater(d, NUL, i + 1, 0);
  }

  lemma {:induction false} IndexLater(d: string, c: char, a: nat, from: nat)
    requires a + from <= |d|
    ensures IndexOf(d, c, a + from) == a + IndexOf(d[a..], c, from)
    decreases |d| - from
  {
    if from < |d[a..]| && d[a + from] != c {
      IndexLater(d, c, a, from + 1);
    }
  }

  // ----- values -----

  const HALF: int := 0x8000_0000_0000_0000

  // A number wrapped to 64 bits, two's complement.
  function Wrap(n: int): (r: int)
    ensures -HALF <= r < HALF
  {
    (n + HALF) % U64 - HALF
  }

  // The one number in range that differs by a multiple of 2^64.
  lemma WrapIs(n: int, r: int)
    ensures Wrap(n) == r <==> -HALF <= r < HALF && (n - r) % U64 == 0
  {
  }

  function Not(n: int): int { if n == 0 then 1 else 0 }

  function Calc(sub: nat, a: Val, b: Val): Val {
    if a.Str? && b.Str? && sub == 0 && |a.s| + |b.s| <= MAX_TEXT then Str(a.s + b.s)
    else if a.Num? && b.Num? && sub == 0 then Num(Wrap(a.n + b.n))
    else if a.Num? && b.Num? && sub == 1 then Num(Wrap(a.n - b.n))
    else Unknown
  }

  function Compare(sub: nat, a: Val, b: Val): Val {
    if ((a.Num? && b.Num?) || (a.Str? && b.Str?)) && (sub == 4 || sub == 5)
    then Num(if (a == b) == (sub == 5) then 1 else 0)
    else Unknown
  }

  function Invert(v: Val): Val {
    if v.Num? then Num(Not(v.n)) else v
  }

  function Upper(s: string): string {
    seq(|s|, i requires 0 <= i < |s| => if 'a' <= s[i] <= 'z' then s[i] - 32 as char else s[i])
  }

  function TrimLeft(s: string, c: char): string {
    if s != "" && s[0] == c then TrimLeft(s[1..], c) else s
  }

  function TrimRight(s: string, c: char): string {
    if s != "" && s[|s| - 1] == c then TrimRight(s[..|s| - 1], c) else s
  }

  predicate Separator(c: char) { c == '/' || c == '\\' }

  // Up to and including the last separator.
  function DirOf(s: string): string {
    if s == "" || Separator(s[|s| - 1]) then s else DirOf(s[..|s| - 1])
  }

  // Trimming takes off all the quotes at both ends, and nothing else.
  lemma {:induction false} TrimLeftIs(s: string, c: char)
    ensures var r := TrimLeft(s, c);
            |r| <= |s| && s[|s| - |r|..] == r && (forall i :: 0 <= i < |s| - |r| ==> s[i] == c) && (r != "" ==> r[0] != c)
  {
    if s != "" && s[0] == c {
      TrimLeftIs(s[1..], c);
      var r := TrimLeft(s[1..], c);
      assert forall i :: 0 < i < |s| - |r| ==> s[i] == s[1..][i - 1];
    }
  }

  lemma {:induction false} TrimRightIs(s: string, c: char)
    ensures var r := TrimRight(s, c);
            r <= s && (forall i :: |r| <= i < |s| ==> s[i] == c) && (r != "" ==> r[|r| - 1] != c)
  {
    if s != "" && s[|s| - 1] == c {
      TrimRightIs(s[..|s| - 1], c);
    }
  }

  /** The directory ends behind the last separator. */
  lemma {:induction false} DirOfIs(s: string)
    ensures var r := DirOf(s); r <= s && (r != "" ==> Separator(r[|r| - 1])) && forall i :: |r| <= i < |s| ==> !Separator(s[i])
  {
    if !(s == "" || Separator(s[|s| - 1])) {
      DirOfIs(s[..|s| - 1]);
    }
  }

  // The string functions the analysis knows.
  function Builtin(name: string, a: string): Option<string> {
    var u := Upper(name);
    if u == "EXPANDCONSTANT" then Some(a)
    else if u == "ADDQUOTES" then Some("\"" + a + "\"")
    else if u == "REMOVEQUOTES" then Some(TrimRight(TrimLeft(a, '\"'), '\"'))
    else if u == "EXTRACTFILEPATH" then Some(DirOf(a))
    else None
  }

  // What a call returns. The recorded operations are taken to succeed.
  function Returned(name: string, args: seq<Val>): Val {
    if name == "ISExec" || name == "ISArcExtract" then Num(1)
    else if |args| > 0 && args[0].Str? then
      match Builtin(name, args[0].s)
      case Some(t) => Str(t)
      case None => Unknown
    else Unknown
  }

  /** psArguments: the n slots below the result, top first. */
  function Arguments(s: AState, result: bool, n: nat): (r: seq<Val>)
  {
    var end := |s.stack| - 1 - (if result then 1 else 0);
    if n > end then [] else seq(n, i requires 0 <= i < n => Get(s, STACK + end - i))
  }

  // ----- one instruction -----

  function Put(s: AState, o: Operand, v: Val): AState {
    if o.tag == 0 then Set(s, o.address, v) else s
  }

  function Called(p: seq<Proc>, x: Ins, s: AState): AState
    requires x.arg < |p|
  {
    var g := SignatureOf(p[x.arg]);
    if g.result && |s.stack| > 1
    then Set(s, STACK + |s.stack| - 1, Returned(g.name, Arguments(s, g.result, g.n)))
    else s
  }

  function Pops(op: nat): nat { if op == 26 then 2 else 1 }

  function Flagged(x: Ins, v: Val): Val {
    if x.sub != 0 then Invert(v) else v
  }

  function Effect(p: seq<Proc>, x: Ins, s: AState): Result<AState>
    requires Decoded(x)
  {
    match x.op
    case 0 => Ok(Put(s, x.operands[0], Value(s, x.operands[1])))
    case 1 => Ok(Put(s, x.operands[0], Calc(x.sub, Value(s, x.operands[0]), Value(s, x.operands[1]))))
    case 2 => Ok(s.(stack := s.stack + [Slot(Value(s, x.operands[0]), 0, false)]))
    case 3 => Ok(s.(stack := s.stack + [Slot(Unknown, x.operands[0].address, x.operands[0].tag == 0)]))
    case 11 => Ok(s.(stack := s.stack + [EMPTY]))
    case 4 => Popped(s, 1)
    case 25 => Popped(s, 1)
    case 26 => Popped(s, 2)
    case 5 => if x.arg >= |p| then Err(InvalidCall) else Ok(Called(p, x, s))
    case 12 => Ok(Put(s, x.operands[0], Compare(x.sub, Value(s, x.operands[1]), Value(s, x.operands[2]))))
    case 15 => Ok(Put(s, x.operands[0], Invert(Value(s, x.operands[0]))))
    case 16 => Ok(Put(s, x.operands[0], Unknown))
    case 21 => Ok(Put(s, x.operands[0], Unknown))
    case 23 => Ok(Put(s, x.operands[0], Unknown))
    case 24 => Ok(Put(s, x.operands[0], Unknown))
    case 14 => Ok(Put(s, x.operands[0], Unknown))
    case 22 => Ok(Put(s, x.operands[0], Unknown))
    case 17 => Ok(s.(flag := Flagged(x, Value(s, x.operands[0]))))
    case _ => Ok(s)
  }

  function Popped(s: AState, n: nat): Result<AState> {
    if |s.stack| <= n then Err(Underflow) else Ok(s.(stack := s.stack[..|s.stack| - n]))
  }

  predicate Jumps(op: nat) { op == 6 || op == 7 || op == 8 || op == 18 || op == 25 || op == 26 }

  // A 32-bit argument as a signed displacement.
  function Signed(a: nat): int { if a >= U32 / 2 then a - U32 else a }

  function Offsets(ins: seq<Ins>): map<int, nat> {
    if ins == [] then map[] else Offsets(ins[..|ins| - 1])[ins[|ins| - 1].offset := |ins| - 1]
  }

  // The condition of a branch.
  function Condition(x: Ins, s: AState): Val
    requires Decoded(x)
  {
    if x.op == 7 then Value(s, x.operands[0])
    else if x.op == 8 then Invert(Value(s, x.operands[0]))
    else s.flag
  }

  /** The instructions that may come next after the effect has left state s. */
  function Onward(ins: seq<Ins>, i: nat, s: AState): Result<seq<nat>>
    requires i < |ins| && Decoded(ins[i])
  {
    var x := ins[i];
    if x.op == 9 then Ok([])
    else if !Jumps(x.op) then Ok([i + 1])
    else
      var t := x.end + Signed(x.arg);
      if t !in Offsets(ins) then Err(BadTarget)
      else if x.op == 6 || x.op == 25 || x.op == 26 then Ok([Offsets(ins)[t]])
      else
        match Condition(x, s)
        case Num(n) => Ok([if n != 0 then Offsets(ins)[t] else i + 1])
        case _ => Ok([i + 1, Offsets(ins)[t]])
  }

  datatype Outcome = Outcome(s: AState, to: seq<nat>)

  /** The transfer function of the analysis at instruction i. */
  function Flow(p: seq<Proc>, ins: seq<Ins>, i: nat, s: AState): Result<Outcome>
    requires i < |ins| && Decoded(ins[i])
  {
    match Effect(p, ins[i], s)
    case Err(e) => Err(e)
    case Ok(t) =>
      if |t.stack| > MAX_STACK then Err(ExcessiveStack)
      else match Onward(ins, i, t)
           case Err(e) => Err(e)
           case Ok(to) => Ok(Outcome(t, to))
  }

  // ----- the same on the state in place -----

  method ArgumentsOf(s: State, result: bool, n: nat) returns (args: seq<Val>)
    ensures args == Arguments(s.Abs(), result, n)
  {
    hide Get;
    var end := |s.stack| - 1;
    if result {
      end := end - 1;
    }
    if n > end {
      return [];
    }
    args := [];
    for i := 0 to n
      invariant |args| == i && forall k :: 0 <= k < i ==> args[k] == Get(s.Abs(), STACK + end - k)
    {
      var v := s.Read(STACK + end - i);
      args := args + [v];
    }
  }

  method PutIn(s: State, o: Operand, v: Val)
    modifies s
    ensures s.Abs() == Put(old(s.Abs()), o, v)
  {
    if o.tag == 0 {
      s.Write(o.address, v);
    }
  }

  method Pop(s: State, n: nat) returns (ok: bool)
    modifies s
    ensures Popped(old(s.Abs()), n) == if ok then Ok(s.Abs()) else Err(Underflow)
  {
    if |s.stack| <= n {
      return false;
    }
    s.stack := s.stack[..|s.stack| - n];
    ok := true;
  }

  method CallIn(p: seq<Proc>, x: Ins, s: State)
    requires x.arg < |p|
    modifies s
    ensures s.Abs() == Called(p, x, old(s.Abs()))
  {
    hide Get, Set, Builtin;
    var g := SignatureOf(p[x.arg]);
    var v := Unknown;
    var args := ArgumentsOf(s, g.result, g.n);
    if |args| > 0 && args[0].Str? {
      var t := Builtin(g.name, args[0].s);
      if t.Some? {
        v := Str(t.value);
      }
    }
    if g.name == "ISExec" || g.name == "ISArcExtract" {
      v := Num(1);
    }
    if g.result && |s.stack| > 1 {
      s.Write(STACK + |s.stack| - 1, v);
    }
  }

  /** The switch over the opcodes. */
  method Execute(p: seq<Proc>, x: Ins, s: State) returns (r: Option<Error>)
    requires Decoded(x)
    modifies s
    ensures Effect(p, x, old(s.Abs())) == match r { case None => Ok(s.Abs()) case Some(e) => Err(e) }
  {
    hide Get, Set, Put, Called, Calc, Compare, Value;
    match x.op {
      case 0 =>
        var v := s.Operand(x.operands[1]);
        PutIn(s, x.operands[0], v);
      case 1 =>
        var a := s.Operand(x.operands[0]);
        var b := s.Operand(x.operands[1]);
        PutIn(s, x.operands[0], Calc(x.sub, a, b));
      case 2 =>
        var v := s.Operand(x.operands[0]);
        s.stack := s.stack + [Slot(v, 0, false)];
      case 3 =>
        var o := x.operands[0];
        s.stack := s.stack + [Slot(Unknown, o.address, o.tag == 0)];
      case 11 =>
        s.stack := s.stack + [EMPTY];
      case 4 | 25 | 26 =>
        var ok := Pop(s, Pops(x.op));
        if !ok {
          return Some(Underflow);
        }
      case 5 =>
        if x.arg >= |p| {
          return Some(InvalidCall);
        }
        CallIn(p, x, s);
      case 12 =>
        var a := s.Operand(x.operands[1]);
        var b := s.Operand(x.operands[2]);
        PutIn(s, x.operands[0], Compare(x.sub, a, b));
      case 15 =>
        var v := s.Operand(x.operands[0]);
        PutIn(s, x.operands[0], Invert(v));
      case 16 | 21 | 23 | 24 | 14 | 22 =>
        PutIn(s, x.operands[0], Unknown);
      case 17 =>
        var v := s.Operand(x.operands[0]);
        s.flag := Flagged(x, v);
      case _ =>
    }
    r := None;
  }

  method NextOf(ins: seq<Ins>, byOffset: map<int, nat>, i: nat, s: State) returns (r: Result<seq<nat>>)
    requires i < |ins| && Decoded(ins[i]) && byOffset == Offsets(ins)
    ensures r == Onward(ins, i, s.Abs())
  {
    hide Get, Value;
    var x := ins[i];
    if x.op == 9 {
      return Ok([]);
    }
    if !Jumps(x.op) {
      return Ok([i + 1]);
    }
    var t := x.end + Signed(x.arg);
    if t !in byOffset {
      return Err(BadTarget);
    }
    var target := byOffset[t];
    if x.op == 6 || x.op == 25 || x.op == 26 {
      return Ok([target]);
    }
    var v := s.flag;
    if x.op == 7 || x.op == 8 {
      v := s.Operand(x.operands[0]);
      if x.op == 8 {
        v := Invert(v);
      }
    }
    if v.Num? {
      return Ok([if v.n != 0 then target else i + 1]);
    }
    r := Ok([i + 1, target]);
  }

  method OffsetsOf(ins: seq<Ins>) returns (m: map<int, nat>)
    ensures m == Offsets(ins)
  {
    m := map[];
    for i := 0 to |ins|
      invariant m == Offsets(ins[..i])
    {
      m := m[ins[i].offset := i];
      assert ins[..i + 1][..i] == ins[..i];
    }
    assert ins[..|ins|] == ins;
  }
}
