/**
 The compiled form of a regular expression: byte code, its structured reading,
 and what the byte-code interpreter computes.

 A `Prog` is a code block. `Gen` lays it out in bytes exactly as the compiler
 does: jump operands are relative and point forward, data operands are absolute,
 and every block ends in END. `Run` is the result of interpreting a block.
 */
module SlreProgram {
  import opened Basics

  type byte = x: int | 0 <= x < 256

  const END: byte := 0
  const BRANCH: byte := 1
  const ANY: byte := 2
  const EXACT: byte := 3
  const ANYOF: byte := 4
  const ANYBUT: byte := 5
  const OPEN: byte := 6
  const CLOSE: byte := 7
  const BOL: byte := 8
  const EOL: byte := 9
  const STAR: byte := 10
  const PLUS: byte := 11
  const QUEST: byte := 14
  const SPACE: byte := 15
  const NONSPACE: byte := 16
  const DIGIT: byte := 17

  datatype Instr =
    | Exact(off: nat, w: string)
    | AnyChar
    | AnyOf(off: nat, members: string)
    | AnyBut(off: nat, members: string)
    | Open(n: nat)
    | Close(n: nat)
    | AtBol
    | AtEol
    | Star(body: Prog)
    | Plus(body: Prog)
    | Quest(body: Prog)
    | Space
    | NonSpace
    | Digit
    | Branch(left: Prog, right: Prog)

  datatype Prog = Halt | Op(ins: Instr, next: Prog)

  function Opcode(ins: Instr): byte {
    match ins
    case Exact(_, _) => EXACT
    case AnyChar => ANY
    case AnyOf(_, _) => ANYOF
    case AnyBut(_, _) => ANYBUT
    case Open(_) => OPEN
    case Close(_) => CLOSE
    case AtBol => BOL
    case AtEol => EOL
    case Star(_) => STAR
    case Plus(_) => PLUS
    case Quest(_) => QUEST
    case Space => SPACE
    case NonSpace => NONSPACE
    case Digit => DIGIT
    case Branch(_, _) => BRANCH
  }

  // ---------------------------------------------------------------- layout

  /** The conversion to `unsigned char`. */
  function Byte(x: int): byte
    decreases if x < 0 then 256 - x else x
  {
    if x < 0 then Byte(x + 256) else if x < 256 then x else Byte(x - 256)
  }

  function Gen(p: Prog): (c: seq<byte>)
    ensures |c| >= 1
  {
    match p
    case Halt => [END]
    case Op(ins, next) => GenInstr(ins) + Gen(next)
  }

  function GenInstr(ins: Instr): (c: seq<byte>)
    ensures |c| >= 1
  {
    match ins
    case Exact(off, w) => [EXACT, Byte(off), Byte(|w|)]
    case AnyChar => [ANY]
    case AnyOf(off, m) => [ANYOF, Byte(off), Byte(|m|)]
    case AnyBut(off, m) => [ANYBUT, Byte(off), Byte(|m|)]
    case Open(n) => [OPEN, Byte(n)]
    case Close(n) => [CLOSE, Byte(n)]
    case AtBol => [BOL]
    case AtEol => [EOL]
    case Star(b) => LoopHeader(STAR, Gen(b)) + Gen(b)
    case Plus(b) => LoopHeader(PLUS, Gen(b)) + Gen(b)
    case Quest(b) => LoopHeader(QUEST, Gen(b)) + Gen(b)
    case Space => [SPACE]
    case NonSpace => [NONSPACE]
    case Digit => [DIGIT]
    case Branch(l, r) =>
      BranchHeader(Gen(l), Gen(r)) + Gen(l) + Gen(r)
  }

  /** `g` stands in `c` at `pc`. */
  ghost predicate Stands(c: seq<byte>, pc: nat, g: seq<byte>) {
    pc + |g| <= |c| && c[pc..pc + |g|] == g
  }

  lemma StandsSplit(c: seq<byte>, pc: nat, g1: seq<byte>, g2: seq<byte>)
    requires Stands(c, pc, g1 + g2)
    ensures Stands(c, pc, g1) && Stands(c, pc + |g1|, g2)
  {
    assert c[pc..pc + |g1|] == (g1 + g2)[..|g1|];
    assert c[pc + |g1|..pc + |g1| + |g2|] == (g1 + g2)[|g1|..];
  }

  /** Every data operand of `p` names the bytes it stands for. */
  ghost predicate DataOk(p: Prog, data: string) {
    match p
    case Halt => true
    case Op(ins, next) => InstrDataOk(ins, data) && DataOk(next, data)
  }

  ghost predicate InDataAt(off: nat, w: string, data: string) {
    off + |w| <= |data| <= 255 && data[off..off + |w|] == w
  }

  ghost predicate InstrDataOk(ins: Instr, data: string) {
    match ins
    case Exact(off, w) => InDataAt(off, w, data)
    case AnyOf(off, m) => InDataAt(off, m, data)
    case AnyBut(off, m) => InDataAt(off, m, data)
    case Star(b) => DataOk(b, data)
    case Plus(b) => DataOk(b, data)
    case Quest(b) => DataOk(b, data)
    case Branch(l, r) => DataOk(l, data) && DataOk(r, data)
    case _ => true
  }

  /** Every capture number of `p` is below `n`. */
  ghost predicate CapsBelow(p: Prog, n: nat) {
    match p
    case Halt => true
    case Op(ins, next) => InstrCapsBelow(ins, n) && CapsBelow(next, n)
  }

  ghost predicate InstrCapsBelow(ins: Instr, n: nat) {
    match ins
    case Open(k) => k < n
    case Close(k) => k < n
    case Star(b) => CapsBelow(b, n)
    case Plus(b) => CapsBelow(b, n)
    case Quest(b) => CapsBelow(b, n)
    case Branch(l, r) => CapsBelow(l, n) && CapsBelow(r, n)
    case _ => true
  }

  // ------------------------------------------------------- structure of raw code

  predicate IsPlain(op: byte) { op == ANY || op == BOL || op == EOL || op == SPACE || op == NONSPACE || op == DIGIT }
  predicate IsLoopOp(op: byte) { op == STAR || op == PLUS || op == QUEST }

  /**
   Byte-level well-formedness of the block c[lo..hi]: instructions tile it up to a
   final END, every jump goes forward and lands on an instruction boundary of the
   same block, and every data range lies inside the `dataSize` bytes of data.
   */
  ghost predicate WfBlock(c: seq<byte>, dataSize: nat, lo: nat, hi: nat)
    decreases hi - lo, 1
  {
    && lo < hi <= |c|
    && if c[lo] == END then hi == lo + 1
       else exists n: nat | lo < n < hi :: WfInstr(c, dataSize, lo, n) && WfBlock(c, dataSize, n, hi)
  }

  /** The instruction occupying c[lo..n]. */
  ghost predicate WfInstr(c: seq<byte>, dataSize: nat, lo: nat, n: nat)
    decreases n - lo, 0
  {
    && lo < n <= |c|
    && if IsPlain(c[lo]) then n == lo + 1
       else if (c[lo] == OPEN || c[lo] == CLOSE) then n == lo + 2
       else if (c[lo] == EXACT || c[lo] == ANYOF || c[lo] == ANYBUT) then
         n == lo + 3 && c[lo + 1] + c[lo + 2] <= dataSize
       else if IsLoopOp(c[lo]) then
         && lo + 1 < |c| && n == lo + c[lo + 1]
         && WfBlock(c, dataSize, lo + 2, n)
       else
         && c[lo] == BRANCH && lo + 2 < |c| && n == lo + c[lo + 2]
         && 3 < c[lo + 1] < c[lo + 2]
         && WfBlock(c, dataSize, lo + 3, lo + c[lo + 1])
         && WfBlock(c, dataSize, lo + c[lo + 1], n)
  }

  lemma {:induction false} GenIsWfBlock(c: seq<byte>, pc: nat, p: Prog, data: string)
    requires |c| <= 256 && Stands(c, pc, Gen(p)) && DataOk(p, data)
    ensures WfBlock(c, |data|, pc, pc + |Gen(p)|)
    decreases p, 1
  {
    match p
    case Halt =>
      assert c[pc] == c[pc..pc + 1][0];
    case Op(ins, next) =>
      StandsSplit(c, pc, GenInstr(ins), Gen(next));
      GenIsWfInstr(c, pc, ins, data);
      assert c[pc] == c[pc..pc + |GenInstr(ins)|][0];
      GenIsWfBlock(c, pc + |GenInstr(ins)|, next, data);
  }

  /** The first bytes of a block standing at `pc`. */
  lemma StandsHead(c: seq<byte>, pc: nat, g: seq<byte>)
    requires Stands(c, pc, g) && |g| >= 1
    ensures c[pc] == g[0]
    ensures |g| >= 2 ==> c[pc + 1] == g[1]
    ensures |g| >= 3 ==> c[pc + 2] == g[2]
  {
    var d := c[pc..pc + |g|];
    assert c[pc] == d[0];
    if |g| >= 2 { assert c[pc + 1] == d[1]; }
    if |g| >= 3 { assert c[pc + 2] == d[2]; }
  }

  predicate HasBlock(ins: Instr) { ins.Star? || ins.Plus? || ins.Quest? || ins.Branch? }

  lemma {:induction false} GenIsWfInstr(c: seq<byte>, pc: nat, ins: Instr, data: string)
    requires |c| <= 256 && Stands(c, pc, GenInstr(ins)) && pc + |GenInstr(ins)| < |c| && InstrDataOk(ins, data)
    ensures WfInstr(c, |data|, pc, pc + |GenInstr(ins)|)
    decreases ins, 1
  {
    if !HasBlock(ins) {
      FlatIsWfInstr(c, pc, ins, data);
    } else if ins.Branch? {
      BranchIsWfInstr(c, pc, ins, data);
    } else {
      LoopIsWfInstr(c, pc, ins, data);
    }
  }

  lemma FlatIsWfInstr(c: seq<byte>, pc: nat, ins: Instr, data: string)
    requires |c| <= 256 && Stands(c, pc, GenInstr(ins)) && InstrDataOk(ins, data) && !HasBlock(ins)
    ensures WfInstr(c, |data|, pc, pc + |GenInstr(ins)|)
  {
    StandsHead(c, pc, GenInstr(ins));
  }

  lemma {:induction false} LoopIsWfInstr(c: seq<byte>, pc: nat, ins: Instr, data: string)
    requires |c| <= 256 && Stands(c, pc, GenInstr(ins)) && pc + |GenInstr(ins)| < |c| && InstrDataOk(ins, data)
    requires ins.Star? || ins.Plus? || ins.Quest?
    ensures WfInstr(c, |data|, pc, pc + |GenInstr(ins)|)
    decreases ins, 0
  {
    var b := Gen(ins.body);
    match ins {
      case Star(_) => LoopParts(c, pc, STAR, b);
      case Plus(_) => LoopParts(c, pc, PLUS, b);
      case Quest(_) => LoopParts(c, pc, QUEST, b);
    }
    GenIsWfBlock(c, pc + 2, ins.body, data);
  }

  lemma {:induction false} BranchIsWfInstr(c: seq<byte>, pc: nat, ins: Instr, data: string)
    requires |c| <= 256 && Stands(c, pc, GenInstr(ins)) && pc + |GenInstr(ins)| < |c| && InstrDataOk(ins, data)
    requires ins.Branch?
    ensures WfInstr(c, |data|, pc, pc + |GenInstr(ins)|)
    decreases ins, 0
  {
    var l, r := Gen(ins.left), Gen(ins.right);
    assert GenInstr(ins) == BranchHeader(l, r) + l + r;
    BranchParts(c, pc, l, r);
    var lo, mid, hi := pc + 3, pc + 3 + |l|, pc + 3 + |l| + |r|;
    GenIsWfBlock(c, lo, ins.left, data);
    GenIsWfBlock(c, mid, ins.right, data);
    WfBranch(c, |data|, pc, mid, hi);
  }

  function LoopHeader(op: byte, b: seq<byte>): seq<byte> {
    [op, Byte(|b| + 2)]
  }

  function BranchHeader(l: seq<byte>, r: seq<byte>): seq<byte> {
    [BRANCH, Byte(|l| + 3), Byte(|l| + |r| + 3)]
  }

  lemma LoopParts(c: seq<byte>, pc: nat, op: byte, b: seq<byte>)
    requires |c| <= 256 && Stands(c, pc, LoopHeader(op, b) + b) && pc + 2 + |b| < |c|
    ensures Stands(c, pc + 2, b) && c[pc] == op && c[pc + 1] == 2 + |b|
  {
    var h := LoopHeader(op, b);
    StandsSplit(c, pc, h, b);
    StandsHead(c, pc, h);
  }

  lemma BranchParts(c: seq<byte>, pc: nat, l: seq<byte>, r: seq<byte>)
    requires |c| <= 256 && Stands(c, pc, BranchHeader(l, r) + l + r) && pc + 3 + |l| + |r| < |c|
    ensures Stands(c, pc + 3, l) && Stands(c, pc + 3 + |l|, r)
    ensures c[pc] == BRANCH && c[pc + 1] == 3 + |l| && c[pc + 2] == 3 + |l| + |r|
  {
    var h := BranchHeader(l, r);
    StandsSplit(c, pc, h + l, r);
    StandsSplit(c, pc, h, l);
    StandsHead(c, pc, h);
  }

  lemma WfBranch(c: seq<byte>, dataSize: nat, lo: nat, mid: nat, hi: nat)
    requires lo + 2 < |c| && c[lo] == BRANCH && lo + c[lo + 1] == mid && lo + c[lo + 2] == hi
    requires WfBlock(c, dataSize, lo + 3, mid) && WfBlock(c, dataSize, mid, hi)
    ensures WfInstr(c, dataSize, lo, hi)
  {
  }

  /** Inserting a header of `shift` bytes before an emitted block moves the block and keeps it whole. */
  lemma RelocationKeepsBlock(c: seq<byte>, begin: nat, gap: seq<byte>, pc: nat, p: Prog)
    requires begin <= pc && Stands(c, pc, Gen(p))
    ensures Stands(c[..begin] + gap + c[begin..], pc + |gap|, Gen(p))
  {
    MovedText(c, begin, gap, pc, Gen(p));
  }

  lemma MovedText(c: seq<byte>, begin: nat, gap: seq<byte>, pc: nat, g: seq<byte>)
    requires begin <= pc && Stands(c, pc, g)
    ensures Stands(c[..begin] + gap + c[begin..], pc + |gap|, g)
  {
    var d := c[..begin] + gap + c[begin..];
    assert d[pc + |gap|..pc + |gap| + |g|] == c[pc..pc + |g|];
  }

  // ------------------------------------------------------------------ meaning

  /** Set members are unsigned bytes, the subject byte is a signed char: only bytes below 128 can be found. */
  predicate InSet(members: string, c: char) { c as int < 128 && c in members }

  predicate IsOneByte(ins: Instr) {
    ins.AnyChar? || ins.AnyOf? || ins.AnyBut? || ins.Space? || ins.NonSpace? || ins.Digit?
  }

  /** Does a one-byte instruction accept `c`? */
  predicate Accepts(ins: Instr, c: char)
    requires IsOneByte(ins)
  {
    match ins
    case AnyChar => true
    case AnyOf(_, m) => InSet(m, c)
    case AnyBut(_, m) => !InSet(m, c)
    case Space => IsSpace(c)
    case NonSpace => !IsSpace(c)
    case Digit => IsDigit(c)
  }

  function Min(a: nat, b: nat): nat { if a < b then a else b }

  /** The fewest bytes a successful run can consume. */
  function MinWidth(p: Prog): nat {
    match p
    case Halt => 0
    case Op(ins, next) => InstrMinWidth(ins) + MinWidth(next)
  }

  function InstrMinWidth(ins: Instr): nat {
    match ins
    case Exact(_, w) => |w|
    case Plus(b) => MinWidth(b)
    case Branch(l, r) => Min(MinWidth(l), MinWidth(r))
    case _ => if IsOneByte(ins) then 1 else 0
  }

  /** Every loop body consumes at least one byte when it succeeds. */
  predicate Productive(p: Prog) {
    match p
    case Halt => true
    case Op(ins, next) => InstrProductive(ins) && Productive(next)
  }

  predicate InstrProductive(ins: Instr) {
    match ins
    case Star(b) => Productive(b) && MinWidth(b) >= 1
    case Plus(b) => Productive(b) && MinWidth(b) >= 1
    case Quest(b) => Productive(b)
    case Branch(l, r) => Productive(l) && Productive(r)
    case _ => true
  }

  datatype Cap = Cap(ptr: int, len: int)

  datatype Out = Out(ok: bool, ofs: nat, caps: seq<Cap>)

  /** Recording a capture; without a capture array (no entries) nothing is recorded. */
  function OpenCap(caps: seq<Cap>, n: nat, ofs: nat): seq<Cap> {
    if n < |caps| then caps[n := caps[n].(ptr := ofs)] else caps
  }

  function CloseCap(caps: seq<Cap>, n: nat, ofs: nat): seq<Cap> {
    if n < |caps| then caps[n := caps[n].(len := ofs - caps[n].ptr)] else caps
  }

  /**
   The outcome of interpreting block `p` on `s` from `ofs`. Its recursion is the
   termination argument: sub-blocks first, then the bytes left for a loop.
   */
  function Run(p: Prog, s: string, ofs: nat, caps: seq<Cap>): (o: Out)
    requires ofs <= |s| && Productive(p)
    ensures o.ok ==> ofs + MinWidth(p) <= o.ofs <= |s|
    ensures |o.caps| == |caps|
    decreases p, 2, 0
  {
    match p
    case Halt => Out(true, ofs, caps)
    case Op(ins, next) =>
      var o := Exec(p, s, ofs, caps);
      if o.ok then Run(next, s, o.ofs, o.caps) else o
  }

  /** The outcome of the first instruction of `p`; a greedy loop looks at the code after it. */
  function Exec(p: Prog, s: string, ofs: nat, caps: seq<Cap>): (o: Out)
    requires ofs <= |s| && Productive(p) && p.Op?
    ensures o.ok ==> ofs + InstrMinWidth(p.ins) <= o.ofs <= |s|
    ensures |o.caps| == |caps|
    decreases p, 1, 0
  {
    assert InstrProductive(p.ins);
    match p.ins
    case Exact(_, w) =>
      if ofs + |w| <= |s| && s[ofs..ofs + |w|] == w then Out(true, ofs + |w|, caps) else Out(false, ofs, caps)
    case Open(n) => Out(true, ofs, OpenCap(caps, n, ofs))
    case Close(n) => Out(true, ofs, CloseCap(caps, n, ofs))
    case AtBol => Out(ofs == 0, ofs, caps)
    case AtEol => Out(ofs == |s|, ofs, caps)
    case Star(b) => Out(true, Greedy(p, s, ofs, ofs), caps)
    case Plus(b) =>
      var o := Run(b, s, ofs, caps);
      if o.ok then Out(true, Greedy(p, s, o.ofs, o.ofs), o.caps) else o
    case Quest(b) =>
      var o := Run(b, s, ofs, caps);
      if o.ok then o else Out(true, ofs, o.caps)
    case Branch(l, r) =>
      var o := Run(l, s, ofs, caps);
      if o.ok then o else Run(r, s, ofs, o.caps)
    case _ =>
      if ofs < |s| && Accepts(p.ins, s[ofs]) then Out(true, ofs + 1, caps) else Out(false, ofs, caps)
  }

  predicate IsLoop(p: Prog) { p.Op? && (p.ins.Star? || p.ins.Plus?) }

  /**
   The greedy loop with `saved` bytes consumed and `matched` the last iteration
   boundary from which the code after the loop matched.
   */
  function Greedy(p: Prog, s: string, saved: nat, matched: nat): (m: nat)
    requires IsLoop(p) && Productive(p) && matched <= saved <= |s|
    ensures matched <= m <= |s|
    decreases p, 0, |s| - saved
  {
    assert InstrProductive(p.ins);
    var b := Run(p.ins.body, s, saved, []);
    if !b.ok then matched
    else
      var m := if Run(p.next, s, b.ofs, []).ok then b.ofs else matched;
      Greedy(p, s, b.ofs, m)
  }

  /** The outcome of trying the start positions from `i` on; the empty suffix is not tried. */
  function SearchFrom(p: Prog, s: string, i: nat, caps: seq<Cap>): (o: Out)
    requires i <= |s| && Productive(p)
    ensures |o.caps| == |caps|
    decreases |s| - i
  {
    if i == |s| then Out(false, i, caps)
    else
      var o := Run(p, s, i, caps);
      if o.ok then o else SearchFrom(p, s, i + 1, o.caps)
  }

  function Search(p: Prog, anchored: bool, s: string, caps: seq<Cap>): (o: Out)
    requires Productive(p)
    ensures |o.caps| == |caps|
  {
    if anchored then Run(p, s, 0, caps) else SearchFrom(p, s, 0, caps)
  }
}
