/**
 The regular-expression engine: a one-pass compiler into a code and a data buffer of
 256 bytes each, and the interpreter of that code.

 The text after a pattern stands for the terminating NUL of the C string.
 */
module Slre {
  import opened Basics
  import opened SlreProgram
  import opened SlreSyntax
  import opened SlreCodegen
  import opened SlreProgress

  class Engine {
    const code: array<byte>
    const data: array<char>
    var codeSize: nat
    var dataSize: nat
    var numCaps: nat
    var anchored: bool
    var errStr: string

    ghost predicate Valid()
      reads this
    {
      code.Length == data.Length == SIZE && codeSize <= SIZE && dataSize <= SIZE
    }

    ghost function Code(): (c: seq<byte>)
      requires Valid()
      reads this, code
      ensures |c| == codeSize
    {
      code[..codeSize]
    }

    ghost function Data(): (d: string)
      requires Valid()
      reads this, data
      ensures |d| == dataSize
    {
      data[..dataSize]
    }

    constructor ()
      ensures Valid() && fresh(code) && fresh(data)
    {
      code := new byte[SIZE];
      data := new char[SIZE];
      codeSize, dataSize, numCaps, anchored, errStr := 0, 0, 0, false, "";
    }

    // ----------------------------------------------------------- emitting code

    method SetJumpOffset(pc: nat, offset: nat)
      requires Valid() && pc < codeSize && offset < codeSize
      modifies `errStr, code
      ensures Valid()
      ensures codeSize - offset <= 255 ==> errStr == old(errStr) && Code() == old(Code())[pc := codeSize - offset]
      ensures codeSize - offset > 255 ==> errStr != "" && Code() == old(Code())
    {
      if codeSize - offset > 0xff {
        errStr := "Jump offset is too big";
      } else {
        code[pc] := codeSize - offset;
      }
    }

    method Emit(op: int)
      requires Valid()
      modifies `codeSize, `errStr, code
      ensures Valid()
      ensures old(codeSize) < SIZE ==> errStr == old(errStr) && Code() == old(Code()) + [Byte(op)]
      ensures old(codeSize) >= SIZE ==> errStr != "" && Code() == old(Code())
    {
      if codeSize >= code.Length {
        errStr := "RE is too long (code overflow)";
      } else {
        code[codeSize] := Byte(op);
        codeSize := codeSize + 1;
      }
    }

    method StoreCharInData(ch: char)
      requires Valid()
      modifies `dataSize, `errStr, data
      ensures Valid()
      ensures old(dataSize) < SIZE ==> errStr == old(errStr) && Data() == old(Data()) + [ch]
      ensures old(dataSize) >= SIZE ==> errStr != "" && Data() == old(Data())
    {
      if dataSize >= data.Length {
        errStr := "RE is too long (data overflow)";
      } else {
        data[dataSize] := ch;
        dataSize := dataSize + 1;
      }
    }

    /** EXACT with two operands. */
    method Emit3(op: int, a: int, b: int)
      requires Valid() && codeSize + 3 <= SIZE
      modifies `codeSize, `errStr, code
      ensures Valid() && errStr == old(errStr) && Code() == old(Code()) + [Byte(op), Byte(a), Byte(b)]
    {
      Emit(op);
      Emit(a);
      Emit(b);
    }

    /** Stores the longest run of plain bytes, `w`, and emits the instruction for it. */
    method Exact(re: string, pos0: nat, ghost w: string) returns (pos: nat)
      requires Valid() && codeSize + 3 <= SIZE && dataSize + |w| <= SIZE
      requires TextAt(re, pos0, w) && forall k | 0 <= k < |w| :: IsLitChar(w[k])
      requires !IsLitChar(CharAt(re, pos0 + |w|)) && IsCString(re)
      modifies `codeSize, `dataSize, `errStr, code, data
      ensures Valid() && errStr == old(errStr) && pos == pos0 + |w|
      ensures Data() == old(Data()) + w
      ensures Code() == old(Code()) + [EXACT, Byte(old(dataSize)), Byte(|w|)]
    {
      var oldDataSize := dataSize;
      pos := pos0;
      NextChars(re, pos0, w);
      while CharAt(re, pos) != 0 as char && CharAt(re, pos) !in META_CHARS
        invariant Valid() && errStr == old(errStr) && Code() == old(Code())
        invariant pos0 <= pos <= pos0 + |w|
        invariant Data() == old(Data()) + w[..pos - pos0]
        decreases pos0 + |w| - pos
      {
        assert w[..pos - pos0] + [w[pos - pos0]] == w[..pos - pos0 + 1];
        StoreCharInData(CharAt(re, pos));
        pos := pos + 1;
      }
      assert w[..|w|] == w;
      Emit3(EXACT, oldDataSize, dataSize - oldDataSize);
    }

    /** The value of the escape at `pos`. */
    method GetEscapeChar(re: string, pos0: nat) returns (res: int, pos: nat)
      requires pos0 < |re|
      ensures res == EscapeCode(re[pos0]) && pos == pos0 + 1
    {
      pos := pos0 + 1;
      match re[pos0] {
        case 'n' => res := '\n' as int;
        case 'r' => res := '\r' as int;
        case 't' => res := '\t' as int;
        case '0' => res := 0;
        case 'S' => res := NONSPACE * 256;
        case 's' => res := SPACE * 256;
        case 'd' => res := DIGIT * 256;
        case c => res := if c as int < 128 then c as int else c as int - 256;
      }
    }

    /** Sets store a class escape as a zero byte and the instruction number. */
    method StoreEscape(esc: int)
      requires Valid() && dataSize + |EscapeData(esc)| <= SIZE
      modifies `dataSize, `errStr, data
      ensures Valid() && errStr == old(errStr) && Data() == old(Data()) + EscapeData(esc)
    {
      if esc % 256 == 0 {
        StoreCharInData(0 as char);
        StoreCharInData((esc / 256 % 256) as char);
      } else {
        StoreCharInData((esc % 256) as char);
      }
    }

    /** A bracketed set: its members go to the data section. Without a closing bracket it is an error. */
    method AnyOfSet(re: string, pos0: nat, ghost neg: bool, ghost items: seq<SetItem>, ghost closed: bool)
      returns (pos: nat)
      requires Valid() && codeSize + 3 <= SIZE && dataSize + |SetData(items)| <= SIZE
      requires WfAtom(Set(neg, items)) && TextAt(re, pos0, SetText(neg, items, closed))
      requires IsCString(re)
      requires !closed ==> pos0 + |SetText(neg, items, closed)| == |re|
      modifies `codeSize, `dataSize, `errStr, code, data
      ensures Valid() && pos == pos0 + |SetText(neg, items, closed)|
      ensures Data() == old(Data()) + SetData(items)
      ensures !closed ==> errStr == "No closing ']' bracket" && Code() == old(Code())
      ensures closed ==>
        && errStr == old(errStr)
        && Code() == old(Code()) + [if neg then ANYBUT else ANYOF, Byte(old(dataSize)), Byte(|SetData(items)|)]
    {
      var op := ANYOF;
      pos := pos0;
      SetStart(re, pos0, neg, items, closed);
      if CharAt(re, pos) == '^' {
        op := ANYBUT;
        pos := pos + 1;
      }
      pos := StoreMembers(re, pos, op, items, if closed then "]" else "");
    }

    /** The members of a set up to its closing bracket. */
    method StoreMembers(re: string, pos0: nat, op: byte, ghost items: seq<SetItem>, ghost end: string)
      returns (pos: nat)
      requires Valid() && codeSize + 3 <= SIZE && dataSize + |SetData(items)| <= SIZE
      requires SetRest(re, pos0, items, end)
      modifies `codeSize, `dataSize, `errStr, code, data
      ensures Valid() && pos == pos0 + |PrintItems(items)| + |end| && Data() == old(Data()) + SetData(items)
      ensures end == "" ==> errStr == "No closing ']' bracket" && Code() == old(Code())
      ensures end == "]" ==>
        errStr == old(errStr) && Code() == old(Code()) + [op, Byte(old(dataSize)), Byte(|SetData(items)|)]
    {
      var oldDataSize := dataSize;
      pos := pos0;
      ghost var rem, done, goal := items, "", pos + |PrintItems(items)| + |end|;
      while CharAt(re, pos) != 0 as char
        invariant Valid() && errStr == old(errStr) && Code() == old(Code())
        invariant Data() == old(Data()) + done && done + SetData(rem) == SetData(items)
        invariant SetRest(re, pos, rem, end) && pos + |PrintItems(rem)| + |end| == goal
        decreases |rem|
      {
        SplitItem(re, pos, rem, end);
        if CharAt(re, pos) == ']' {
          pos := pos + 1;
          NoMembers(done);
          Emit3(op, oldDataSize, dataSize - oldDataSize);
          return;
        }
        AppendItem(done, rem);
        pos := StoreMember(re, pos, rem[0]);
        done, rem := done + ItemData(rem[0]), rem[1..];
      }
      SplitItem(re, pos, rem, end);
      NoMembers(done);
      errStr := "No closing ']' bracket";
    }

    /** One member of a set. */
    method StoreMember(re: string, pos0: nat, ghost i: SetItem) returns (pos: nat)
      requires Valid() && dataSize + |ItemData(i)| <= SIZE && WfItem(i) && pos0 < |re|
      requires if i.Plain? then re[pos0] == i.c else pos0 + 1 < |re| && re[pos0] == '\\' && re[pos0 + 1] == i.c
      modifies `dataSize, `errStr, data
      ensures Valid() && errStr == old(errStr) && Data() == old(Data()) + ItemData(i)
      ensures pos == pos0 + if i.Plain? then 1 else 2
    {
      pos := pos0 + 1;
      if re[pos0] == '\\' {
        var esc;
        esc, pos := GetEscapeChar(re, pos);
        StoreEscape(esc);
      } else {
        StoreCharInData(re[pos0]);
      }
    }

    // -------------------------------------------------- headers in front of code

    /** Ends the block at `begin` and moves it up by `shift` bytes. */
    method Relocate(begin: nat, shift: nat)
      requires Valid() && begin <= codeSize && codeSize + 1 + shift <= SIZE
      modifies `codeSize, `errStr, code
      ensures Valid() && errStr == old(errStr) && codeSize == old(codeSize) + 1 + shift
      ensures Code()[..begin] == old(Code())[..begin]
      ensures Code()[begin + shift..] == old(Code())[begin..] + [END]
    {
      Emit(END);
      ghost var c := Code();
      forall i | begin <= i < codeSize {
        code[i + shift] := code[i];
      }
      assert code[..begin] == old(code[..begin]);
      codeSize := codeSize + shift;
      assert Code()[..begin] == code[..begin];
      assert forall k | begin <= k < |c| :: Code()[k + shift] == c[k];
      assert Code()[begin + shift..] == c[begin..];
    }

    /** Puts a loop header in front of the block at `prev`. */
    method Wrap(prev: nat, op: byte, ghost base: seq<byte>, ghost block: seq<byte>)
      requires Valid() && Code() == base + block && prev == |base| >= 1 && codeSize + 3 <= SIZE
      modifies `codeSize, `errStr, code
      ensures Valid() && errStr == old(errStr) && Code() == base + LoopBytes(op, block)
    {
      Relocate(prev, 2);
      assert Code()[prev + 2..] == block + [END];
      code[prev] := op;
      SetJumpOffset(prev + 1, prev);
      assert Code()[..prev] == base;
      assert Code()[prev..prev + 2] == [op, Byte(|block| + 3)];
      Rejoin(Code(), prev, prev + 2, base, [op, Byte(|block| + 3)], block + [END]);
    }

    /** Takes the last byte of a literal of two bytes or more out of it, as a literal of its own. */
    method SplitLiteral(prev0: nat, ghost base: seq<byte>, ghost a: Atom, ghost cap: nat, ghost off: nat)
      returns (prev: nat)
      requires Valid() && Code() == base + AtomBytes(a, cap, off) && prev0 == |base|
      requires WfAtom(a) && off + |AtomData(a)| <= 255 && (a.Lit? && |a.w| > 1 ==> codeSize + 3 <= SIZE)
      modifies `codeSize, `errStr, code
      ensures Valid() && errStr == old(errStr) && prev == |base + HeadBytes(a, off)|
      ensures Code() == base + HeadBytes(a, off) + UnitBytes(a, cap, off)
    {
      prev := prev0;
      AtomHead(base, a, cap, off);
      if code[prev] == EXACT && code[prev + 2] > 1 {
        code[prev + 2] := code[prev + 2] - 1;
        assert Code() == base + HeadBytes(a, off);
        Emit3(EXACT, code[prev + 1] + code[prev + 2], 1);
        prev := codeSize - 3;
      } else {
        assert base + [] == base;
      }
    }

    method Quantifier(prev0: nat, op: byte, ghost base: seq<byte>, ghost a: Atom, ghost q: Quant, ghost cap: nat,
                      ghost off: nat)
      requires Valid() && Code() == base + AtomBytes(a, cap, off) && prev0 == |base| >= 1
      requires WfAtom(a) && q != Once && op == LoopOp(q) && off + |AtomData(a)| <= 255
      requires |base| + |QuantBytes(a, q, cap, off)| <= SIZE
      modifies `codeSize, `errStr, code
      ensures Valid() && errStr == old(errStr) && Code() == base + QuantBytes(a, q, cap, off)
    {
      ghost var h, u := HeadBytes(a, off), UnitBytes(a, cap, off);
      assert QuantBytes(a, q, cap, off) == h + LoopBytes(op, u);
      var prev := SplitLiteral(prev0, base, a, cap, off);
      Wrap(prev, op, base + h, u);
      Regroup(base, h, LoopBytes(op, u));
    }

    method ExactOneChar(ch: char)
      requires Valid() && codeSize + 3 <= SIZE && dataSize < SIZE
      modifies `codeSize, `dataSize, `errStr, code, data
      ensures Valid() && errStr == old(errStr)
      ensures Code() == old(Code()) + [EXACT, Byte(old(dataSize)), 1] && Data() == old(Data()) + [ch]
    {
      Emit3(EXACT, dataSize, 1);
      StoreCharInData(ch);
    }

    /** Ends the alternative whose branch awaits its second operand at `fixup`; 0 means there is none. */
    method FixupBranch(fixup: nat, ghost base: seq<byte>, ghost left: Option<seq<byte>>, ghost right: seq<byte>)
      requires Valid() && |base| >= 1
      requires fixup == (if left.Some? then |base| + 2 else 0)
      requires Code() == base + if left.Some? then OpenBranch(left.value, right) else right
      requires |base| + |Join(left, right)| <= SIZE
      modifies `codeSize, `errStr, code
      ensures Valid() && errStr == old(errStr) && Code() == base + Join(left, right)
    {
      if fixup > 0 {
        Emit(END);
        SetJumpOffset(fixup, fixup - 2);
        PatchBranch(base, left.value, right);
      }
    }

    /** Puts a branch header in front of the finished alternative at `start`. */
    method OpenBranchAt(start: nat, ghost base: seq<byte>, ghost left: seq<byte>) returns (fixup: nat)
      requires Valid() && Code() == base + left && start == |base| >= 1 && codeSize + 4 <= SIZE
      modifies `codeSize, `errStr, code
      ensures Valid() && errStr == old(errStr) && fixup == start + 2
      ensures Code() == base + OpenBranch(left, [])
    {
      Relocate(start, 3);
      assert Code()[start + 3..] == left + [END];
      code[start] := BRANCH;
      SetJumpOffset(start + 1, start);
      fixup := start + 2;
      code[fixup] := 0xff;
      assert Code()[..start] == base;
      assert Code()[start..start + 3] == [BRANCH, Byte(|left| + 4), 255];
      Rejoin(Code(), start, start + 3, base, [BRANCH, Byte(|left| + 4), 255], left + [END]);
      assert [BRANCH, Byte(|left| + 4), 255] + (left + [END]) == OpenBranch(left, []);
    }

    // -------------------------------------------------------- the one-pass compiler

    /** One atom: any byte, a set, an escape, a bracketed group or a literal run. */
    method CompileAtom(re: string, pos0: nat, ghost a: Atom) returns (pos: nat)
      requires Valid() && codeSize >= 1 && IsCString(re)
      requires WfAtom(a) && TextAt(re, pos0, PrintAtom(a))
      requires a.Lit? ==> !IsLitChar(CharAt(re, pos0 + |a.w|))
      requires codeSize + |AtomBytes(a, numCaps, dataSize)| <= SIZE && dataSize + |AtomData(a)| <= 255
      modifies `codeSize, `dataSize, `numCaps, `errStr, code, data
      ensures Valid() && errStr == old(errStr) && pos == pos0 + |PrintAtom(a)|
      ensures Code() == old(Code()) + AtomBytes(a, old(numCaps), old(dataSize))
      ensures Data() == old(Data()) + AtomData(a) && numCaps == old(numCaps) + AtomCaps(a)
      decreases |re| - pos0, 0, 1
    {
      AtomStart(re, pos0, a);
      match re[pos0] {
        case '.' =>
          Emit(ANY);
          pos := pos0 + 1;
        case '[' =>
          pos := AnyOfSet(re, pos0 + 1, a.neg, a.items, true);
        case '\\' =>
          var esc;
          esc, pos := GetEscapeChar(re, pos0 + 1);
          if IsClass(esc) {
            Emit(esc / 256);
          } else {
            ExactOneChar((esc % 256) as char);
          }
        case '(' =>
          pos := CompileGroup(re, pos0, a);
        case _ =>
          pos := Exact(re, pos0, a.w);
      }
    }

    method CompileGroup(re: string, pos0: nat, ghost a: Atom) returns (pos: nat)
      requires Valid() && codeSize >= 1 && IsCString(re)
      requires WfAtom(a) && a.Group? && TextAt(re, pos0, PrintAtom(a))
      requires codeSize + |AtomBytes(a, numCaps, dataSize)| <= SIZE && dataSize + |AtomData(a)| <= 255
      modifies `codeSize, `dataSize, `numCaps, `errStr, code, data
      ensures Valid() && errStr == old(errStr) && pos == pos0 + |PrintAtom(a)|
      ensures Code() == old(Code()) + AtomBytes(a, old(numCaps), old(dataSize))
      ensures Data() == old(Data()) + AtomData(a) && numCaps == old(numCaps) + AtomCaps(a)
      decreases |re| - pos0, 0, 0
    {
      AtomStart(re, pos0, a);
      ghost var c, off := Code(), dataSize;
      numCaps := numCaps + 1;
      var capNo := numCaps;
      Emit(OPEN);
      Emit(capNo);
      ghost var h := Code();
      pos := Compile(re, pos0 + 1, a.alt);
      pos := pos + 1;
      Emit(CLOSE);
      Emit(capNo);
      Bracketed(c, h, Code(), AltBytes(a.alt, capNo, off, true), capNo);
    }

    /** The compiler has reached `pos` of one bracket level. */
    ghost predicate Level(j: Job, pr: Progress, fixup: nat, lastOp: nat, pos: nat)
      reads this, code, data
    {
      && Valid() && j.Reached(pr, Code(), Data(), numCaps, pos)
      && fixup == Fixup(j.base, pr)
      && (pr.pend.Some? ==> lastOp == |Front(j.base, pr)|)
    }

    /** A piece up to its quantifier: an anchor or an atom. */
    method CompilePiece(re: string, pos0: nat, lastOp0: nat, ghost j: Job, ghost pr: Progress, ghost fixup: nat)
      returns (pos: nat, lastOp: nat, ghost nx: Progress)
      requires re == j.re && Level(j, pr, fixup, lastOp0, pos0)
      requires CharAt(re, pos0) !in "|+*?)" && CharAt(re, pos0) != 0 as char
      modifies `codeSize, `dataSize, `numCaps, `errStr, code, data
      ensures Level(j, nx, fixup, lastOp, pos) && errStr == old(errStr) && pos > pos0
      decreases |re| - pos0, 2
    {
      ghost var c, d, n := Code(), Data(), numCaps;
      PieceStep(j, pr, c, d, n, pos0);
      AdvanceFront(j.base, pr, n, |d|);
      lastOp := if re[pos0] == '^' || re[pos0] == '$' then lastOp0 else codeSize;
      pos := CompileFirst(re, pos0, pr.rem.head);
      nx := pr.Advance(n, |d|);
      PieceDone(j, pr, nx, c, d, n, pos0, Code(), Data(), numCaps, pos);
    }

    method CompileFirst(re: string, pos0: nat, ghost p: Piece) returns (pos: nat)
      requires Valid() && codeSize >= 1 && IsCString(re) && pos0 < |re|
      requires (p.Item? ==> WfAtom(p.atom)) && StartsPiece(re, pos0, p, re[pos0])
      requires codeSize + |FirstBytes(p, numCaps, dataSize)| <= SIZE && dataSize + |PieceData(p)| <= 255
      modifies `codeSize, `dataSize, `numCaps, `errStr, code, data
      ensures Valid() && errStr == old(errStr) && pos == pos0 + |FirstPart(p)| > pos0
      ensures Code() == old(Code()) + FirstBytes(p, old(numCaps), old(dataSize))
      ensures Data() == old(Data()) + PieceData(p) && numCaps == old(numCaps) + PieceCaps(p)
      decreases |re| - pos0, 1
    {
      FirstPartNonempty(p);
      if re[pos0] == '^' {
        assert p.Bol?;
        Emit(BOL);
        pos := pos0 + 1;
      } else if re[pos0] == '$' {
        assert p.Eol?;
        Emit(EOL);
        pos := pos0 + 1;
      } else {
        assert p.Item?;
        pos := CompileAtom(re, pos0, p.atom);
      }
    }

    /**
     Compiles one bracket level. Every '|' shifts what has been emitted at this level
     to make room for a branch header; every quantifier shifts the last atom.
     */
    method Compile(re: string, pos0: nat, ghost alt: Alt) returns (pos: nat)
      requires Valid() && codeSize >= 1 && IsCString(re)
      requires WfAlt(alt) && TextAt(re, pos0, PrintAlt(alt)) && EndsLevel(re, pos0 + |PrintAlt(alt)|)
      requires codeSize + |AltBytes(alt, numCaps, dataSize, true)| <= SIZE && dataSize + |AltData(alt)| <= 255
      modifies `codeSize, `dataSize, `numCaps, `errStr, code, data
      ensures Valid() && pos == pos0 + |PrintAlt(alt)|
      ensures Code() == old(Code()) + AltBytes(alt, old(numCaps), old(dataSize), pos < |re|)
      ensures Data() == old(Data()) + AltData(alt) && numCaps == old(numCaps) + AltCaps(alt)
      ensures errStr == if pos < |re| && old(numCaps) == 0 then "Unbalanced brackets" else old(errStr)
      decreases |re| - pos0, 5
    {
      ghost var end := pos0 + |PrintAlt(alt)|;
      ghost var j := Job(Code(), re, end, Code() + AltBytes(alt, numCaps, dataSize, end < |re|), Data() + AltData(alt),
                         numCaps + AltCaps(alt));
      JobStart(j, alt, numCaps, Data(), pos0);
      pos := CompileLevel(re, pos0, j, Start(alt));
    }

    /** The loop over the bytes of one bracket level. */
    method CompileLevel(re: string, pos0: nat, ghost j: Job, ghost start: Progress) returns (pos: nat)
      requires re == j.re && Level(j, start, 0, codeSize, pos0) && |j.base| == codeSize
      modifies `codeSize, `dataSize, `numCaps, `errStr, code, data
      ensures Valid() && pos == j.end && Code() == j.code && Data() == j.data && numCaps == j.caps
      ensures errStr == if pos < |re| && old(numCaps) == 0 then "Unbalanced brackets" else old(errStr)
      decreases |re| - pos0, 4
    {
      var fixup, level, branchStart, lastOp := 0, numCaps, codeSize, codeSize;
      pos := pos0;
      ghost var pr := start;
      while true
        invariant Level(j, pr, fixup, lastOp, pos) && errStr == old(errStr) && pos0 <= pos
        decreases |re| - pos
      {
        var c := CharAt(re, pos);
        if c == 0 as char {
          EndStep(j, pr, Code(), Data(), numCaps, pos);
          return;
        } else if c == ')' {
          CompileClose(pos, fixup, lastOp, level, j, pr);
          return;
        } else {
          pos, fixup, lastOp, pr := CompileNext(re, pos, fixup, lastOp, branchStart, j, pr);
        }
      }
    }

    method CompileNext(re: string, pos0: nat, fixup0: nat, lastOp0: nat, branchStart: nat, ghost j: Job,
                       ghost pr: Progress)
      returns (pos: nat, fixup: nat, lastOp: nat, ghost nx: Progress)
      requires re == j.re && Level(j, pr, fixup0, lastOp0, pos0) && branchStart == |j.base|
      requires CharAt(re, pos0) != ')' && CharAt(re, pos0) != 0 as char
      modifies `codeSize, `dataSize, `numCaps, `errStr, code, data
      ensures Level(j, nx, fixup, lastOp, pos) && errStr == old(errStr) && pos0 < pos
      decreases |re| - pos0, 3
    {
      var c := CharAt(re, pos0);
      pos, fixup, lastOp := pos0 + 1, fixup0, lastOp0;
      if c == '|' {
        fixup, nx := CompileBar(pos0, fixup0, lastOp0, branchStart, j, pr);
      } else if c == '+' || c == '*' || c == '?' {
        nx := CompileQuantifier(c, pos0, fixup0, lastOp0, j, pr);
      } else {
        pos, lastOp, nx := CompilePiece(re, pos0, lastOp0, j, pr, fixup0);
      }
    }

    /** A ')': the last alternative is finished. */
    method CompileClose(pos: nat, fixup: nat, ghost lastOp: nat, level: nat, ghost j: Job, ghost pr: Progress)
      requires Level(j, pr, fixup, lastOp, pos) && CharAt(j.re, pos) == ')'
      modifies `codeSize, `errStr, code
      ensures Valid() && Code() == j.code && Data() == j.data && numCaps == j.caps && pos == j.end < |j.re|
      ensures errStr == if level == 0 then "Unbalanced brackets" else old(errStr)
    {
      CloseStep(j, pr, Code(), Data(), numCaps, pos);
      FixupBranch(fixup, j.base, pr.left, pr.done);
      if level == 0 {
        errStr := "Unbalanced brackets";
      }
    }

    /** A '|': the alternative before it is finished and becomes the left side of a branch. */
    method CompileBar(pos: nat, fixup0: nat, ghost lastOp: nat, branchStart: nat, ghost j: Job, ghost pr: Progress)
      returns (fixup: nat, ghost nx: Progress)
      requires Level(j, pr, fixup0, lastOp, pos) && CharAt(j.re, pos) == '|' && branchStart == |j.base|
      modifies `codeSize, `errStr, code
      ensures Level(j, nx, fixup, lastOp, pos + 1) && errStr == old(errStr) && pos < |j.re|
    {
      TurnStep(j, pr, Code(), Data(), numCaps, pos);
      FixupBranch(fixup0, j.base, pr.left, pr.done);
      fixup := OpenBranchAt(branchStart, j.base, Join(pr.left, pr.done));
      nx := pr.Turn();
    }

    /**
     A quantifier: a loop header in front of the last atom. A '?' after '+' or '*' would
     ask for a non-greedy loop.
     */
    method CompileQuantifier(c: char, pos: nat, ghost fixup: nat, lastOp: nat, ghost j: Job, ghost pr: Progress)
      returns (ghost nx: Progress)
      requires Level(j, pr, fixup, lastOp, pos) && CharAt(j.re, pos) == c && c in "+*?"
      modifies `codeSize, `errStr, code
      ensures Level(j, nx, fixup, lastOp, pos + 1) && errStr == old(errStr) && pos < |j.re|
    {
      QuantStep(j, pr, Code(), Data(), numCaps, pos);
      var op := if c == '*' then STAR else if c == '+' then PLUS else QUEST;
      ghost var v := pr.pend.value;
      Quantifier(lastOp, op, Front(j.base, pr), v.a, v.q, v.cap, v.off);
      nx := pr.Settle();
    }

    /** Compiles a pattern. Every well-formed pattern that fits the buffers compiles to the layout of its program. */
    method SlreCompile(re: string, ghost alt: Alt) returns (ok: bool)
      requires Valid() && WfAlt(alt) && re == PrintAlt(alt) && IsCString(re) && re != ""
      requires |PatternBytes(alt)| <= SIZE && |AltData(alt)| <= 255
      modifies this, code, data
      ensures Valid() && ok && errStr == ""
      ensures Code() == Gen(Lower(alt)) && Data() == AltData(alt) && numCaps == AltCaps(alt)
      ensures Loaded(0, Lower(alt)) && CapsBelow(Lower(alt), numCaps + 1)
      ensures WfBlock(Code(), dataSize, 0, codeSize)
      ensures anchored <==> re[0] == '^'
    {
      errStr := "";
      codeSize, dataSize, numCaps := 0, 0, 0;
      anchored := CharAt(re, 0) == '^';
      CompileAll(re, alt);
      FixupTop(alt);
      CompileEnd(alt);
      ok := errStr == "";
    }

    /** The last three bytes complete the code of the pattern. */
    method CompileEnd(ghost alt: Alt)
      requires Valid() && WfAlt(alt) && Code() == [OPEN, 0] + AltBytes(alt, 0, 0, true)
      requires |PatternBytes(alt)| <= SIZE && Data() == AltData(alt) && |AltData(alt)| <= 255 && numCaps == AltCaps(alt)
      modifies `codeSize, `errStr, code
      ensures Valid() && errStr == old(errStr) && Code() == Gen(Lower(alt))
      ensures Loaded(0, Lower(alt)) && CapsBelow(Lower(alt), numCaps + 1) && WfBlock(Code(), dataSize, 0, codeSize)
    {
      Emit3(CLOSE, 0, END);
      CompiledOk(alt, Code());
    }

    method CompileAll(re: string, ghost alt: Alt)
      requires Valid() && WfAlt(alt) && re == PrintAlt(alt) && IsCString(re) && re != ""
      requires codeSize == dataSize == numCaps == 0 && |PatternBytes(alt)| <= SIZE && |AltData(alt)| <= 255
      modifies `codeSize, `dataSize, `numCaps, `errStr, code, data
      ensures Valid() && errStr == old(errStr) && Code() == [OPEN, 0] + AltBytes(alt, 0, 0, false)
      ensures Data() == AltData(alt) && numCaps == AltCaps(alt)
    {
      Emit(OPEN);
      Emit(0);
      assert Code() == [OPEN, 0] && Data() == "";
      AltBytesLength(alt, 0, 0);
      var pos := 0;
      while CharAt(re, pos) != 0 as char
        invariant Valid() && errStr == old(errStr) && (pos == 0 || pos == |re|)
        invariant pos == 0 ==> Code() == [OPEN, 0] && Data() == "" && numCaps == 0
        invariant pos > 0 ==> Code() == [OPEN, 0] + AltBytes(alt, 0, 0, false)
        invariant pos > 0 ==> Data() == AltData(alt) && numCaps == AltCaps(alt)
        decreases |re| - pos
      {
        pos := Compile(re, pos, alt);
      }
    }

    /** Ends the branch of the top level, which no closing bracket ends. */
    method FixupTop(ghost alt: Alt)
      requires Valid() && WfAlt(alt) && PrintAlt(alt) != "" && Code() == [OPEN, 0] + AltBytes(alt, 0, 0, false)
      requires |PatternBytes(alt)| <= SIZE
      modifies `codeSize, `errStr, code
      ensures Valid() && errStr == old(errStr) && Code() == [OPEN, 0] + AltBytes(alt, 0, 0, true)
    {
      TopLevel(alt);
      if code[2] == BRANCH {
        ghost var l, r := BarsParts(PiecesBytes(alt.ps, 0, 0), alt.more, PiecesCaps(alt.ps), |PiecesData(alt.ps)|);
        FixupBranch(4, [OPEN, 0], Some(l), r);
      }
    }

    // -------------------------------------------------------------- the interpreter

    /** Block `p` stands at `pc`. */
    ghost predicate Loaded(pc: nat, p: Prog)
      requires Valid()
      reads this, code, data
    {
      Stands(Code(), pc, Gen(p)) && DataOk(p, Data()) && CapsBelow(p, 256)
    }

    lemma EnterBody(pc: nat, q: Prog)
      requires Valid() && Loaded(pc, q) && Productive(q) && q.Op? && (q.ins.Star? || q.ins.Plus? || q.ins.Quest?)
      ensures pc + 2 < codeSize && code[pc + 1] == |GenInstr(q.ins)|
      ensures Loaded(pc + 2, q.ins.body) && Loaded(pc + code[pc + 1], q.next)
      ensures Productive(q.ins.body) && q.ins.body < q
    {
      EnterLoop(Code(), pc, q);
      assert InstrProductive(q.ins) && InstrDataOk(q.ins, Data()) && InstrCapsBelow(q.ins, 256);
    }

    lemma EnterSides(pc: nat, q: Prog)
      requires Valid() && Loaded(pc, q) && Productive(q) && q.Op? && q.ins.Branch?
      ensures pc + 3 < codeSize && code[pc + 2] == |GenInstr(q.ins)|
      ensures Loaded(pc + 3, q.ins.left) && Loaded(pc + code[pc + 1], q.ins.right)
      ensures Productive(q.ins.left) && Productive(q.ins.right) && q.ins.left < q && q.ins.right < q
    {
      EnterBranch(Code(), pc, q);
      assert InstrProductive(q.ins) && InstrDataOk(q.ins, Data()) && InstrCapsBelow(q.ins, 256);
    }

    lemma NextLoaded(pc: nat, q: Prog)
      requires Valid() && Loaded(pc, q) && q.Op?
      ensures Loaded(pc + |GenInstr(q.ins)|, q.next)
    {
      StandsSplit(Code(), pc, GenInstr(q.ins), Gen(q.next));
    }

    /** Runs the body as often as it matches; ends at the last boundary from which the code after the loop matches. */
    method LoopGreedy(pc: nat, s: string, ofs0: nat, ghost p: Prog) returns (ofs: nat)
      requires Valid() && Loaded(pc, p) && IsLoop(p) && Productive(p) && ofs0 <= |s|
      ensures ofs == Greedy(p, s, ofs0, ofs0)
      decreases p, 0
    {
      EnterBody(pc, p);
      var savedOffset: nat, matchedOffset: nat := ofs0, ofs0;
      var more;
      more, ofs := Match(pc + 2, s, ofs0, null, p.ins.body);
      while more
        invariant savedOffset <= |s| && matchedOffset <= savedOffset
        invariant more == Run(p.ins.body, s, savedOffset, []).ok
        invariant more ==> ofs == Run(p.ins.body, s, savedOffset, []).ofs
        invariant Greedy(p, s, savedOffset, matchedOffset) == Greedy(p, s, ofs0, ofs0)
        decreases |s| - savedOffset, more
      {
        savedOffset := ofs;
        var rest, _ := Match(pc + code[pc + 1], s, savedOffset, null, p.next);
        if rest {
          matchedOffset := savedOffset;
        }
        more, ofs := Match(pc + 2, s, savedOffset, null, p.ins.body);
      }
      ofs := matchedOffset;
    }

    /** Interprets the block at `pc0`; without a capture array (null) captures are not recorded. */
    method Match(pc0: nat, s: string, ofs0: nat, caps: array?<Cap>, ghost p: Prog) returns (res: bool, ofs: nat)
      requires Valid() && Loaded(pc0, p) && Productive(p) && ofs0 <= |s|
      requires caps != null ==> CapsBelow(p, caps.Length)
      modifies caps
      ensures var o := Run(p, s, ofs0, old(CapsOf(caps)));
        res == o.ok && (res ==> ofs == o.ofs) && CapsOf(caps) == o.caps
      decreases p, 4
    {
      var pc: nat := pc0;
      res, ofs := true, ofs0;
      ghost var q, goal := p, Run(p, s, ofs0, CapsOf(caps));
      AtOpcode(Code(), pc, q);
      while res && code[pc] != END
        invariant res ==> Loaded(pc, q) && Productive(q) && ofs <= |s|
        invariant res ==> pc < codeSize && code[pc] == if q.Halt? then END else Opcode(q.ins)
        invariant res ==> (caps != null ==> CapsBelow(q, caps.Length)) && (q == p || q < p)
        invariant res ==> Run(q, s, ofs, CapsOf(caps)) == goal
        invariant !res ==> !goal.ok && goal.caps == CapsOf(caps)
        decreases q, res
      {
        res, ofs, pc := StepOn(pc, s, ofs, caps, q);
        if res { q := q.next; }
      }
    }

    /** One turn of the loop, for an instruction that is not the last. */
    method StepOn(pc0: nat, s: string, ofs0: nat, caps: array?<Cap>, ghost q: Prog)
      returns (res: bool, ofs: nat, pc: nat)
      requires Valid() && Loaded(pc0, q) && Productive(q) && ofs0 <= |s| && q.Op?
      requires caps != null ==> CapsBelow(q, caps.Length)
      modifies caps
      ensures res ==> Loaded(pc, q.next) && Productive(q.next) && ofs <= |s|
      ensures res ==> pc < codeSize && code[pc] == if q.next.Halt? then END else Opcode(q.next.ins)
      ensures res ==> caps != null ==> CapsBelow(q.next, caps.Length)
      ensures res ==> Run(q.next, s, ofs, CapsOf(caps)) == Run(q, s, ofs0, old(CapsOf(caps)))
      ensures !res ==> !Run(q, s, ofs0, old(CapsOf(caps))).ok && Run(q, s, ofs0, old(CapsOf(caps))).caps == CapsOf(caps)
      decreases q, 3
    {
      NextLoaded(pc0, q);
      res, ofs, pc := Step(pc0, s, ofs0, caps, q);
      if res { AtOpcode(Code(), pc, q.next); }
    }

    /** One instruction. */
    method Step(pc0: nat, s: string, ofs0: nat, caps: array?<Cap>, ghost q: Prog)
      returns (res: bool, ofs: nat, pc: nat)
      requires Valid() && Loaded(pc0, q) && Productive(q) && ofs0 <= |s| && q.Op?
      requires caps != null ==> InstrCapsBelow(q.ins, caps.Length)
      modifies caps
      ensures var o := Exec(q, s, ofs0, old(CapsOf(caps)));
        res == o.ok && (res ==> ofs == o.ofs && pc == pc0 + |GenInstr(q.ins)|) && CapsOf(caps) == o.caps
      decreases q, 2
    {
      AtOpcode(Code(), pc0, q);
      var op := code[pc0];
      if op == BRANCH {
        res, ofs, pc := StepBranch(pc0, s, ofs0, caps, q);
      } else if op == QUEST {
        res, ofs, pc := StepQuest(pc0, s, ofs0, caps, q);
      } else if op == STAR || op == PLUS {
        res, ofs, pc := StepLoop(pc0, s, ofs0, caps, q);
      } else {
        res, ofs, pc := StepFlat(pc0, s, ofs0, caps, q);
      }
    }

    /** BRANCH: the second alternative is tried only when the first one does not match here. */
    method StepBranch(pc0: nat, s: string, ofs0: nat, caps: array?<Cap>, ghost q: Prog)
      returns (res: bool, ofs: nat, pc: nat)
      requires Valid() && Loaded(pc0, q) && Productive(q) && ofs0 <= |s| && q.Op? && q.ins.Branch?
      requires caps != null ==> InstrCapsBelow(q.ins, caps.Length)
      modifies caps
      ensures var o := Exec(q, s, ofs0, old(CapsOf(caps)));
        res == o.ok && (res ==> ofs == o.ofs && pc == pc0 + |GenInstr(q.ins)|) && CapsOf(caps) == o.caps
      decreases q, 1
    {
      EnterSides(pc0, q);
      res, ofs := Match(pc0 + 3, s, ofs0, caps, q.ins.left);
      if !res {
        res, ofs := Match(pc0 + code[pc0 + 1], s, ofs0, caps, q.ins.right);
      }
      pc := pc0 + code[pc0 + 2];
    }

    method StepQuest(pc0: nat, s: string, ofs0: nat, caps: array?<Cap>, ghost q: Prog)
      returns (res: bool, ofs: nat, pc: nat)
      requires Valid() && Loaded(pc0, q) && Productive(q) && ofs0 <= |s| && q.Op? && q.ins.Quest?
      requires caps != null ==> InstrCapsBelow(q.ins, caps.Length)
      modifies caps
      ensures var o := Exec(q, s, ofs0, old(CapsOf(caps)));
        res == o.ok && (res ==> ofs == o.ofs && pc == pc0 + |GenInstr(q.ins)|) && CapsOf(caps) == o.caps
      decreases q, 1
    {
      EnterBody(pc0, q);
      res, ofs := Match(pc0 + 2, s, ofs0, caps, q.ins.body);
      if !res {
        res, ofs := true, ofs0;
      }
      pc := pc0 + code[pc0 + 1];
    }

    /** STAR and PLUS. */
    method StepLoop(pc0: nat, s: string, ofs0: nat, caps: array?<Cap>, ghost q: Prog)
      returns (res: bool, ofs: nat, pc: nat)
      requires Valid() && Loaded(pc0, q) && Productive(q) && ofs0 <= |s| && q.Op? && IsLoop(q)
      requires caps != null ==> InstrCapsBelow(q.ins, caps.Length)
      modifies caps
      ensures var o := Exec(q, s, ofs0, old(CapsOf(caps)));
        res == o.ok && (res ==> ofs == o.ofs && pc == pc0 + |GenInstr(q.ins)|) && CapsOf(caps) == o.caps
      decreases q, 1
    {
      EnterBody(pc0, q);
      AtOpcode(Code(), pc0, q);
      res, ofs := true, ofs0;
      if code[pc0] == PLUS {
        res, ofs := Match(pc0 + 2, s, ofs0, caps, q.ins.body);
      }
      if res {
        ofs := LoopGreedy(pc0, s, ofs, q);
      }
      pc := pc0 + code[pc0 + 1];
    }

    /** EXACT, ANYOF and ANYBUT: instructions with bytes in the data section. */
    method StepData(pc0: nat, s: string, ofs0: nat, ghost q: Prog) returns (res: bool, ofs: nat, pc: nat)
      requires Valid() && Loaded(pc0, q) && ofs0 <= |s| && q.Op?
      requires IsDataInstr(q.ins)
      ensures res == DataStepOk(q.ins, s, ofs0)
      ensures res ==> ofs == ofs0 + if q.ins.Exact? then |q.ins.w| else 1
      ensures pc == pc0 + |GenInstr(q.ins)|
    {
      AtOpcode(Code(), pc0, q);
      DataOperands(Code(), pc0, q, Data());
      res, ofs, pc := false, ofs0, pc0 + 3;
      var op, off, n := code[pc0], code[pc0 + 1], code[pc0 + 2];
      assert data[off..off + n] == Data()[off..off + n];
      if op == EXACT {
        if n <= |s| - ofs && s[ofs..ofs + n] == data[off..off + n] {
          res, ofs := true, ofs + n;
        }
      } else if ofs < |s| {
        var found := InData(off, n, s[ofs]);
        if found == (op == ANYOF) {
          res, ofs := true, ofs + 1;
        }
      }
    }

    /** The other instructions. */
    method StepFlat(pc0: nat, s: string, ofs0: nat, caps: array?<Cap>, ghost q: Prog)
      returns (res: bool, ofs: nat, pc: nat)
      requires Valid() && Loaded(pc0, q) && Productive(q) && ofs0 <= |s| && q.Op?
      requires !HasBlock(q.ins)
      requires caps != null ==> InstrCapsBelow(q.ins, caps.Length)
      modifies caps
      ensures var o := Exec(q, s, ofs0, old(CapsOf(caps)));
        res == o.ok && (res ==> ofs == o.ofs && pc == pc0 + |GenInstr(q.ins)|) && CapsOf(caps) == o.caps
    {
      AtOpcode(Code(), pc0, q);
      CapOperand(Code(), pc0, q);
      res, ofs, pc := true, ofs0, pc0 + 1;
      var op := code[pc0];
      if op == EXACT || op == ANYOF || op == ANYBUT {
        res, ofs, pc := StepData(pc0, s, ofs0, q);
      } else if op == BOL {
        res := ofs == 0;
      } else if op == EOL {
        res := ofs == |s|;
      } else if op == OPEN {
        var n := code[pc0 + 1];
        if caps != null { caps[n] := caps[n].(ptr := ofs); }
        pc := pc0 + 2;
      } else if op == CLOSE {
        var n := code[pc0 + 1];
        if caps != null { caps[n] := caps[n].(len := ofs - caps[n].ptr); }
        pc := pc0 + 2;
      } else {
        res := ofs < |s| && (op == SPACE ==> IsSpace(s[ofs])) && (op == NONSPACE ==> !IsSpace(s[ofs]))
                         && (op == DIGIT ==> IsDigit(s[ofs]));
        if res { ofs := ofs + 1; }
      }
    }

    /** Tries every start position, or only the first one when the pattern begins with '^'. */
    method SlreMatch(s: string, caps: array?<Cap>, ghost p: Prog) returns (res: bool)
      requires Valid() && Loaded(0, p) && Productive(p)
      requires caps != null ==> CapsBelow(p, caps.Length)
      modifies caps
      ensures var o := Search(p, anchored, s, old(CapsOf(caps))); res == o.ok && CapsOf(caps) == o.caps
    {
      var ofs := 0;
      if anchored {
        res, ofs := Match(0, s, 0, caps, p);
      } else {
        var i := 0;
        res := false;
        while i < |s| && !res
          invariant i <= |s|
          invariant if res then SearchFrom(p, s, 0, old(CapsOf(caps))) == Out(true, ofs, CapsOf(caps))
                    else SearchFrom(p, s, 0, old(CapsOf(caps))) == SearchFrom(p, s, i, CapsOf(caps))
        {
          res, ofs := Match(0, s, i, caps, p);
          i := i + 1;
        }
      }
    }

    /** Is the subject byte, a signed char, among the `n` unsigned bytes of data at `off`? */
    method InData(off: nat, n: nat, c: char) returns (found: bool)
      requires off + n <= data.Length
      ensures found == InSet(data[off..off + n], c)
    {
      var ch := if c as int < 128 then c as int else c as int - 256;
      found := false;
      for i := 0 to n
        invariant c as int < 128 ==> c !in data[off..off + i]
      {
        assert data[off..off + i + 1] == data[off..off + i] + [data[off + i]];
        if data[off + i] as int == ch {
          return c as int < 128;
        }
      }
    }
  }

  /** A block behind a header that has been put in front of it matches as it did before, wherever it was. */
  method MatchMoved(here: Engine, there: Engine, pc: nat, ofs: nat, s: string, caps: array<Cap>, moved: array<Cap>,
                    ghost begin: nat, gapSize: nat, ghost gap: seq<byte>, ghost p: Prog)
    returns (a: bool, i: nat, b: bool, j: nat)
    requires here.Valid() && there.Valid() && here.Loaded(pc, p) && Productive(p) && ofs <= |s|
    requires begin <= pc && |gap| == gapSize && there.Code() == here.Code()[..begin] + gap + here.Code()[begin..]
    requires there.Data() == here.Data() && caps != moved && caps[..] == moved[..] && CapsBelow(p, caps.Length)
    modifies caps, moved
    ensures a == b && (a ==> i == j) && caps[..] == moved[..]
  {
    RelocationKeepsBlock(here.Code(), begin, gap, pc, p);
    assert caps.Length == |caps[..]| == |moved[..]| == moved.Length;
    a, i := here.Match(pc, s, ofs, caps, p);
    b, j := there.Match(pc + gapSize, s, ofs, moved, p);
  }

  ghost function CapsOf(caps: array?<Cap>): seq<Cap>
    reads caps
  {
    if caps == null then [] else caps[..]
  }

  lemma AdvanceFront(base: seq<byte>, pr: Progress, cap: nat, off: nat)
    requires pr.pend.None? && pr.rem.PCons?
    ensures var nx := pr.Advance(cap, off);
      && Fixup(base, nx) == Fixup(base, pr)
      && (nx.pend.Some? ==> pr.rem.head.Item? && Front(base, nx) == Front(base, pr))
  {
  }

  lemma Bracketed(c: seq<byte>, h: seq<byte>, all: seq<byte>, b: seq<byte>, n: nat)
    requires h == c + [OPEN] + [Byte(n)] && all == h + b + [CLOSE] + [Byte(n)]
    ensures all == c + ([OPEN, Byte(n)] + b + [CLOSE, Byte(n)])
  {
  }

  lemma Rejoin<T>(c: seq<T>, i: nat, j: nat, u: seq<T>, v: seq<T>, w: seq<T>)
    requires i <= j <= |c| && c[..i] == u && c[i..j] == v && c[j..] == w
    ensures c == u + (v + w) && c == u + v + w
  {
    assert c == c[..i] + (c[i..j] + c[j..]);
  }

  /** Only a literal of two bytes or more is split before a quantifier. */
  lemma AtomHead(base: seq<byte>, a: Atom, cap: nat, off: nat)
    requires WfAtom(a) && off + |AtomData(a)| <= 255
    ensures var c := base + AtomBytes(a, cap, off); var p := |base|;
            && c[p] == AtomBytes(a, cap, off)[0]
            && (c[p] == EXACT ==> |c| == p + 3)
            && (c[p] == EXACT && c[p + 2] > 1 <==> a.Lit? && |a.w| > 1)
  {
    if a.Esc? && IsClass(EscapeCode(a.c)) {
      assert EscapeCode(a.c) / 256 in {15, 16, 17};
    }
  }

  lemma PatchThird<T>(base: seq<T>, a: T, b: T, x: T, y: T, u: seq<T>, e: T, v: seq<T>)
    ensures (base + ([a, b, x] + u + [e] + v) + [e])[|base| + 2 := y] == base + ([a, b, y] + u + [e] + v + [e])
  {
  }

  lemma PatchBranch(base: seq<byte>, left: seq<byte>, right: seq<byte>)
    ensures var c := base + OpenBranch(left, right) + [END];
            c[|base| + 2 := Byte(|left| + |right| + 5)] == base + ClosedBranch(left, right)
  {
    PatchThird(base, BRANCH, Byte(|left| + 4), 255, Byte(|left| + |right| + 5), left, END, right);
  }

  lemma SetStart(re: string, pos: nat, neg: bool, items: seq<SetItem>, closed: bool)
    requires WfAtom(Set(neg, items)) && TextAt(re, pos, SetText(neg, items, closed)) && IsCString(re)
    requires !closed ==> pos + |SetText(neg, items, closed)| == |re|
    ensures CharAt(re, pos) == '^' <==> neg
    ensures SetRest(re, pos + (if neg then 1 else 0), items, if closed then "]" else "")
    ensures |SetText(neg, items, closed)| == (if neg then 1 else 0) + |PrintItems(items)| + (if closed then 1 else 0)
  {
    var end := if closed then "]" else "";
    if neg {
      NextSplit(re, pos, "^", PrintItems(items) + end);
    } else {
      assert "" + (PrintItems(items) + end) == PrintItems(items) + end;
      SplitItem(re, pos, items, end);
    }
  }

  lemma NoMembers(done: string)
    ensures done + SetData([]) == done && PrintItems([]) == ""
  {
  }

  lemma AppendItem(done: string, rem: seq<SetItem>)
    requires rem != []
    ensures done + SetData(rem) == (done + ItemData(rem[0])) + SetData(rem[1..])
    ensures |SetData(rem)| == |ItemData(rem[0])| + |SetData(rem[1..])|
    ensures |PrintItems(rem)| == (if rem[0].Plain? then 1 else 2) + |PrintItems(rem[1..])|
  {
  }

  /** What is left of a set: members and then its closing bracket or the end of the pattern. */
  ghost predicate SetRest(re: string, pos: nat, rem: seq<SetItem>, end: string) {
    && TextAt(re, pos, PrintItems(rem) + end) && WfItems(rem) && IsCString(re)
    && (end == "]" || (end == "" && pos + |PrintItems(rem) + end| == |re|))
  }

  lemma SplitItem(re: string, pos: nat, rem: seq<SetItem>, end: string)
    requires SetRest(re, pos, rem, end)
    ensures rem == [] ==> CharAt(re, pos) == if end == "]" then ']' else 0 as char
    ensures rem != [] ==> pos < |re| && IsCChar(re[pos]) && WfItem(rem[0])
    ensures rem != [] ==> re[pos] == if rem[0].Plain? then rem[0].c else '\\'
    ensures rem != [] && rem[0].Escaped? ==> pos + 1 < |re| && re[pos + 1] == rem[0].c
    ensures rem != [] ==> SetRest(re, pos + (if rem[0].Plain? then 1 else 2), rem[1..], end)
  {
    if rem == [] {
      NextSplit(re, pos, end, "");
    } else {
      var h := if rem[0].Plain? then [rem[0].c] else ['\\', rem[0].c];
      var t := PrintItems(rem[1..]) + end;
      assert PrintItems(rem) + end == h + t;
      NextSplit(re, pos, h, t);
      assert re[pos..pos + |h|][0] == re[pos];
      if rem[0].Escaped? {
        assert re[pos..pos + |h|][1] == re[pos + 1];
      }
      assert SetRest(re, pos + |h|, rem[1..], end);
    }
  }

  lemma FirstByte(ins: Instr)
    ensures GenInstr(ins)[0] == Opcode(ins) != END
  {
  }

  /** The opcode at `pc` tells the instruction. */
  lemma AtOpcode(c: seq<byte>, pc: nat, q: Prog)
    requires Stands(c, pc, Gen(q))
    ensures pc < |c| && c[pc] == if q.Halt? then END else Opcode(q.ins)
  {
    StandsHead(c, pc, Gen(q));
    if q.Op? { FirstByte(q.ins); }
  }

  /** An instruction with a body has it two bytes on and the code after it where its operand says. */
  lemma EnterLoop(c: seq<byte>, pc: nat, q: Prog)
    requires |c| <= SIZE && Stands(c, pc, Gen(q)) && q.Op? && (q.ins.Star? || q.ins.Plus? || q.ins.Quest?)
    ensures pc + 2 < |c| && c[pc + 1] == |GenInstr(q.ins)|
    ensures Stands(c, pc + 2, Gen(q.ins.body)) && Stands(c, pc + c[pc + 1], Gen(q.next))
  {
    var b := Gen(q.ins.body);
    assert GenInstr(q.ins) == LoopHeader(Opcode(q.ins), b) + b by {
      match q.ins
      case Star(_) =>
      case Plus(_) =>
      case Quest(_) =>
    }
    assert Gen(q) == LoopHeader(Opcode(q.ins), b) + b + Gen(q.next);
    BodyParts(c, pc, Opcode(q.ins), b, Gen(q.next));
  }

  lemma BodyParts(c: seq<byte>, pc: nat, op: byte, b: seq<byte>, rest: seq<byte>)
    requires |c| <= SIZE && Stands(c, pc, LoopHeader(op, b) + b + rest) && |rest| >= 1
    ensures pc + 2 < |c| && c[pc + 1] == |LoopHeader(op, b) + b|
    ensures Stands(c, pc + 2, b) && Stands(c, pc + c[pc + 1], rest)
  {
    StandsSplit(c, pc, LoopHeader(op, b) + b, rest);
    LoopParts(c, pc, op, b);
  }

  lemma EnterBranch(c: seq<byte>, pc: nat, q: Prog)
    requires |c| <= SIZE && Stands(c, pc, Gen(q)) && q.Op? && q.ins.Branch?
    ensures pc + 3 < |c| && c[pc + 2] == |GenInstr(q.ins)|
    ensures Stands(c, pc + 3, Gen(q.ins.left)) && Stands(c, pc + c[pc + 1], Gen(q.ins.right))
  {
    var l, r := Gen(q.ins.left), Gen(q.ins.right);
    assert GenInstr(q.ins) == BranchHeader(l, r) + l + r;
    assert Gen(q) == BranchHeader(l, r) + l + r + Gen(q.next);
    SidesParts(c, pc, l, r, Gen(q.next));
  }

  lemma SidesParts(c: seq<byte>, pc: nat, l: seq<byte>, r: seq<byte>, rest: seq<byte>)
    requires |c| <= SIZE && Stands(c, pc, BranchHeader(l, r) + l + r + rest) && |rest| >= 1
    ensures pc + 3 < |c| && c[pc + 2] == |BranchHeader(l, r) + l + r|
    ensures Stands(c, pc + 3, l) && Stands(c, pc + c[pc + 1], r)
  {
    StandsSplit(c, pc, BranchHeader(l, r) + l + r, rest);
    BranchParts(c, pc, l, r);
  }

  predicate IsDataInstr(ins: Instr) { ins.Exact? || ins.AnyOf? || ins.AnyBut? }

  function DataBytes(ins: Instr): string
    requires IsDataInstr(ins)
  {
    if ins.Exact? then ins.w else ins.members
  }

  lemma DataOperands(c: seq<byte>, pc: nat, q: Prog, data: string)
    requires |c| <= SIZE && Stands(c, pc, Gen(q)) && DataOk(q, data) && q.Op? && IsDataInstr(q.ins)
    ensures |GenInstr(q.ins)| == 3 && pc + 3 <= |c|
    ensures c[pc + 1] == q.ins.off && c[pc + 2] == |DataBytes(q.ins)|
    ensures InDataAt(q.ins.off, DataBytes(q.ins), data)
  {
    StandsSplit(c, pc, GenInstr(q.ins), Gen(q.next));
    StandsHead(c, pc, GenInstr(q.ins));
    assert InstrDataOk(q.ins, data);
  }

  lemma CapOperand(c: seq<byte>, pc: nat, q: Prog)
    requires Stands(c, pc, Gen(q)) && q.Op? && CapsBelow(q, 256)
    ensures q.ins.Open? || q.ins.Close? ==> pc + 2 <= |c| && c[pc + 1] == q.ins.n
  {
    StandsSplit(c, pc, GenInstr(q.ins), Gen(q.next));
    StandsHead(c, pc, GenInstr(q.ins));
    assert InstrCapsBelow(q.ins, 256);
  }

  /** The top level ends in an unfinished branch exactly when its code begins with one. */
  lemma TopLevel(alt: Alt)
    requires WfAlt(alt) && PrintAlt(alt) != ""
    ensures |AltBytes(alt, 0, 0, false)| >= 1 && (AltBytes(alt, 0, 0, false)[0] == BRANCH <==> alt.Bar?)
    ensures alt.Last? ==> AltBytes(alt, 0, 0, false) == AltBytes(alt, 0, 0, true)
  {
    if alt.Bar? {
      var l, r := BarsParts(PiecesBytes(alt.ps, 0, 0), alt.more, PiecesCaps(alt.ps), |PiecesData(alt.ps)|);
    } else {
      FirstInstr(alt.ps.head, 0, 0);
    }
  }

  lemma FirstInstr(p: Piece, cap: nat, off: nat)
    requires p.Item? ==> WfAtom(p.atom)
    ensures |PieceBytes(p, cap, off)| >= 1 && PieceBytes(p, cap, off)[0] != BRANCH
  {
    if p.Item? {
      var a := p.atom;
      if p.q == Once {
        AtomFirst(a, cap, off);
        assert PieceBytes(p, cap, off) == AtomBytes(a, cap, off);
      } else {
        var h, u := HeadBytes(a, off), UnitBytes(a, cap, off);
        assert PieceBytes(p, cap, off) == h + LoopBytes(LoopOp(p.q), u);
        assert LoopBytes(LoopOp(p.q), u)[0] == LoopOp(p.q);
      }
    }
  }

  lemma AtomFirst(a: Atom, cap: nat, off: nat)
    requires WfAtom(a)
    ensures AtomBytes(a, cap, off)[0] != BRANCH
  {
    if a.Esc? && IsClass(EscapeCode(a.c)) {
      assert EscapeCode(a.c) / 256 in {15, 16, 17};
    }
  }

  lemma {:induction false} BarsParts(left: seq<byte>, more: Alt, cap: nat, off: nat)
    returns (l: seq<byte>, r: seq<byte>)
    ensures BarsBytes(left, more, cap, off, false) == OpenBranch(l, r)
    ensures BarsBytes(left, more, cap, off, true) == ClosedBranch(l, r)
    decreases more
  {
    match more
    case Last(ps) =>
      l, r := left, PiecesBytes(ps, cap, off);
    case Bar(ps, rest) =>
      var left' := ClosedBranch(left, PiecesBytes(ps, cap, off));
      var cap', off' := cap + PiecesCaps(ps), off + |PiecesData(ps)|;
      l, r := BarsParts(left', rest, cap', off');
      assert BarsBytes(left, more, cap, off, false) == BarsBytes(left', rest, cap', off', false);
      assert BarsBytes(left, more, cap, off, true) == BarsBytes(left', rest, cap', off', true);
  }

  predicate DataStepOk(ins: Instr, s: string, ofs: nat)
    requires IsDataInstr(ins)
  {
    if ins.Exact? then ofs + |ins.w| <= |s| && s[ofs..ofs + |ins.w|] == ins.w
    else ofs < |s| && Accepts(ins, s[ofs])
  }
}
