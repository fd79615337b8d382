/**
 The bytes a one-pass compiler leaves behind for a pattern, and the proof that they
 are the layout of the pattern's program: shifting a finished block to put a header
 in front of it gives the same code as generating the block inside the header.
 */
module SlreCodegen {
  import opened Basics
  import opened SlreProgram
  import opened SlreSyntax

  function AtomBytes(a: Atom, cap: nat, off: nat): (c: seq<byte>)
    ensures |c| >= 1
    decreases a, 0
  {
    match a
    case Lit(w) => [EXACT, Byte(off), Byte(|w|)]
    case Dot => [ANY]
    case Set(neg, items) => [if neg then ANYBUT else ANYOF, Byte(off), Byte(|SetData(items)|)]
    case Esc(c) =>
      if IsClass(EscapeCode(c)) then [Byte(EscapeCode(c) / 256)] else [EXACT, Byte(off), 1]
    case Group(alt) => [OPEN, Byte(cap + 1)] + AltBytes(alt, cap + 1, off, true) + [CLOSE, Byte(cap + 1)]
  }

  /** What a quantifier wraps. */
  function UnitBytes(a: Atom, cap: nat, off: nat): (c: seq<byte>)
    ensures |c| >= 1
    decreases a, 1
  {
    if a.Lit? && |a.w| > 1 then [EXACT, Byte(off + |a.w| - 1), 1] else AtomBytes(a, cap, off)
  }

  function HeadBytes(a: Atom, off: nat): seq<byte> {
    if HeadOf(a) == "" then [] else [EXACT, Byte(off), Byte(|HeadOf(a)|)]
  }

  function LoopOp(q: Quant): byte
    requires q != Once
  {
    match q
    case ZeroOrMore => STAR
    case OneOrMore => PLUS
    case ZeroOrOne => QUEST
  }

  /** A block wrapped by a two-byte loop header. */
  function LoopBytes(op: byte, block: seq<byte>): seq<byte> {
    [op, Byte(|block| + 3)] + block + [END]
  }

  function QuantBytes(a: Atom, q: Quant, cap: nat, off: nat): seq<byte>
    decreases a, 2
  {
    if q == Once then AtomBytes(a, cap, off)
    else HeadBytes(a, off) + LoopBytes(LoopOp(q), UnitBytes(a, cap, off))
  }

  function PieceBytes(p: Piece, cap: nat, off: nat): seq<byte>
    decreases p, 0
  {
    match p
    case Item(a, q) => QuantBytes(a, q, cap, off)
    case Bol => [BOL]
    case Eol => [EOL]
  }

  function PiecesBytes(ps: Pieces, cap: nat, off: nat): seq<byte>
    decreases ps, 0
  {
    match ps
    case PNil => []
    case PCons(p, rest) => PieceBytes(p, cap, off) + PiecesBytes(rest, cap + PieceCaps(p), off + |PieceData(p)|)
  }

  /** A branch whose second alternative is still being compiled: its end is not known yet. */
  function OpenBranch(left: seq<byte>, right: seq<byte>): seq<byte> {
    [BRANCH, Byte(|left| + 4), 255] + left + [END] + right
  }

  function ClosedBranch(left: seq<byte>, right: seq<byte>): seq<byte> {
    [BRANCH, Byte(|left| + 4), Byte(|left| + |right| + 5)] + left + [END] + right + [END]
  }

  function BarsBytes(left: seq<byte>, more: Alt, cap: nat, off: nat, closed: bool): seq<byte>
    decreases more, 0
  {
    match more
    case Last(ps) =>
      var right := PiecesBytes(ps, cap, off);
      if closed then ClosedBranch(left, right) else OpenBranch(left, right)
    case Bar(ps, rest) =>
      BarsBytes(ClosedBranch(left, PiecesBytes(ps, cap, off)), rest,
                cap + PiecesCaps(ps), off + |PiecesData(ps)|, closed)
  }

  /** The code of the alternatives; `closed` says whether the last branch has been patched. */
  function AltBytes(alt: Alt, cap: nat, off: nat, closed: bool): seq<byte>
    decreases alt, 0
  {
    match alt
    case Last(ps) => PiecesBytes(ps, cap, off)
    case Bar(ps, more) =>
      BarsBytes(PiecesBytes(ps, cap, off), more, cap + PiecesCaps(ps), off + |PiecesData(ps)|, closed)
  }

  /** All the code of a pattern. */
  function PatternBytes(alt: Alt): seq<byte> {
    [OPEN, 0] + AltBytes(alt, 0, 0, true) + [CLOSE, 0, END]
  }

  // ------------------------------------------- one-pass bytes = compositional code

  lemma GroupLayout<T>(a: seq<T>, b: seq<T>, c: seq<T>, d: seq<T>)
    ensures a + (b + (c + d)) == (a + b + c) + d
  {
  }

  lemma {:induction false} GenLowerAtom(a: Atom, cap: nat, off: nat, k: Prog)
    requires WfAtom(a)
    ensures Gen(LowerAtom(a, cap, off, k)) == AtomBytes(a, cap, off) + Gen(k)
    decreases a, 0
  {
    match a
    case Group(alt) =>
      var close := Op(Close(cap + 1), k);
      GenLowerAlt(alt, cap + 1, off, close);
      var b := AltBytes(alt, cap + 1, off, true);
      GroupLayout([OPEN, Byte(cap + 1)], b, [CLOSE, Byte(cap + 1)], Gen(k));
    case _ =>
  }

  lemma {:induction false} GenLowerUnit(a: Atom, cap: nat, off: nat, k: Prog)
    requires WfAtom(a)
    ensures Gen(LowerUnit(a, cap, off, k)) == UnitBytes(a, cap, off) + Gen(k)
    decreases a, 1
  {
    GenLowerAtom(a, cap, off, k);
  }

  lemma {:induction false} GenLowerPiece(p: Piece, cap: nat, off: nat, k: Prog)
    requires p.Item? ==> WfAtom(p.atom)
    ensures Gen(LowerPiece(p, cap, off, k)) == PieceBytes(p, cap, off) + Gen(k)
    decreases p, 0
  {
    if p.Item? {
      if p.q == Once {
        GenLowerAtom(p.atom, cap, off, k);
      } else {
        GenLoop(p.atom, p.q, cap, off, k);
      }
    }
  }

  lemma LoopLayout(q: Quant, body: Prog, u: seq<byte>)
    requires q != Once && Gen(body) == u + [END]
    ensures GenInstr(LoopInstr(q, body)) == LoopBytes(LoopOp(q), u)
  {
    var b := Gen(body);
    assert GenInstr(LoopInstr(q, body)) == LoopHeader(LoopOp(q), b) + b;
    assert LoopHeader(LoopOp(q), b) == [LoopOp(q), Byte(|u| + 3)];
  }

  lemma {:induction false} GenLoop(a: Atom, q: Quant, cap: nat, off: nat, k: Prog)
    requires WfAtom(a) && q != Once
    ensures Gen(LowerPiece(Item(a, q), cap, off, k)) == QuantBytes(a, q, cap, off) + Gen(k)
    decreases a, 2
  {
    var body := LowerUnit(a, cap, off, Halt);
    var u := UnitBytes(a, cap, off);
    GenLowerUnit(a, cap, off, Halt);
    assert Gen(body) == u + [END];
    var loop := LoopBytes(LoopOp(q), u);
    LoopLayout(q, body, u);
    assert Gen(Op(LoopInstr(q, body), k)) == loop + Gen(k);
    Regroup(HeadBytes(a, off), loop, Gen(k));
  }

  lemma {:induction false} GenLowerPieces(ps: Pieces, cap: nat, off: nat, k: Prog)
    requires WfPieces(ps)
    ensures Gen(LowerPieces(ps, cap, off, k)) == PiecesBytes(ps, cap, off) + Gen(k)
    decreases ps, 0
  {
    match ps
    case PNil =>
    case PCons(p, rest) =>
      var cap', off' := cap + PieceCaps(p), off + |PieceData(p)|;
      var k' := LowerPieces(rest, cap', off', k);
      var b, t, g := PieceBytes(p, cap, off), PiecesBytes(rest, cap', off'), Gen(k);
      GenLowerPieces(rest, cap', off', k);
      GenLowerPiece(p, cap, off, k');
      assert Gen(LowerPieces(ps, cap, off, k)) == b + (t + g);
      Regroup(b, t, g);
  }

  lemma GenBranch(l: Prog, r: Prog, left: seq<byte>, right: seq<byte>)
    requires Gen(l) == left + [END] && Gen(r) == right + [END]
    ensures GenInstr(Branch(l, r)) == ClosedBranch(left, right)
  {
    BranchLayout(Gen(l), Gen(r), left, right);
  }

  lemma BranchLayout(l: seq<byte>, r: seq<byte>, left: seq<byte>, right: seq<byte>)
    requires l == left + [END] && r == right + [END]
    ensures BranchHeader(l, r) + l + r == ClosedBranch(left, right)
  {
  }

  lemma {:induction false} GenLowerBars(l: Prog, left: seq<byte>, more: Alt, cap: nat, off: nat, k: Prog)
    requires WfAlt(more) && Gen(l) == left + [END]
    ensures Gen(LowerBars(l, more, cap, off, k)) == BarsBytes(left, more, cap, off, true) + Gen(k)
    decreases more, 0
  {
    GenJoin(l, left, more.ps, cap, off);
    if more.Bar? {
      var l' := Op(Branch(l, LowerPieces(more.ps, cap, off, Halt)), Halt);
      var left' := ClosedBranch(left, PiecesBytes(more.ps, cap, off));
      GenLowerBars(l', left', more.more, cap + PiecesCaps(more.ps), off + |PiecesData(more.ps)|, k);
      GenMore(l, left, more.ps, more.more, cap, off, k);
    } else {
      GenLast(l, left, more.ps, cap, off, k);
    }
  }

  lemma GenMore(l: Prog, left: seq<byte>, ps: Pieces, rest: Alt, cap: nat, off: nat, k: Prog)
    requires Gen(LowerBars(Op(Branch(l, LowerPieces(ps, cap, off, Halt)), Halt), rest,
                           cap + PiecesCaps(ps), off + |PiecesData(ps)|, k))
          == BarsBytes(ClosedBranch(left, PiecesBytes(ps, cap, off)), rest,
                       cap + PiecesCaps(ps), off + |PiecesData(ps)|, true) + Gen(k)
    ensures Gen(LowerBars(l, Bar(ps, rest), cap, off, k)) == BarsBytes(left, Bar(ps, rest), cap, off, true) + Gen(k)
  {
    UnfoldBar(l, left, ps, rest, cap, off, k);
  }

  lemma UnfoldBar(l: Prog, left: seq<byte>, ps: Pieces, rest: Alt, cap: nat, off: nat, k: Prog)
    ensures LowerBars(l, Bar(ps, rest), cap, off, k)
         == LowerBars(Op(Branch(l, LowerPieces(ps, cap, off, Halt)), Halt), rest,
                      cap + PiecesCaps(ps), off + |PiecesData(ps)|, k)
    ensures BarsBytes(left, Bar(ps, rest), cap, off, true)
         == BarsBytes(ClosedBranch(left, PiecesBytes(ps, cap, off)), rest,
                      cap + PiecesCaps(ps), off + |PiecesData(ps)|, true)
  {
  }

  lemma GenLast(l: Prog, left: seq<byte>, ps: Pieces, cap: nat, off: nat, k: Prog)
    requires GenInstr(Branch(l, LowerPieces(ps, cap, off, Halt))) == ClosedBranch(left, PiecesBytes(ps, cap, off))
    ensures Gen(LowerBars(l, Last(ps), cap, off, k)) == BarsBytes(left, Last(ps), cap, off, true) + Gen(k)
  {
    assert LowerBars(l, Last(ps), cap, off, k) == Op(Branch(l, LowerPieces(ps, cap, off, Halt)), k);
  }

  lemma {:induction false} GenJoin(l: Prog, left: seq<byte>, ps: Pieces, cap: nat, off: nat)
    requires WfPieces(ps) && Gen(l) == left + [END]
    ensures var join := Op(Branch(l, LowerPieces(ps, cap, off, Halt)), Halt);
            var bytes := ClosedBranch(left, PiecesBytes(ps, cap, off));
            Gen(join) == bytes + [END] && GenInstr(join.ins) == bytes
    decreases ps, 1
  {
    GenLowerPieces(ps, cap, off, Halt);
    GenBranch(l, LowerPieces(ps, cap, off, Halt), left, PiecesBytes(ps, cap, off));
  }

  lemma {:induction false} GenLowerAlt(alt: Alt, cap: nat, off: nat, k: Prog)
    requires WfAlt(alt)
    ensures Gen(LowerAlt(alt, cap, off, k)) == AltBytes(alt, cap, off, true) + Gen(k)
    decreases alt, 0
  {
    match alt
    case Last(ps) =>
      GenLowerPieces(ps, cap, off, k);
    case Bar(ps, more) =>
      GenLowerPieces(ps, cap, off, Halt);
      var l, left := LowerPieces(ps, cap, off, Halt), PiecesBytes(ps, cap, off);
      GenLowerBars(l, left, more, cap + PiecesCaps(ps), off + |PiecesData(ps)|, k);
  }

  /** The one-pass bytes of a pattern are the layout of its program. */
  lemma PatternBytesAreGen(alt: Alt)
    requires WfAlt(alt)
    ensures PatternBytes(alt) == Gen(Lower(alt))
  {
    var close := Op(Close(0), Halt);
    GenLowerAlt(alt, 0, 0, close);
    assert Gen(close) == [CLOSE, 0] + [END] == [CLOSE, 0, END];
    Regroup([OPEN, 0], AltBytes(alt, 0, 0, true), [CLOSE, 0, END]);
  }

  // -------------------------------------------------- operands of lowered code

  lemma InDataSplit(data: string, off: nat, u: string, v: string)
    requires InDataAt(off, u + v, data)
    ensures InDataAt(off, u, data) && InDataAt(off + |u|, v, data)
  {
    assert data[off..off + |u|] == (u + v)[..|u|];
    assert data[off + |u|..off + |u| + |v|] == (u + v)[|u|..];
  }

  lemma {:induction false} LowerAtomOk(a: Atom, cap: nat, off: nat, k: Prog, data: string, n: nat)
    requires WfAtom(a) && InDataAt(off, AtomData(a), data) && DataOk(k, data)
    requires cap + AtomCaps(a) < n && CapsBelow(k, n)
    ensures DataOk(LowerAtom(a, cap, off, k), data) && CapsBelow(LowerAtom(a, cap, off, k), n)
    decreases a, 0
  {
    match a
    case Group(alt) => LowerAltOk(alt, cap + 1, off, Op(Close(cap + 1), k), data, n);
    case _ =>
  }

  lemma {:induction false} LowerUnitOk(a: Atom, cap: nat, off: nat, data: string, n: nat)
    requires WfAtom(a) && InDataAt(off, AtomData(a), data) && cap + AtomCaps(a) < n
    ensures DataOk(LowerUnit(a, cap, off, Halt), data) && CapsBelow(LowerUnit(a, cap, off, Halt), n)
    ensures a.Lit? && |a.w| > 1 ==> InDataAt(off, HeadOf(a), data)
    decreases a, 1
  {
    assert CapsBelow(Halt, n) && DataOk(Halt, data);
    if a.Lit? && |a.w| > 1 {
      assert a.w == HeadOf(a) + a.w[|a.w| - 1..];
      InDataSplit(data, off, HeadOf(a), a.w[|a.w| - 1..]);
    } else {
      LowerAtomOk(a, cap, off, Halt, data, n);
    }
  }

  lemma {:induction false} LowerPieceOk(p: Piece, cap: nat, off: nat, k: Prog, data: string, n: nat)
    requires p.Item? ==> WfAtom(p.atom)
    requires InDataAt(off, PieceData(p), data) && DataOk(k, data)
    requires cap + PieceCaps(p) < n && CapsBelow(k, n)
    ensures DataOk(LowerPiece(p, cap, off, k), data) && CapsBelow(LowerPiece(p, cap, off, k), n)
    decreases p, 0
  {
    if p.Item? {
      if p.q == Once {
        LowerAtomOk(p.atom, cap, off, k, data, n);
      } else {
        var body := LowerUnit(p.atom, cap, off, Halt);
        LowerUnitOk(p.atom, cap, off, data, n);
        LoopPieceOk(p, cap, off, k, body, data, n);
      }
    }
  }

  lemma LoopPieceOk(p: Piece, cap: nat, off: nat, k: Prog, body: Prog, data: string, n: nat)
    requires p.Item? && p.q != Once && body == LowerUnit(p.atom, cap, off, Halt)
    requires DataOk(body, data) && CapsBelow(body, n) && DataOk(k, data) && CapsBelow(k, n)
    requires p.atom.Lit? && |p.atom.w| > 1 ==> InDataAt(off, HeadOf(p.atom), data)
    ensures DataOk(LowerPiece(p, cap, off, k), data) && CapsBelow(LowerPiece(p, cap, off, k), n)
  {
    var loop := Op(LoopInstr(p.q, body), k);
    assert DataOk(loop, data) && CapsBelow(loop, n);
  }

  lemma {:induction false} LowerPiecesOk(ps: Pieces, cap: nat, off: nat, k: Prog, data: string, n: nat)
    requires WfPieces(ps) && InDataAt(off, PiecesData(ps), data) && DataOk(k, data)
    requires cap + PiecesCaps(ps) < n && CapsBelow(k, n)
    ensures DataOk(LowerPieces(ps, cap, off, k), data) && CapsBelow(LowerPieces(ps, cap, off, k), n)
    decreases ps, 0
  {
    match ps
    case PNil =>
    case PCons(p, rest) =>
      var cap', off' := cap + PieceCaps(p), off + |PieceData(p)|;
      InDataSplit(data, off, PieceData(p), PiecesData(rest));
      LowerPiecesOk(rest, cap', off', k, data, n);
      LowerPieceOk(p, cap, off, LowerPieces(rest, cap', off', k), data, n);
  }

  lemma {:induction false} LowerBarsOk(l: Prog, more: Alt, cap: nat, off: nat, k: Prog, data: string, n: nat)
    requires WfAlt(more) && InDataAt(off, AltData(more), data) && DataOk(k, data) && DataOk(l, data)
    requires cap + AltCaps(more) < n && CapsBelow(k, n) && CapsBelow(l, n)
    ensures DataOk(LowerBars(l, more, cap, off, k), data) && CapsBelow(LowerBars(l, more, cap, off, k), n)
    decreases more, 0
  {
    var r := LowerPieces(more.ps, cap, off, Halt);
    if more.Bar? {
      InDataSplit(data, off, PiecesData(more.ps), AltData(more.more));
      LowerPiecesOk(more.ps, cap, off, Halt, data, n);
      assert InstrDataOk(Branch(l, r), data) && InstrCapsBelow(Branch(l, r), n);
      LowerBarsOk(Op(Branch(l, r), Halt), more.more, cap + PiecesCaps(more.ps), off + |PiecesData(more.ps)|, k,
                  data, n);
    } else {
      LowerPiecesOk(more.ps, cap, off, Halt, data, n);
      assert InstrDataOk(Branch(l, r), data) && InstrCapsBelow(Branch(l, r), n);
    }
  }

  lemma {:induction false} LowerAltOk(alt: Alt, cap: nat, off: nat, k: Prog, data: string, n: nat)
    requires WfAlt(alt) && InDataAt(off, AltData(alt), data) && DataOk(k, data)
    requires cap + AltCaps(alt) < n && CapsBelow(k, n)
    ensures DataOk(LowerAlt(alt, cap, off, k), data) && CapsBelow(LowerAlt(alt, cap, off, k), n)
    decreases alt, 0
  {
    if alt.Last? {
      LowerPiecesOk(alt.ps, cap, off, k, data, n);
    } else {
      InDataSplit(data, off, PiecesData(alt.ps), AltData(alt.more));
      LowerPiecesOk(alt.ps, cap, off, Halt, data, n);
      LowerBarsOk(LowerPieces(alt.ps, cap, off, Halt), alt.more,
                  cap + PiecesCaps(alt.ps), off + |PiecesData(alt.ps)|, k, data, n);
    }
  }

  /** Every data operand of a pattern's program names its own bytes, every capture number is allocated. */
  lemma LowerOk(alt: Alt, n: nat)
    requires WfAlt(alt) && |AltData(alt)| <= 255 && AltCaps(alt) < n
    ensures DataOk(Lower(alt), AltData(alt)) && CapsBelow(Lower(alt), n)
  {
    LowerAltOk(alt, 0, 0, Op(Close(0), Halt), AltData(alt), n);
  }

  // ----------------------------------------- a bracket pair takes at least four bytes

  lemma AtomInPiece(a: Atom, q: Quant, cap: nat, off: nat)
    ensures |AtomBytes(a, cap, off)| <= |QuantBytes(a, q, cap, off)|
  {
  }

  lemma {:induction false} PiecesCapsFit(ps: Pieces, cap: nat, off: nat)
    ensures 4 * PiecesCaps(ps) <= |PiecesBytes(ps, cap, off)|
    decreases ps, 0
  {
    match ps
    case PNil =>
    case PCons(p, rest) =>
      PiecesCapsFit(rest, cap + PieceCaps(p), off + |PieceData(p)|);
      if p.Item? && p.atom.Group? {
        AltCapsFit(p.atom.alt, cap + 1, off);
        AtomInPiece(p.atom, p.q, cap, off);
        assert |PiecesBytes(ps, cap, off)| >= |AtomBytes(p.atom, cap, off)|
            + |PiecesBytes(rest, cap + PieceCaps(p), off + |PieceData(p)|)|;
      }
  }

  lemma {:induction false} BarsCapsFit(left: seq<byte>, more: Alt, cap: nat, off: nat, closed: bool)
    ensures |left| + 4 * AltCaps(more) <= |BarsBytes(left, more, cap, off, closed)|
    decreases more, 0
  {
    PiecesCapsFit(more.ps, cap, off);
    if more.Bar? {
      BarsCapsFit(ClosedBranch(left, PiecesBytes(more.ps, cap, off)), more.more,
                  cap + PiecesCaps(more.ps), off + |PiecesData(more.ps)|, closed);
    }
  }

  lemma {:induction false} AltCapsFit(alt: Alt, cap: nat, off: nat)
    ensures 4 * AltCaps(alt) <= |AltBytes(alt, cap, off, true)|
    decreases alt, 1
  {
    PiecesCapsFit(alt.ps, cap, off);
    if alt.Bar? {
      BarsCapsFit(PiecesBytes(alt.ps, cap, off), alt.more, cap + PiecesCaps(alt.ps), off + |PiecesData(alt.ps)|, true);
    }
  }

  lemma StandsWhole(c: seq<byte>)
    ensures Stands(c, 0, c)
  {
    assert c[0..|c|] == c;
  }

  /** What the code of every pattern that fits the buffers satisfies. */
  lemma CompiledOk(alt: Alt, c: seq<byte>)
    requires WfAlt(alt) && c == PatternBytes(alt) && |c| <= 256 && |AltData(alt)| <= 255
    ensures c == Gen(Lower(alt)) && Stands(c, 0, Gen(Lower(alt)))
    ensures DataOk(Lower(alt), AltData(alt)) && CapsBelow(Lower(alt), 256) && CapsBelow(Lower(alt), AltCaps(alt) + 1)
    ensures WfBlock(c, |AltData(alt)|, 0, |c|)
  {
    var p := Lower(alt);
    PatternBytesAreGen(alt);
    assert c == Gen(p);
    assert AltCaps(alt) < 256 by { AltCapsFit(alt, 0, 0); }
    LowerOk(alt, 256);
    LowerOk(alt, AltCaps(alt) + 1);
    StandsWhole(c);
    GenIsWfBlock(c, 0, p, AltData(alt));
  }
}
