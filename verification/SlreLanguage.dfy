/**
 What a successful match means. The language of a block is given declaratively, as
 if every choice were open; the interpreter only ever finds matches of that
 language, and lowering a pattern preserves its language.
 */
module SlreLanguage {
  import opened SlreProgram
  import opened SlreSyntax

  /** s[i..j] is a match of block `p`. */
  ghost predicate MProg(p: Prog, s: string, i: nat, j: nat)
    decreases p, 0, 0
  {
    i <= j <= |s| &&
    match p
    case Halt => i == j
    case Op(ins, next) => exists m: nat | i <= m <= j :: MInstr(ins, s, i, m) && MProg(next, s, m, j)
  }

  ghost predicate MInstr(ins: Instr, s: string, i: nat, j: nat)
    decreases ins, 1, 0
  {
    i <= j <= |s| &&
    match ins
    case Exact(_, w) => s[i..j] == w
    case Open(_) => i == j
    case Close(_) => i == j
    case AtBol => i == j == 0
    case AtEol => i == j == |s|
    case Star(b) => MLoop(b, s, i, j)
    case Plus(b) => exists m: nat | i <= m <= j :: MProg(b, s, i, m) && MLoop(b, s, m, j)
    case Quest(b) => i == j || MProg(b, s, i, j)
    case Branch(l, r) => MProg(l, s, i, j) || MProg(r, s, i, j)
    case _ => j == i + 1 && Accepts(ins, s[i])
  }

  /** Zero or more nonempty iterations of `b`. */
  ghost predicate MLoop(b: Prog, s: string, i: nat, j: nat)
    decreases b, 1, j - i
  {
    i <= j <= |s| &&
    (i == j || exists m: nat | i < m <= j :: MProg(b, s, i, m) && MLoop(b, s, m, j))
  }

  lemma OpSplit(ins: Instr, next: Prog, s: string, i: nat, j: nat) returns (m: nat)
    requires MProg(Op(ins, next), s, i, j)
    ensures i <= m <= j && MInstr(ins, s, i, m) && MProg(next, s, m, j)
  {
    m :| i <= m <= j && MInstr(ins, s, i, m) && MProg(next, s, m, j);
  }

  lemma {:induction false} LoopSnoc(b: Prog, s: string, i: nat, m: nat, j: nat)
    requires MLoop(b, s, i, m) && m < j && MProg(b, s, m, j)
    ensures MLoop(b, s, i, j)
    decreases m - i
  {
    if i == m {
      assert MLoop(b, s, j, j);
    } else {
      var k: nat :| i < k <= m && MProg(b, s, i, k) && MLoop(b, s, k, m);
      LoopSnoc(b, s, k, m, j);
    }
  }

  // -------------------------------------------------------------- soundness

  /** Whatever the interpreter consumes is a match. */
  lemma {:induction false} RunSound(p: Prog, s: string, ofs: nat, caps: seq<Cap>)
    requires ofs <= |s| && Productive(p)
    ensures var o := Run(p, s, ofs, caps); o.ok ==> MProg(p, s, ofs, o.ofs)
    decreases p, 2, 0
  {
    if p.Op? {
      var o := Exec(p, s, ofs, caps);
      ExecSound(p, s, ofs, caps);
      if o.ok {
        RunSound(p.next, s, o.ofs, o.caps);
        assert Run(p.next, s, o.ofs, o.caps).ok ==>
            MInstr(p.ins, s, ofs, o.ofs) && MProg(p.next, s, o.ofs, Run(p.next, s, o.ofs, o.caps).ofs);
      }
    }
  }

  lemma {:induction false} ExecSound(p: Prog, s: string, ofs: nat, caps: seq<Cap>)
    requires ofs <= |s| && Productive(p) && p.Op?
    ensures var o := Exec(p, s, ofs, caps); o.ok ==> MInstr(p.ins, s, ofs, o.ofs)
    decreases p, 1, 0
  {
    assert InstrProductive(p.ins);
    match p.ins
    case Star(b) =>
      GreedySound(p, s, ofs, ofs, ofs);
    case Plus(b) =>
      var o := Run(b, s, ofs, caps);
      RunSound(b, s, ofs, caps);
      if o.ok { GreedySound(p, s, o.ofs, o.ofs, o.ofs); }
    case Quest(b) => RunSound(b, s, ofs, caps);
    case Branch(l, r) =>
      RunSound(l, s, ofs, caps);
      RunSound(r, s, ofs, Run(l, s, ofs, caps).caps);
    case _ =>
  }

  lemma {:induction false} GreedySound(p: Prog, s: string, start: nat, saved: nat, matched: nat)
    requires IsLoop(p) && Productive(p) && matched <= saved <= |s|
    requires MLoop(p.ins.body, s, start, saved) && MLoop(p.ins.body, s, start, matched)
    ensures MLoop(p.ins.body, s, start, Greedy(p, s, saved, matched))
    decreases p, 0, |s| - saved
  {
    assert InstrProductive(p.ins);
    var b := Run(p.ins.body, s, saved, []);
    if b.ok {
      RunSound(p.ins.body, s, saved, []);
      LoopSnoc(p.ins.body, s, start, saved, b.ofs);
      GreedySound(p, s, start, b.ofs, if Run(p.next, s, b.ofs, []).ok then b.ofs else matched);
    }
  }

  // ------------------------------------------- lowering preserves the language

  lemma {:induction false} UnitIsBody(a: Atom, cap: nat, off: nat, s: string, i: nat, j: nat)
    requires WfAtom(a)
    ensures MUnit(a, s, i, j) <==> MProg(LowerUnit(a, cap, off, Halt), s, i, j)
    decreases a, 1
  {
    var p := LowerUnit(a, cap, off, Halt);
    if a.Lit? {
      assert LowerAtom(a, cap, off, Halt) == Op(Exact(off, a.w), Halt);
      assert p == Op(p.ins, Halt) && p.ins.Exact? && p.ins.w == a.w[|a.w| - 1..];
      if MProg(p, s, i, j) {
        var m := OpSplit(p.ins, Halt, s, i, j);
        assert s[i..j][0] == s[i];
      }
      if MUnit(a, s, i, j) { assert s[i..j] == [s[i]]; assert MInstr(p.ins, s, i, j) && MProg(Halt, s, j, j); }
    } else {
      if MUnit(a, s, i, j) { assert MProg(Halt, s, j, j); AtomToProg(a, cap, off, Halt, s, i, j, j); }
      if MProg(p, s, i, j) { var m := ProgToAtom(a, cap, off, Halt, s, i, j); }
    }
  }

  lemma {:induction false} StarIsLoop(a: Atom, cap: nat, off: nat, s: string, i: nat, j: nat)
    requires WfAtom(a)
    ensures MStar(a, s, i, j) <==> MLoop(LowerUnit(a, cap, off, Halt), s, i, j)
    decreases a, 2, j - i
  {
    var b := LowerUnit(a, cap, off, Halt);
    if i < j <= |s| {
      forall k: nat | i < k <= j
        ensures MUnit(a, s, i, k) && MStar(a, s, k, j) <==> MProg(b, s, i, k) && MLoop(b, s, k, j)
      {
        UnitIsBody(a, cap, off, s, i, k);
        StarIsLoop(a, cap, off, s, k, j);
      }
    }
  }

  lemma {:induction false} QuantIsLoop(a: Atom, q: Quant, cap: nat, off: nat, s: string, i: nat, j: nat)
    requires WfAtom(a) && q != Once
    ensures MQuant(a, q, s, i, j) <==> MInstr(LoopInstr(q, LowerUnit(a, cap, off, Halt)), s, i, j)
    decreases a, 3
  {
    var b := LowerUnit(a, cap, off, Halt);
    StarIsLoop(a, cap, off, s, i, j);
    UnitIsBody(a, cap, off, s, i, j);
    forall k: nat | i <= k <= j
      ensures MUnit(a, s, i, k) && MStar(a, s, k, j) <==> MProg(b, s, i, k) && MLoop(b, s, k, j)
    {
      UnitIsBody(a, cap, off, s, i, k);
      StarIsLoop(a, cap, off, s, k, j);
    }
  }

  lemma {:induction false} AtomToProg(a: Atom, cap: nat, off: nat, k: Prog, s: string, i: nat, m: nat, j: nat)
    requires WfAtom(a) && MAtom(a, s, i, m) && MProg(k, s, m, j)
    ensures MProg(LowerAtom(a, cap, off, k), s, i, j)
    decreases a, 0
  {
    match a
    case Group(alt) =>
      var close := Op(Close(cap + 1), k);
      assert MInstr(Close(cap + 1), s, m, m) && MProg(close, s, m, j);
      AltToProg(alt, cap + 1, off, close, s, i, m, j);
      assert MInstr(Open(cap + 1), s, i, i);
    case _ =>
      assert MInstr(LowerAtom(a, cap, off, k).ins, s, i, m);
  }

  lemma {:induction false} ProgToAtom(a: Atom, cap: nat, off: nat, k: Prog, s: string, i: nat, j: nat) returns (m: nat)
    requires WfAtom(a) && MProg(LowerAtom(a, cap, off, k), s, i, j)
    ensures i <= m <= j && MAtom(a, s, i, m) && MProg(k, s, m, j)
    decreases a, 0
  {
    var p := LowerAtom(a, cap, off, k);
    m :| i <= m <= j && MInstr(p.ins, s, i, m) && MProg(p.next, s, m, j);
    if a.Group? {
      var n := ProgToAlt(a.alt, cap + 1, off, Op(Close(cap + 1), k), s, i, j);
      m := n;
    } else if a.Esc? && !IsClass(EscapeCode(a.c)) {
      assert s[i..m] == p.ins.w;
      assert s[i] == s[i..m][0];
    }
  }

  lemma {:induction false} PieceToProg(p: Piece, cap: nat, off: nat, k: Prog, s: string, i: nat, m: nat, j: nat)
    requires p.Item? ==> WfAtom(p.atom)
    requires MPiece(p, s, i, m) && MProg(k, s, m, j)
    ensures MProg(LowerPiece(p, cap, off, k), s, i, j)
    decreases p, 0
  {
    match p
    case Bol => assert MInstr(AtBol, s, i, m);
    case Eol => assert MInstr(AtEol, s, i, m);
    case Item(a, q) =>
      if q == Once {
        AtomToProg(a, cap, off, k, s, i, m, j);
      } else {
        var h := HeadOf(a);
        var loop := Op(LoopInstr(q, LowerUnit(a, cap, off, Halt)), k);
        QuantIsLoop(a, q, cap, off, s, i + |h|, m);
        assert MProg(loop, s, i + |h|, j);
        assert MInstr(Exact(off, h), s, i, i + |h|);
      }
  }

  lemma {:induction false} ProgToPiece(p: Piece, cap: nat, off: nat, k: Prog, s: string, i: nat, j: nat)
    returns (m: nat)
    requires p.Item? ==> WfAtom(p.atom)
    requires MProg(LowerPiece(p, cap, off, k), s, i, j)
    ensures i <= m <= j && MPiece(p, s, i, m) && MProg(k, s, m, j)
    decreases p, 0
  {
    if p.Item? && p.q == Once {
      m := ProgToAtom(p.atom, cap, off, k, s, i, j);
    } else {
      var pr := LowerPiece(p, cap, off, k);
      m :| i <= m <= j && MInstr(pr.ins, s, i, m) && MProg(pr.next, s, m, j);
      if p.Item? {
        var h := HeadOf(p.atom);
        var loop := Op(LoopInstr(p.q, LowerUnit(p.atom, cap, off, Halt)), k);
        if h != "" {
          assert pr == Op(Exact(off, h), loop);
          var m' := m;
          m := OpSplit(loop.ins, k, s, m', j);
          assert s[i..i + |h|] == h;
        }
        QuantIsLoop(p.atom, p.q, cap, off, s, i + |h|, m);
      }
    }
  }

  lemma {:induction false} PiecesToProg(ps: Pieces, cap: nat, off: nat, k: Prog, s: string, i: nat, m: nat, j: nat)
    requires WfPieces(ps) && MPieces(ps, s, i, m) && MProg(k, s, m, j)
    ensures MProg(LowerPieces(ps, cap, off, k), s, i, j)
    decreases ps, 0
  {
    match ps
    case PNil =>
    case PCons(p, rest) =>
      var n: nat :| i <= n <= m && MPiece(p, s, i, n) && MPieces(rest, s, n, m);
      var k' := LowerPieces(rest, cap + PieceCaps(p), off + |PieceData(p)|, k);
      PiecesToProg(rest, cap + PieceCaps(p), off + |PieceData(p)|, k, s, n, m, j);
      PieceToProg(p, cap, off, k', s, i, n, j);
  }

  lemma {:induction false} ProgToPieces(ps: Pieces, cap: nat, off: nat, k: Prog, s: string, i: nat, j: nat)
    returns (m: nat)
    requires WfPieces(ps) && MProg(LowerPieces(ps, cap, off, k), s, i, j)
    ensures i <= m <= j && MPieces(ps, s, i, m) && MProg(k, s, m, j)
    decreases ps, 0
  {
    if ps.PNil? {
      m := i;
    } else {
      var cap', off' := cap + PieceCaps(ps.head), off + |PieceData(ps.head)|;
      var n := ProgToPiece(ps.head, cap, off, LowerPieces(ps.tail, cap', off', k), s, i, j);
      m := ProgToPieces(ps.tail, cap', off', k, s, n, j);
      assert MPiece(ps.head, s, i, n) && MPieces(ps.tail, s, n, m);
    }
  }

  /** Matching the alternatives `more` when the earlier ones have been compiled to `l`. */
  lemma {:induction false} BarsToProg(l: Prog, more: Alt, cap: nat, off: nat, k: Prog, s: string, i: nat, m: nat,
                                      j: nat)
    requires WfAlt(more) && (MProg(l, s, i, m) || MAlt(more, s, i, m)) && MProg(k, s, m, j)
    ensures MProg(LowerBars(l, more, cap, off, k), s, i, j)
    decreases more, 0
  {
    var r := LowerPieces(more.ps, cap, off, Halt);
    assert MProg(Halt, s, m, m);
    if MPieces(more.ps, s, i, m) { PiecesToProg(more.ps, cap, off, Halt, s, i, m, m); }
    if more.Bar? {
      var l' := Op(Branch(l, r), Halt);
      if MProg(l, s, i, m) || MPieces(more.ps, s, i, m) {
        assert MInstr(Branch(l, r), s, i, m);
        assert MProg(l', s, i, m);
      }
      BarsToProg(l', more.more, cap + PiecesCaps(more.ps), off + |PiecesData(more.ps)|, k, s, i, m, j);
    } else {
      assert MInstr(Branch(l, r), s, i, m);
    }
  }

  lemma {:induction false} ProgToBars(l: Prog, more: Alt, cap: nat, off: nat, k: Prog, s: string, i: nat, j: nat)
    returns (m: nat)
    requires WfAlt(more) && MProg(LowerBars(l, more, cap, off, k), s, i, j)
    ensures i <= m <= j && (MProg(l, s, i, m) || MAlt(more, s, i, m)) && MProg(k, s, m, j)
    decreases more, 0
  {
    var r := LowerPieces(more.ps, cap, off, Halt);
    if more.Bar? {
      var l' := Op(Branch(l, r), Halt);
      m := ProgToBars(l', more.more, cap + PiecesCaps(more.ps), off + |PiecesData(more.ps)|, k, s, i, j);
      if MProg(l', s, i, m) {
        var n := OpSplit(Branch(l, r), Halt, s, i, m);
        if MProg(r, s, i, m) { var e := ProgToPieces(more.ps, cap, off, Halt, s, i, m); }
      }
    } else {
      m := OpSplit(Branch(l, r), k, s, i, j);
      if MProg(r, s, i, m) { var e := ProgToPieces(more.ps, cap, off, Halt, s, i, m); }
    }
  }

  lemma {:induction false} AltToProg(alt: Alt, cap: nat, off: nat, k: Prog, s: string, i: nat, m: nat, j: nat)
    requires WfAlt(alt) && MAlt(alt, s, i, m) && MProg(k, s, m, j)
    ensures MProg(LowerAlt(alt, cap, off, k), s, i, j)
    decreases alt, 0
  {
    if alt.Last? {
      PiecesToProg(alt.ps, cap, off, k, s, i, m, j);
    } else {
      var l := LowerPieces(alt.ps, cap, off, Halt);
      assert MProg(Halt, s, m, m);
      if MPieces(alt.ps, s, i, m) { PiecesToProg(alt.ps, cap, off, Halt, s, i, m, m); }
      BarsToProg(l, alt.more, cap + PiecesCaps(alt.ps), off + |PiecesData(alt.ps)|, k, s, i, m, j);
    }
  }

  lemma {:induction false} ProgToAlt(alt: Alt, cap: nat, off: nat, k: Prog, s: string, i: nat, j: nat) returns (m: nat)
    requires WfAlt(alt) && MProg(LowerAlt(alt, cap, off, k), s, i, j)
    ensures i <= m <= j && MAlt(alt, s, i, m) && MProg(k, s, m, j)
    decreases alt, 0
  {
    if alt.Last? {
      m := ProgToPieces(alt.ps, cap, off, k, s, i, j);
    } else {
      var l := LowerPieces(alt.ps, cap, off, Halt);
      m := ProgToBars(l, alt.more, cap + PiecesCaps(alt.ps), off + |PiecesData(alt.ps)|, k, s, i, j);
      if MProg(l, s, i, m) { var e := ProgToPieces(alt.ps, cap, off, Halt, s, i, m); }
    }
  }

  /** The program of a pattern has exactly the pattern's language. */
  lemma LowerPreservesLanguage(alt: Alt, s: string, i: nat, j: nat)
    requires WfAlt(alt)
    ensures MProg(Lower(alt), s, i, j) <==> MAlt(alt, s, i, j)
  {
    var close := Op(Close(0), Halt);
    if MAlt(alt, s, i, j) {
      assert MInstr(Close(0), s, j, j) && MProg(Halt, s, j, j) && MProg(close, s, j, j);
      AltToProg(alt, 0, 0, close, s, i, j, j);
      assert MInstr(Open(0), s, i, i);
    }
    if MProg(Lower(alt), s, i, j) {
      var m := OpSplit(Open(0), LowerAlt(alt, 0, 0, close), s, i, j);
      var n := ProgToAlt(alt, 0, 0, close, s, i, j);
      assert n == j;
    }
  }

  /** Compiler and matcher soundness: what a compiled pattern consumes is in the pattern's language. */
  lemma MatchSound(alt: Alt, s: string, ofs: nat, caps: seq<Cap>)
    requires WfAlt(alt) && Productive(Lower(alt)) && ofs <= |s|
    ensures var o := Run(Lower(alt), s, ofs, caps); o.ok ==> MAlt(alt, s, ofs, o.ofs)
  {
    var o := Run(Lower(alt), s, ofs, caps);
    RunSound(Lower(alt), s, ofs, caps);
    if o.ok { LowerPreservesLanguage(alt, s, ofs, o.ofs); }
  }
}
