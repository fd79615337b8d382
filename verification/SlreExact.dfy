/**
 Completeness where the matcher has it: patterns of one-byte items, literals, anchors
 and groups in which '*' and '+' bind one byte. There the matcher succeeds exactly
 when a match exists, because a greedy loop stops at the largest iteration boundary
 from which the rest matches.
 */
module SlreExact {
  import opened SlreProgram
  import opened SlreSyntax
  import opened SlreLanguage

  /** A loop body that consumes exactly one byte. */
  predicate ByteBody(b: Prog) {
    b.Op? && b.next.Halt? && (IsOneByte(b.ins) || (b.ins.Exact? && |b.ins.w| == 1))
  }

  predicate BodyAccepts(b: Prog, c: char)
    requires ByteBody(b)
  {
    if b.ins.Exact? then c == b.ins.w[0] else Accepts(b.ins, c)
  }

  /** Every byte of s[i..j] is one the body accepts. */
  ghost predicate AllAccepted(b: Prog, s: string, i: nat, j: nat)
    requires ByteBody(b)
  {
    i <= j <= |s| && forall k | i <= k < j :: BodyAccepts(b, s[k])
  }

  predicate Simple(p: Prog) {
    match p
    case Halt => true
    case Op(ins, next) =>
      && !ins.Quest? && !ins.Branch?
      && (ins.Star? || ins.Plus? ==> ByteBody(ins.body))
      && Simple(next)
  }

  lemma {:induction false} SimpleIsProductive(p: Prog)
    requires Simple(p)
    ensures Productive(p)
  {
    match p
    case Halt =>
    case Op(ins, next) =>
      SimpleIsProductive(next);
      if ins.Star? || ins.Plus? {
        var b := ins.body;
        assert Productive(b.next) && MinWidth(b.next) == 0;
        assert InstrProductive(b.ins) && InstrMinWidth(b.ins) == 1;
        assert Productive(b) && MinWidth(b) == 1;
      }
      assert InstrProductive(ins);
  }

  lemma BodyRun(b: Prog, s: string, ofs: nat, caps: seq<Cap>)
    requires ByteBody(b) && ofs <= |s|
    ensures Productive(b)
    ensures Run(b, s, ofs, caps).ok <==> ofs < |s| && BodyAccepts(b, s[ofs])
    ensures Run(b, s, ofs, caps).ok ==> Run(b, s, ofs, caps) == Out(true, ofs + 1, caps)
    ensures Run(b, s, ofs, caps).caps == caps
  {
    assert Productive(b.next) && InstrProductive(b.ins);
    if ofs < |s| {
      assert s[ofs..ofs + 1] == [s[ofs]];
      assert Run(b.next, s, ofs + 1, caps) == Out(true, ofs + 1, caps);
    }
    if b.ins.Exact? {
      assert b.ins.w == [b.ins.w[0]];
    }
  }

  /** Success and position do not depend on what is captured, whatever the program. */
  lemma {:induction false} CapsDoNotMatter(p: Prog, s: string, ofs: nat, c: seq<Cap>, d: seq<Cap>)
    requires Productive(p) && ofs <= |s|
    ensures Run(p, s, ofs, c).ok == Run(p, s, ofs, d).ok
    ensures Run(p, s, ofs, c).ok ==> Run(p, s, ofs, c).ofs == Run(p, s, ofs, d).ofs
    decreases p, 1
  {
    if p.Op? {
      var x, y := Exec(p, s, ofs, c), Exec(p, s, ofs, d);
      ExecCaps(p, s, ofs, c, d);
      if x.ok {
        CapsDoNotMatter(p.next, s, x.ofs, x.caps, y.caps);
      }
    }
  }

  lemma {:induction false} ExecCaps(p: Prog, s: string, ofs: nat, c: seq<Cap>, d: seq<Cap>)
    requires Productive(p) && ofs <= |s| && p.Op?
    ensures Exec(p, s, ofs, c).ok == Exec(p, s, ofs, d).ok
    ensures Exec(p, s, ofs, c).ok ==> Exec(p, s, ofs, c).ofs == Exec(p, s, ofs, d).ofs
    decreases p, 0
  {
    assert InstrProductive(p.ins);
    match p.ins
    case Plus(b) => CapsDoNotMatter(b, s, ofs, c, d);
    case Quest(b) => CapsDoNotMatter(b, s, ofs, c, d);
    case Branch(l, r) =>
      CapsDoNotMatter(l, s, ofs, c, d);
      if !Run(l, s, ofs, c).ok {
        CapsDoNotMatter(r, s, ofs, Run(l, s, ofs, c).caps, Run(l, s, ofs, d).caps);
      }
    case _ =>
  }

  // ------------------------------------------------------- greedy loops are best

  /**
   The loop stops at the largest iteration boundary from which the rest matches, or
   stays where it was when there is none.
   */
  lemma {:induction false} GreedyIsBest(p: Prog, s: string, saved: nat, matched: nat)
    requires IsLoop(p) && ByteBody(p.ins.body) && Productive(p) && matched <= saved <= |s|
    ensures var g := Greedy(p, s, saved, matched);
      && (g == matched || (saved < g && AllAccepted(p.ins.body, s, saved, g) && Run(p.next, s, g, []).ok))
      && forall m: nat | saved < m && AllAccepted(p.ins.body, s, saved, m) && Run(p.next, s, m, []).ok :: m <= g
    decreases |s| - saved
  {
    var b := p.ins.body;
    BodyRun(b, s, saved, []);
    if Run(b, s, saved, []).ok {
      var ok := Run(p.next, s, saved + 1, []).ok;
      GreedyIsBest(p, s, saved + 1, if ok then saved + 1 else matched);
    }
  }

  /** Where `n` turns of the loop end, one behind the other, if all of them match. */
  function Turns(b: Prog, s: string, i: nat, n: nat): (m: int)
    requires Productive(b) && i <= |s|
    ensures m <= |s|
    decreases n
  {
    if n == 0 then i
    else
      var o := Run(b, s, i, []);
      if o.ok then Turns(b, s, o.ofs, n - 1) else -1
  }

  /**
   Whatever the body: the loop ends behind a number of turns from which the rest matches,
   and no greater number of turns is such; where it was, if there is none.
   */
  lemma {:induction false} GreedyIsLast(p: Prog, s: string, saved: nat, matched: nat) returns (n: nat)
    requires IsLoop(p) && Productive(p) && Productive(p.ins.body) && matched <= saved <= |s|
    ensures var g, b := Greedy(p, s, saved, matched), p.ins.body;
      && (if n == 0 then g == matched else g == Turns(b, s, saved, n) && Run(p.next, s, g, []).ok)
      && forall k: nat | k > n && Turns(b, s, saved, k) >= 0 :: !Run(p.next, s, Turns(b, s, saved, k), []).ok
    decreases |s| - saved
  {
    var b := p.ins.body;
    assert InstrProductive(p.ins);
    var o := Run(b, s, saved, []);
    n := 0;
    if o.ok {
      var ok := Run(p.next, s, o.ofs, []).ok;
      var k := GreedyIsLast(p, s, o.ofs, if ok then o.ofs else matched);
      n := if k == 0 && !ok then 0 else k + 1;
      forall m: nat | m > n && Turns(b, s, saved, m) >= 0 ensures !Run(p.next, s, Turns(b, s, saved, m), []).ok {
        assert Turns(b, s, saved, m) == Turns(b, s, o.ofs, m - 1);
        if m == 1 { assert Turns(b, s, o.ofs, 0) == o.ofs; }
      }
      assert Turns(b, s, saved, 1) == Turns(b, s, o.ofs, 0) == o.ofs;
    }
  }

  // ---------------------------------------------------------------- exactness

  lemma BodyLanguage(b: Prog, s: string, i: nat, j: nat)
    requires ByteBody(b)
    ensures MProg(b, s, i, j) <==> j == i + 1 <= |s| && BodyAccepts(b, s[i])
  {
    if j == i + 1 <= |s| {
      assert s[i..j] == [s[i]];
      assert MProg(Halt, s, j, j);
      if b.ins.Exact? { assert b.ins.w == [b.ins.w[0]]; }
      assert MInstr(b.ins, s, i, j) <==> BodyAccepts(b, s[i]);
    }
    if MProg(b, s, i, j) {
      var m := OpSplit(b.ins, b.next, s, i, j);
      assert m == j;
      if b.ins.Exact? { assert s[i..j] == b.ins.w; }
    }
  }

  lemma {:induction false} LoopLanguage(b: Prog, s: string, i: nat, j: nat)
    requires ByteBody(b)
    ensures MLoop(b, s, i, j) <==> AllAccepted(b, s, i, j)
    decreases j - i
  {
    if i < j <= |s| {
      BodyLanguage(b, s, i, i + 1);
      LoopLanguage(b, s, i + 1, j);
      forall k: nat | i < k <= j ensures MProg(b, s, i, k) ==> k == i + 1 { BodyLanguage(b, s, i, k); }
      if AllAccepted(b, s, i, j) {
        assert MProg(b, s, i, i + 1) && MLoop(b, s, i + 1, j);
      }
    }
  }

  /** Code that cannot fail: brackets and the end. */
  predicate Free(p: Prog) {
    match p
    case Halt => true
    case Op(ins, next) => (ins.Open? || ins.Close?) && Free(next)
  }

  /** Simple code; alternatives and optional parts only where nothing behind them can fail. */
  predicate Settled(p: Prog) {
    match p
    case Halt => true
    case Op(ins, next) =>
      match ins
      case Branch(l, r) => Settled(l) && Settled(r) && Free(next)
      case Quest(_) => Free(next)
      case _ => (ins.Star? || ins.Plus? ==> ByteBody(ins.body)) && Settled(next)
  }

  lemma {:induction false} SimpleIsSettled(p: Prog)
    requires Simple(p)
    ensures Settled(p)
  {
    if p.Op? { SimpleIsSettled(p.next); }
  }

  lemma {:induction false} FreeSucceeds(p: Prog, s: string, ofs: nat, caps: seq<Cap>)
    requires Free(p) && Productive(p) && ofs <= |s|
    ensures Run(p, s, ofs, caps).ok
  {
    if p.Op? { FreeSucceeds(p.next, s, ofs, Exec(p, s, ofs, caps).caps); }
  }

  /** Every match of such code is found. */
  lemma {:induction false} RunComplete(p: Prog, s: string, ofs: nat, j: nat, caps: seq<Cap>)
    requires Settled(p) && Productive(p) && MProg(p, s, ofs, j)
    ensures Run(p, s, ofs, caps).ok
    decreases p
  {
    match p
    case Halt =>
    case Op(ins, next) =>
      var m := OpSplit(ins, next, s, ofs, j);
      match ins {
        case Branch(l, r) =>
          if MProg(l, s, ofs, m) {
            RunComplete(l, s, ofs, m, caps);
          } else {
            RunComplete(r, s, ofs, m, Run(l, s, ofs, caps).caps);
          }
          FreeSucceeds(next, s, Exec(p, s, ofs, caps).ofs, Exec(p, s, ofs, caps).caps);
        case Quest(b) =>
          FreeSucceeds(next, s, Exec(p, s, ofs, caps).ofs, Exec(p, s, ofs, caps).caps);
        case Star(b) =>
          RunComplete(next, s, m, j, []);
          LoopLanguage(b, s, ofs, m);
          LoopComplete(p, s, ofs, m, caps);
        case Plus(b) =>
          RunComplete(next, s, m, j, []);
          var n: nat :| ofs <= n <= m && MProg(b, s, ofs, n) && MLoop(b, s, n, m);
          BodyLanguage(b, s, ofs, n);
          BodyRun(b, s, ofs, caps);
          LoopLanguage(b, s, n, m);
          LoopComplete(p, s, n, m, caps);
        case _ =>
          RunComplete(next, s, m, j, Exec(p, s, ofs, caps).caps);
      }
  }

  lemma LoopComplete(p: Prog, s: string, i: nat, m: nat, caps: seq<Cap>)
    requires IsLoop(p) && ByteBody(p.ins.body) && Productive(p) && AllAccepted(p.ins.body, s, i, m)
    requires Run(p.next, s, m, []).ok
    ensures Run(p.next, s, Greedy(p, s, i, i), caps).ok
  {
    GreedyIsBest(p, s, i, i);
    CapsDoNotMatter(p.next, s, Greedy(p, s, i, i), caps, []);
  }

  /** Some match of `p` begins at `i`. */
  ghost predicate Begins(p: Prog, s: string, i: nat) { exists j: nat :: MProg(p, s, i, j) }

  lemma RunExact(p: Prog, s: string, ofs: nat, caps: seq<Cap>)
    requires Settled(p) && Productive(p) && ofs <= |s|
    ensures Run(p, s, ofs, caps).ok <==> Begins(p, s, ofs)
  {
    RunSound(p, s, ofs, caps);
    var o := Run(p, s, ofs, caps);
    assert o.ok ==> MProg(p, s, ofs, o.ofs);
    if Begins(p, s, ofs) {
      var j: nat :| MProg(p, s, ofs, j);
      RunComplete(p, s, ofs, j, caps);
    }
  }

  /** A run ends where a match ends. */
  lemma RunBegins(p: Prog, s: string, ofs: nat, caps: seq<Cap>)
    requires Settled(p) && Productive(p) && ofs <= |s|
    ensures var o := Run(p, s, ofs, caps); (o.ok <==> Begins(p, s, ofs)) && (o.ok ==> MProg(p, s, ofs, o.ofs))
  {
    RunExact(p, s, ofs, caps);
    RunSound(p, s, ofs, caps);
  }

  /**
   The choice is made for good: the rest goes on behind a match of the left alternative
   if there is one, otherwise behind one of the right alternative, otherwise it fails.
   */
  lemma BranchTakes(l: Prog, r: Prog, next: Prog, s: string, ofs: nat, caps: seq<Cap>)
    returns (j: nat, c: seq<Cap>)
    requires Settled(l) && Settled(r) && Productive(Op(Branch(l, r), next)) && ofs <= |s|
    ensures j <= |s|
    ensures Begins(l, s, ofs) ==> MProg(l, s, ofs, j)
    ensures !Begins(l, s, ofs) && Begins(r, s, ofs) ==> MProg(r, s, ofs, j)
    ensures var o := Run(Op(Branch(l, r), next), s, ofs, caps);
      if Begins(l, s, ofs) || Begins(r, s, ofs) then o == Run(next, s, j, c) else !o.ok
  {
    var p := Op(Branch(l, r), next);
    assert InstrProductive(p.ins);
    RunBegins(l, s, ofs, caps);
    var x := Run(l, s, ofs, caps);
    RunBegins(r, s, ofs, x.caps);
    var y := if x.ok then x else Run(r, s, ofs, x.caps);
    assert Exec(p, s, ofs, caps) == y;
    j, c := if y.ok then y.ofs else ofs, y.caps;
  }

  /** An optional part is taken, for good, if and only if it matches. */
  lemma QuestTakes(b: Prog, next: Prog, s: string, ofs: nat, caps: seq<Cap>) returns (j: nat, c: seq<Cap>)
    requires Settled(b) && Productive(Op(Quest(b), next)) && ofs <= |s|
    ensures j <= |s| && Run(Op(Quest(b), next), s, ofs, caps) == Run(next, s, j, c)
    ensures if Begins(b, s, ofs) then MProg(b, s, ofs, j) else j == ofs
  {
    var p := Op(Quest(b), next);
    assert InstrProductive(p.ins);
    RunBegins(b, s, ofs, caps);
    var x := Run(b, s, ofs, caps);
    j, c := if x.ok then x.ofs else ofs, x.caps;
    assert Exec(p, s, ofs, caps) == Out(true, j, c);
  }

  lemma {:induction false} SearchExact(p: Prog, s: string, i: nat, caps: seq<Cap>)
    requires Settled(p) && Productive(p) && i <= |s|
    ensures SearchFrom(p, s, i, caps).ok <==> exists k: nat :: i <= k < |s| && Begins(p, s, k)
    decreases |s| - i
  {
    if i < |s| {
      RunExact(p, s, i, caps);
      SearchExact(p, s, i + 1, Run(p, s, i, caps).caps);
    }
  }

  // ------------------------------------------------------------------ patterns

  /** '*' and '+' bind one byte; no '?' and no '|'. */
  predicate SimpleAlt(alt: Alt) {
    alt.Last? && SimplePieces(alt.ps)
  }

  predicate SimplePieces(ps: Pieces) {
    match ps
    case PNil => true
    case PCons(p, rest) =>
      && (p.Item? ==> p.q != ZeroOrOne && (p.q != Once ==> !p.atom.Group?) && (p.atom.Group? ==> SimpleAlt(p.atom.alt)))
      && SimplePieces(rest)
  }

  lemma {:induction false} SimpleLower(ps: Pieces, cap: nat, off: nat, k: Prog)
    requires WfPieces(ps) && SimplePieces(ps) && Simple(k)
    ensures Simple(LowerPieces(ps, cap, off, k))
  {
    match ps
    case PNil =>
    case PCons(p, rest) =>
      var k' := LowerPieces(rest, cap + PieceCaps(p), off + |PieceData(p)|, k);
      SimpleLower(rest, cap + PieceCaps(p), off + |PieceData(p)|, k);
      assert LowerPieces(ps, cap, off, k) == LowerPiece(p, cap, off, k');
      if p.Item? && p.atom.Group? {
        var alt := p.atom.alt;
        assert WfAtom(p.atom) && WfAlt(alt) && SimpleAlt(alt);
        SimpleLower(alt.ps, cap + 1, off, Op(Close(cap + 1), k'));
        assert LowerAtom(p.atom, cap, off, k')
            == Op(Open(cap + 1), LowerPieces(alt.ps, cap + 1, off, Op(Close(cap + 1), k')));
      } else {
        SimplePiece(p, cap, off, k');
      }
  }

  lemma SimplePiece(p: Piece, cap: nat, off: nat, k: Prog)
    requires Simple(k) && (p.Item? ==> WfAtom(p.atom) && p.q != ZeroOrOne && !p.atom.Group?)
    ensures Simple(LowerPiece(p, cap, off, k))
  {
    if p.Item? && p.q != Once {
      UnitIsByteBody(p.atom, cap, off);
      var loop := Op(LoopInstr(p.q, LowerUnit(p.atom, cap, off, Halt)), k);
      assert Simple(loop);
      assert Simple(Op(Exact(off, HeadOf(p.atom)), loop));
    } else if p.Item? {
      assert LowerPiece(p, cap, off, k) == LowerAtom(p.atom, cap, off, k);
    }
  }

  lemma UnitIsByteBody(a: Atom, cap: nat, off: nat)
    requires WfAtom(a) && !a.Group?
    ensures ByteBody(LowerUnit(a, cap, off, Halt))
  {
    match a
    case Lit(w) => assert LowerAtom(a, cap, off, Halt) == Op(Exact(off, w), Halt);
    case Dot => assert LowerAtom(a, cap, off, Halt) == Op(AnyChar, Halt);
    case Set(_, _) => assert LowerAtom(a, cap, off, Halt).next == Halt;
    case Esc(c) => assert LowerAtom(a, cap, off, Halt) == Op(EscInstr(c, off), Halt);
  }

  /** A match starts at a position the search tries. */
  ghost predicate ProgFound(p: Prog, anchored: bool, s: string) {
    exists i: nat, j: nat :: MProg(p, s, i, j) && if anchored then i == 0 else i < |s|
  }

  ghost predicate AltFound(alt: Alt, anchored: bool, s: string) {
    exists i: nat, j: nat :: MAlt(alt, s, i, j) && (anchored || i < |s|)
  }

  lemma ProgExact(p: Prog, anchored: bool, s: string, caps: seq<Cap>)
    requires Settled(p) && Productive(p)
    ensures Search(p, anchored, s, caps).ok <==> ProgFound(p, anchored, s)
  {
    if anchored { RunExact(p, s, 0, caps); } else { SearchExact(p, s, 0, caps); }
    if Search(p, anchored, s, caps).ok {
      var k: nat :| Begins(p, s, k) && if anchored then k == 0 else k < |s|;
      var j: nat :| MProg(p, s, k, j);
    }
    if i: nat, j: nat :| MProg(p, s, i, j) && if anchored then i == 0 else i < |s| {
      assert Begins(p, s, i);
    }
  }

  lemma SameFound(alt: Alt, s: string)
    requires WfAlt(alt) && SimpleAlt(alt) && PrintAlt(alt) != ""
    ensures var anchored := PrintAlt(alt)[0] == '^';
      ProgFound(Lower(alt), anchored, s) <==> AltFound(alt, anchored, s)
  {
    var anchored := PrintAlt(alt)[0] == '^';
    if i: nat, j: nat :| MAlt(alt, s, i, j) && (anchored || i < |s|) {
      if anchored { AnchorAtStart(alt, s, i, j); }
      LowerPreservesLanguage(alt, s, i, j);
    }
    if i: nat, j: nat :| MProg(Lower(alt), s, i, j) && if anchored then i == 0 else i < |s| {
      LowerPreservesLanguage(alt, s, i, j);
    }
  }

  /** `slre_match` on a simple pattern: 1 if and only if a match starts at a position it tries. */
  lemma MatchExact(alt: Alt, s: string, caps: seq<Cap>)
    requires WfAlt(alt) && SimpleAlt(alt) && PrintAlt(alt) != ""
    ensures Productive(Lower(alt))
    ensures var anchored := PrintAlt(alt)[0] == '^';
      Search(Lower(alt), anchored, s, caps).ok <==> AltFound(alt, anchored, s)
  {
    SimpleLower(alt.ps, 0, 0, Op(Close(0), Halt));
    assert Simple(Lower(alt));
    SimpleIsProductive(Lower(alt));
    SimpleIsSettled(Lower(alt));
    ProgExact(Lower(alt), PrintAlt(alt)[0] == '^', s, caps);
    SameFound(alt, s);
  }

  /** Alternatives, each of them simple. */
  predicate SimpleAlts(alt: Alt) {
    SimplePieces(alt.ps) && (alt.Bar? ==> SimpleAlts(alt.more))
  }

  lemma {:induction false} BarsAreSettled(left: Prog, more: Alt, cap: nat, off: nat, k: Prog)
    requires Settled(left) && Productive(left) && WfAlt(more) && SimpleAlts(more) && Free(k) && Productive(k)
    ensures Settled(LowerBars(left, more, cap, off, k)) && Productive(LowerBars(left, more, cap, off, k))
    decreases more
  {
    var r := LowerPieces(more.ps, cap, off, Halt);
    SimpleLower(more.ps, cap, off, Halt);
    SimpleIsSettled(r);
    SimpleIsProductive(r);
    assert InstrProductive(Branch(left, r));
    if more.Bar? {
      var l := Op(Branch(left, r), Halt);
      assert Settled(l) && Productive(l);
      BarsAreSettled(l, more.more, cap + PiecesCaps(more.ps), off + |PiecesData(more.ps)|, k);
    }
  }

  /**
   `slre_match` on alternatives of simple patterns: 1 if and only if a match of one of
   them starts at a position it tries. Anchored by the first alternative, it tries the
   beginning only, for the others too.
   */
  lemma AlternativesExact(alt: Alt, s: string, caps: seq<Cap>)
    requires WfAlt(alt) && SimpleAlts(alt) && alt.Bar? && PrintAlt(alt) != ""
    ensures Productive(Lower(alt))
    ensures var anchored := PrintAlt(alt)[0] == '^';
      Search(Lower(alt), anchored, s, caps).ok
      <==> exists i: nat, j: nat :: MAlt(alt, s, i, j) && if anchored then i == 0 else i < |s|
  {
    var anchored := PrintAlt(alt)[0] == '^';
    var close := Op(Close(0), Halt);
    var left := LowerPieces(alt.ps, 0, 0, Halt);
    SimpleLower(alt.ps, 0, 0, Halt);
    SimpleIsSettled(left);
    SimpleIsProductive(left);
    assert Free(close) && Productive(close);
    BarsAreSettled(left, alt.more, PiecesCaps(alt.ps), |PiecesData(alt.ps)|, close);
    assert Lower(alt) == Op(Open(0), LowerBars(left, alt.more, PiecesCaps(alt.ps), |PiecesData(alt.ps)|, close));
    ProgExact(Lower(alt), anchored, s, caps);
    SameMatches(alt, anchored, s);
  }

  lemma SameMatches(alt: Alt, anchored: bool, s: string)
    requires WfAlt(alt)
    ensures ProgFound(Lower(alt), anchored, s)
       <==> exists i: nat, j: nat :: MAlt(alt, s, i, j) && if anchored then i == 0 else i < |s|
  {
    if i: nat, j: nat :| MAlt(alt, s, i, j) && if anchored then i == 0 else i < |s| {
      LowerPreservesLanguage(alt, s, i, j);
    }
    if i: nat, j: nat :| MProg(Lower(alt), s, i, j) && if anchored then i == 0 else i < |s| {
      LowerPreservesLanguage(alt, s, i, j);
    }
  }

  lemma AnchorAtStart(alt: Alt, s: string, i: nat, j: nat)
    requires WfAlt(alt) && SimpleAlt(alt) && PrintAlt(alt) != "" && PrintAlt(alt)[0] == '^' && MAlt(alt, s, i, j)
    ensures i == 0
  {
    var ps := alt.ps;
    assert ps.PCons?;
    PieceBegins(ps.head);
    assert PrintPieces(ps) == PrintPiece(ps.head) + PrintPieces(ps.tail);
    assert MPieces(ps, s, i, j);
    var k: nat :| i <= k <= j && MPiece(ps.head, s, i, k) && MPieces(ps.tail, s, k, j);
  }

  lemma PieceBegins(p: Piece)
    requires p.Item? ==> WfAtom(p.atom)
    ensures |PrintPiece(p)| >= 1 && (PrintPiece(p)[0] == '^' <==> p.Bol?)
  {
    if p.Item? {
      assert |PrintAtom(p.atom)| >= 1 && PrintPiece(p)[0] == PrintAtom(p.atom)[0] != '^';
    }
  }

  /** A match that is empty at the very end of the text is not found: '$' alone finds nothing in "a". */
  lemma EmptySuffixIsNotTried()
    ensures var alt := Last(PCons(Eol, PNil));
      WfAlt(alt) && SimpleAlt(alt) && MAlt(alt, "a", 1, 1) && Productive(Lower(alt))
          && !Search(Lower(alt), false, "a", []).ok
  {
    var alt := Last(PCons(Eol, PNil));
    assert MPieces(PNil, "a", 1, 1) && MPiece(Eol, "a", 1, 1);
    assert MPieces(alt.ps, "a", 1, 1);
    MatchExact(alt, "a", []);
    forall i: nat, j: nat | MAlt(alt, "a", i, j) ensures i == 1 {
      var k: nat :| i <= k <= j && MPiece(Eol, "a", i, k) && MPieces(PNil, "a", k, j);
    }
    assert PrintPiece(Eol) == "$";
    assert PrintAlt(alt) == "$";
  }

  /** Anchored by its first alternative, `^a|b` does not find the `b` in "xb". */
  lemma AnchorHoldsForAll()
    ensures var alt := Bar(PCons(Bol, PCons(Item(Lit("a"), Once), PNil)), Last(PCons(Item(Lit("b"), Once), PNil)));
      WfAlt(alt) && SimpleAlts(alt) && PrintAlt(alt) == "^a|b" && MAlt(alt, "xb", 1, 2) && Productive(Lower(alt))
          && !Search(Lower(alt), true, "xb", []).ok
  {
    var a, b := Item(Lit("a"), Once), Item(Lit("b"), Once);
    var ps, qs := PCons(Bol, PCons(a, PNil)), PCons(b, PNil);
    var alt := Bar(ps, Last(qs));
    PrintsAs(ps, qs);
    assert "xb"[1..2] == "b" && MPiece(b, "xb", 1, 2) && MPieces(PNil, "xb", 2, 2);
    assert MPieces(qs, "xb", 1, 2) && MAlt(Last(qs), "xb", 1, 2);
    AlternativesExact(alt, "xb", []);
    forall j: nat ensures !MAlt(alt, "xb", 0, j) { NothingAtStart(ps, qs, j); }
  }

  lemma PrintsAs(ps: Pieces, qs: Pieces)
    requires ps == PCons(Bol, PCons(Item(Lit("a"), Once), PNil)) && qs == PCons(Item(Lit("b"), Once), PNil)
    ensures PrintAlt(Bar(ps, Last(qs))) == "^a|b"
  {
    assert PrintPieces(PCons(Item(Lit("a"), Once), PNil)) == "a" + "" + "" == "a";
    assert PrintPieces(ps) == "^" + "a" && PrintPieces(qs) == "b" + "" + "" == "b";
    assert PrintAlt(Last(qs)) == "b";
    assert PrintAlt(Bar(ps, Last(qs))) == PrintPieces(ps) + "|" + PrintAlt(Last(qs));
  }

  lemma NothingAtStart(ps: Pieces, qs: Pieces, j: nat)
    requires ps == PCons(Bol, PCons(Item(Lit("a"), Once), PNil)) && qs == PCons(Item(Lit("b"), Once), PNil)
    ensures !MAlt(Bar(ps, Last(qs)), "xb", 0, j)
  {
    forall m: nat | m <= 2 ensures "xb"[0..m] != "a" && "xb"[0..m] != "b" {
      if m > 0 { assert "xb"[0..m][0] == 'x'; }
    }
  }
}
