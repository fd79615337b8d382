/**
 Bookkeeping for the proof of the one-pass compiler: what has been emitted, what is
 still to be read, and the code both together amount to.

 The text after a pattern stands for the terminating NUL of the C string.
 */
module SlreProgress {
  import opened Basics
  import opened SlreProgram
  import opened SlreSyntax
  import opened SlreCodegen

  /** An atom already emitted whose quantifier is the next thing to read. */
  datatype Pending = Pending(a: Atom, q: Quant, cap: nat, off: nat)

  /**
   The state of the compilation of one bracket level: the finished alternatives to
   the left, the code of the current alternative, its unread pieces, and the
   alternatives after it.
   */
  datatype Progress = Progress(
    left: Option<seq<byte>>, done: seq<byte>, pend: Option<Pending>, rem: Pieces, more: Option<Alt>)
  {
    /** The text still to be read. */
    function Text(): string {
      (if pend.Some? then PrintQuant(pend.value.q) else "") + PrintPieces(rem) +
      (if more.Some? then "|" + PrintAlt(more.value) else "")
    }

    function Current(): seq<byte> {
      done + if pend.Some? then AtomBytes(pend.value.a, pend.value.cap, pend.value.off) else []
    }

    /** The code emitted so far at this level. */
    function Emitted(): seq<byte> {
      if left.Some? then OpenBranch(left.value, Current()) else Current()
    }

    /** The code of the current alternative once its pieces have been read. */
    function Branch(cap: nat, off: nat): seq<byte> {
      done + (if pend.Some? then QuantBytes(pend.value.a, pend.value.q, pend.value.cap, pend.value.off) else []) +
      PiecesBytes(rem, cap, off)
    }

    /** The code of the level once everything has been read. */
    function Goal(cap: nat, off: nat, closed: bool): seq<byte> {
      Finish(left, Branch(cap, off), more, cap + PiecesCaps(rem), off + |PiecesData(rem)|, closed)
    }

    function Data(): string { PiecesData(rem) + if more.Some? then AltData(more.value) else "" }

    function Caps(): nat { PiecesCaps(rem) + if more.Some? then AltCaps(more.value) else 0 }

    ghost predicate Wf() {
      && WfPieces(rem)
      && (more.Some? ==> WfAlt(more.value))
      && (pend.Some? ==> WfAtom(pend.value.a) && pend.value.q != Once)
    }

    /** After the next piece's first part has been emitted. */
    function Advance(cap: nat, off: nat): Progress
      requires pend.None? && rem.PCons?
    {
      if rem.head.Item? && rem.head.q != Once then
        this.(pend := Some(Pending(rem.head.atom, rem.head.q, cap, off)), rem := rem.tail)
      else
        this.(done := done + PieceBytes(rem.head, cap, off), rem := rem.tail)
    }

    /** After the pending quantifier has been applied. */
    function Settle(): Progress
      requires pend.Some?
    {
      this.(done := done + QuantBytes(pend.value.a, pend.value.q, pend.value.cap, pend.value.off), pend := None)
    }

    /** After a '|'. */
    function Turn(): Progress
      requires pend.None? && rem.PNil? && more.Some?
    {
      Progress(Some(Join(left, done)), [], None, more.value.ps,
               if more.value.Bar? then Some(more.value.more) else None)
    }
  }

  /** The code of a level whose current alternative has the code `b`. */
  function Finish(left: Option<seq<byte>>, b: seq<byte>, more: Option<Alt>, cap: nat, off: nat,
                  closed: bool): seq<byte>
  {
    match more
    case Some(rest) => BarsBytes(Join(left, b), rest, cap, off, closed)
    case None => if left.Some? && !closed then OpenBranch(left.value, b) else Join(left, b)
  }

  function Join(left: Option<seq<byte>>, b: seq<byte>): seq<byte> {
    if left.Some? then ClosedBranch(left.value, b) else b
  }

  function Start(alt: Alt): Progress {
    Progress(None, [], None, alt.ps, if alt.Bar? then Some(alt.more) else None)
  }

  lemma StartIsAlt(alt: Alt)
    requires WfAlt(alt)
    ensures Start(alt).Wf() && Start(alt).Emitted() == []
    ensures Start(alt).Text() == PrintAlt(alt)
    ensures Start(alt).Data() == AltData(alt) && Start(alt).Caps() == AltCaps(alt)
  {
  }

  lemma StartGoal(alt: Alt, cap: nat, off: nat, closed: bool)
    requires WfAlt(alt)
    ensures Start(alt).Goal(cap, off, closed) == AltBytes(alt, cap, off, closed)
  {
    var pr, b := Start(alt), PiecesBytes(alt.ps, cap, off);
    assert pr.Branch(cap, off) == [] + [] + b == b;
    assert Finish(None, b, None, cap, off, closed) == b;
  }

  lemma AdvanceBranch(pr: Progress, cap: nat, off: nat)
    requires pr.Wf() && pr.pend.None? && pr.rem.PCons?
    ensures pr.Advance(cap, off).Branch(cap + PieceCaps(pr.rem.head), off + |PieceData(pr.rem.head)|)
         == pr.Branch(cap, off)
  {
    var PCons(p, rest) := pr.rem;
    var b, t := PieceBytes(p, cap, off), PiecesBytes(rest, cap + PieceCaps(p), off + |PieceData(p)|);
    RemBytes(pr.rem, cap, off);
    DoneFirst(pr.done, b, t);
  }

  lemma RemBytes(ps: Pieces, cap: nat, off: nat)
    requires ps.PCons?
    ensures PiecesBytes(ps, cap, off)
         == PieceBytes(ps.head, cap, off) + PiecesBytes(ps.tail, cap + PieceCaps(ps.head), off + |PieceData(ps.head)|)
  {
  }

  lemma DoneFirst<T>(d: seq<T>, b: seq<T>, t: seq<T>)
    ensures d + [] + (b + t) == (d + b) + [] + t == d + b + t
  {
  }

  /** What is read before the next piece's pending part. */
  function FirstPart(p: Piece): string {
    if p.Item? then PrintAtom(p.atom) else PrintPiece(p)
  }

  lemma AdvanceText(pr: Progress, cap: nat, off: nat)
    requires pr.Wf() && pr.pend.None? && pr.rem.PCons?
    ensures pr.Text() == FirstPart(pr.rem.head) + pr.Advance(cap, off).Text()
  {
    var p, t := pr.rem.head, PrintPieces(pr.rem.tail);
    var m := if pr.more.Some? then "|" + PrintAlt(pr.more.value) else "";
    var u := if p.Item? then PrintQuant(p.q) else "";
    assert PrintPiece(p) == FirstPart(p) + u;
    assert pr.Text() == "" + (PrintPiece(p) + t) + m;
    assert pr.Advance(cap, off).Text() == u + t + m;
    Reassociate(FirstPart(p), u, t, m);
  }

  lemma Reassociate(a: string, b: string, c: string, d: string)
    ensures "" + ((a + b) + c) + d == a + (b + c + d)
  {
  }

  lemma AdvanceRest(pr: Progress, cap: nat, off: nat)
    requires pr.Wf() && pr.pend.None? && pr.rem.PCons?
    ensures var p := pr.rem.head; var nx := pr.Advance(cap, off);
            && nx.Wf()
            && PieceData(p) + nx.Data() == pr.Data()
            && PieceCaps(p) + nx.Caps() == pr.Caps()
            && nx.Current() == pr.done + (if p.Item? then AtomBytes(p.atom, cap, off) else PieceBytes(p, cap, off))
  {
    var p := pr.rem.head;
    if !p.Item? || p.q == Once {
      var nx := pr.Advance(cap, off);
      assert nx.Current() == nx.done + [] == pr.done + PieceBytes(p, cap, off);
    }
  }

  lemma SettleGoal(pr: Progress, cap: nat, off: nat, closed: bool)
    requires pr.Wf() && pr.pend.Some?
    ensures pr.Settle().Goal(cap, off, closed) == pr.Goal(cap, off, closed)
  {
    var v := pr.pend.value;
    var q, t := QuantBytes(v.a, v.q, v.cap, v.off), PiecesBytes(pr.rem, cap, off);
    assert pr.Branch(cap, off) == pr.done + q + t;
    assert pr.Settle().Branch(cap, off) == pr.done + q + [] + t;
    assert pr.Settle().Branch(cap, off) == pr.Branch(cap, off);
  }

  lemma SettleText(pr: Progress)
    requires pr.Wf() && pr.pend.Some?
    ensures pr.Settle().Wf() && pr.Text() == PrintQuant(pr.pend.value.q) + pr.Settle().Text()
  {
    var q, t := PrintQuant(pr.pend.value.q), PrintPieces(pr.rem);
    var m := if pr.more.Some? then "|" + PrintAlt(pr.more.value) else "";
    assert pr.Settle().Text() == t + m;
  }

  lemma TurnKeeps(pr: Progress, cap: nat, off: nat, closed: bool)
    requires pr.Wf() && pr.pend.None? && pr.rem.PNil? && pr.more.Some?
    ensures pr.Turn().Wf() && pr.Turn().Goal(cap, off, closed) == pr.Goal(cap, off, closed)
    ensures pr.Turn().Data() == pr.Data() && pr.Turn().Caps() == pr.Caps()
    ensures pr.Text() == "|" + pr.Turn().Text()
  {
    TurnText(pr);
    TurnGoal(pr, cap, off, closed);
  }

  lemma TurnGoal(pr: Progress, cap: nat, off: nat, closed: bool)
    requires pr.Wf() && pr.pend.None? && pr.rem.PNil? && pr.more.Some?
    ensures pr.Turn().Wf() && pr.Turn().Goal(cap, off, closed) == pr.Goal(cap, off, closed)
  {
    var nx, more := pr.Turn(), pr.more.value;
    var b := PiecesBytes(more.ps, cap, off);
    assert pr.Branch(cap, off) == pr.done;
    assert nx.Branch(cap, off) == b;
    assert nx.Goal(cap, off, closed)
        == Finish(nx.left, b, nx.more, cap + PiecesCaps(more.ps), off + |PiecesData(more.ps)|, closed);
    assert pr.Goal(cap, off, closed) == BarsBytes(Join(pr.left, pr.done), more, cap, off, closed);
  }

  lemma TurnText(pr: Progress)
    requires pr.Wf() && pr.pend.None? && pr.rem.PNil? && pr.more.Some?
    ensures pr.Turn().Wf() && pr.Turn().Data() == pr.Data() && pr.Turn().Caps() == pr.Caps()
    ensures pr.Text() == "|" + pr.Turn().Text()
  {
    assert pr.Text() == "|" + PrintAlt(pr.more.value);
    assert pr.Turn().Text() == PrintAlt(pr.more.value);
  }

  // ------------------------------------------------------------- reading the pattern

  const SIZE := 256

  /** The byte at `pos` of a NUL-terminated string. */
  function CharAt(re: string, pos: nat): char {
    if pos < |re| then re[pos] else 0 as char
  }

  lemma NextSplit(re: string, pos: nat, u: string, v: string)
    requires TextAt(re, pos, u + v)
    ensures TextAt(re, pos, u) && TextAt(re, pos + |u|, v)
    ensures |u| >= 1 ==> CharAt(re, pos) == u[0]
    ensures |v| >= 1 ==> CharAt(re, pos + |u|) == v[0]
  {
    var w := re[pos..pos + |u + v|];
    assert re[pos..pos + |u|] == w[..|u|] == u;
    assert re[pos + |u|..pos + |u| + |v|] == w[|u|..] == v;
    if |u| >= 1 { assert re[pos] == w[0]; }
    if |v| >= 1 { assert re[pos + |u|] == w[|u|]; }
  }

  lemma NextChars(re: string, pos: nat, w: string)
    requires TextAt(re, pos, w)
    ensures forall k | pos <= k < pos + |w| :: CharAt(re, k) == w[k - pos]
  {
    forall k | pos <= k < pos + |w| ensures CharAt(re, k) == w[k - pos] {
      assert re[k] == re[pos..pos + |w|][k - pos];
    }
  }

  function SetText(neg: bool, items: seq<SetItem>, closed: bool): string {
    (if neg then "^" else "") + (PrintItems(items) + if closed then "]" else "")
  }

  /** A bracket level ends at the end of the pattern or at a closing bracket. */
  predicate EndsLevel(re: string, end: nat) {
    end == |re| || CharAt(re, end) == ')'
  }

  lemma SetAtomStart(re: string, pos: nat, a: Atom)
    requires a.Set? && TextAt(re, pos, PrintAtom(a))
    ensures TextAt(re, pos + 1, SetText(a.neg, a.items, true))
  {
    assert PrintAtom(a) == "[" + SetText(a.neg, a.items, true);
    NextSplit(re, pos, "[", SetText(a.neg, a.items, true));
  }

  lemma GroupStart(re: string, pos: nat, a: Atom)
    requires a.Group? && TextAt(re, pos, PrintAtom(a))
    ensures var end := pos + 1 + |PrintAlt(a.alt)|;
      TextAt(re, pos + 1, PrintAlt(a.alt)) && end < |re| && CharAt(re, end) == ')'
  {
    NextSplit(re, pos, "(" + PrintAlt(a.alt), ")");
    NextSplit(re, pos, "(", PrintAlt(a.alt));
  }

  lemma AtomStart(re: string, pos: nat, a: Atom)
    requires WfAtom(a) && TextAt(re, pos, PrintAtom(a)) && IsCString(re)
    ensures pos < |re|
    ensures a.Dot? <==> re[pos] == '.'
    ensures a.Set? <==> re[pos] == '['
    ensures a.Esc? <==> re[pos] == '\\'
    ensures a.Group? <==> re[pos] == '('
    ensures a.Lit? <==> IsLitChar(re[pos])
    ensures a.Set? ==> TextAt(re, pos + 1, SetText(a.neg, a.items, true))
    ensures a.Esc? ==> pos + 1 < |re| && re[pos + 1] == a.c
    ensures a.Group? ==> TextAt(re, pos + 1, PrintAlt(a.alt)) && EndsLevel(re, pos + 1 + |PrintAlt(a.alt)|)
    ensures a.Group? ==> pos + 1 + |PrintAlt(a.alt)| < |re|
  {
    assert re[pos..pos + |PrintAtom(a)|][0] == re[pos];
    match a
    case Lit(w) =>
    case Dot =>
    case Set(neg, items) => SetAtomStart(re, pos, a);
    case Esc(c) => assert re[pos..pos + 2][1] == re[pos + 1];
    case Group(alt) => GroupStart(re, pos, a);
  }

  // ---------------------------------------------------- steps of the one-pass compiler

  lemma FirstPartNonempty(p: Piece)
    requires p.Item? ==> WfAtom(p.atom)
    ensures |FirstPart(p)| >= 1
  {
  }

  lemma PieceRead(re: string, pr: Progress, cap: nat, off: nat, pos: nat, end: nat)
    requires pr.Wf() && pr.pend.None? && pr.rem.PCons? && TextAt(re, pos, pr.Text()) && pos + |pr.Text()| == end
    ensures |FirstPart(pr.rem.head)| >= 1
    ensures var nx, pos' := pr.Advance(cap, off), pos + |FirstPart(pr.rem.head)|;
      && TextAt(re, pos, FirstPart(pr.rem.head)) && CharAt(re, pos) == FirstPart(pr.rem.head)[0]
      && TextAt(re, pos', nx.Text()) && pos' + |nx.Text()| == end
  {
    AdvanceText(pr, cap, off);
    FirstPartNonempty(pr.rem.head);
    NextSplit(re, pos, FirstPart(pr.rem.head), pr.Advance(cap, off).Text());
  }

  /** The next byte tells what comes next at this level. */
  lemma NextChar(re: string, pos: nat, pr: Progress, end: nat)
    requires pr.Wf() && TextAt(re, pos, pr.Text()) && pos + |pr.Text()| == end && EndsLevel(re, end) && IsCString(re)
    ensures var c := CharAt(re, pos);
      && (pr.pend.Some? ==> [c] == PrintQuant(pr.pend.value.q))
      && (pr.pend.None? && pr.rem.PNil? && pr.more.Some? ==> c == '|')
      && (pr.pend.None? && pr.rem.PNil? && pr.more.None? ==>
            pos == end && c == (if end == |re| then 0 as char else ')'))
      && (pr.pend.None? && pr.rem.PCons? ==> StartsPiece(re, pos, pr.rem.head, c))
    decreases pr.rem
  {
    if pr.pend.Some? {
      SettleText(pr);
      NextSplit(re, pos, PrintQuant(pr.pend.value.q), pr.Settle().Text());
    } else if pr.rem.PCons? {
      NextPiece(re, pos, pr, end);
    } else if pr.more.Some? {
      TurnText(pr);
      NextSplit(re, pos, "|", pr.Turn().Text());
    }
  }

  lemma NextPiece(re: string, pos: nat, pr: Progress, end: nat)
    requires pr.Wf() && TextAt(re, pos, pr.Text()) && pos + |pr.Text()| == end && EndsLevel(re, end) && IsCString(re)
    requires pr.pend.None? && pr.rem.PCons?
    ensures StartsPiece(re, pos, pr.rem.head, CharAt(re, pos))
    decreases pr.rem, 0
  {
    var p, nx := pr.rem.head, pr.Advance(0, 0);
    PieceRead(re, pr, 0, 0, pos, end);
    if p.Item? {
      AtomStart(re, pos, p.atom);
      if p.atom.Lit? {
        // A literal run is maximal: what follows it cannot extend it.
        AdvanceRest(pr, 0, 0);
        NextChar(re, pos + |p.atom.w|, nx, end);
      }
    }
  }

  ghost predicate StartsPiece(re: string, pos: nat, p: Piece, c: char) {
    match p
    case Bol => c == '^'
    case Eol => c == '$'
    case Item(a, _) =>
      && c !in "^$|)*+?" && c != 0 as char
      && TextAt(re, pos, PrintAtom(a)) && (a.Lit? <==> IsLitChar(c))
      && (a.Lit? ==> !IsLitChar(CharAt(re, pos + |a.w|)))
  }

  // ------------------------------------------------------------- room in the buffers

  lemma {:induction false} BarsLength(left: seq<byte>, more: Alt, cap: nat, off: nat, closed: bool)
    ensures |BarsBytes(left, more, cap, off, closed)| >= |left| + 4
    decreases more
  {
    if more.Bar? {
      BarsLength(ClosedBranch(left, PiecesBytes(more.ps, cap, off)), more.more,
                 cap + PiecesCaps(more.ps), off + |PiecesData(more.ps)|, closed);
    }
  }

  lemma {:induction false} OpenBarsLength(left: seq<byte>, more: Alt, cap: nat, off: nat)
    ensures |BarsBytes(left, more, cap, off, false)| <= |BarsBytes(left, more, cap, off, true)|
    decreases more
  {
    if more.Bar? {
      OpenBarsLength(ClosedBranch(left, PiecesBytes(more.ps, cap, off)), more.more,
                     cap + PiecesCaps(more.ps), off + |PiecesData(more.ps)|);
    }
  }

  lemma AltBytesLength(alt: Alt, cap: nat, off: nat)
    ensures |AltBytes(alt, cap, off, false)| <= |AltBytes(alt, cap, off, true)|
  {
    if alt.Bar? {
      OpenBarsLength(PiecesBytes(alt.ps, cap, off), alt.more, cap + PiecesCaps(alt.ps), off + |PiecesData(alt.ps)|);
    }
  }

  function LeftLength(pr: Progress): nat { if pr.left.Some? then |pr.left.value| + 4 else 0 }

  lemma GoalCovers(pr: Progress, cap: nat, off: nat, closed: bool)
    requires pr.Wf()
    ensures var b, g := pr.Branch(cap, off), |pr.Goal(cap, off, closed)|;
      && LeftLength(pr) + |b| <= g
      && (pr.more.Some? ==> |Join(pr.left, b)| + 4 <= g)
      && (pr.more.None? && closed ==> |Join(pr.left, b)| <= g)
  {
    var b := pr.Branch(cap, off);
    if pr.more.Some? {
      BarsLength(Join(pr.left, b), pr.more.value, cap + PiecesCaps(pr.rem), off + |PiecesData(pr.rem)|, closed);
    }
  }

  lemma BranchCovers(pr: Progress, cap: nat, off: nat)
    requires pr.Wf()
    ensures var b := pr.Branch(cap, off);
      && (pr.pend.Some? ==> var v := pr.pend.value; |pr.done| + |QuantBytes(v.a, v.q, v.cap, v.off)| <= |b|)
      && (pr.pend.None? && pr.rem.PCons? ==> |pr.done| + |FirstBytes(pr.rem.head, cap, off)| <= |b|)
      && (pr.pend.None? && pr.rem.PNil? ==> b == pr.done)
  {
    if pr.pend.None? && pr.rem.PCons? {
      var p := pr.rem.head;
      if p.Item? { AtomInPiece(p.atom, p.q, cap, off); }
      var t := PiecesBytes(pr.rem.tail, cap + PieceCaps(p), off + |PieceData(p)|);
      assert |pr.Branch(cap, off)| == |pr.done| + |PieceBytes(p, cap, off) + t|;
    }
  }

  /** What is emitted next fits because the finished code does. */
  lemma GoalLength(pr: Progress, cap: nat, off: nat, closed: bool)
    requires pr.Wf()
    ensures var g, l := |pr.Goal(cap, off, closed)|, LeftLength(pr);
      && (pr.pend.Some? ==>
            var v := pr.pend.value; l + |pr.done| + |QuantBytes(v.a, v.q, v.cap, v.off)| <= g)
      && (pr.pend.None? && pr.rem.PCons? ==> l + |pr.done| + |FirstBytes(pr.rem.head, cap, off)| <= g)
      && (pr.pend.None? && pr.rem.PNil? && pr.more.Some? ==> |Join(pr.left, pr.done)| + 4 <= g)
      && (pr.pend.None? && pr.rem.PNil? && pr.more.None? && closed ==> |Join(pr.left, pr.done)| <= g)
  {
    GoalCovers(pr, cap, off, closed);
    BranchCovers(pr, cap, off);
  }

  // ------------------------------------------------------------ one bracket level

  /**
   The compilation of one bracket level: the code before it, the pattern text and
   where the level ends in it, and the buffers as they must be at the end.
   */
  datatype Job = Job(base: seq<byte>, re: string, end: nat, code: seq<byte>, data: string, caps: nat)
  {
    predicate Closed() { end < |re| }

    /** `pr` describes the point reached at `pos` with the buffers `c` and `d` and `n` brackets so far. */
    ghost predicate Reached(pr: Progress, c: seq<byte>, d: string, n: nat, pos: nat) {
      && pr.Wf() && IsCString(re) && EndsLevel(re, end)
      && 1 <= |base| && |code| <= SIZE && |data| <= 255
      && TextAt(re, pos, pr.Text()) && pos + |pr.Text()| == end
      && c == base + pr.Emitted()
      && base + pr.Goal(n, |d|, Closed()) == code
      && d + pr.Data() == data && n + pr.Caps() == caps
      && (pr.pend.Some? ==> pr.pend.value.off + |AtomData(pr.pend.value.a)| == |d|)
    }
  }

  function Fixup(base: seq<byte>, pr: Progress): nat {
    if pr.left.Some? then |base| + 2 else 0
  }

  /** The code in front of the atom that awaits its quantifier. */
  function Front(base: seq<byte>, pr: Progress): seq<byte> {
    base + if pr.left.Some? then OpenBranch(pr.left.value, pr.done) else pr.done
  }

  lemma JobStart(j: Job, alt: Alt, n: nat, d: string, pos: nat)
    requires WfAlt(alt) && IsCString(j.re) && TextAt(j.re, pos, PrintAlt(alt)) && j.end == pos + |PrintAlt(alt)|
    requires EndsLevel(j.re, j.end) && |j.base| >= 1 && |j.base| + |AltBytes(alt, n, |d|, true)| <= SIZE
    requires j.code == j.base + AltBytes(alt, n, |d|, j.Closed())
    requires j.data == d + AltData(alt) && |j.data| <= 255 && j.caps == n + AltCaps(alt)
    ensures j.Reached(Start(alt), j.base, d, n, pos)
  {
    StartIsAlt(alt);
    StartGoal(alt, n, |d|, j.Closed());
    AltBytesLength(alt, n, |d|);
  }

  lemma EndStep(j: Job, pr: Progress, c: seq<byte>, d: string, n: nat, pos: nat)
    requires j.Reached(pr, c, d, n, pos) && CharAt(j.re, pos) == 0 as char
    ensures c == j.code && d == j.data && n == j.caps && pos == j.end == |j.re|
  {
    NextChar(j.re, pos, pr, j.end);
    assert pr.Branch(n, |d|) == pr.done == pr.Current();
  }

  lemma CloseStep(j: Job, pr: Progress, c: seq<byte>, d: string, n: nat, pos: nat)
    requires j.Reached(pr, c, d, n, pos) && CharAt(j.re, pos) == ')'
    ensures c == Front(j.base, pr) && j.base + Join(pr.left, pr.done) == j.code
    ensures d == j.data && n == j.caps && pos == j.end < |j.re|
  {
    NextChar(j.re, pos, pr, j.end);
    assert pr.Branch(n, |d|) == pr.done == pr.Current();
  }

  lemma TurnStep(j: Job, pr: Progress, c: seq<byte>, d: string, n: nat, pos: nat)
    requires j.Reached(pr, c, d, n, pos) && CharAt(j.re, pos) == '|'
    ensures c == Front(j.base, pr) && |j.base| + |Join(pr.left, pr.done)| + 4 <= SIZE
    ensures pr.pend.None? && pr.rem.PNil? && pr.more.Some?
    ensures j.Reached(pr.Turn(), j.base + OpenBranch(Join(pr.left, pr.done), []), d, n, pos + 1)
  {
    NextChar(j.re, pos, pr, j.end);
    GoalLength(pr, n, |d|, j.Closed());
    assert pr.Current() == pr.done;
    TurnDone(j, pr, pr.Turn(), c, d, n, pos);
  }

  lemma TurnDone(j: Job, pr: Progress, nx: Progress, c: seq<byte>, d: string, n: nat, pos: nat)
    requires j.Reached(pr, c, d, n, pos) && pr.pend.None? && pr.rem.PNil? && pr.more.Some? && nx == pr.Turn()
    ensures j.Reached(nx, j.base + OpenBranch(Join(pr.left, pr.done), []), d, n, pos + 1)
  {
    TurnText(pr);
    TurnKeeps(pr, n, |d|, j.Closed());
    NextSplit(j.re, pos, "|", nx.Text());
    assert nx.Emitted() == OpenBranch(Join(pr.left, pr.done), []);
  }

  lemma QuantStep(j: Job, pr: Progress, c: seq<byte>, d: string, n: nat, pos: nat)
    requires j.Reached(pr, c, d, n, pos) && CharAt(j.re, pos) in "+*?"
    ensures pr.pend.Some?
    ensures var v := pr.pend.value;
      && [CharAt(j.re, pos)] == PrintQuant(v.q)
      && c == Front(j.base, pr) + AtomBytes(v.a, v.cap, v.off)
      && |Front(j.base, pr)| + |QuantBytes(v.a, v.q, v.cap, v.off)| <= SIZE
      && v.off + |AtomData(v.a)| <= 255
      && j.Reached(pr.Settle(), Front(j.base, pr) + QuantBytes(v.a, v.q, v.cap, v.off), d, n, pos + 1)
  {
    NextChar(j.re, pos, pr, j.end);
    GoalLength(pr, n, |d|, j.Closed());
    SettleGoal(pr, n, |d|, j.Closed());
    SettleText(pr);
    var v := pr.pend.value;
    EmittedAppend(j.base, pr.left, pr.done, AtomBytes(v.a, v.cap, v.off));
    EmittedAppend(j.base, pr.left, pr.done, QuantBytes(v.a, v.q, v.cap, v.off));
    NextSplit(j.re, pos, PrintQuant(v.q), pr.Settle().Text());
    assert pr.Settle().Current() == pr.done + QuantBytes(v.a, v.q, v.cap, v.off);
  }

  /** What is emitted and stored for the first part of a piece. */
  function FirstBytes(p: Piece, cap: nat, off: nat): seq<byte> {
    if p.Item? then AtomBytes(p.atom, cap, off) else PieceBytes(p, cap, off)
  }

  lemma PieceStep(j: Job, pr: Progress, c: seq<byte>, d: string, n: nat, pos: nat)
    requires j.Reached(pr, c, d, n, pos) && CharAt(j.re, pos) !in "+*?|)" && CharAt(j.re, pos) != 0 as char
    ensures pr.pend.None? && pr.rem.PCons?
    ensures var p := pr.rem.head;
      && StartsPiece(j.re, pos, p, CharAt(j.re, pos))
      && (p.Item? ==> WfAtom(p.atom))
      && |c| + |FirstBytes(p, n, |d|)| <= SIZE && |d| + |PieceData(p)| <= 255
      && c == Front(j.base, pr)
  {
    NextChar(j.re, pos, pr, j.end);
    GoalLength(pr, n, |d|, j.Closed());
    AdvanceRest(pr, n, |d|);
    assert pr.Current() == pr.done;
  }

  lemma PieceDone(j: Job, pr: Progress, nx: Progress, c: seq<byte>, d: string, n: nat, pos: nat,
                  c': seq<byte>, d': string, n': nat, pos': nat)
    requires j.Reached(pr, c, d, n, pos) && pr.pend.None? && pr.rem.PCons? && nx == pr.Advance(n, |d|)
    requires c' == c + FirstBytes(pr.rem.head, n, |d|) && d' == d + PieceData(pr.rem.head)
    requires n' == n + PieceCaps(pr.rem.head) && pos' == pos + |FirstPart(pr.rem.head)|
    ensures j.Reached(nx, c', d', n', pos')
  {
    PieceBuffers(j, pr, nx, c, d, n, pos, c', d', n');
    PieceText(j.re, j.end, pr, nx, n, |d|, pos, pos');
  }

  lemma PieceText(re: string, end: nat, pr: Progress, nx: Progress, cap: nat, off: nat, pos: nat, pos': nat)
    requires pr.Wf() && pr.pend.None? && pr.rem.PCons? && TextAt(re, pos, pr.Text()) && pos + |pr.Text()| == end
    requires nx == pr.Advance(cap, off) && pos' == pos + |FirstPart(pr.rem.head)|
    ensures TextAt(re, pos', nx.Text()) && pos' + |nx.Text()| == end
  {
    PieceRead(re, pr, cap, off, pos, end);
  }

  lemma PieceBuffers(j: Job, pr: Progress, nx: Progress, c: seq<byte>, d: string, n: nat, pos: nat, c': seq<byte>,
                     d': string, n': nat)
    requires j.Reached(pr, c, d, n, pos) && pr.pend.None? && pr.rem.PCons? && nx == pr.Advance(n, |d|)
    requires c' == c + FirstBytes(pr.rem.head, n, |d|) && d' == d + PieceData(pr.rem.head)
    requires n' == n + PieceCaps(pr.rem.head)
    ensures nx.Wf() && c' == j.base + nx.Emitted() && j.base + nx.Goal(n', |d'|, j.Closed()) == j.code
    ensures d' + nx.Data() == j.data && n' + nx.Caps() == j.caps
    ensures nx.pend.Some? ==> nx.pend.value.off + |AtomData(nx.pend.value.a)| == |d'|
  {
    PieceGoal(pr, n, |d|, n', |d'|, j.Closed());
    PieceRest(pr, n, |d|, d);
    PieceEmitted(j.base, pr, n, |d|);
  }

  lemma PieceGoal(pr: Progress, n: nat, off: nat, n': nat, off': nat, closed: bool)
    requires pr.Wf() && pr.pend.None? && pr.rem.PCons?
    requires n' == n + PieceCaps(pr.rem.head) && off' == off + |PieceData(pr.rem.head)|
    ensures pr.Advance(n, off).Goal(n', off', closed) == pr.Goal(n, off, closed)
  {
    AdvanceBranch(pr, n, off);
    RemCounts(pr.rem);
    SameGoal(pr, pr.Advance(n, off), n, off, n', off', closed);
  }

  lemma SameGoal(pr: Progress, nx: Progress, n: nat, off: nat, n': nat, off': nat, closed: bool)
    requires nx.left == pr.left && nx.more == pr.more && nx.Branch(n', off') == pr.Branch(n, off)
    requires n' + PiecesCaps(nx.rem) == n + PiecesCaps(pr.rem)
    requires off' + |PiecesData(nx.rem)| == off + |PiecesData(pr.rem)|
    ensures nx.Goal(n', off', closed) == pr.Goal(n, off, closed)
  {
  }

  lemma RemCounts(ps: Pieces)
    requires ps.PCons?
    ensures PiecesCaps(ps) == PieceCaps(ps.head) + PiecesCaps(ps.tail)
    ensures |PiecesData(ps)| == |PieceData(ps.head)| + |PiecesData(ps.tail)|
  {
  }

  lemma PieceRest(pr: Progress, n: nat, off: nat, d: string)
    requires pr.Wf() && pr.pend.None? && pr.rem.PCons?
    ensures var p, nx := pr.rem.head, pr.Advance(n, off);
      && nx.Wf() && d + PieceData(p) + nx.Data() == d + pr.Data() && PieceCaps(p) + nx.Caps() == pr.Caps()
      && (nx.pend.Some? ==> nx.pend.value.off == off && PieceData(p) == AtomData(nx.pend.value.a))
  {
    AdvanceRest(pr, n, off);
    Regroup(d, PieceData(pr.rem.head), pr.Advance(n, off).Data());
  }

  lemma PieceEmitted(base: seq<byte>, pr: Progress, cap: nat, off: nat)
    requires pr.Wf() && pr.pend.None? && pr.rem.PCons?
    ensures base + pr.Advance(cap, off).Emitted() == base + pr.Emitted() + FirstBytes(pr.rem.head, cap, off)
  {
    AdvanceRest(pr, cap, off);
    assert pr.Current() == pr.done;
    EmittedAppend(base, pr.left, pr.done, FirstBytes(pr.rem.head, cap, off));
  }

  lemma EmittedAppend(base: seq<byte>, left: Option<seq<byte>>, done: seq<byte>, a: seq<byte>)
    ensures base + (if left.Some? then OpenBranch(left.value, done + a) else done + a)
         == (base + if left.Some? then OpenBranch(left.value, done) else done) + a
  {
    if left.Some? {
      var h := [BRANCH, Byte(|left.value| + 4), 255] + left.value + [END];
      Regroup(h, done, a);
      Regroup(base, h + done, a);
    } else {
      Regroup(base, done, a);
    }
  }
}
