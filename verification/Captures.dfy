/**
 What the matcher captures: running compiled groups, and the four fields that the
 multipart pattern recovers from a message header.
 */
module Captures {
  import opened Basics
  import opened SlreProgram
  import opened SlreSyntax
  import opened SlreExact
  import opened Patterns

  /** The end of every program. */
  const FINISH: Prog := Op(Close(0), Halt)

  /** Running a simple program, which always terminates. */
  function Go(p: Prog, s: string, ofs: nat, caps: seq<Cap>): (o: Out)
    requires Simple(p) && ofs <= |s|
    ensures |o.caps| == |caps|
  {
    SimpleIsProductive(p);
    Run(p, s, ofs, caps)
  }

  /** A capture delimits the text `w`: what `_ortc_get_from_slre` copies out. */
  predicate CapturedIs(s: string, c: Cap, w: string) {
    0 <= c.ptr && c.len == |w| && c.ptr + c.len <= |s| && s[c.ptr..c.ptr + c.len] == w
  }

  // ------------------------------------------------------------- single instructions

  lemma GoStep(p: Prog, s: string, ofs: nat, caps: seq<Cap>)
    requires Simple(p) && p.Op? && ofs <= |s|
    ensures Productive(p)
    ensures var o := Exec(p, s, ofs, caps); Go(p, s, ofs, caps) == if o.ok then Go(p.next, s, o.ofs, o.caps) else o
  {
    SimpleIsProductive(p);
    SimpleIsProductive(p.next);
  }

  // ----------------------------------------------------------------- greedy repetition

  function ByteLoop(b: Prog, next: Prog): Prog { Op(Star(b), next) }

  /**
   A loop over one byte ends at `m` when the rest matches there and does not match at
   any later boundary it can reach.
   */
  lemma StarEndsAt(b: Prog, next: Prog, s: string, i: nat, m: nat, caps: seq<Cap>)
    requires ByteBody(b) && Simple(next)
    requires AllAccepted(b, s, i, m) && Go(next, s, m, []).ok
    requires forall k: nat | m < k && AllAccepted(b, s, i, k) :: !Go(next, s, k, []).ok
    ensures Go(ByteLoop(b, next), s, i, caps) == Go(next, s, m, caps)
  {
    GoStep(ByteLoop(b, next), s, i, caps);
    GreedyEndsAt(b, next, s, i, m);
  }

  lemma GreedyEndsAt(b: Prog, next: Prog, s: string, i: nat, m: nat)
    requires ByteBody(b) && Simple(next) && Productive(ByteLoop(b, next))
    requires AllAccepted(b, s, i, m) && Go(next, s, m, []).ok
    requires forall k: nat | m < k && AllAccepted(b, s, i, k) :: !Go(next, s, k, []).ok
    ensures i <= |s| && Greedy(ByteLoop(b, next), s, i, i) == m
  {
    var p := ByteLoop(b, next);
    GreedyIsBest(p, s, i, i);
    var g := Greedy(p, s, i, i);
    assert m <= g;
  }

  // -------------------------------------------------------------------------- groups

  /** Compiled `(.[^members]*)`. */
  function FieldProg(n: nat, off: nat, members: string, next: Prog): Prog {
    Op(Open(n), Op(AnyChar, ByteLoop(Op(AnyBut(off, members), Halt), Op(Close(n), next))))
  }

  /** Compiled `(.*)`. */
  function AnyTextProg(n: nat, next: Prog): Prog {
    Op(Open(n), ByteLoop(Op(AnyChar, Halt), Op(Close(n), next)))
  }

  /** What a run still records: group `n` spans [from, to), and so on; then the whole match ends. */
  datatype Spans = Done | Span(n: nat, from: nat, to: nat, rest: Spans)

  function Record(spans: Spans, caps: seq<Cap>, end: nat): (r: seq<Cap>)
    ensures |r| == |caps|
  {
    match spans
    case Done => CloseCap(caps, 0, end)
    case Span(n, from, to, rest) => Record(rest, CloseCap(OpenCap(caps, n, from), n, to), end)
  }

  /** From `i` the program succeeds, ends at `end`, and records the spans. */
  ghost predicate Ends(p: Prog, s: string, i: nat, end: nat, spans: Spans) {
    Simple(p) && i <= |s| && forall caps: seq<Cap> :: EndsWith(p, s, i, end, spans, caps)
  }

  ghost predicate EndsWith(p: Prog, s: string, i: nat, end: nat, spans: Spans, caps: seq<Cap>) {
    Simple(p) && i <= |s| && Go(p, s, i, caps) == Out(true, end, Record(spans, caps, end))
  }

  /** From `i` the program fails. */
  ghost predicate Fails(p: Prog, s: string, i: nat) {
    Simple(p) && (i <= |s| ==> !Go(p, s, i, []).ok)
  }

  /** None of the bytes of s[i..j] is in `members`. */
  ghost predicate NoneOf(members: string, s: string, i: nat, j: nat) {
    i <= j <= |s| && forall k | i <= k < j :: !InSet(members, s[k])
  }

  lemma NoneOfIsAccepted(off: nat, members: string, s: string, i: nat, j: nat)
    ensures NoneOf(members, s, i, j) <==> AllAccepted(Op(AnyBut(off, members), Halt), s, i, j)
  {
  }

  lemma FinishEnds(s: string, i: nat)
    requires i <= |s|
    ensures Ends(FINISH, s, i, i, Done)
  {
    forall caps: seq<Cap> ensures EndsWith(FINISH, s, i, i, Done, caps) {
      GoStep(FINISH, s, i, caps);
    }
  }

  lemma EolEnds(next: Prog, s: string, spans: Spans)
    requires Ends(next, s, |s|, |s|, spans)
    ensures Ends(Op(AtEol, next), s, |s|, |s|, spans)
  {
    forall caps: seq<Cap> ensures EndsWith(Op(AtEol, next), s, |s|, |s|, spans, caps) {
      assert EndsWith(next, s, |s|, |s|, spans, caps);
      GoStep(Op(AtEol, next), s, |s|, caps);
    }
  }

  lemma ExactEnds(off: nat, w: string, next: Prog, s: string, i: nat, end: nat, spans: Spans)
    requires TextAt(s, i, w) && Ends(next, s, i + |w|, end, spans)
    ensures Ends(Op(Exact(off, w), next), s, i, end, spans)
  {
    forall caps: seq<Cap> ensures EndsWith(Op(Exact(off, w), next), s, i, end, spans, caps) {
      assert EndsWith(next, s, i + |w|, end, spans, caps);
      ExactEndsWith(off, w, next, s, i, end, spans, caps);
    }
  }

  lemma ExactEndsWith(off: nat, w: string, next: Prog, s: string, i: nat, end: nat, spans: Spans, caps: seq<Cap>)
    requires TextAt(s, i, w) && EndsWith(next, s, i + |w|, end, spans, caps)
    ensures EndsWith(Op(Exact(off, w), next), s, i, end, spans, caps)
  {
    GoStep(Op(Exact(off, w), next), s, i, caps);
  }

  lemma ExactFails(off: nat, w: string, next: Prog, s: string, i: nat)
    requires Simple(next) && (TextAt(s, i, w) ==> Fails(next, s, i + |w|))
    ensures Fails(Op(Exact(off, w), next), s, i)
  {
    if i <= |s| { GoStep(Op(Exact(off, w), next), s, i, []); }
  }

  lemma CloseFails(n: nat, next: Prog, s: string, i: nat)
    requires Fails(next, s, i)
    ensures Fails(Op(Close(n), next), s, i)
  {
    if i <= |s| { GoStep(Op(Close(n), next), s, i, []); }
  }

  /**
   `(.*)` from `i` captures up to the last place where the rest matches.
   */
  lemma AnyTextEnds(n: nat, next: Prog, s: string, i: nat, m: nat, end: nat, spans: Spans)
    requires i <= m && Ends(next, s, m, end, spans)
    requires forall k: nat | m < k <= |s| :: Fails(next, s, k)
    ensures Ends(AnyTextProg(n, next), s, i, end, Span(n, i, m, spans))
  {
    var b, close := Op(AnyChar, Halt), Op(Close(n), next);
    var p := AnyTextProg(n, next);
    forall k: nat | m < k <= |s| ensures Fails(close, s, k) { CloseFails(n, next, s, k); }
    forall caps: seq<Cap> ensures EndsWith(p, s, i, end, Span(n, i, m, spans), caps) {
      GoStep(p, s, i, caps);
      LoopThenClose(b, n, next, s, i, m, end, spans, OpenCap(caps, n, i));
    }
  }

  /** A loop and the end of its group. */
  lemma LoopThenClose(b: Prog, n: nat, next: Prog, s: string, i: nat, m: nat, end: nat, spans: Spans, caps: seq<Cap>)
    requires ByteBody(b) && AllAccepted(b, s, i, m) && Ends(next, s, m, end, spans)
    requires forall k: nat | m < k && AllAccepted(b, s, i, k) :: Fails(Op(Close(n), next), s, k)
    ensures Go(ByteLoop(b, Op(Close(n), next)), s, i, caps) == Out(true, end, Record(spans, CloseCap(caps, n, m), end))
  {
    assert EndsWith(next, s, m, end, spans, CloseCap([], n, m));
    assert EndsWith(next, s, m, end, spans, CloseCap(caps, n, m));
    GoStep(Op(Close(n), next), s, m, []);
    StarEndsAt(b, Op(Close(n), next), s, i, m, caps);
    GoStep(Op(Close(n), next), s, m, caps);
  }

  /**
   `(.[^members]*)` from `i` captures up to `m` when the rest matches at `m` and at no
   later place before the next member.
   */
  lemma FieldEnds(n: nat, off: nat, members: string, next: Prog, s: string, i: nat, m: nat, end: nat, spans: Spans)
    requires i < m && NoneOf(members, s, i + 1, m) && Ends(next, s, m, end, spans)
    requires forall k: nat | m < k && NoneOf(members, s, i + 1, k) :: Fails(next, s, k)
    ensures Ends(FieldProg(n, off, members, next), s, i, end, Span(n, i, m, spans))
  {
    var b, close := Op(AnyBut(off, members), Halt), Op(Close(n), next);
    var p := FieldProg(n, off, members, next);
    assert Simple(ByteLoop(b, close));
    NoneOfIsAccepted(off, members, s, i + 1, m);
    forall k: nat | m < k && AllAccepted(b, s, i + 1, k) ensures Fails(close, s, k) {
      NoneOfIsAccepted(off, members, s, i + 1, k);
      CloseFails(n, next, s, k);
    }
    forall caps: seq<Cap> ensures EndsWith(p, s, i, end, Span(n, i, m, spans), caps) {
      GoStep(p, s, i, caps);
      GoStep(p.next, s, i, OpenCap(caps, n, i));
      LoopThenClose(b, n, next, s, i + 1, m, end, spans, OpenCap(caps, n, i));
    }
  }

  // ------------------------------------------------------------------ runs that fail

  /** A run through a field or through any text: where the group is closed, the rest goes on. */
  lemma FieldRuns(n: nat, off: nat, members: string, next: Prog, s: string, i: nat, caps: seq<Cap>) returns (m: nat)
    requires Simple(next) && i <= |s|
    requires Simple(FieldProg(n, off, members, next)) && Go(FieldProg(n, off, members, next), s, i, caps).ok
    ensures i < m <= |s|
    ensures Go(FieldProg(n, off, members, next), s, i, caps) == Go(next, s, m, CloseCap(OpenCap(caps, n, i), n, m))
  {
    var loop := ByteLoop(Op(AnyBut(off, members), Halt), Op(Close(n), next));
    var p := FieldProg(n, off, members, next);
    var c := OpenCap(caps, n, i);
    GoStep(p, s, i, caps);
    GoStep(p.next, s, i, c);
    m := LoopRuns(loop, n, next, s, i + 1, c);
  }

  lemma LoopRuns(loop: Prog, n: nat, next: Prog, s: string, i: nat, c: seq<Cap>) returns (m: nat)
    requires Simple(loop) && Simple(next) && IsLoop(loop) && loop.ins.Star? && loop.next == Op(Close(n), next)
    requires i <= |s| && Go(loop, s, i, c).ok
    ensures i <= m <= |s| && Go(loop, s, i, c) == Go(next, s, m, CloseCap(c, n, m))
  {
    GoStep(loop, s, i, c);
    m := Greedy(loop, s, i, i);
    GoStep(loop.next, s, m, c);
  }

  /** Where the rest fails everywhere, a group in front of it does not help. */
  lemma GroupFails(next: Prog, s: string, m: nat, caps: seq<Cap>)
    requires m <= |s| && Fails(next, s, m)
    ensures !Go(next, s, m, caps).ok
  {
    SimpleIsProductive(next);
    CapsDoNotMatter(next, s, m, [], caps);
  }

  lemma FieldFails(n: nat, off: nat, members: string, next: Prog, s: string, i: nat)
    requires Simple(next) && forall m: nat | i < m <= |s| :: Fails(next, s, m)
    ensures Fails(FieldProg(n, off, members, next), s, i)
  {
    var p := FieldProg(n, off, members, next);
    assert Simple(ByteLoop(Op(AnyBut(off, members), Halt), Op(Close(n), next)));
    if i <= |s| && Go(p, s, i, []).ok {
      var m := FieldRuns(n, off, members, next, s, i, []);
      GroupFails(next, s, m, CloseCap(OpenCap([], n, i), n, m));
    }
  }

  lemma AnyTextFails(n: nat, next: Prog, s: string, i: nat)
    requires Simple(next) && forall m: nat | i <= m <= |s| :: Fails(next, s, m)
    ensures Fails(AnyTextProg(n, next), s, i)
  {
    var p := AnyTextProg(n, next);
    assert Simple(p.next);
    if i <= |s| && Go(p, s, i, []).ok {
      GoStep(p, s, i, []);
      var m := LoopRuns(p.next, n, next, s, i, OpenCap([], n, i));
      GroupFails(next, s, m, CloseCap(OpenCap([], n, i), n, m));
    }
  }

  lemma AnchoredFails(p: Prog, s: string, caps: seq<Cap>)
    requires Fails(p, s, 0)
    ensures Productive(Op(Open(0), Op(AtBol, p))) && !Search(Op(Open(0), Op(AtBol, p)), true, s, caps).ok
  {
    var q := Op(Open(0), Op(AtBol, p));
    assert Simple(q.next) && Simple(q);
    SimpleIsProductive(q);
    GoStep(q, s, 0, caps);
    GoStep(q.next, s, 0, OpenCap(caps, 0, 0));
    GroupFails(p, s, 0, OpenCap(caps, 0, 0));
  }

  // ------------------------------------------------------------ the compiled patterns

  lemma LowerCons(p: Piece, rest: Pieces, cap: nat, off: nat, k: Prog)
    ensures LowerPieces(PCons(p, rest), cap, off, k)
         == LowerPiece(p, cap, off, LowerPieces(rest, cap + PieceCaps(p), off + |PieceData(p)|, k))
  {
  }

  lemma StarLower(stop: seq<SetItem>, cap: nat, off: nat, k: Prog)
    ensures var star := Item(Set(true, stop), ZeroOrMore);
      && LowerPiece(star, cap, off, k) == ByteLoop(Op(AnyBut(off, SetData(stop)), Halt), k)
      && PiecesCaps(PCons(star, PNil)) == 0 && PiecesData(PCons(star, PNil)) == SetData(stop)
  {
    var star := Item(Set(true, stop), ZeroOrMore);
    assert LowerUnit(star.atom, cap, off, Halt) == Op(AnyBut(off, SetData(stop)), Halt);
    assert SetData(stop) + "" == SetData(stop);
  }

  lemma LowerField(stop: seq<SetItem>, cap: nat, off: nat, k: Prog)
    ensures LowerPiece(Once1(Field(stop)), cap, off, k) == FieldProg(cap + 1, off, SetData(stop), k)
    ensures PieceCaps(Once1(Field(stop))) == 1 && PieceData(Once1(Field(stop))) == SetData(stop)
  {
    var dot, star := Once1(Dot), Item(Set(true, stop), ZeroOrMore);
    var close := Op(Close(cap + 1), k);
    LowerCons(dot, PCons(star, PNil), cap + 1, off, close);
    LowerCons(star, PNil, cap + 1, off, close);
    assert PieceCaps(dot) == 0 && |PieceData(dot)| == 0;
    StarLower(stop, cap + 1, off, close);
    assert LowerPieces(PCons(star, PNil), cap + 1, off, close) == ByteLoop(Op(AnyBut(off, SetData(stop)), Halt), close);
    assert LowerPiece(dot, cap + 1, off, close) == Op(AnyChar, close);
    assert AtomCaps(Field(stop)) == 1 + PiecesCaps(PCons(dot, PCons(star, PNil)));
    assert LowerAtom(Field(stop), cap, off, k)
        == Op(Open(cap + 1), LowerPieces(PCons(dot, PCons(star, PNil)), cap + 1, off, close));
    assert AtomData(Field(stop)) == PiecesData(PCons(dot, PCons(star, PNil)));
  }

  lemma LowerAnyText(cap: nat, off: nat, k: Prog)
    ensures LowerPiece(Once1(ANY_TEXT), cap, off, k) == AnyTextProg(cap + 1, k)
    ensures PieceCaps(Once1(ANY_TEXT)) == 1 && PieceData(Once1(ANY_TEXT)) == ""
  {
    var star := Item(Dot, ZeroOrMore);
    var close := Op(Close(cap + 1), k);
    LowerCons(star, PNil, cap + 1, off, close);
    assert LowerPiece(star, cap + 1, off, close) == Op(Star(Op(AnyChar, Halt)), close);
  }

  /** A field of the header and the byte after it. */
  function PartProg(n: nat, off: nat, w: string, next: Prog): Prog {
    FieldProg(n, off, "_", Op(Exact(off + 1, w), next))
  }

  lemma LowerPart(w: string, rest: Pieces, cap: nat, off: nat, k: Prog)
    requires |w| == 1
    ensures LowerPieces(Part(w, rest), cap, off, k)
         == PartProg(cap + 1, off, w, LowerPieces(rest, cap + 1, off + 2, k))
  {
    NotUnderscoreFacts();
    var f, l := Once1(Field(NotUnderscore())), Once1(Lit(w));
    LowerCons(f, PCons(l, rest), cap, off, k);
    LowerCons(l, rest, cap + 1, off + 1, k);
    LowerField(NotUnderscore(), cap, off, LowerPieces(PCons(l, rest), cap + 1, off + 1, k));
  }

  function PayloadProg(): Prog { AnyTextProg(4, Op(AtEol, FINISH)) }
  function HeaderProg(payload: Prog): Prog
  {
    PartProg(1, 0, "_", PartProg(2, 2, "-", PartProg(3, 4, "_", payload)))
  }

  lemma PartLower(w: string, rest: Pieces, cap: nat, off: nat, next: Prog)
    requires |w| == 1 && LowerPieces(rest, cap + 1, off + 2, FINISH) == next
    ensures LowerPieces(Part(w, rest), cap, off, FINISH) == PartProg(cap + 1, off, w, next)
  {
    LowerPart(w, rest, cap, off, FINISH);
  }

  lemma ThreeParts(rest: Pieces, p3: Pieces, p2: Pieces, payload: Prog)
    requires LowerPieces(rest, 3, 6, FINISH) == payload && p3 == Part("_", rest) && p2 == Part("-", p3)
    ensures LowerPieces(Part("_", p2), 0, 0, FINISH) == HeaderProg(payload)
  {
    var q3 := PartProg(3, 4, "_", payload);
    var q2 := PartProg(2, 2, "-", q3);
    TwoParts(rest, p3, p2, payload, q3);
    PartLower("_", p2, 0, 0, q2);
    assert HeaderProg(payload) == PartProg(1, 0, "_", q2);
  }

  lemma TwoParts(rest: Pieces, p3: Pieces, p2: Pieces, payload: Prog, q3: Prog)
    requires LowerPieces(rest, 3, 6, FINISH) == payload && p3 == Part("_", rest) && p2 == Part("-", p3)
    requires q3 == PartProg(3, 4, "_", payload)
    ensures LowerPieces(p2, 1, 2, FINISH) == PartProg(2, 2, "-", q3)
  {
    PartLower("_", rest, 2, 4, payload);
    PartLower("-", p3, 1, 2, q3);
  }

  lemma BolLower(ps: Pieces)
    ensures Lower(Last(PCons(Bol, ps))) == Op(Open(0), Op(AtBol, LowerPieces(ps, 0, 0, FINISH)))
  {
    LowerCons(Bol, ps, 0, 0, FINISH);
  }

  function Part(w: string, rest: Pieces): Pieces {
    PCons(Once1(Field(NotUnderscore())), PCons(Once1(Lit(w)), rest))
  }

  /** The compiled multipart pattern. */
  lemma MultipartProg()
    ensures Lower(MultipartAlt()) == Op(Open(0), Op(AtBol, HeaderProg(PayloadProg())))
  {
    var end := PCons(Eol, PNil);
    LowerCons(Once1(ANY_TEXT), end, 3, 6, FINISH);
    LowerAnyText(3, 6, LowerPieces(end, 4, 6, FINISH));
    var rest := PCons(Once1(ANY_TEXT), end);
    var p2 := Part("-", Part("_", rest));
    ThreeParts(rest, Part("_", rest), p2, PayloadProg());
    BolLower(Part("_", p2));
  }

  // ------------------------------------------------------------- the header round trip

  /**
   A field of bytes other than '_', ended by a byte that does not occur again up to the
   next '_', is captured whole.
   */
  lemma PartEnds(n: nat, off: nat, w: string, next: Prog, s: string, i: nat, m: nat, u: nat, end: nat, spans: Spans)
    requires |w| == 1 && i < m <= u < |s| && s[u] == '_' && s[m] == w[0]
    requires forall k | i < k < u :: s[k] != '_'
    requires forall k | m < k <= u :: s[k] != w[0]
    requires Ends(next, s, m + 1, end, spans)
    ensures Ends(PartProg(n, off, w, next), s, i, end, Span(n, i, m, spans))
  {
    var lit := Op(Exact(off + 1, w), next);
    assert s[m..m + 1] == [s[m]] && w == [w[0]];
    ExactEnds(off + 1, w, next, s, m, end, spans);
    forall k: nat | m < k && NoneOf("_", s, i + 1, k) ensures Fails(lit, s, k) {
      assert k <= u by { assert u < k ==> !InSet("_", s[u]); }
      assert s[k..k + 1] == [s[k]];
      ExactFails(off + 1, w, next, s, k);
    }
    FieldEnds(n, off, "_", lit, s, i, m, end, spans);
  }

  /** The text of a header: an id, a part number, the number of parts, and a payload. */
  function HeaderOf(id: string, count: string, total: string, payload: string): string {
    id + "_" + count + "-" + total + "_" + payload
  }

  /** Nonempty and free of the bytes that delimit the fields. */
  predicate IdText(w: string) {
    w != "" && forall k | 0 <= k < |w| :: w[k] != '_'
  }

  predicate NumberText(w: string) {
    w != "" && forall k | 0 <= k < |w| :: IsDigit(w[k])
  }

  ghost predicate HeaderLaidOut(s: string, a: nat, b: nat, c: nat) {
    && 0 < a && a + 1 < b && b + 1 < c < |s|
    && s[a] == '_' && s[b] == '-' && s[c] == '_'
    && (forall k | 0 < k < a :: s[k] != '_')
    && (forall k | a < k < b :: IsDigit(s[k]))
    && (forall k | b < k < c :: IsDigit(s[k]))
  }

  lemma HeaderIsLaidOut(id: string, count: string, total: string, payload: string)
    requires IdText(id) && NumberText(count) && NumberText(total)
    ensures HeaderLaidOut(HeaderOf(id, count, total, payload), |id|, |id| + 1 + |count|,
        |id| + 1 + |count| + 1 + |total|)
  {
  }

  lemma PayloadEnds(s: string, i: nat)
    requires i <= |s|
    ensures Ends(PayloadProg(), s, i, |s|, Span(4, i, |s|, Done))
  {
    FinishEnds(s, |s|);
    EolEnds(FINISH, s, Done);
    AnyTextEnds(4, Op(AtEol, FINISH), s, i, |s|, |s|, Done);
  }

  lemma HeaderEnds(payload: Prog, s: string, a: nat, b: nat, c: nat, spans: Spans)
    requires HeaderLaidOut(s, a, b, c) && Ends(payload, s, c + 1, |s|, spans)
    ensures Ends(HeaderProg(payload), s, 0, |s|, Span(1, 0, a, Span(2, a + 1, b, Span(3, b + 1, c, spans))))
  {
    var total := PartProg(3, 4, "_", payload);
    PartEnds(3, 4, "_", payload, s, b + 1, c, c, |s|, spans);
    var count := PartProg(2, 2, "-", total);
    PartEnds(2, 2, "-", total, s, a + 1, b, c, |s|, Span(3, b + 1, c, spans));
    PartEnds(1, 0, "_", count, s, 0, a, a, |s|, Span(2, a + 1, b, Span(3, b + 1, c, spans)));
  }

  /** A simple program behind the opening of the match and the anchor. */
  lemma AnchoredEnds(p: Prog, s: string, end: nat, spans: Spans, caps: seq<Cap>)
    requires Ends(p, s, 0, end, spans)
    ensures Simple(Op(Open(0), Op(AtBol, p))) && Productive(Op(Open(0), Op(AtBol, p)))
    ensures Search(Op(Open(0), Op(AtBol, p)), true, s, caps) == Out(true, end, Record(spans, OpenCap(caps, 0, 0), end))
  {
    var q := Op(Open(0), Op(AtBol, p));
    assert EndsWith(p, s, 0, end, spans, OpenCap(caps, 0, 0));
    GoStep(q, s, 0, caps);
    GoStep(q.next, s, 0, OpenCap(caps, 0, 0));
    assert Go(q, s, 0, caps) == Go(p, s, 0, OpenCap(caps, 0, 0));
  }

  /** What the four groups record when the delimiters are at `a`, `b` and `c`. */
  function FieldCaps(a: int, b: int, c: int, end: int): seq<Cap> {
    [Cap(0, a), Cap(a + 1, b - a - 1), Cap(b + 1, c - b - 1), Cap(c + 1, end - c - 1)]
  }

  lemma FourSpans(caps: seq<Cap>, end: nat, a: nat, b: nat, c: nat)
    requires |caps| == 5 && a + 1 <= b && b + 1 <= c && c + 1 <= end
    ensures var r := Record(Span(1, 0, a, Span(2, a + 1, b, Span(3, b + 1, c, Span(4, c + 1, end, Done)))), caps, end);
      |r| == 5 && r[1..] == FieldCaps(a, b, c, end)
  {
    var c1 := CloseCap(OpenCap(caps, 1, 0), 1, a);
    var c2 := CloseCap(OpenCap(c1, 2, a + 1), 2, b);
    var c3 := CloseCap(OpenCap(c2, 3, b + 1), 3, c);
    var c4 := CloseCap(OpenCap(c3, 4, c + 1), 4, end);
    assert Record(Span(4, c + 1, end, Done), c3, end) == CloseCap(c4, 0, end);
    assert Record(Span(3, b + 1, c, Span(4, c + 1, end, Done)), c2, end) == CloseCap(c4, 0, end);
    assert Record(Span(2, a + 1, b, Span(3, b + 1, c, Span(4, c + 1, end, Done))), c1, end) == CloseCap(c4, 0, end);
  }

  ghost predicate FieldsCaptured(s: string, r: seq<Cap>, id: string, count: string, total: string, payload: string) {
    && |r| == 5
    && CapturedIs(s, r[1], id) && CapturedIs(s, r[2], count)
    && CapturedIs(s, r[3], total) && CapturedIs(s, r[4], payload)
  }

  lemma SpansCapture(s: string, id: string, count: string, total: string, payload: string, r: seq<Cap>)
    requires s == HeaderOf(id, count, total, payload) && |r| == 5
    requires r[1..] == FieldCaps(|id|, |id| + 1 + |count|, |id| + 1 + |count| + 1 + |total|, |s|)
    ensures FieldsCaptured(s, r, id, count, total, payload)
  {
    assert r[1] == r[1..][0] && r[2] == r[1..][1] && r[3] == r[1..][2] && r[4] == r[1..][3];
  }

  /**
   The round trip of the header through the compiler and the matcher: whatever the
   payload, underscores and dashes included, exactly the four fields are captured.
   */
  lemma MultipartCaptures(s: string, a: nat, b: nat, c: nat, caps: seq<Cap>) returns (o: Out)
    requires HeaderLaidOut(s, a, b, c) && |caps| == 5
    ensures Productive(Lower(MultipartAlt())) && o == Search(Lower(MultipartAlt()), true, s, caps)
    ensures o.ok && |o.caps| == 5
    ensures o.caps[1..] == FieldCaps(a, b, c, |s|)
  {
    MultipartProg();
    o := LaidOutRuns(s, a, b, c, caps);
  }

  lemma LaidOutRuns(s: string, a: nat, b: nat, c: nat, caps: seq<Cap>) returns (o: Out)
    requires HeaderLaidOut(s, a, b, c) && |caps| == 5
    ensures var p := Op(Open(0), Op(AtBol, HeaderProg(PayloadProg())));
      Productive(p) && o == Search(p, true, s, caps)
    ensures o.ok && |o.caps| == 5
    ensures o.caps[1..] == FieldCaps(a, b, c, |s|)
  {
    PayloadEnds(s, c + 1);
    o := HeaderRuns(PayloadProg(), s, a, b, c, caps);
  }

  lemma HeaderRuns(payload: Prog, s: string, a: nat, b: nat, c: nat, caps: seq<Cap>) returns (o: Out)
    requires HeaderLaidOut(s, a, b, c) && |caps| == 5 && Ends(payload, s, c + 1, |s|, Span(4, c + 1, |s|, Done))
    ensures var p := Op(Open(0), Op(AtBol, HeaderProg(payload)));
      Productive(p) && o == Search(p, true, s, caps)
    ensures o.ok && |o.caps| == 5
    ensures o.caps[1..] == FieldCaps(a, b, c, |s|)
  {
    HeaderEnds(payload, s, a, b, c, Span(4, c + 1, |s|, Done));
    var spans := Span(1, 0, a, Span(2, a + 1, b, Span(3, b + 1, c, Span(4, c + 1, |s|, Done))));
    AnchoredEnds(HeaderProg(payload), s, |s|, spans, caps);
    FourSpans(OpenCap(caps, 0, 0), |s|, a, b, c);
    o := Search(Op(Open(0), Op(AtBol, HeaderProg(payload))), true, s, caps);
  }
}
