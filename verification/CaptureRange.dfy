/**
 Captures of any successful match lie inside the text, so that they can be copied out
 whatever frame arrives.
 */
module CaptureRange {
  import opened SlreProgram
  import opened SlreSyntax
  import opened SlreExact
  import opened Patterns
  import opened Captures
  import opened Frames

  /** A capture that can be copied out. */
  predicate InText(s: string, c: Cap) {
    0 <= c.ptr && 0 <= c.len && c.ptr + c.len <= |s|
  }

  /** Every group is opened once and closed after it. */
  predicate Bracketed(p: Prog, open: set<nat>) {
    match p
    case Halt => true
    case Op(ins, next) =>
      match ins
      case Open(n) => n !in open && Bracketed(next, open + {n})
      case Close(n) => n in open && Bracketed(next, open)
      case _ => Bracketed(next, open)
  }

  function Closed(p: Prog): set<nat> {
    match p
    case Halt => {}
    case Op(ins, next) => if ins.Close? then {ins.n} + Closed(next) else Closed(next)
  }

  ghost predicate Begun(caps: seq<Cap>, open: set<nat>, ofs: nat) {
    forall n | n in open && n < |caps| :: 0 <= caps[n].ptr <= ofs
  }

  /** Whatever the text: after a successful run the closed groups delimit parts of it. */
  lemma {:induction false} ClosedInText(p: Prog, s: string, ofs: nat, caps: seq<Cap>, open: set<nat>)
    requires Simple(p) && ofs <= |s| && Bracketed(p, open) && Begun(caps, open, ofs) && Go(p, s, ofs, caps).ok
    ensures var c := Go(p, s, ofs, caps).caps;
      && |c| == |caps| && (forall n | n in Closed(p) && n < |c| :: InText(s, c[n]))
      && (forall n | n in open && n !in Closed(p) && n < |c| :: c[n] == caps[n])
  {
    if p.Op? {
      GoStep(p, s, ofs, caps);
      var o := Exec(p, s, ofs, caps);
      SimpleStep(p, s, ofs, caps);
      ClosedInText(p.next, s, o.ofs, o.caps, if p.ins.Open? then open + {p.ins.n} else open);
    }
  }

  /** An instruction moves forward and touches no capture but its own. */
  lemma SimpleStep(p: Prog, s: string, ofs: nat, caps: seq<Cap>)
    requires Simple(p) && p.Op? && ofs <= |s| && Productive(p) && Exec(p, s, ofs, caps).ok
    ensures var o := Exec(p, s, ofs, caps);
      ofs <= o.ofs <= |s| && o.caps == if p.ins.Open? then OpenCap(caps, p.ins.n, ofs)
          else if p.ins.Close? then CloseCap(caps, p.ins.n, ofs) else caps
  {
    if p.ins.Plus? { BodyRun(p.ins.body, s, ofs, caps); }
  }

  lemma {:induction false} WordsBracketed(ws: Words, off: nat, next: Prog, open: set<nat>)
    ensures Bracketed(WordsProg(ws, off, next), open) == Bracketed(next, open)
    ensures Closed(WordsProg(ws, off, next)) == Closed(next)
  {
    if ws.Word? { WordsBracketed(ws.more, off + |ws.w|, next, open); }
  }

  lemma AnyTextBracketed(n: nat, next: Prog, open: set<nat>)
    requires n !in open
    ensures Bracketed(AnyTextProg(n, next), open) == Bracketed(next, open + {n})
    ensures Closed(AnyTextProg(n, next)) == {n} + Closed(next)
  {
    var close := Op(Close(n), next);
    assert Bracketed(close, open + {n}) == Bracketed(next, open + {n}) && Closed(close) == {n} + Closed(next);
    assert Bracketed(ByteLoop(Op(AnyChar, Halt), close), open + {n}) == Bracketed(close, open + {n});
  }

  lemma FieldBracketed(n: nat, off: nat, members: string, next: Prog, open: set<nat>)
    requires n !in open
    ensures Bracketed(FieldProg(n, off, members, next), open) == Bracketed(next, open + {n})
    ensures Closed(FieldProg(n, off, members, next)) == {n} + Closed(next)
  {
    var close := Op(Close(n), next);
    var loop := ByteLoop(Op(AnyBut(off, members), Halt), close);
    assert Bracketed(close, open + {n}) == Bracketed(next, open + {n}) && Closed(close) == {n} + Closed(next);
    assert Bracketed(loop, open + {n}) == Bracketed(close, open + {n}) && Closed(loop) == Closed(close);
    assert Bracketed(Op(AnyChar, loop), open + {n}) == Bracketed(loop, open + {n});
    assert Closed(Op(AnyChar, loop)) == Closed(loop);
  }

  ghost predicate AllInText(s: string, caps: seq<Cap>, from: nat) {
    forall n | from <= n < |caps| :: InText(s, caps[n])
  }

  lemma PartBracketed(n: nat, off: nat, w: string, next: Prog, open: set<nat>)
    requires n !in open
    ensures Bracketed(PartProg(n, off, w, next), open) == Bracketed(next, open + {n})
    ensures Closed(PartProg(n, off, w, next)) == {n} + Closed(next)
  {
    FieldBracketed(n, off, "_", Op(Exact(off + 1, w), next), open);
    assert Bracketed(Op(Exact(off + 1, w), next), open + {n}) == Bracketed(next, open + {n});
  }

  lemma HeaderBracketed(payload: Prog)
    requires Bracketed(payload, {0, 1, 2, 3}) && Closed(payload) == {0, 4}
    ensures Bracketed(HeaderProg(payload), {0}) && Closed(HeaderProg(payload)) == {0, 1, 2, 3, 4}
  {
    assert {0} + {1} == {0, 1} && {0, 1} + {2} == {0, 1, 2} && {0, 1, 2} + {3} == {0, 1, 2, 3};
    var total := PartProg(3, 4, "_", payload);
    PartBracketed(3, 4, "_", payload, {0, 1, 2});
    var count := PartProg(2, 2, "-", total);
    PartBracketed(2, 2, "-", total, {0, 1});
    PartBracketed(1, 0, "_", count, {0});
  }

  lemma PayloadBracketed()
    ensures Bracketed(PayloadProg(), {0, 1, 2, 3}) && Closed(PayloadProg()) == {0, 4}
  {
    AnyTextBracketed(4, Op(AtEol, FINISH), {0, 1, 2, 3});
    assert Bracketed(FINISH, {0, 1, 2, 3} + {4}) && Closed(FINISH) == {0};
    assert Bracketed(Op(AtEol, FINISH), {0, 1, 2, 3} + {4}) && Closed(Op(AtEol, FINISH)) == {0};
  }

  /** The groups that an anchored program closes are inside the text when it matches. */
  lemma AnchoredClosed(p: Prog, s: string, caps: seq<Cap>)
    requires Simple(p) && Bracketed(p, {0})
    ensures var q := Op(Open(0), Op(AtBol, p));
      Productive(q) && (Search(q, true, s, caps).ok ==>
                          var c := Search(q, true, s, caps).caps;
                          |c| == |caps| && forall n | n in Closed(p) && n < |c| :: InText(s, c[n]))
  {
    var q := Op(Open(0), Op(AtBol, p));
    assert Simple(Op(AtBol, p)) && Simple(q);
    SimpleIsProductive(q);
    assert {} + {0} == {0};
    assert Bracketed(Op(AtBol, p), {0}) && Closed(Op(AtBol, p)) == Closed(p) && Closed(q) == Closed(p);
    assert Search(q, true, s, caps) == Go(q, s, 0, caps);
    if Go(q, s, 0, caps).ok { ClosedInText(q, s, 0, caps, {}); }
  }

  lemma AnchoredInText(p: Prog, s: string, caps: seq<Cap>)
    requires Simple(p) && Bracketed(p, {0}) && forall n: nat | n < |caps| :: n in Closed(p)
    ensures var q := Op(Open(0), Op(AtBol, p));
      Productive(q) && (Search(q, true, s, caps).ok ==> AllInText(s, Search(q, true, s, caps).caps, 0))
  {
    AnchoredClosed(p, s, caps);
  }

  lemma HeaderIsSimple(payload: Prog)
    requires Simple(payload)
    ensures Simple(HeaderProg(payload))
  {
    PartIsSimple(3, 4, "_", payload);
    PartIsSimple(2, 2, "-", PartProg(3, 4, "_", payload));
    PartIsSimple(1, 0, "_", PartProg(2, 2, "-", PartProg(3, 4, "_", payload)));
  }

  lemma PartIsSimple(n: nat, off: nat, w: string, next: Prog)
    requires Simple(next)
    ensures Simple(PartProg(n, off, w, next))
  {
    var lit := Op(Exact(off + 1, w), next);
    assert Simple(lit);
    assert Simple(Op(Close(n), lit));
    assert Simple(ByteLoop(Op(AnyBut(off, "_"), Halt), Op(Close(n), lit)));
  }

  lemma PayloadIsSimple()
    ensures Simple(PayloadProg())
  {
    assert Simple(FINISH) && Simple(Op(AtEol, FINISH));
    assert Simple(Op(Close(4), Op(AtEol, FINISH)));
  }

  /** Without an underscore the multipart pattern does not match. */
  lemma HeaderNeedsUnderscore(s: string, caps: seq<Cap>)
    requires forall k | 0 <= k < |s| :: s[k] != '_'
    ensures Productive(Lower(MultipartAlt())) && !Search(Lower(MultipartAlt()), true, s, caps).ok
  {
    MultipartProg();
    PayloadIsSimple();
    NoHeader(PayloadProg(), s, caps);
  }

  lemma NoHeader(payload: Prog, s: string, caps: seq<Cap>)
    requires Simple(payload) && forall k | 0 <= k < |s| :: s[k] != '_'
    ensures var p := Op(Open(0), Op(AtBol, HeaderProg(payload))); Productive(p) && !Search(p, true, s, caps).ok
  {
    var rest := PartProg(2, 2, "-", PartProg(3, 4, "_", payload));
    PartIsSimple(3, 4, "_", payload);
    PartIsSimple(2, 2, "-", PartProg(3, 4, "_", payload));
    NoFirstField(rest, s);
    assert HeaderProg(payload) == PartProg(1, 0, "_", rest);
    AnchoredFails(PartProg(1, 0, "_", rest), s, caps);
  }

  lemma NoFirstField(rest: Prog, s: string)
    requires Simple(rest) && forall k | 0 <= k < |s| :: s[k] != '_'
    ensures Fails(PartProg(1, 0, "_", rest), s, 0)
  {
    forall m: nat | 0 < m <= |s| ensures Fails(Op(Exact(1, "_"), rest), s, m) {
      if m < |s| { assert s[m..m + 1][0] == s[m]; }
      ExactFails(1, "_", rest, s, m);
    }
    FieldFails(1, 0, "_", Op(Exact(1, "_"), rest), s, 0);
  }

  /** Whatever the text, a header that matches has its fields inside the text. */
  lemma MultipartInText(s: string, caps: seq<Cap>)
    requires |caps| == 5
    ensures var p := Lower(MultipartAlt());
      Productive(p) && (Search(p, true, s, caps).ok ==> AllInText(s, Search(p, true, s, caps).caps, 0))
  {
    MultipartProg();
    PayloadBracketed();
    PayloadIsSimple();
    HeaderInText(PayloadProg(), s, caps);
  }

  lemma HeaderInText(payload: Prog, s: string, caps: seq<Cap>)
    requires |caps| == 5 && Simple(payload) && Bracketed(payload, {0, 1, 2, 3}) && Closed(payload) == {0, 4}
    ensures var p := Op(Open(0), Op(AtBol, HeaderProg(payload)));
      Productive(p) && (Search(p, true, s, caps).ok ==> AllInText(s, Search(p, true, s, caps).caps, 0))
  {
    HeaderBracketed(payload);
    HeaderIsSimple(payload);
    AnchoredInText(HeaderProg(payload), s, caps);
  }

  // ------------------------------------------------------------------- message frames

  lemma OptionalRuns(next: Prog, s: string, caps: seq<Cap>) returns (i: nat)
    requires Simple(next)
    ensures var q := Op(Open(0), Op(AtBol, OptionalA(next)));
      Productive(q) && i <= |s| && Search(q, true, s, caps) == Go(next, s, i, OpenCap(caps, 0, 0))
    ensures s != "" && s[0] == 'a' ==> i == 1
  {
    var body := Op(Exact(0, "a"), Halt);
    var q := OptionalA(next);
    var c := OpenCap(caps, 0, 0);
    SimpleIsProductive(next);
    SimpleIsProductive(body);
    assert InstrProductive(q.ins) && Productive(q);
    BodyRun(body, s, 0, c);
    i := if Run(body, s, 0, c).ok then 1 else 0;
    assert Exec(q, s, 0, c) == Out(true, i, c);
    assert Run(q, s, 0, c) == Run(next, s, i, c);
    assert Exec(Op(AtBol, q), s, 0, c) == Out(true, 0, c);
    assert Exec(Op(Open(0), Op(AtBol, q)), s, 0, caps) == Out(true, 0, c);
    assert Run(Op(Open(0), Op(AtBol, q)), s, 0, caps) == Run(Op(AtBol, q), s, 0, c);
  }

  lemma OptionalInText(next: Prog, s: string, caps: seq<Cap>)
    requires Simple(next) && Bracketed(next, {0}) && forall n: nat | n < |caps| :: n in Closed(next)
    ensures var q := Op(Open(0), Op(AtBol, OptionalA(next)));
      Productive(q) && (Search(q, true, s, caps).ok ==> AllInText(s, Search(q, true, s, caps).caps, 0))
  {
    var i := OptionalRuns(next, s, caps);
    if Go(next, s, i, OpenCap(caps, 0, 0)).ok {
      ClosedInText(next, s, i, OpenCap(caps, 0, 0), {0});
    }
  }

  lemma AnyTextIsSimple(n: nat, next: Prog)
    requires Simple(next)
    ensures Simple(AnyTextProg(n, next))
  {
    assert Simple(ByteLoop(Op(AnyChar, Halt), Op(Close(n), next)));
  }

  lemma MessageInText(s: string, caps: seq<Cap>)
    requires |caps| == 3
    ensures var p := Lower(MessageAlt());
      Productive(p) && (Search(p, true, s, caps).ok ==> AllInText(s, Search(p, true, s, caps).caps, 0))
  {
    MessageProg();
    EndBracketed();
    FrameInText(EndProg(), s, caps);
  }

  lemma FinishCloses()
    ensures Simple(FINISH) && Closed(FINISH) == {0}
  {
    assert Closed(Halt) == {} && {0} + Closed(Halt) == {0};
  }

  lemma EndBracketed()
    ensures Simple(EndProg()) && Bracketed(EndProg(), {0, 1}) && Closed(EndProg()) == {0, 2}
  {
    var eol := Op(AtEol, FINISH);
    FinishCloses();
    assert Simple(eol) && Bracketed(FINISH, {0, 1} + {2});
    assert Bracketed(eol, {0, 1} + {2}) && Closed(eol) == {0};
    WordsSimple(EndWords(), 24, eol);
    WordsBracketed(EndWords(), 24, eol, {0, 1} + {2});
    AnyTextIsSimple(2, WordsProg(EndWords(), 24, eol));
    AnyTextBracketed(2, WordsProg(EndWords(), 24, eol), {0, 1});
  }

  lemma FrameInText(end: Prog, s: string, caps: seq<Cap>)
    requires |caps| == 3 && Simple(end) && Bracketed(end, {0, 1}) && Closed(end) == {0, 2}
    ensures var p := Op(Open(0), Op(AtBol, OptionalA(WordsProg(StartWords(), 1, MiddleProg(end)))));
      Productive(p) && (Search(p, true, s, caps).ok ==> AllInText(s, Search(p, true, s, caps).caps, 0))
  {
    var middle := WordsProg(MiddleWords(), 13, end);
    assert {0} + {1} == {0, 1};
    WordsSimple(MiddleWords(), 13, end);
    WordsBracketed(MiddleWords(), 13, end, {0, 1});
    AnyTextIsSimple(1, middle);
    AnyTextBracketed(1, middle, {0});
    WordsSimple(StartWords(), 1, MiddleProg(end));
    WordsBracketed(StartWords(), 1, MiddleProg(end), {0});
    OptionalInText(WordsProg(StartWords(), 1, MiddleProg(end)), s, caps);
  }
}
