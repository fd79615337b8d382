/**
 The frames of the server through the matcher: the channel and the text of a message
 frame, and the channel and the hash of a permissions entry.
 */
module Frames {
  import opened Basics
  import opened SlreProgram
  import opened SlreSyntax
  import opened SlreExact
  import opened Patterns
  import opened Captures

  // ------------------------------------------------------------------ runs of literals

  /** The literals of a pattern that stand next to each other. */
  datatype Words = NoWord | Word(w: string, more: Words)

  function Text(ws: Words): string {
    match ws
    case NoWord => ""
    case Word(w, more) => w + Text(more)
  }

  function WordsProg(ws: Words, off: nat, next: Prog): Prog {
    match ws
    case NoWord => next
    case Word(w, more) => Op(Exact(off, w), WordsProg(more, off + |w|, next))
  }

  lemma TextAtSplit(s: string, i: nat, u: string, v: string)
    ensures TextAt(s, i, u + v) <==> TextAt(s, i, u) && TextAt(s, i + |u|, v)
  {
    if i + |u| + |v| <= |s| {
      assert s[i..i + |u + v|] == s[i..i + |u|] + s[i + |u|..i + |u| + |v|];
      assert (u + v)[..|u|] == u && (u + v)[|u|..] == v;
    }
  }

  lemma {:induction false} WordsEnds(ws: Words, off: nat, next: Prog, s: string, i: nat, end: nat, spans: Spans)
    requires TextAt(s, i, Text(ws)) && Ends(next, s, i + |Text(ws)|, end, spans)
    ensures Ends(WordsProg(ws, off, next), s, i, end, spans)
  {
    match ws
    case NoWord =>
    case Word(w, more) =>
      TextAtSplit(s, i, w, Text(more));
      WordsEnds(more, off + |w|, next, s, i + |w|, end, spans);
      ExactEnds(off, w, WordsProg(more, off + |w|, next), s, i, end, spans);
  }

  lemma {:induction false} WordsFail(ws: Words, off: nat, next: Prog, s: string, i: nat)
    requires Simple(next) && (TextAt(s, i, Text(ws)) ==> Fails(next, s, i + |Text(ws)|))
    ensures Fails(WordsProg(ws, off, next), s, i)
  {
    match ws
    case NoWord =>
      assert i <= |s| ==> TextAt(s, i, "");
    case Word(w, more) =>
      TextAtSplit(s, i, w, Text(more));
      if TextAt(s, i, w) {
        WordsFail(more, off + |w|, next, s, i + |w|);
      } else {
        WordsSimple(more, off + |w|, next);
      }
      ExactFails(off, w, WordsProg(more, off + |w|, next), s, i);
  }

  lemma {:induction false} WordsSimple(ws: Words, off: nat, next: Prog)
    requires Simple(next)
    ensures Simple(WordsProg(ws, off, next))
  {
    if ws.Word? { WordsSimple(ws.more, off + |ws.w|, next); }
  }

  /** The code of `ps` is the words `ws` and then `next`. */
  ghost predicate Compiles(ps: Pieces, cap: nat, off: nat, ws: Words, next: Prog) {
    LowerPieces(ps, cap, off, FINISH) == WordsProg(ws, off, next)
  }

  lemma LitCompiles(w: string, k: Pieces, cap: nat, off: nat, ws: Words, next: Prog)
    requires Compiles(k, cap, off + |w|, ws, next)
    ensures Compiles(PCons(Once1(Lit(w)), k), cap, off, Word(w, ws), next)
  {
    LowerCons(Once1(Lit(w)), k, cap, off, FINISH);
    assert LowerPiece(Once1(Lit(w)), cap, off, LowerPieces(k, cap, off + |w|, FINISH))
        == Op(Exact(off, w), LowerPieces(k, cap, off + |w|, FINISH));
  }

  lemma EscCompiles(c: char, k: Pieces, cap: nat, off: nat, ws: Words, next: Prog)
    requires c == '\\' || c == '[' || c == ']' || c == '}'
    requires Compiles(k, cap, off + 1, ws, next)
    ensures Compiles(PCons(Once1(Esc(c)), k), cap, off, Word([c], ws), next)
  {
    LowerCons(Once1(Esc(c)), k, cap, off, FINISH);
    assert EscInstr(c, off) == Exact(off, [c]) && AtomCaps(Esc(c)) == 0 && PieceData(Once1(Esc(c))) == [c];
    assert LowerPiece(Once1(Esc(c)), cap, off, LowerPieces(k, cap, off + 1, FINISH))
        == Op(Exact(off, [c]), LowerPieces(k, cap, off + 1, FINISH));
  }

  lemma QuotedCompiles(w: string, k: Pieces, cap: nat, off: nat, ws: Words, next: Prog)
    requires Compiles(k, cap, off + 1 + |w|, ws, next)
    ensures Compiles(Quoted(w, k), cap, off, Word("\\", Word(w, ws)), next)
  {
    LitCompiles(w, k, cap, off + 1, ws, next);
    EscCompiles('\\', PCons(Once1(Lit(w)), k), cap, off, Word(w, ws), next);
  }

  lemma AnyTextCompiles(k: Pieces, cap: nat, off: nat, ws: Words, next: Prog)
    requires Compiles(k, cap + 1, off, ws, next)
    ensures Compiles(PCons(Once1(ANY_TEXT), k), cap, off, NoWord, AnyTextProg(cap + 1, WordsProg(ws, off, next)))
  {
    LowerCons(Once1(ANY_TEXT), k, cap, off, FINISH);
    LowerAnyText(cap, off, LowerPieces(k, cap + 1, off, FINISH));
  }

  function KeyWords(w: string, more: Words): Words {
    Word("\\", Word(w, Word("\\", Word("\":", Word("\\", Word("\"", more))))))
  }

  lemma KeyCompiles(w: string, k: Pieces, cap: nat, off: nat, ws: Words, next: Prog)
    requires Compiles(k, cap, off + 6 + |w|, ws, next)
    ensures Compiles(Key(w, k), cap, off, KeyWords(w, ws), next)
  {
    QuotedCompiles("\"", k, cap, off + 4 + |w|, ws, next);
    QuotedCompiles("\":", Quoted("\"", k), cap, off + 1 + |w|, Word("\\", Word("\"", ws)), next);
    QuotedCompiles(w, Quoted("\":", Quoted("\"", k)), cap, off,
                   Word("\\", Word("\":", Word("\\", Word("\"", ws)))), next);
  }

  // --------------------------------------------------------------------- message frames

  function StartWords(): Words { Word("[", Word("\"{", KeyWords("\"ch", NoWord))) }
  function MiddleWords(): Words {
    Word("\\", Word("\",", Word("\\", Word("\"m", Word("\\", Word("\":", Word("\\", Word("\"", NoWord))))))))
  }
  function EndWords(): Words { Word("\\", Word("\"", Word("}", Word("\"", Word("]", NoWord))))) }

  const MIDDLE := "\\\",\\\"m\\\":\\\""
  const END_OF_FRAME := "\\\"}\"]"

  lemma WordTexts()
    ensures Text(StartWords()) == "[\"{\\\"ch\\\":\\\"" && Text(MiddleWords()) == MIDDLE
    ensures Text(EndWords()) == END_OF_FRAME
  {
  }

  /** The code of the end of the pattern, and of its middle part, at the offsets where it stands. */
  function EndProg(): Prog { AnyTextProg(2, WordsProg(EndWords(), 24, Op(AtEol, FINISH))) }
  function MiddleProg(end: Prog): Prog { AnyTextProg(1, WordsProg(MiddleWords(), 13, end)) }

  lemma EndCompiles()
    ensures Compiles(MessageEnd(), 1, 24, NoWord, EndProg())
  {
    var k0 := PCons(Eol, PNil);
    LowerCons(Eol, PNil, 2, 29, FINISH);
    assert Compiles(k0, 2, 29, NoWord, Op(AtEol, FINISH));
    var k1 := PCons(Once1(Esc(']')), k0);
    EscCompiles(']', k0, 2, 28, NoWord, Op(AtEol, FINISH));
    var k2 := PCons(Once1(Lit("\"")), k1);
    LitCompiles("\"", k1, 2, 27, Word("]", NoWord), Op(AtEol, FINISH));
    var k3 := PCons(Once1(Esc('}')), k2);
    EscCompiles('}', k2, 2, 26, Word("\"", Word("]", NoWord)), Op(AtEol, FINISH));
    QuotedCompiles("\"", k3, 2, 24, Word("}", Word("\"", Word("]", NoWord))), Op(AtEol, FINISH));
    AnyTextCompiles(Quoted("\"", k3), 1, 24, EndWords(), Op(AtEol, FINISH));
  }

  lemma TextKeyCompiles(k: Pieces, end: Prog, w2: Words)
    requires Compiles(k, 1, 24, NoWord, end) && w2 == Word("\\", Word("\":", Word("\\", Word("\"", NoWord))))
    ensures Compiles(Quoted("\"m", Quoted("\":", Quoted("\"", k))), 1, 16, Word("\\", Word("\"m", w2)), end)
  {
    QuotedCompiles("\"", k, 1, 22, NoWord, end);
    QuotedCompiles("\":", Quoted("\"", k), 1, 19, Word("\\", Word("\"", NoWord)), end);
    QuotedCompiles("\"m", Quoted("\":", Quoted("\"", k)), 1, 16, w2, end);
  }

  lemma MiddleCompiles(k: Pieces, end: Prog)
    requires Compiles(k, 1, 24, NoWord, end)
    ensures Compiles(PCons(Once1(ANY_TEXT), Quoted("\",", Quoted("\"m", Quoted("\":", Quoted("\"", k))))), 0, 13,
        NoWord, MiddleProg(end))
  {
    var w2 := Word("\\", Word("\":", Word("\\", Word("\"", NoWord))));
    TextKeyCompiles(k, end, w2);
    QuotedCompiles("\",", Quoted("\"m", Quoted("\":", Quoted("\"", k))), 1, 13, Word("\\", Word("\"m", w2)), end);
    AnyTextCompiles(Quoted("\",", Quoted("\"m", Quoted("\":", Quoted("\"", k)))), 0, 13, MiddleWords(), end);
  }

  lemma StartCompiles(k: Pieces, next: Prog)
    requires Compiles(k, 0, 13, NoWord, next)
    ensures Compiles(PCons(Once1(Esc('[')), PCons(Once1(Lit("\"{")), Key("\"ch", k))), 0, 1, StartWords(), next)
  {
    KeyCompiles("\"ch", k, 0, 4, NoWord, next);
    var words := KeyWords("\"ch", NoWord);
    LitCompiles("\"{", Key("\"ch", k), 0, 2, words, next);
    EscCompiles('[', PCons(Once1(Lit("\"{")), Key("\"ch", k)), 0, 1, Word("\"{", words), next);
  }

  function OptionalA(next: Prog): Prog { Op(Quest(Op(Exact(0, "a"), Halt)), next) }

  lemma BeginLower(k: Pieces)
    ensures Lower(Last(PCons(Bol, PCons(Item(Lit("a"), ZeroOrOne), k))))
        == Op(Open(0), Op(AtBol, OptionalA(LowerPieces(k, 0, 1, FINISH))))
  {
    var a := Item(Lit("a"), ZeroOrOne);
    BolLower(PCons(a, k));
    LowerCons(a, k, 0, 0, FINISH);
    assert LowerUnit(Lit("a"), 0, 0, Halt) == Op(Exact(0, "a"), Halt);
    assert LowerPiece(a, 0, 0, LowerPieces(k, 0, 1, FINISH)) == OptionalA(LowerPieces(k, 0, 1, FINISH));
  }

  lemma MessageProg()
    ensures Lower(MessageAlt()) == Op(Open(0), Op(AtBol, OptionalA(WordsProg(StartWords(), 1, MiddleProg(EndProg())))))
  {
    EndCompiles();
    MiddleCompiles(MessageEnd(), EndProg());
    FromMiddle(MessageMiddle(), MiddleProg(EndProg()));
  }

  lemma FromMiddle(k: Pieces, next: Prog)
    requires Compiles(k, 0, 13, NoWord, next)
    ensures Lower(Last(MessageStart(Key("\"ch", k))))
         == Op(Open(0), Op(AtBol, OptionalA(WordsProg(StartWords(), 1, next))))
  {
    StartCompiles(k, next);
    var quoted := Key("\"ch", k);
    var rest := PCons(Once1(Esc('[')), PCons(Once1(Lit("\"{")), quoted));
    assert MessageStart(quoted) == PCons(Bol, PCons(Item(Lit("a"), ZeroOrOne), rest));
    assert LowerPieces(rest, 0, 1, FINISH) == WordsProg(StartWords(), 1, next);
    BeginLower(rest);
  }

  lemma OptionalSearch(next: Prog, s: string, end: nat, spans: Spans, caps: seq<Cap>)
    requires s != "" && s[0] == 'a' && Ends(next, s, 1, end, spans)
    ensures var p := Op(Open(0), Op(AtBol, OptionalA(next)));
      Productive(p) && Search(p, true, s, caps) == Out(true, end, Record(spans, OpenCap(caps, 0, 0), end))
  {
    var body := Op(Exact(0, "a"), Halt);
    var q := OptionalA(next);
    var c := OpenCap(caps, 0, 0);
    assert EndsWith(next, s, 1, end, spans, c);
    SimpleIsProductive(next);
    SimpleIsProductive(body);
    assert InstrProductive(q.ins) && Productive(q);
    BodyRun(body, s, 0, c);
    assert Exec(q, s, 0, c) == Run(body, s, 0, c) == Out(true, 1, c);
    assert Run(q, s, 0, c) == Run(next, s, 1, c);
    assert Run(next, s, 1, c) == Go(next, s, 1, c);
    assert Exec(Op(AtBol, q), s, 0, c) == Out(true, 0, c);
    assert Run(Op(AtBol, q), s, 0, c) == Run(q, s, 0, c);
    assert Exec(Op(Open(0), Op(AtBol, q)), s, 0, caps) == Out(true, 0, c);
    assert Run(Op(Open(0), Op(AtBol, q)), s, 0, caps) == Run(Op(AtBol, q), s, 0, c);
  }

  /**
   A frame with the channel before position `m` and the text up to position `e`; after
   `m` nothing looks like the text between the two.
   */
  ghost predicate FrameLaidOut(s: string, m: nat, e: nat) {
    && 13 <= m && m + 11 <= e && e + 5 == |s| && s[0] == 'a'
    && TextAt(s, 1, Text(StartWords())) && TextAt(s, m, MIDDLE) && TextAt(s, e, END_OF_FRAME)
    && forall k: nat | m < k :: !TextAt(s, k, MIDDLE)
  }

  lemma EndRuns(s: string, i: nat, e: nat)
    requires i <= e && e + 5 == |s| && TextAt(s, e, END_OF_FRAME)
    ensures Ends(EndProg(), s, i, |s|, Span(2, i, e, Done))
  {
    WordTexts();
    FinishEnds(s, |s|);
    var eol := Op(AtEol, FINISH);
    EolEnds(FINISH, s, Done);
    WordsEnds(EndWords(), 24, eol, s, e, |s|, Done);
    forall k: nat | e < k <= |s| ensures Fails(WordsProg(EndWords(), 24, eol), s, k) {
      WordsFail(EndWords(), 24, eol, s, k);
    }
    AnyTextEnds(2, WordsProg(EndWords(), 24, eol), s, i, e, |s|, Done);
  }

  lemma MiddleRuns(end: Prog, s: string, m: nat, e: nat, spans: Spans)
    requires FrameLaidOut(s, m, e) && Ends(end, s, m + 11, |s|, spans)
    ensures Ends(MiddleProg(end), s, 13, |s|, Span(1, 13, m, spans))
  {
    WordTexts();
    WordsEnds(MiddleWords(), 13, end, s, m, |s|, spans);
    forall k: nat | m < k <= |s| ensures Fails(WordsProg(MiddleWords(), 13, end), s, k) {
      WordsFail(MiddleWords(), 13, end, s, k);
    }
    AnyTextEnds(1, WordsProg(MiddleWords(), 13, end), s, 13, m, |s|, spans);
  }

  /** The matcher splits a message frame into its channel and its text. */
  lemma MessageCaptures(s: string, m: nat, e: nat, caps: seq<Cap>) returns (o: Out)
    requires FrameLaidOut(s, m, e) && |caps| == 3
    ensures Productive(Lower(MessageAlt())) && o == Search(Lower(MessageAlt()), true, s, caps)
    ensures o.ok && |o.caps| == 3 && o.caps[1..] == FrameCaps(m, e)
  {
    MessageProg();
    o := LaidOutRuns(s, m, e, caps);
  }

  lemma LaidOutRuns(s: string, m: nat, e: nat, caps: seq<Cap>) returns (o: Out)
    requires FrameLaidOut(s, m, e) && |caps| == 3
    ensures var p := Op(Open(0), Op(AtBol, OptionalA(WordsProg(StartWords(), 1, MiddleProg(EndProg())))));
      Productive(p) && o == Search(p, true, s, caps)
    ensures o.ok && |o.caps| == 3 && o.caps[1..] == FrameCaps(m, e)
  {
    EndRuns(s, m + 11, e);
    o := FrameRuns(EndProg(), s, m, e, caps);
  }

  lemma StartRuns(end: Prog, s: string, m: nat, e: nat, spans: Spans, all: Spans)
    requires FrameLaidOut(s, m, e) && Ends(end, s, m + 11, |s|, spans) && all == Span(1, 13, m, spans)
    ensures Ends(WordsProg(StartWords(), 1, MiddleProg(end)), s, 1, |s|, all)
  {
    MiddleRuns(end, s, m, e, spans);
    WordTexts();
    WordsEnds(StartWords(), 1, MiddleProg(end), s, 1, |s|, all);
  }

  lemma FrameRuns(end: Prog, s: string, m: nat, e: nat, caps: seq<Cap>) returns (o: Out)
    requires FrameLaidOut(s, m, e) && |caps| == 3 && Ends(end, s, m + 11, |s|, Span(2, m + 11, e, Done))
    ensures var p := Op(Open(0), Op(AtBol, OptionalA(WordsProg(StartWords(), 1, MiddleProg(end)))));
      Productive(p) && o == Search(p, true, s, caps)
    ensures o.ok && |o.caps| == 3 && o.caps[1..] == FrameCaps(m, e)
  {
    var spans := Span(1, 13, m, Span(2, m + 11, e, Done));
    StartRuns(end, s, m, e, Span(2, m + 11, e, Done), spans);
    OptionalSearch(WordsProg(StartWords(), 1, MiddleProg(end)), s, |s|, spans, caps);
    FrameSpans(OpenCap(caps, 0, 0), |s|, m, e);
    o := Search(Op(Open(0), Op(AtBol, OptionalA(WordsProg(StartWords(), 1, MiddleProg(end))))), true, s, caps);
  }

  /** What the two groups of the message pattern record. */
  function FrameCaps(m: int, e: int): seq<Cap> { [Cap(13, m - 13), Cap(m + 11, e - m - 11)] }

  lemma TwoSpans(caps: seq<Cap>, end: nat, a: nat, b: nat, c: nat, d: nat)
    requires |caps| == 3
    ensures Record(Span(1, a, b, Span(2, c, d, Done)), caps, end)[1..] == [Cap(a, b - a), Cap(c, d - c)]
  {
    var c1 := CloseCap(OpenCap(caps, 1, a), 1, b);
    var c2 := CloseCap(OpenCap(c1, 2, c), 2, d);
    assert Record(Span(2, c, d, Done), c1, end) == CloseCap(c2, 0, end);
  }

  lemma FrameSpans(caps: seq<Cap>, end: nat, m: nat, e: nat)
    requires |caps| == 3 && 13 <= m && m + 11 <= e
    ensures Record(Span(1, 13, m, Span(2, m + 11, e, Done)), caps, end)[1..] == FrameCaps(m, e)
  {
    TwoSpans(caps, end, 13, m, m + 11, e);
  }

  // ------------------------------------------------------------------- the frame's text

  /** A message frame as the server writes it, with `text` in its JSON-encoded form. */
  function FrameOf(channel: string, text: string): string {
    "a[\"{\\\"ch\\\":\\\"" + channel + MIDDLE + text + END_OF_FRAME
  }

  /** No comma stands in front of a backslash and a quote. */
  ghost predicate NoSeparator(text: string) {
    forall k: nat | k + 2 < |text| :: !(text[k] == ',' && text[k + 1] == '\\' && text[k + 2] == '"')
  }

  /** `,\"m` stands at `k`. */
  predicate CommaAt(s: string, k: nat) {
    k + 3 < |s| && s[k] == ',' && s[k + 1] == '\\' && s[k + 2] == '"' && s[k + 3] == 'm'
  }

  lemma MiddleChars(s: string, k: nat)
    ensures TextAt(s, k, MIDDLE) ==> k + 11 <= |s| && CommaAt(s, k + 2)
  {
    if TextAt(s, k, MIDDLE) {
      var t := s[k..k + 11];
      assert t[2] == s[k + 2] && t[3] == s[k + 3] && t[4] == s[k + 4] && t[5] == s[k + 5];
    }
  }

  /** Behind the middle nothing looks like it: a text without separator and the end have no comma followed by a key. */
  lemma OnlyMiddle(s: string, m: nat, text: string, k: nat)
    requires NoSeparator(text) && m < k && m <= |s| && s[m..] == MIDDLE + text + END_OF_FRAME
    ensures !TextAt(s, k, MIDDLE)
  {
    MiddleChars(s, k);
    if k + 11 <= |s| {
      var t, j := s[m..], k - m + 2;
      assert t[j] == s[k + 2] && t[j + 1] == s[k + 3] && t[j + 2] == s[k + 4] && t[j + 3] == s[k + 5];
      CommaInTail(text, j);
    }
  }

  lemma CommaInTail(text: string, j: nat)
    requires 2 < j && j + 3 < 16 + |text| && NoSeparator(text)
    ensures !CommaAt(MIDDLE + text + END_OF_FRAME, j)
  {
    var t := MIDDLE + text + END_OF_FRAME;
    if j < 11 {
      assert t[j] == MIDDLE[j];
    } else {
      var q := j - 11;
      if q + 2 < |text| {
        assert t[j] == text[q] && t[j + 1] == text[q + 1] && t[j + 2] == text[q + 2];
      } else if q + 2 == |text| {
        assert t[j + 2] == END_OF_FRAME[0];
      } else if q + 1 == |text| {
        assert t[j + 3] == END_OF_FRAME[2];
      } else {
        assert t[j] == END_OF_FRAME[q - |text|];
      }
    }
  }

  lemma FrameParts(channel: string, text: string, s: string, m: nat, e: nat)
    requires s == FrameOf(channel, text) && m == 13 + |channel| && e == m + 11 + |text|
    ensures |s| == e + 5 && s[0] == 'a' && s[13..m] == channel && s[m + 11..e] == text
    ensures TextAt(s, 1, Text(StartWords())) && TextAt(s, m, MIDDLE) && TextAt(s, e, END_OF_FRAME)
    ensures s[m..] == MIDDLE + text + END_OF_FRAME
  {
    var start := Text(StartWords());
    WordTexts();
    FrameSplit(channel, text, start);
    FiveParts("a", start, channel, MIDDLE, text, END_OF_FRAME);
  }

  lemma FrameSplit(channel: string, text: string, start: string)
    requires start == "[\"{\\\"ch\\\":\\\""
    ensures FrameOf(channel, text) == "a" + start + channel + MIDDLE + text + END_OF_FRAME
  {
    assert "a" + start == "a[\"{\\\"ch\\\":\\\"";
  }

  lemma FrameIsLaidOut(channel: string, text: string)
    requires NoSeparator(text)
    ensures FrameLaidOut(FrameOf(channel, text), 13 + |channel|, 24 + |channel| + |text|)
    ensures FrameOf(channel, text)[13..13 + |channel|] == channel
    ensures FrameOf(channel, text)[24 + |channel|..24 + |channel| + |text|] == text
  {
    var s, m := FrameOf(channel, text), 13 + |channel|;
    FrameParts(channel, text, s, m, 24 + |channel| + |text|);
    forall k: nat | m < k ensures !TextAt(s, k, MIDDLE) { OnlyMiddle(s, m, text, k); }
  }

  lemma FiveParts(a: string, b: string, c: string, d: string, e: string, f: string)
    ensures var s := a + b + c + d + e + f; var i := |a| + |b|; var j := i + |c|; var k := j + |d| + |e|;
      && s[|a|..i] == b && s[i..j] == c && s[j..j + |d|] == d && s[j + |d|..k] == e && s[k..k + |f|] == f
      && s[j..] == d + e + f
  {
  }
}
