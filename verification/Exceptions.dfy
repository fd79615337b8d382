/**
 The exception among the parameters of an error frame. Its pattern is not anchored: the
 first place with the key counts, and the text goes up to the end of the parameters.
 */
module Exceptions {
  import opened Basics
  import opened SlreProgram
  import opened SlreSyntax
  import opened SlreCodegen
  import opened SlreExact
  import opened Patterns
  import opened Captures
  import opened Frames
  import opened CaptureRange
  import opened OperationFrames
  import opened PermissionScan
  import opened Slre
  import Receiver

  /** ex\\":\\"(.*)\\"\}$ */
  const EXCEPTION_PATTERN := "ex\\\\\":\\\\\"" + "(.*)\\\\\"\\}$"

  // ---------------------------------------------------------------------- the pattern

  function ExceptionEnd(): Pieces {
    PCons(Once1(ANY_TEXT), Quoted("\"", PCons(Once1(Esc('}')), PCons(Eol, PNil))))
  }

  function ExceptionStart(k: Pieces): Pieces { PCons(Once1(Lit("ex")), Quoted("\":", Quoted("\"", k))) }

  function ExceptionAlt(): Alt { Last(ExceptionStart(ExceptionEnd())) }

  lemma ExceptionEndFacts()
    ensures Facts(ExceptionEnd(), "(.*)\\\\\"\\}$", 18, "\\\"}")
  {
    EolFacts();
    var eol := PCons(Eol, PNil);
    EscFacts('}', eol, "$", 1, "");
    EndQuote(PCons(Once1(Esc('}')), eol), "\\}" + "$", 4, "}" + "");
    ExceptionEndText();
  }

  lemma ExceptionEndText()
    ensures "(.*)" + ("\\\\" + ("\"" + ("\\}" + "$"))) == "(.*)\\\\\"\\}$" && "\\" + ("\"" + ("}" + "")) == "\\\"}"
  {
  }

  lemma ExceptionStartFacts(k: Pieces, text: string, size: nat, data: string)
    requires NotLitFirst(k) && Facts(k, text, size, data)
    ensures Facts(ExceptionStart(k), "ex\\\\\":\\\\\"" + text, 15 + size, "ex\\\":\\\"" + data)
  {
    QuotedTwice("\":", "\"", k, text, size, data);
    var t, d := "\\\\" + ("\":" + ("\\\\" + ("\"" + text))), "\\" + ("\":" + ("\\" + ("\"" + data)));
    ExFacts(Quoted("\":", Quoted("\"", k)), t, 12 + size, d);
    ExceptionStartText(text, data);
  }

  lemma ExFacts(k: Pieces, text: string, size: nat, data: string)
    requires NotLitFirst(k) && Facts(k, text, size, data)
    ensures Facts(PCons(Once1(Lit("ex")), k), "ex" + text, 3 + size, "ex" + data)
  {
    LitFacts("ex", k, text, size, data);
  }

  lemma ExceptionStartText(text: string, data: string)
    ensures "ex" + ("\\\\" + ("\":" + ("\\\\" + ("\"" + text)))) == "ex\\\\\":\\\\\"" + text
    ensures "ex" + ("\\" + ("\":" + ("\\" + ("\"" + data)))) == "ex\\\":\\\"" + data
  {
  }

  lemma ExceptionCompilable()
    ensures Compilable(ExceptionAlt(), EXCEPTION_PATTERN)
  {
    ExceptionEndFacts();
    ExceptionStartFacts(ExceptionEnd(), "(.*)\\\\\"\\}$", 18, "\\\"}");
    FactsDone(ExceptionAlt().ps, "ex\\\\\":\\\\\"" + "(.*)\\\\\"\\}$", 33, "ex\\\":\\\"" + "\\\"}");
  }

  function KeyStart(): Words { Word("ex", Word("\\", Word("\":", Word("\\", Word("\"", NoWord))))) }
  function TextEnd(): Words { Word("\\", Word("\"", Word("}", NoWord))) }

  const EXCEPTION_KEY := "ex\\\":\\\""
  const END_OF_EXCEPTION := "\\\"}"

  function TextProg(): Prog { AnyTextProg(1, WordsProg(TextEnd(), 7, Op(AtEol, FINISH))) }

  function KeyProg(text: Prog): Prog { WordsProg(KeyStart(), 0, text) }

  lemma ExceptionTexts()
    ensures Text(KeyStart()) == EXCEPTION_KEY && Text(TextEnd()) == END_OF_EXCEPTION
  {
  }

  lemma TextCompiles()
    ensures Compiles(ExceptionEnd(), 0, 7, NoWord, TextProg())
  {
    var eol := PCons(Eol, PNil);
    LowerCons(Eol, PNil, 1, 10, FINISH);
    assert Compiles(eol, 1, 10, NoWord, Op(AtEol, FINISH));
    EscCompiles('}', eol, 1, 9, NoWord, Op(AtEol, FINISH));
    QuotedCompiles("\"", PCons(Once1(Esc('}')), eol), 1, 7, Word("}", NoWord), Op(AtEol, FINISH));
    AnyTextCompiles(Quoted("\"", PCons(Once1(Esc('}')), eol)), 0, 7, TextEnd(), Op(AtEol, FINISH));
  }

  lemma KeyIsCompiled(k: Pieces, text: Prog)
    requires Compiles(k, 0, 7, NoWord, text)
    ensures Lower(Last(ExceptionStart(k))) == Op(Open(0), KeyProg(text))
  {
    QuotedCompiles("\"", k, 0, 5, NoWord, text);
    QuotedCompiles("\":", Quoted("\"", k), 0, 2, Word("\\", Word("\"", NoWord)), text);
    LitCompiles("ex", Quoted("\":", Quoted("\"", k)), 0, 0,
                Word("\\", Word("\":", Word("\\", Word("\"", NoWord)))), text);
  }

  lemma ExceptionProg()
    ensures Lower(ExceptionAlt()) == Op(Open(0), KeyProg(TextProg()))
  {
    TextCompiles();
    KeyIsCompiled(ExceptionEnd(), TextProg());
  }

  lemma ExceptionGroups()
    ensures AltCaps(ExceptionAlt()) == 1
  {
    LowerAnyText(0, 0, Halt);
    assert PiecesCaps(PCons(Once1(Esc('}')), PCons(Eol, PNil))) == 0;
    assert PiecesCaps(Quoted("\"", PCons(Once1(Esc('}')), PCons(Eol, PNil)))) == 0;
    assert PiecesCaps(ExceptionEnd()) == 1;
    assert PiecesCaps(Quoted("\":", Quoted("\"", ExceptionEnd()))) == 1;
  }

  // -------------------------------------------------------------------- the matches

  /** Behind `i` there is room for the end of the exception, and the text ends with it. */
  ghost predicate EndsAsException(s: string, i: nat) { i + 3 <= |s| && TextAt(s, |s| - 3, END_OF_EXCEPTION) }

  /** The key stands at `k`, and the text ends as an exception does. */
  ghost predicate ExceptionAt(s: string, k: nat) { TextAt(s, k, EXCEPTION_KEY) && EndsAsException(s, k + 7) }

  lemma TextRuns(s: string, i: nat, m: nat)
    requires EndsAsException(s, i) && m == |s| - 3
    ensures Ends(TextProg(), s, i, |s|, Span(1, i, m, Done))
  {
    ExceptionTexts();
    var eol := Op(AtEol, FINISH);
    FinishEnds(s, |s|);
    EolEnds(FINISH, s, Done);
    WordsEnds(TextEnd(), 7, eol, s, m, |s|, Done);
    forall k: nat | m < k <= |s| ensures Fails(WordsProg(TextEnd(), 7, eol), s, k) {
      WordsFail(TextEnd(), 7, eol, s, k);
    }
    AnyTextEnds(1, WordsProg(TextEnd(), 7, eol), s, i, m, |s|, Done);
  }

  lemma TextFails(s: string, i: nat)
    requires !EndsAsException(s, i)
    ensures Fails(TextProg(), s, i)
  {
    ExceptionTexts();
    var eol := Op(AtEol, FINISH);
    FinishCloses();
    var end := WordsProg(TextEnd(), 7, eol);
    WordsSimple(TextEnd(), 7, eol);
    forall m: nat | i <= m <= |s| ensures Fails(end, s, m) {
      if TextAt(s, m, END_OF_EXCEPTION) { NotAtEnd(FINISH, s, m + 3); }
      WordsFail(TextEnd(), 7, eol, s, m);
    }
    AnyTextFails(1, end, s, i);
  }

  lemma TextIsSimple()
    ensures Simple(TextProg())
  {
    FinishCloses();
    WordsSimple(TextEnd(), 7, Op(AtEol, FINISH));
    AnyTextIsSimple(1, WordsProg(TextEnd(), 7, Op(AtEol, FINISH)));
  }

  lemma KeyRuns(s: string, k: nat, spans: Spans)
    requires ExceptionAt(s, k) && spans == Span(1, k + 7, |s| - 3, Done)
    ensures Ends(KeyProg(TextProg()), s, k, |s|, spans)
  {
    ExceptionTexts();
    TextRuns(s, k + 7, |s| - 3);
    WordsEnds(KeyStart(), 0, TextProg(), s, k, |s|, spans);
  }

  lemma KeyFails(s: string, k: nat)
    requires !ExceptionAt(s, k)
    ensures Fails(KeyProg(TextProg()), s, k)
  {
    ExceptionTexts();
    TextIsSimple();
    if TextAt(s, k, EXCEPTION_KEY) { TextFails(s, k + 7); }
    WordsFail(KeyStart(), 0, TextProg(), s, k);
  }

  /** The key stands at `k` for the first time. */
  ghost predicate FirstException(s: string, k: nat) {
    ExceptionAt(s, k) && forall j: nat | j < k :: !ExceptionAt(s, j)
  }

  lemma {:induction false} SomeIsFirst(s: string, n: nat) returns (k: nat)
    requires ExceptionAt(s, n)
    ensures FirstException(s, k)
  {
    if j: nat :| j < n && ExceptionAt(s, j) {
      k := SomeIsFirst(s, j);
    } else {
      k := n;
    }
  }

  lemma SearchesSimple(text: Prog)
    requires Simple(text)
    ensures Simple(KeyProg(text)) && Productive(Op(Open(0), KeyProg(text)))
  {
    WordsSimple(KeyStart(), 0, text);
    SimpleIsProductive(Op(Open(0), KeyProg(text)));
  }

  lemma KeyFound(text: Prog, s: string, k: nat, caps: seq<Cap>, spans: Spans) returns (o: Out)
    requires Simple(text) && k < |s| && |caps| == 5 && Ends(KeyProg(text), s, k, |s|, spans)
    requires forall j: nat | j < k :: Fails(KeyProg(text), s, j)
    requires k + 10 <= |s| && spans == Span(1, k + 7, |s| - 3, Done)
    ensures Productive(Op(Open(0), KeyProg(text))) && o == Search(Op(Open(0), KeyProg(text)), false, s, caps)
    ensures o.ok && |o.caps| == 5 && o.caps[1] == Cap(k + 7, |s| - 10 - k)
  {
    SearchesSimple(text);
    var c := SearchFinds(KeyProg(text), s, 0, k, |s|, spans, caps);
    OneRecorded(OpenCap(c, 0, k), |s|, k + 7, |s| - 3);
    o := Search(Op(Open(0), KeyProg(text)), false, s, caps);
  }

  /** The search stops at the first key, and the group goes up to the end. */
  lemma ExceptionCaptures(s: string, k: nat, caps: seq<Cap>) returns (o: Out)
    requires FirstException(s, k) && |caps| == 5
    ensures Productive(Lower(ExceptionAlt())) && o == Search(Lower(ExceptionAlt()), false, s, caps)
    ensures o.ok && |o.caps| == 5 && o.caps[1] == Cap(k + 7, |s| - 10 - k)
  {
    ExceptionProg();
    TextIsSimple();
    var spans := Span(1, k + 7, |s| - 3, Done);
    forall j: nat | j < k ensures Fails(KeyProg(TextProg()), s, j) { KeyFails(s, j); }
    KeyRuns(s, k, spans);
    o := KeyFound(TextProg(), s, k, caps, spans);
  }

  lemma ExceptionNeeds(s: string, caps: seq<Cap>)
    requires forall k: nat :: !ExceptionAt(s, k)
    ensures Productive(Lower(ExceptionAlt())) && !Search(Lower(ExceptionAlt()), false, s, caps).ok
  {
    ExceptionProg();
    TextIsSimple();
    SearchesSimple(TextProg());
    forall k: nat | k < |s| ensures Fails(KeyProg(TextProg()), s, k) { KeyFails(s, k); }
    SearchMisses(KeyProg(TextProg()), s, 0, caps);
  }

  // ------------------------------------------------------------------- the exception

  ghost predicate IsExceptionAlt(alt: Alt) { alt == ExceptionAlt() }

  /** The quantifier keeps the verifier from computing the program where the engine is only passed on. */
  ghost predicate HoldsException(re: Engine)
    reads re, re.code, re.data
  {
    && re.Valid() && !re.anchored
    && forall alt | IsExceptionAlt(alt) :: re.Loaded(0, Lower(alt)) && CapsBelow(Lower(alt), 5)
  }

  method CompileException() returns (re: Engine)
    ensures HoldsException(re) && fresh(re)
  {
    ExceptionCompilable();
    ExceptionGroups();
    LowerOk(ExceptionAlt(), 5);
    re := new Engine();
    var ok := re.SlreCompile(EXCEPTION_PATTERN, ExceptionAlt());
  }

  /** The exception is the text between the first key and the end, if the parameters end as they should. */
  ghost predicate ExceptionIs(s: string, r: Option<string>) {
    && (r.Some? <==> exists k: nat :: ExceptionAt(s, k))
    && forall k: nat | FirstException(s, k) :: r == Some(s[k + 7..|s| - 3])
  }

  lemma ExceptionTold(s: string, caps: seq<Cap>) returns (k: nat)
    requires |caps| == 5
    ensures Productive(Lower(ExceptionAlt()))
    ensures var o := Search(Lower(ExceptionAlt()), false, s, caps);
      if o.ok then FirstException(s, k) && |o.caps| == 5 && o.caps[1] == Cap(k + 7, |s| - 10 - k)
      else forall j: nat :: !ExceptionAt(s, j)
  {
    k := 0;
    if n: nat :| ExceptionAt(s, n) {
      k := SomeIsFirst(s, n);
      var o := ExceptionCaptures(s, k, caps);
    } else {
      ExceptionNeeds(s, caps);
    }
  }

  lemma OneFirst(s: string, j: nat, k: nat)
    requires FirstException(s, j) && FirstException(s, k)
    ensures j == k
  {
  }

  lemma OnlyFirst(s: string, k: nat)
    requires FirstException(s, k)
    ensures ExceptionIs(s, Some(s[k + 7..|s| - 3]))
  {
    forall j: nat | FirstException(s, j) ensures j == k { OneFirst(s, j, k); }
  }

  method CopyException(s: string, pmatch: array<Cap>, ghost k: nat) returns (r: Option<string>)
    requires FirstException(s, k) && pmatch.Length == 5 && pmatch[..][1] == Cap(k + 7, |s| - 10 - k)
    ensures ExceptionIs(s, r) && r.Some?
  {
    assert pmatch[..][1] == pmatch[1];
    var w := Receiver.FromSlre(s, pmatch, 1);
    OnlyFirst(s, k);
    r := Some(w);
  }

  /** The exception among the parameters, if there is one. */
  method TakeException(re: Engine, s: string) returns (r: Option<string>)
    requires HoldsException(re)
    ensures ExceptionIs(s, r)
  {
    assert IsExceptionAlt(ExceptionAlt());
    ghost var k := ExceptionTold(s, Receiver.NO_FIELDS);
    var found, pmatch := Receiver.MatchFive(re, s, Lower(ExceptionAlt()));
    r := None;
    if found {
      r := CopyException(s, pmatch, k);
    }
  }

  /** An exception is read as it was written if and only if the key does not occur in front of it. */
  lemma ExceptionRead(before: string, text: string, s: string, r: Option<string>)
    requires s == before + EXCEPTION_KEY + text + END_OF_EXCEPTION && ExceptionIs(s, r)
    ensures r.Some? && (r.value == text <==> forall k: nat | k < |before| :: !TextAt(s, k, EXCEPTION_KEY))
  {
    var n := |before|;
    assert s[n..n + 7] == EXCEPTION_KEY && s[|s| - 3..] == END_OF_EXCEPTION && s[n + 7..|s| - 3] == text;
    assert ExceptionAt(s, n);
    var k := SomeIsFirst(s, n);
    assert r == Some(s[k + 7..|s| - 3]);
    if k < n {
      assert |r.value| > |text| && TextAt(s, k, EXCEPTION_KEY);
    } else {
      assert k == n;
      forall j: nat | j < n ensures !TextAt(s, j, EXCEPTION_KEY) { assert !ExceptionAt(s, j); }
    }
  }
}
