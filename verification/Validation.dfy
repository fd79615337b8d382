/** The validators of user input: what they accept, through the compiler and the matcher. */
module Validation {
  import opened SlreProgram
  import opened SlreSyntax
  import opened SlreCodegen
  import opened SlreExact
  import opened Patterns
  import opened Slre

  lemma ConsSplit(p: Piece, rest: Pieces, s: string, i: nat, j: nat) returns (k: nat)
    requires MPieces(PCons(p, rest), s, i, j)
    ensures i <= k <= j && MPiece(p, s, i, k) && MPieces(rest, s, k, j)
  {
    k :| i <= k <= j && MPiece(p, s, i, k) && MPieces(rest, s, k, j);
  }

  lemma ConsJoin(p: Piece, rest: Pieces, s: string, i: nat, k: nat, j: nat)
    requires i <= k <= j && MPiece(p, s, i, k) && MPieces(rest, s, k, j)
    ensures MPieces(PCons(p, rest), s, i, j)
  {
  }

  lemma EolOnly(s: string, i: nat, j: nat)
    ensures MPieces(PCons(Eol, PNil), s, i, j) <==> i == j == |s|
  {
    if MPieces(PCons(Eol, PNil), s, i, j) { var k := ConsSplit(Eol, PNil, s, i, j); }
    if i == j == |s| {
      assert MPieces(PNil, s, i, j) && MPiece(Eol, s, i, j);
      ConsJoin(Eol, PNil, s, i, i, j);
    }
  }

  lemma GroupOfLanguage(a: Atom, q: Quant, s: string, i: nat, j: nat)
    requires HeadOf(a) == "" && q != Once
    ensures MPiece(Once1(GroupOf(a, q)), s, i, j) <==> MQuant(a, q, s, i, j)
  {
    var p := Item(a, q);
    if i <= j <= |s| {
      assert s[i..i] == "";
      assert MPiece(p, s, i, j) <==> MQuant(a, q, s, i, j);
      if MPieces(PCons(p, PNil), s, i, j) { var k := ConsSplit(p, PNil, s, i, j); assert k == j; }
      if MPiece(p, s, i, j) {
        assert MPieces(PNil, s, j, j);
        ConsJoin(p, PNil, s, i, j, j);
      }
      assert MAlt(Last(PCons(p, PNil)), s, i, j) <==> MPieces(PCons(p, PNil), s, i, j);
    }
  }

  /** The bytes of s[i..j] are all in `w`. */
  ghost predicate AllIn(w: string, s: string, i: nat, j: nat) {
    i <= j <= |s| && forall k | i <= k < j :: InSet(w, s[k])
  }

  lemma SetUnit(w: string, s: string, i: nat, j: nat)
    requires SetData(Plains(w)) == w
    ensures MUnit(SetOf(w), s, i, j) <==> j == i + 1 <= |s| && InSet(w, s[i])
  {
  }

  lemma {:induction false} SetStar(w: string, s: string, i: nat, j: nat)
    requires SetData(Plains(w)) == w
    ensures MStar(SetOf(w), s, i, j) <==> AllIn(w, s, i, j)
    decreases j - i
  {
    if i < j <= |s| {
      SetUnit(w, s, i, i + 1);
      SetStar(w, s, i + 1, j);
      forall k: nat | i < k <= j ensures MUnit(SetOf(w), s, i, k) ==> k == i + 1 { SetUnit(w, s, i, k); }
      if AllIn(w, s, i, j) {
        assert MUnit(SetOf(w), s, i, i + 1) && MStar(SetOf(w), s, i + 1, j);
      }
    }
  }

  // ------------------------------------------------------------------ valid input

  lemma InputLanguage(s: string, i: nat, j: nat)
    ensures MAlt(InputAlt(), s, i, j) <==> i == 0 && j == |s| && AllIn(INPUT_CHARS, s, 0, |s|)
  {
    AlphabetsAreSetChars();
    PlainsFacts(INPUT_CHARS);
    var g := Once1(GroupOf(SetOf(INPUT_CHARS), ZeroOrMore));
    var t := PCons(g, PCons(Eol, PNil));
    assert MAlt(InputAlt(), s, i, j) <==> i <= j <= |s| && MPieces(PCons(Bol, t), s, i, j);
    if MPieces(PCons(Bol, t), s, i, j) {
      var b := ConsSplit(Bol, t, s, i, j);
      var k := ConsSplit(g, PCons(Eol, PNil), s, b, j);
      EolOnly(s, k, j);
      GroupOfLanguage(SetOf(INPUT_CHARS), ZeroOrMore, s, 0, j);
      SetStar(INPUT_CHARS, s, 0, j);
    }
    if i == 0 && j == |s| && AllIn(INPUT_CHARS, s, 0, j) {
      SetStar(INPUT_CHARS, s, 0, j);
      GroupOfLanguage(SetOf(INPUT_CHARS), ZeroOrMore, s, 0, j);
      EolOnly(s, j, j);
      ConsJoin(g, PCons(Eol, PNil), s, 0, j, j);
      ConsJoin(Bol, t, s, 0, 0, j);
    }
  }

  lemma SmallLetters(c: char)
    ensures c in LOWER <==> 'a' <= c <= 'z'
  {
    assert forall k | 0 <= k < 26 :: LOWER[k] as int == 'a' as int + k;
    if 'a' <= c <= 'z' { assert LOWER[c as int - 'a' as int] == c; }
  }

  lemma CapitalLetters(c: char)
    ensures c in UPPER <==> 'A' <= c <= 'Z'
  {
    assert forall k | 0 <= k < 26 :: UPPER[k] as int == 'A' as int + k;
    if 'A' <= c <= 'Z' { assert UPPER[c as int - 'A' as int] == c; }
  }

  /** The two alphabets, written out: letters, digits and five more bytes, or four. */
  lemma Alphabets(c: char)
    ensures InSet(INPUT_CHARS, c)
       <==> 'a' <= c <= 'z' || 'A' <= c <= 'Z' || '0' <= c <= '9' || c in ":._/-"
    ensures InSet(URL_CHARS, c)
       <==> 'a' <= c <= 'z' || 'A' <= c <= 'Z' || '0' <= c <= '9' || c in "./:-"
  {
    SmallLetters(c);
    CapitalLetters(c);
    assert c in DIGITS <==> '0' <= c <= '9';
    assert c in INPUT_CHARS <==> c in LOWER || c in UPPER || c in DIGITS || c in ":._/-";
    assert c in URL_CHARS <==> c in LOWER || c in UPPER || c in DIGITS || c in "./:-";
  }

  /** Every byte is one of the alphabet; its bytes are below 128. */
  ghost predicate OverAlphabet(w: string, s: string) {
    forall k | 0 <= k < |s| :: InSet(w, s[k])
  }

  lemma InputExact(s: string, caps: seq<Cap>)
    ensures Compilable(InputAlt(), VALID_INPUT_PATTERN) && Productive(Lower(InputAlt()))
    ensures VALID_INPUT_PATTERN[0] == '^'
    ensures Search(Lower(InputAlt()), true, s, caps).ok <==> OverAlphabet(INPUT_CHARS, s)
  {
    InputCompilable();
    assert VALID_INPUT_PATTERN[0] == '^';
    MatchExact(InputAlt(), s, caps);
    forall i: nat, j: nat
      ensures MAlt(InputAlt(), s, i, j) <==> i == 0 && j == |s| && AllIn(INPUT_CHARS, s, 0, |s|)
    {
      InputLanguage(s, i, j);
    }
    assert AltFound(InputAlt(), true, s) <==> MAlt(InputAlt(), s, 0, |s|);
  }

  /** The engine holds the compiled form of `alt`. */
  ghost predicate Holds(re: Engine, alt: Alt)
    reads re, re.code, re.data
  {
    re.Valid() && re.Loaded(0, Lower(alt)) && (re.anchored <==> PrintAlt(alt) != "" && PrintAlt(alt)[0] == '^')
  }

  lemma InputCaps()
    ensures CapsBelow(Lower(InputAlt()), 3)
  {
    InputCompilable();
    assert AltCaps(GroupOf(SetOf(INPUT_CHARS), ZeroOrMore).alt) == 0;
    assert PiecesCaps(PCons(Eol, PNil)) == 0;
    LowerOk(InputAlt(), 3);
  }

  method CompileValidInput() returns (re: Engine)
    ensures Holds(re, InputAlt()) && fresh(re) && re.errStr == ""
  {
    InputCompilable();
    re := new Engine();
    var ok := re.SlreCompile(VALID_INPUT_PATTERN, InputAlt());
  }

  /** Accepts exactly the strings over the input alphabet, the empty one included. */
  method IsValidInput(reValidInput: Engine, input: string) returns (valid: bool)
    requires Holds(reValidInput, InputAlt())
    ensures valid <==> OverAlphabet(INPUT_CHARS, input)
  {
    var pmatch := new Cap[3](_ => Cap(0, 0));
    InputCaps();
    InputExact(input, CapsOf(pmatch));
    valid := reValidInput.SlreMatch(input, pmatch, Lower(InputAlt()));
  }

  // -------------------------------------------------------------------- valid URLs

  ghost predicate AllS(s: string, i: nat, j: nat) {
    i <= j <= |s| && forall k | i <= k < j :: s[k] == 's'
  }

  /** `http`, then `s` any number of times up to `m`, then `://` and at least one byte of the URL alphabet. */
  ghost predicate UrlShape(s: string, m: nat) {
    && 4 <= m && m + 3 < |s| && s[..4] == "http" && AllS(s, 4, m)
    && s[m..m + 3] == "://" && AllIn(URL_CHARS, s, m + 3, |s|)
  }

  lemma {:induction false} LetterStar(s: string, i: nat, j: nat)
    ensures MStar(Lit("s"), s, i, j) <==> AllS(s, i, j)
    decreases j - i
  {
    if i < j <= |s| {
      LetterStar(s, i + 1, j);
      if AllS(s, i, j) {
        assert MUnit(Lit("s"), s, i, i + 1) && MStar(Lit("s"), s, i + 1, j);
      }
    }
  }

  lemma SetPlus(w: string, s: string, i: nat, j: nat)
    requires SetData(Plains(w)) == w
    ensures MQuant(SetOf(w), OneOrMore, s, i, j) <==> i < j && AllIn(w, s, i, j)
  {
    if i < j <= |s| {
      SetUnit(w, s, i, i + 1);
      SetStar(w, s, i + 1, j);
    }
    forall k: nat | i <= k <= j
      ensures MUnit(SetOf(w), s, i, k) && MStar(SetOf(w), s, k, j) ==> k == i + 1 && AllIn(w, s, i, j)
    {
      SetUnit(w, s, i, k);
      SetStar(w, s, k, j);
    }
  }

  lemma UrlTailLanguage(s: string, i: nat, j: nat)
    ensures MPieces(UrlTail(), s, i, j) <==> i < j == |s| && AllIn(URL_CHARS, s, i, |s|)
  {
    AlphabetsAreSetChars();
    PlainsFacts(URL_CHARS);
    var g := Once1(GroupOf(SetOf(URL_CHARS), OneOrMore));
    SetPlus(URL_CHARS, s, i, j);
    GroupOfLanguage(SetOf(URL_CHARS), OneOrMore, s, i, j);
    if MPieces(UrlTail(), s, i, j) {
      var k := ConsSplit(g, PCons(Eol, PNil), s, i, j);
      EolOnly(s, k, j);
    }
    if i < j == |s| && AllIn(URL_CHARS, s, i, |s|) {
      EolOnly(s, j, j);
      ConsJoin(g, PCons(Eol, PNil), s, i, j, j);
    }
  }

  function UrlColon(): Pieces { PCons(Once1(Lit("://")), UrlTail()) }
  function UrlLetters(): Pieces { PCons(Once1(GroupOf(Lit("s"), ZeroOrMore)), UrlColon()) }
  function UrlHttp(): Pieces { PCons(Once1(Lit("http")), UrlLetters()) }

  lemma UrlColonLanguage(s: string, i: nat, j: nat)
    ensures MPieces(UrlColon(), s, i, j) <==>
      i + 3 < j == |s| && s[i..i + 3] == "://" && AllIn(URL_CHARS, s, i + 3, |s|)
  {
    var colon := Once1(Lit("://"));
    if MPieces(UrlColon(), s, i, j) {
      var k := ConsSplit(colon, UrlTail(), s, i, j);
      assert s[i..k] == "://";
      UrlTailLanguage(s, k, j);
    }
    if i + 3 < j == |s| && s[i..i + 3] == "://" && AllIn(URL_CHARS, s, i + 3, |s|) {
      UrlTailLanguage(s, i + 3, j);
      ConsJoin(colon, UrlTail(), s, i, i + 3, j);
    }
  }

  lemma UrlLettersSound(s: string, i: nat, j: nat) returns (m: nat)
    requires MPieces(UrlLetters(), s, i, j)
    ensures i <= m <= j && AllS(s, i, m) && MPieces(UrlColon(), s, m, j)
  {
    m := ConsSplit(Once1(GroupOf(Lit("s"), ZeroOrMore)), UrlColon(), s, i, j);
    GroupOfLanguage(Lit("s"), ZeroOrMore, s, i, m);
    LetterStar(s, i, m);
  }

  lemma UrlLettersComplete(s: string, i: nat, m: nat, j: nat)
    requires i <= m <= j && AllS(s, i, m) && MPieces(UrlColon(), s, m, j)
    ensures MPieces(UrlLetters(), s, i, j)
  {
    GroupOfLanguage(Lit("s"), ZeroOrMore, s, i, m);
    LetterStar(s, i, m);
    ConsJoin(Once1(GroupOf(Lit("s"), ZeroOrMore)), UrlColon(), s, i, m, j);
  }

  lemma UrlHead(s: string, i: nat, j: nat)
    ensures MAlt(UrlAlt(), s, i, j) <==> i == 0 && 4 <= j <= |s| && s[..4] == "http" && MPieces(UrlLetters(), s, 4, j)
  {
    var http := Once1(Lit("http"));
    assert MAlt(UrlAlt(), s, i, j) <==> i <= j <= |s| && MPieces(PCons(Bol, UrlHttp()), s, i, j);
    if MPieces(PCons(Bol, UrlHttp()), s, i, j) {
      var b := ConsSplit(Bol, UrlHttp(), s, i, j);
      var n := ConsSplit(http, UrlLetters(), s, 0, j);
      assert s[0..n] == "http" && s[..4] == s[0..4];
    }
    if i == 0 && 4 <= j <= |s| && s[..4] == "http" && MPieces(UrlLetters(), s, 4, j) {
      assert s[0..4] == s[..4];
      ConsJoin(http, UrlLetters(), s, 0, 4, j);
      ConsJoin(Bol, UrlHttp(), s, 0, 0, j);
    }
  }

  lemma UrlLanguage(s: string, i: nat, j: nat)
    ensures MAlt(UrlAlt(), s, i, j) <==> i == 0 && j == |s| && exists m: nat :: UrlShape(s, m)
  {
    UrlHead(s, i, j);
    if MAlt(UrlAlt(), s, i, j) {
      var m := UrlLettersSound(s, 4, j);
      UrlColonLanguage(s, m, j);
      assert UrlShape(s, m);
    }
    if m: nat :| i == 0 && j == |s| && UrlShape(s, m) {
      UrlColonLanguage(s, m, j);
      UrlLettersComplete(s, 4, m, j);
    }
  }

  lemma UrlIsSimple()
    ensures SimpleAlt(UrlAlt())
  {
    assert SimplePieces(PNil) && SimplePieces(PCons(Eol, PNil));
    assert SimplePieces(PCons(Item(SetOf(URL_CHARS), OneOrMore), PNil));
    assert SimpleAlt(GroupOf(SetOf(URL_CHARS), OneOrMore).alt);
    assert SimplePieces(UrlTail());
    assert SimplePieces(PCons(Item(Lit("s"), ZeroOrMore), PNil));
    assert SimpleAlt(GroupOf(Lit("s"), ZeroOrMore).alt);
    assert SimplePieces(UrlLetters());
    assert SimplePieces(UrlHttp());
  }

  lemma UrlExact(s: string, caps: seq<Cap>)
    ensures Productive(Lower(UrlAlt()))
    ensures Search(Lower(UrlAlt()), true, s, caps).ok <==> exists m: nat :: UrlShape(s, m)
  {
    UrlCompilable();
    UrlIsSimple();
    assert VALID_URL_PATTERN[0] == '^';
    MatchExact(UrlAlt(), s, caps);
    UrlLanguage(s, 0, |s|);
    forall i: nat, j: nat | MAlt(UrlAlt(), s, i, j) ensures i == 0 && j == |s| { UrlLanguage(s, i, j); }
    assert AltFound(UrlAlt(), true, s) <==> MAlt(UrlAlt(), s, 0, |s|);
  }

  lemma UrlCaps()
    ensures CapsBelow(Lower(UrlAlt()), 3)
  {
    UrlCompilable();
    UrlGroups();
    LowerOk(UrlAlt(), 3);
  }

  lemma UrlGroups()
    ensures AltCaps(UrlAlt()) == 2
  {
    assert PiecesCaps(UrlTail()) == 1;
    assert PiecesCaps(PCons(Once1(GroupOf(Lit("s"), ZeroOrMore)), PCons(Once1(Lit("://")), UrlTail()))) == 2;
  }

  method CompileValidUrl() returns (re: Engine)
    ensures Holds(re, UrlAlt()) && fresh(re) && re.errStr == ""
  {
    UrlCompilable();
    re := new Engine();
    var ok := re.SlreCompile(VALID_URL_PATTERN, UrlAlt());
  }

  method IsValidUrl(reValidUrl: Engine, url: string) returns (valid: bool)
    requires Holds(reValidUrl, UrlAlt())
    ensures valid <==> exists m: nat :: UrlShape(url, m)
  {
    var pmatch := new Cap[3](_ => Cap(0, 0));
    UrlCaps();
    UrlCompilable();
    assert VALID_URL_PATTERN[0] == '^';
    UrlExact(url, CapsOf(pmatch));
    valid := reValidUrl.SlreMatch(url, pmatch, Lower(UrlAlt()));
  }
}
