/**
 The patterns for the frames that are no messages: an operation and its parameters, the
 permissions among them, and a channel. Their trees, and the programs they compile to.
 */
module OperationPatterns {
  import opened SlreProgram
  import opened SlreSyntax
  import opened SlreExact
  import opened Patterns
  import opened Captures
  import opened Frames

  /** ^a\["{\\"op\\":\\"([^"]*)\\",(.*)\}"\] */
  const OPERATION_PATTERN := "^a\\[\"{" + ("\\\\\"op\\\\\":\\\\\"" + ("([^\"]*)\\\\\"," + "(.*)\\}\"\\]"))
  /** ^\\"up\\":{(.*)\},\\"set\\":(.*)$ */
  const PERMISSIONS_PATTERN := "^\\\\\"up\\\\\":{" + ("(.*)\\},\\\\\"set\\\\\":" + "(.*)$")
  /** ^\\"ch\\":\\"(.*)\\"$ */
  const CHANNEL_PATTERN := "^" + ("\\\\\"ch\\\\\":\\\\\"" + ("(.*)\\\\\"" + "$"))

  // ------------------------------------------------------------------- an operation

  function OnlyQuote(): seq<SetItem> { [Plain('"')] }

  lemma OnlyQuoteFacts()
    ensures WfItems(OnlyQuote()) && PrintItems(OnlyQuote()) == "\"" && SetData(OnlyQuote()) == "\""
  {
    assert OnlyQuote()[1..] == [];
  }

  /** A group that captures bytes other than a quote. */
  function Unquoted(): Atom { GroupOf(Set(true, OnlyQuote()), ZeroOrMore) }

  function ParamsEnd(): Pieces {
    PCons(Once1(ANY_TEXT), PCons(Once1(Esc('}')), PCons(Once1(Lit("\"")), PCons(Once1(Esc(']')), PNil))))
  }

  function TypeEnd(k: Pieces): Pieces { PCons(Once1(Unquoted()), Quoted("\",", k)) }

  function OperationStart(k: Pieces): Pieces {
    PCons(Bol, PCons(Once1(Lit("a")), PCons(Once1(Esc('[')), PCons(Once1(Lit("\"{")), k))))
  }

  function OperationAlt(): Alt { Last(OperationStart(Key("\"op", TypeEnd(ParamsEnd())))) }

  lemma ParamsEndFacts()
    ensures Facts(ParamsEnd(), "(.*)\\}\"\\]", 17, "}\"]")
  {
    FactsNil();
    EscFacts(']', PNil, "", 0, "");
    var k1 := PCons(Once1(Esc(']')), PNil);
    LitFacts("\"", k1, "\\]" + "", 3, "]" + "");
    var k2 := PCons(Once1(Lit("\"")), k1);
    EscFacts('}', k2, "\"" + ("\\]" + ""), 6, "\"" + ("]" + ""));
    AnyTextThen(PCons(Once1(Esc('}')), k2), "\\}" + ("\"" + ("\\]" + "")), 9, "}" + ("\"" + ("]" + "")));
    ParamsEndText();
  }

  lemma ParamsEndText()
    ensures "(.*)" + ("\\}" + ("\"" + ("\\]" + ""))) == "(.*)\\}\"\\]" && "}" + ("\"" + ("]" + "")) == "}\"]"
  {
  }

  lemma TypeEndFacts(k: Pieces, text: string, size: nat, data: string)
    requires NotLitFirst(k) && Facts(k, text, size, data)
    ensures Facts(TypeEnd(k), "([^\"]*)\\\\\"," + text, 16 + size, "\"\\\"," + data)
  {
    QuotedFacts("\",", k, text, size, data);
    UnquotedFacts(Quoted("\",", k), "\\\\" + ("\"," + text), 6 + size, "\\" + ("\"," + data));
    TypeEndText(text, data);
  }

  lemma UnquotedFacts(k: Pieces, text: string, size: nat, data: string)
    requires Facts(k, text, size, data)
    ensures Facts(PCons(Once1(Unquoted()), k), ("(" + (("[^" + "\"" + "]") + "*") + ")") + text, 10 + size, "\"" + data)
  {
    OnlyQuoteFacts();
    var a := Set(true, OnlyQuote());
    assert WfAtom(a) && PrintAtom(a) == "[^" + "\"" + "]" && AtomData(a) == "\"" && AtomSize(a) == 3;
    GroupOfFacts(a, ZeroOrMore, k, text, size, data);
  }

  lemma TypeEndText(text: string, data: string)
    ensures ("(" + (("[^" + "\"" + "]") + "*") + ")") + ("\\\\" + ("\"," + text)) == "([^\"]*)\\\\\"," + text
    ensures "\"" + ("\\" + ("\"," + data)) == "\"\\\"," + data
  {
  }

  lemma OperationStartFacts(k: Pieces, text: string, size: nat, data: string)
    requires NotLitFirst(k) && Facts(k, text, size, data)
    ensures Facts(OperationStart(k), "^a\\[\"{" + text, 10 + size, "a[\"{" + data)
  {
    BracketFacts(k, text, size, data);
    var k2 := PCons(Once1(Esc('[')), PCons(Once1(Lit("\"{")), k));
    LetterAFacts(k2, "\\[" + ("\"{" + text), 6 + size, "[" + ("\"{" + data));
    OperationStartText(text, data);
  }

  lemma BracketFacts(k: Pieces, text: string, size: nat, data: string)
    requires NotLitFirst(k) && Facts(k, text, size, data)
    ensures Facts(PCons(Once1(Esc('[')), PCons(Once1(Lit("\"{")), k)), "\\[" + ("\"{" + text), 6 + size,
        "[" + ("\"{" + data))
  {
    LitFacts("\"{", k, text, size, data);
    EscFacts('[', PCons(Once1(Lit("\"{")), k), "\"{" + text, 3 + size, "\"{" + data);
  }

  lemma LetterAFacts(k: Pieces, text: string, size: nat, data: string)
    requires NotLitFirst(k) && Facts(k, text, size, data)
    ensures Facts(PCons(Bol, PCons(Once1(Lit("a")), k)), "^" + ("a" + text), 4 + size, "a" + data)
  {
    LitFacts("a", k, text, size, data);
    BolFacts(PCons(Once1(Lit("a")), k), "a" + text, 3 + size, "a" + data);
  }

  lemma OperationStartText(text: string, data: string)
    ensures "^" + ("a" + ("\\[" + ("\"{" + text))) == "^a\\[\"{" + text
    ensures "a" + ("[" + ("\"{" + data)) == "a[\"{" + data
  {
  }

  lemma OperationKeyText(text: string, data: string)
    ensures "\\\\" + ("\"op" + ("\\\\" + ("\":" + ("\\\\" + ("\"" + text))))) == "\\\\\"op\\\\\":\\\\\"" + text
    ensures "\\" + ("\"op" + ("\\" + ("\":" + ("\\" + ("\"" + data))))) == "\\\"op\\\":\\\"" + data
  {
  }

  lemma OperationHeadFacts(k: Pieces, text: string, size: nat, data: string)
    requires NotLitFirst(k) && Facts(k, text, size, data)
    ensures Facts(OperationStart(Key("\"op", k)), "^a\\[\"{" + ("\\\\\"op\\\\\":\\\\\"" + text), 28 + size,
                  "a[\"{" + ("\\\"op\\\":\\\"" + data))
  {
    KeyFacts("\"op", k, text, size, data);
    OperationKeyText(text, data);
    OperationStartFacts(Key("\"op", k), "\\\\\"op\\\\\":\\\\\"" + text, 18 + size, "\\\"op\\\":\\\"" + data);
  }

  lemma OperationCompilable()
    ensures Compilable(OperationAlt(), OPERATION_PATTERN)
  {
    ParamsEndFacts();
    TypeEndFacts(ParamsEnd(), "(.*)\\}\"\\]", 17, "}\"]");
    var text, data := "([^\"]*)\\\\\"," + "(.*)\\}\"\\]", "\"\\\"," + "}\"]";
    OperationHeadFacts(TypeEnd(ParamsEnd()), text, 33, data);
    FactsDone(OperationAlt().ps, "^a\\[\"{" + ("\\\\\"op\\\\\":\\\\\"" + text), 61,
        "a[\"{" + ("\\\"op\\\":\\\"" + data));
  }

  // --------------------------------------------------------------- the permissions

  function SetEnd(): Pieces { PCons(Once1(ANY_TEXT), PCons(Eol, PNil)) }

  function UpEnd(k: Pieces): Pieces {
    PCons(Once1(ANY_TEXT), PCons(Once1(Esc('}')), PCons(Once1(Lit(",")), Quoted("\"set", Quoted("\":", k)))))
  }

  function PermissionsAlt(): Alt { Last(PCons(Bol, Quoted("\"up", Quoted("\":{", UpEnd(SetEnd()))))) }

  lemma SetEndFacts()
    ensures Facts(SetEnd(), "(.*)$", 9, "")
  {
    EolFacts();
    AnyTextThen(PCons(Eol, PNil), "$", 1, "");
    assert "(.*)" + "$" == "(.*)$";
  }

  lemma UpEndFacts(k: Pieces, text: string, size: nat, data: string)
    requires NotLitFirst(k) && Facts(k, text, size, data)
    ensures Facts(UpEnd(k), "(.*)\\},\\\\\"set\\\\\":" + text, 26 + size, "},\\\"set\\\":" + data)
  {
    QuotedTwice("\"set", "\":", k, text, size, data);
    var k1, t1, d1 := Quoted("\"set", Quoted("\":", k)), "\\\\" + ("\"set" + ("\\\\" + ("\":" + text))),
        "\\" + ("\"set" + ("\\" + ("\":" + data)));
    BraceFacts(k1, t1, 12 + size, d1);
    UpEndText(text, data);
  }

  lemma BraceFacts(k: Pieces, text: string, size: nat, data: string)
    requires NotLitFirst(k) && Facts(k, text, size, data)
    ensures Facts(PCons(Once1(ANY_TEXT), PCons(Once1(Esc('}')), PCons(Once1(Lit(",")), k))),
                  "(.*)" + ("\\}" + ("," + text)), 14 + size, "}" + ("," + data))
  {
    LitFacts(",", k, text, size, data);
    EscFacts('}', PCons(Once1(Lit(",")), k), "," + text, 3 + size, "," + data);
    AnyTextThen(PCons(Once1(Esc('}')), PCons(Once1(Lit(",")), k)), "\\}" + ("," + text), 6 + size,
        "}" + ("," + data));
  }

  lemma UpEndText(text: string, data: string)
    ensures "(.*)" + ("\\}" + ("," + ("\\\\" + ("\"set" + ("\\\\" + ("\":" + text))))))
         == "(.*)\\},\\\\\"set\\\\\":" + text
    ensures "}" + ("," + ("\\" + ("\"set" + ("\\" + ("\":" + data))))) == "},\\\"set\\\":" + data
  {
  }

  lemma UpFacts(k: Pieces, text: string, size: nat, data: string)
    requires NotLitFirst(k) && Facts(k, text, size, data)
    ensures Facts(PCons(Bol, Quoted("\"up", Quoted("\":{", k))), "^\\\\\"up\\\\\":{" + text, 13 + size,
                  "\\\"up\\\":{" + data)
  {
    QuotedTwice("\"up", "\":{", k, text, size, data);
    BolFacts(Quoted("\"up", Quoted("\":{", k)), "\\\\" + ("\"up" + ("\\\\" + ("\":{" + text))), 12 + size,
             "\\" + ("\"up" + ("\\" + ("\":{" + data))));
    UpText(text, data);
  }

  lemma UpText(text: string, data: string)
    ensures "^" + ("\\\\" + ("\"up" + ("\\\\" + ("\":{" + text)))) == "^\\\\\"up\\\\\":{" + text
    ensures "\\" + ("\"up" + ("\\" + ("\":{" + data))) == "\\\"up\\\":{" + data
  {
  }

  lemma PermissionsCompilable()
    ensures Compilable(PermissionsAlt(), PERMISSIONS_PATTERN)
  {
    SetEndFacts();
    UpEndFacts(SetEnd(), "(.*)$", 9, "");
    var text, data := "(.*)\\},\\\\\"set\\\\\":" + "(.*)$", "},\\\"set\\\":" + "";
    UpFacts(UpEnd(SetEnd()), text, 35, data);
    FactsDone(PermissionsAlt().ps, "^\\\\\"up\\\\\":{" + text, 48, "\\\"up\\\":{" + data);
  }

  // ------------------------------------------------------------------------ a channel

  function ChannelEnd(): Pieces { PCons(Once1(ANY_TEXT), Quoted("\"", PCons(Eol, PNil))) }

  function ChannelAlt(): Alt { Last(PCons(Bol, Key("\"ch", ChannelEnd()))) }

  lemma ChannelEndFacts()
    ensures Facts(ChannelEnd(), "(.*)\\\\\"" + "$", 15, "\\\"")
  {
    EolFacts();
    EndQuote(PCons(Eol, PNil), "$", 1, "");
    ChannelEndText();
  }

  lemma ChannelEndText()
    ensures "(.*)" + ("\\\\" + ("\"" + "$")) == "(.*)\\\\\"" + "$" && "\\" + ("\"" + "") == "\\\""
  {
  }

  lemma ChannelCompilable()
    ensures Compilable(ChannelAlt(), CHANNEL_PATTERN)
  {
    ChannelEndFacts();
    var t, d := "(.*)\\\\\"" + "$", "\\\"";
    ChannelKeyFacts(ChannelEnd(), t, 15, d);
    BolFacts(Key("\"ch", ChannelEnd()), "\\\\\"ch\\\\\":\\\\\"" + t, 33, "\\\"ch\\\":\\\"" + d);
    FactsDone(ChannelAlt().ps, "^" + ("\\\\\"ch\\\\\":\\\\\"" + t), 34, "\\\"ch\\\":\\\"" + d);
  }

  // --------------------------------------------------------------- the compiled forms

  /** Compiled `([^members]*)`. */
  function SetTextProg(n: nat, off: nat, members: string, next: Prog): Prog {
    Op(Open(n), ByteLoop(Op(AnyBut(off, members), Halt), Op(Close(n), next)))
  }

  lemma LowerUnquoted(cap: nat, off: nat, k: Prog)
    ensures LowerPiece(Once1(Unquoted()), cap, off, k) == SetTextProg(cap + 1, off, "\"", k)
    ensures PieceCaps(Once1(Unquoted())) == 1 && PieceData(Once1(Unquoted())) == "\""
  {
    OnlyQuoteFacts();
    var star := Item(Set(true, OnlyQuote()), ZeroOrMore);
    var close := Op(Close(cap + 1), k);
    LowerCons(star, PNil, cap + 1, off, close);
    StarLower(OnlyQuote(), cap + 1, off, close);
    assert LowerAtom(Unquoted(), cap, off, k)
        == Op(Open(cap + 1), LowerPieces(PCons(star, PNil), cap + 1, off, close));
    assert AtomCaps(Unquoted()) == 1 + PiecesCaps(PCons(star, PNil));
    assert AtomData(Unquoted()) == PiecesData(PCons(star, PNil));
  }

  lemma UnquotedCompiles(k: Pieces, cap: nat, off: nat, ws: Words, next: Prog)
    requires Compiles(k, cap + 1, off + 1, ws, next)
    ensures Compiles(PCons(Once1(Unquoted()), k), cap, off, NoWord,
        SetTextProg(cap + 1, off, "\"", WordsProg(ws, off + 1, next)))
  {
    LowerCons(Once1(Unquoted()), k, cap, off, FINISH);
    LowerUnquoted(cap, off, LowerPieces(k, cap + 1, off + 1, FINISH));
  }

  function OperationWords(): Words { Word("a", Word("[", Word("\"{", KeyWords("\"op", NoWord)))) }
  function CommaWords(): Words { Word("\\", Word("\",", NoWord)) }
  function CloseWords(): Words { Word("}", Word("\"", Word("]", NoWord))) }

  const START_OF_OPERATION := "a[\"{" + "\\\"op\\\":\\\""
  const COMMA := "\\\","
  const END_OF_OPERATION := "}\"]"

  function ParamsProg(): Prog { AnyTextProg(2, WordsProg(CloseWords(), 17, FINISH)) }
  function TypeProg(params: Prog): Prog { SetTextProg(1, 13, "\"", WordsProg(CommaWords(), 14, params)) }

  lemma ParamsCompiles()
    ensures Compiles(ParamsEnd(), 1, 17, NoWord, ParamsProg())
  {
    assert Compiles(PNil, 2, 20, NoWord, FINISH);
    EscCompiles(']', PNil, 2, 19, NoWord, FINISH);
    var k1 := PCons(Once1(Esc(']')), PNil);
    LitCompiles("\"", k1, 2, 18, Word("]", NoWord), FINISH);
    var k2 := PCons(Once1(Lit("\"")), k1);
    EscCompiles('}', k2, 2, 17, Word("\"", Word("]", NoWord)), FINISH);
    AnyTextCompiles(PCons(Once1(Esc('}')), k2), 1, 17, CloseWords(), FINISH);
  }

  lemma TypeCompiles(k: Pieces, params: Prog)
    requires Compiles(k, 1, 17, NoWord, params)
    ensures Compiles(TypeEnd(k), 0, 13, NoWord, TypeProg(params))
  {
    QuotedCompiles("\",", k, 1, 14, NoWord, params);
    UnquotedCompiles(Quoted("\",", k), 0, 13, CommaWords(), params);
  }

  lemma OperationStartCompiles(k: Pieces, next: Prog)
    requires Compiles(k, 0, 13, NoWord, next)
    ensures Lower(Last(OperationStart(Key("\"op", k)))) == Op(Open(0), Op(AtBol, WordsProg(OperationWords(), 0, next)))
  {
    KeyCompiles("\"op", k, 0, 4, NoWord, next);
    var k0, words := Key("\"op", k), KeyWords("\"op", NoWord);
    LitCompiles("\"{", k0, 0, 2, words, next);
    var k1 := PCons(Once1(Lit("\"{")), k0);
    EscCompiles('[', k1, 0, 1, Word("\"{", words), next);
    LitCompiles("a", PCons(Once1(Esc('[')), k1), 0, 0, Word("[", Word("\"{", words)), next);
    BolLower(PCons(Once1(Lit("a")), PCons(Once1(Esc('[')), k1)));
  }

  lemma OperationProg()
    ensures Lower(OperationAlt()) == Op(Open(0), Op(AtBol, WordsProg(OperationWords(), 0, TypeProg(ParamsProg()))))
  {
    ParamsCompiles();
    TypeCompiles(ParamsEnd(), ParamsProg());
    OperationStartCompiles(TypeEnd(ParamsEnd()), TypeProg(ParamsProg()));
  }

  function UpWords(): Words { Word("\\", Word("\"up", Word("\\", Word("\":{", NoWord)))) }
  function SetWords(): Words { Word("}", Word(",", SetKeyWords())) }

  const START_OF_PERMISSIONS := "\\\"up\\\":{"
  const SET_KEY := "},\\\"set\\\":"

  function SetProg(): Prog { AnyTextProg(2, Op(AtEol, FINISH)) }
  function UpProg(rest: Prog): Prog { AnyTextProg(1, WordsProg(SetWords(), 8, rest)) }

  function SetKeyWords(): Words { Word("\\", Word("\"set", Word("\\", Word("\":", NoWord)))) }

  lemma SetKeyCompiles(k: Pieces, rest: Prog)
    requires Compiles(k, 1, 18, NoWord, rest)
    ensures Compiles(Quoted("\"set", Quoted("\":", k)), 1, 10, SetKeyWords(), rest)
  {
    QuotedCompiles("\":", k, 1, 15, NoWord, rest);
    QuotedCompiles("\"set", Quoted("\":", k), 1, 10, Word("\\", Word("\":", NoWord)), rest);
  }

  lemma UpCompiles(k: Pieces, rest: Prog)
    requires Compiles(k, 1, 18, NoWord, rest)
    ensures Compiles(UpEnd(k), 0, 8, NoWord, UpProg(rest))
  {
    SetKeyCompiles(k, rest);
    BraceCompiles(Quoted("\"set", Quoted("\":", k)), SetKeyWords(), rest);
  }

  lemma BraceCompiles(k: Pieces, ws: Words, next: Prog)
    requires Compiles(k, 1, 10, ws, next)
    ensures Compiles(PCons(Once1(ANY_TEXT), PCons(Once1(Esc('}')), PCons(Once1(Lit(",")), k))), 0, 8, NoWord,
        AnyTextProg(1, WordsProg(Word("}", Word(",", ws)), 8, next)))
  {
    LitCompiles(",", k, 1, 9, ws, next);
    EscCompiles('}', PCons(Once1(Lit(",")), k), 1, 8, Word(",", ws), next);
    AnyTextCompiles(PCons(Once1(Esc('}')), PCons(Once1(Lit(",")), k)), 0, 8, Word("}", Word(",", ws)), next);
  }

  lemma PermissionsStartCompiles(k: Pieces, next: Prog)
    requires Compiles(k, 0, 8, NoWord, next)
    ensures Lower(Last(PCons(Bol, Quoted("\"up", Quoted("\":{", k)))))
         == Op(Open(0), Op(AtBol, WordsProg(UpWords(), 0, next)))
  {
    QuotedCompiles("\":{", k, 0, 4, NoWord, next);
    QuotedCompiles("\"up", Quoted("\":{", k), 0, 0, Word("\\", Word("\":{", NoWord)), next);
    BolLower(Quoted("\"up", Quoted("\":{", k)));
  }

  lemma PermissionsProg()
    ensures Lower(PermissionsAlt()) == Op(Open(0), Op(AtBol, WordsProg(UpWords(), 0, UpProg(SetProg()))))
  {
    var eol := PCons(Eol, PNil);
    LowerCons(Eol, PNil, 2, 18, FINISH);
    assert Compiles(eol, 2, 18, NoWord, Op(AtEol, FINISH));
    AnyTextCompiles(eol, 1, 18, NoWord, Op(AtEol, FINISH));
    UpCompiles(SetEnd(), SetProg());
    PermissionsStartCompiles(UpEnd(SetEnd()), UpProg(SetProg()));
  }

  function QuoteWords(): Words { Word("\\", Word("\"", NoWord)) }

  const START_OF_CHANNEL := "\\\"ch\\\":\\\""

  function NameProg(): Prog { AnyTextProg(1, WordsProg(QuoteWords(), 9, Op(AtEol, FINISH))) }

  lemma ChannelProg()
    ensures Lower(ChannelAlt()) == Op(Open(0), Op(AtBol, WordsProg(KeyWords("\"ch", NoWord), 0, NameProg())))
  {
    var eol := PCons(Eol, PNil);
    LowerCons(Eol, PNil, 1, 11, FINISH);
    assert Compiles(eol, 1, 11, NoWord, Op(AtEol, FINISH));
    QuotedCompiles("\"", eol, 1, 9, NoWord, Op(AtEol, FINISH));
    AnyTextCompiles(Quoted("\"", eol), 0, 9, QuoteWords(), Op(AtEol, FINISH));
    KeyCompiles("\"ch", ChannelEnd(), 0, 0, NoWord, NameProg());
    BolLower(Key("\"ch", ChannelEnd()));
  }

  lemma OperationTexts()
    ensures Text(OperationWords()) == START_OF_OPERATION && Text(CommaWords()) == COMMA
    ensures Text(CloseWords()) == END_OF_OPERATION
    ensures Text(UpWords()) == START_OF_PERMISSIONS && Text(SetWords()) == SET_KEY
    ensures Text(KeyWords("\"ch", NoWord)) == START_OF_CHANNEL && Text(QuoteWords()) == "\\\""
  {
  }

  /** The groups of the three patterns. */
  lemma OperationGroups()
    ensures AltCaps(OperationAlt()) == 2
  {
    LowerAnyText(0, 0, Halt);
    LowerUnquoted(0, 0, Halt);
    assert PiecesCaps(ParamsEnd()) == 1;
    assert PiecesCaps(Quoted("\",", ParamsEnd())) == 1;
    assert PiecesCaps(TypeEnd(ParamsEnd())) == 2;
    assert PiecesCaps(Key("\"op", TypeEnd(ParamsEnd()))) == 2;
  }

  lemma PermissionsGroups()
    ensures AltCaps(PermissionsAlt()) == 2
  {
    LowerAnyText(0, 0, Halt);
    assert PiecesCaps(SetEnd()) == 1;
    assert PiecesCaps(Quoted("\"set", Quoted("\":", SetEnd()))) == 1;
    assert PiecesCaps(UpEnd(SetEnd())) == 2;
    assert PiecesCaps(Quoted("\"up", Quoted("\":{", UpEnd(SetEnd())))) == 2;
  }

  lemma ChannelGroups()
    ensures AltCaps(ChannelAlt()) == 1
  {
    LowerAnyText(0, 0, Halt);
    assert PiecesCaps(ChannelEnd()) == 1;
    assert PiecesCaps(Key("\"ch", ChannelEnd())) == 1;
  }
}
