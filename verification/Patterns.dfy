/**
 The patterns of the client, as text and as parsed patterns, with the proof that the
 one is the concrete syntax of the other and that the compiled form fits the buffers.
 */
module Patterns {
  import opened SlreProgram
  import opened SlreSyntax
  import opened SlreCodegen

  const LOWER := "abcdefghijklmnopqrstuvwxyz"
  const UPPER := "ABCDEFGHIJKLMNOPQRSTUVWXYZ"
  const DIGITS := "0123456789"
  const INPUT_CHARS := LOWER + (UPPER + (DIGITS + ":._/-"))
  const URL_CHARS := LOWER + (UPPER + (DIGITS + "./:-"))

  const VALID_INPUT_PATTERN := "^" + (("([" + INPUT_CHARS + "]*)") + "$")
  const VALID_URL_PATTERN := "^" + ("http" + ("(s*)" + ("://" + (("([" + URL_CHARS + "]+)") + "$"))))
  const MULTIPART_PATTERN := "^(.[^_]*)_(.[^_]*)-(.[^_]*)_(.*)$"
  /** ^a?\["{\\"ch\\":\\"(.*)\\",\\"m\\":\\"(.*)\\"\}"\]$ */
  const MESSAGE_PATTERN :=
    "^a?\\[\"{" + ("\\\\\"ch\\\\\":\\\\\"" + ("(.*)\\\\\",\\\\\"m\\\\\":\\\\\"" + "(.*)\\\\\"\\}\"\\]$"))
  const PERMISSION_PATTERN := "\\\\\"(.[^\\\\\"]*)\\\\\":\\\\\"(.[^\\\\\"]*)\\\\\""

  // -------------------------------------------------------------- size of the code

  function AtomSize(a: Atom): nat {
    match a
    case Group(alt) => 4 + AltSize(alt)
    case Lit(_) => 3
    case Dot => 1
    case Set(_, _) => 3
    case Esc(c) => if IsClass(EscapeCode(c)) then 1 else 3
  }

  function PieceSize(p: Piece): nat {
    match p
    case Bol => 1
    case Eol => 1
    case Item(a, q) => AtomSize(a) + (if q == Once then 0 else 3) + if q != Once && HeadOf(a) != "" then 3 else 0
  }

  function PiecesSize(ps: Pieces): nat {
    match ps
    case PNil => 0
    case PCons(p, rest) => PieceSize(p) + PiecesSize(rest)
  }

  function AltSize(alt: Alt): nat {
    match alt
    case Last(ps) => PiecesSize(ps)
    case Bar(ps, more) => PiecesSize(ps) + 5 + AltSize(more)
  }

  lemma {:induction false} AtomBytesSize(a: Atom, cap: nat, off: nat)
    ensures |AtomBytes(a, cap, off)| == AtomSize(a) == |UnitBytes(a, cap, off)|
    decreases a, 0
  {
    if a.Group? {
      AltBytesSize(a.alt, cap + 1, off);
    }
  }

  lemma {:induction false} PieceBytesSize(p: Piece, cap: nat, off: nat)
    ensures |PieceBytes(p, cap, off)| == PieceSize(p)
    decreases p, 0
  {
    if p.Item? {
      AtomBytesSize(p.atom, cap, off);
      assert PieceBytes(p, cap, off) == QuantBytes(p.atom, p.q, cap, off);
    }
  }

  lemma {:induction false} PiecesBytesSize(ps: Pieces, cap: nat, off: nat)
    ensures |PiecesBytes(ps, cap, off)| == PiecesSize(ps)
    decreases ps, 0
  {
    match ps
    case PNil =>
    case PCons(p, rest) =>
      PieceBytesSize(p, cap, off);
      PiecesBytesSize(rest, cap + PieceCaps(p), off + |PieceData(p)|);
      assert PiecesBytes(ps, cap, off)
          == PieceBytes(p, cap, off) + PiecesBytes(rest, cap + PieceCaps(p), off + |PieceData(p)|);
      assert PiecesSize(ps) == PieceSize(p) + PiecesSize(rest);
  }

  lemma {:induction false} BarsBytesSize(left: seq<byte>, more: Alt, cap: nat, off: nat)
    ensures |BarsBytes(left, more, cap, off, true)| == |left| + 5 + AltSize(more)
    decreases more, 0
  {
    PiecesBytesSize(more.ps, cap, off);
    if more.Bar? {
      BarsBytesSize(ClosedBranch(left, PiecesBytes(more.ps, cap, off)), more.more,
                    cap + PiecesCaps(more.ps), off + |PiecesData(more.ps)|);
    }
  }

  /** The code of a pattern has a size that can be read off the pattern. */
  lemma {:induction false} AltBytesSize(alt: Alt, cap: nat, off: nat)
    ensures |AltBytes(alt, cap, off, true)| == AltSize(alt)
    decreases alt, 1
  {
    PiecesBytesSize(alt.ps, cap, off);
    if alt.Bar? {
      BarsBytesSize(PiecesBytes(alt.ps, cap, off), alt.more, cap + PiecesCaps(alt.ps), off + |PiecesData(alt.ps)|);
    }
  }

  // --------------------------------------------------------- patterns are C strings

  lemma {:induction false} ItemsAreCString(items: seq<SetItem>)
    requires WfItems(items)
    ensures IsCString(PrintItems(items))
  {
    if items != [] {
      ItemsAreCString(items[1..]);
    }
  }

  lemma {:induction false} AtomIsCString(a: Atom)
    requires WfAtom(a)
    ensures IsCString(PrintAtom(a)) && PrintAtom(a) != ""
    decreases a
  {
    match a
    case Set(_, items) => ItemsAreCString(items);
    case Group(alt) => PrintIsCString(alt);
    case _ =>
  }

  lemma {:induction false} PieceIsCString(p: Piece)
    requires p.Item? ==> WfAtom(p.atom)
    ensures IsCString(PrintPiece(p)) && PrintPiece(p) != ""
    decreases p
  {
    if p.Item? { AtomIsCString(p.atom); }
  }

  lemma {:induction false} PiecesAreCString(ps: Pieces)
    requires WfPieces(ps)
    ensures IsCString(PrintPieces(ps))
    decreases ps
  {
    match ps
    case PNil =>
    case PCons(p, rest) =>
      PieceIsCString(p);
      PiecesAreCString(rest);
  }

  lemma {:induction false} PrintIsCString(alt: Alt)
    requires WfAlt(alt)
    ensures IsCString(PrintAlt(alt))
    decreases alt
  {
    PiecesAreCString(alt.ps);
    if alt.Bar? { PrintIsCString(alt.more); }
  }

  /** What compiling a pattern needs to know about it. */
  ghost predicate Compilable(alt: Alt, text: string) {
    && WfAlt(alt) && PrintAlt(alt) == text && text != "" && IsCString(text)
    && |PatternBytes(alt)| <= 256 && |AltData(alt)| <= 255
  }

  /** The facts about a suffix of a pattern, gathered piece by piece. */
  ghost predicate Facts(ps: Pieces, text: string, size: nat, data: string) {
    WfPieces(ps) && PrintPieces(ps) == text && PiecesSize(ps) == size && PiecesData(ps) == data
  }

  lemma FactsNil()
    ensures Facts(PNil, "", 0, "")
  {
  }

  lemma FactsCons(p: Piece, ps: Pieces, text: string, size: nat, data: string)
    requires Facts(ps, text, size, data)
    requires p.Item? ==> WfAtom(p.atom)
    requires p.Item? && p.atom.Lit? && p.q == Once && ps.PCons? ==> !(ps.head.Item? && ps.head.atom.Lit?)
    ensures Facts(PCons(p, ps), PrintPiece(p) + text, PieceSize(p) + size, PieceData(p) + data)
  {
  }

  lemma FactsDone(ps: Pieces, text: string, size: nat, data: string)
    requires Facts(ps, text, size, data) && ps != PNil && size <= 251 && |data| <= 255
    ensures Compilable(Last(ps), text) && AltData(Last(ps)) == data
  {
    AltBytesSize(Last(ps), 0, 0);
    PrintIsCString(Last(ps));
    PieceIsCString(ps.head);
  }

  // ------------------------------------------------------------------ building blocks

  function Once1(a: Atom): Piece { Item(a, Once) }

  /** The members of a set written out one by one. */
  function Plains(w: string): seq<SetItem> {
    if w == "" then [] else [Plain(w[0])] + Plains(w[1..])
  }

  predicate IsSetChar(c: char) { IsCChar(c) && c != ']' && c != '\\' && c != '^' }

  lemma {:induction false} PlainsFacts(w: string)
    requires forall k | 0 <= k < |w| :: IsSetChar(w[k])
    ensures PrintItems(Plains(w)) == w && SetData(Plains(w)) == w && WfItems(Plains(w))
    ensures Plains(w) != [] ==> Plains(w)[0] == Plain(w[0])
  {
    if w != "" {
      PlainsFacts(w[1..]);
      var items := Plains(w);
      assert items[1..] == Plains(w[1..]);
      assert w == [w[0]] + w[1..];
    }
  }

  /** A group that captures any text. */
  const ANY_TEXT: Atom := Group(Last(PCons(Item(Dot, ZeroOrMore), PNil)))

  /** A group that captures a byte and then bytes other than those of `stop`. */
  function Field(stop: seq<SetItem>): Atom {
    Group(Last(PCons(Once1(Dot), PCons(Item(Set(true, stop), ZeroOrMore), PNil))))
  }

  lemma AnyTextFacts()
    ensures WfAtom(ANY_TEXT) && PrintAtom(ANY_TEXT) == "(.*)" && AtomSize(ANY_TEXT) == 8 && AtomData(ANY_TEXT) == ""
  {
    var star := Item(Dot, ZeroOrMore);
    FactsNil();
    FactsCons(star, PNil, "", 0, "");
    assert PrintPiece(star) == ".*";
  }

  lemma FieldFacts(stop: seq<SetItem>)
    requires WfItems(stop)
    ensures WfAtom(Field(stop)) && PrintAtom(Field(stop)) == "(.[^" + PrintItems(stop) + "]*)"
    ensures AtomSize(Field(stop)) == 11 && AtomData(Field(stop)) == SetData(stop)
  {
    var star := Item(Set(true, stop), ZeroOrMore);
    NegatedSetFacts(stop);
    FactsCons(Once1(Dot), PCons(star, PNil), "[^" + PrintItems(stop) + "]" + "*", 6, SetData(stop));
    FieldText(PrintItems(stop), SetData(stop));
    DotAnd(PCons(star, PNil));
  }

  lemma NegatedSetFacts(stop: seq<SetItem>)
    requires WfItems(stop)
    ensures Facts(PCons(Item(Set(true, stop), ZeroOrMore), PNil), "[^" + PrintItems(stop) + "]" + "*", 6, SetData(stop))
  {
    var star := Item(Set(true, stop), ZeroOrMore);
    FactsNil();
    FactsCons(star, PNil, "", 0, "");
    assert PrintPiece(star) + "" == "[^" + PrintItems(stop) + "]" + "*";
    assert PieceData(star) + "" == SetData(stop);
  }

  lemma DotAnd(rest: Pieces)
    ensures var g := Group(Last(PCons(Once1(Dot), rest)));
      && PrintAtom(g) == "(" + ("." + "" + PrintPieces(rest)) + ")"
      && AtomSize(g) == 5 + PiecesSize(rest) && AtomData(g) == "" + PiecesData(rest)
      && (WfPieces(rest) ==> WfAtom(g))
  {
    var ps := PCons(Once1(Dot), rest);
    var g := Group(Last(ps));
    assert PrintAtom(g) == "(" + PrintAlt(Last(ps)) + ")" && PrintAlt(Last(ps)) == PrintPieces(ps);
    assert AtomSize(g) == 4 + AltSize(Last(ps)) && AltSize(Last(ps)) == PiecesSize(ps);
    assert AtomData(g) == AltData(Last(ps)) && AltData(Last(ps)) == PiecesData(ps);
    assert WfAtom(Dot);
    assert WfPieces(ps) == WfPieces(rest);
    assert WfAlt(Last(ps)) == WfPieces(ps);
    assert WfAtom(g) == WfAlt(Last(ps));
    assert PrintPieces(ps) == PrintPiece(Once1(Dot)) + PrintPieces(rest);
    assert PrintPiece(Once1(Dot)) == "." + "";
    assert PiecesData(ps) == PieceData(Once1(Dot)) + PiecesData(rest);
    assert PiecesSize(ps) == PieceSize(Once1(Dot)) + PiecesSize(rest);
  }

  lemma FieldText(items: string, data: string)
    ensures "(" + ("." + "" + ("[^" + items + "]" + "*")) + ")" == "(.[^" + items + "]*)"
    ensures "" + data == data
  {
  }

  // -------------------------------------------------------------------- the patterns

  function NotUnderscore(): seq<SetItem> { [Plain('_')] }

  lemma NotUnderscoreFacts()
    ensures WfItems(NotUnderscore()) && PrintItems(NotUnderscore()) == "_" && SetData(NotUnderscore()) == "_"
  {
    assert NotUnderscore()[1..] == [];
  }

  function NotQuote(): seq<SetItem> { [Escaped('\\'), Plain('"')] }

  lemma NotQuoteFacts()
    ensures WfItems(NotQuote()) && PrintItems(NotQuote()) == "\\\\\"" && SetData(NotQuote()) == "\\\""
  {
    var tail := NotQuote()[1..];
    assert tail == [Plain('"')] && tail[1..] == [];
    assert PrintItems(tail) == "\"" && SetData(tail) == "\"" && WfItems(tail);
    assert EscapeData(EscapeCode('\\')) == "\\";
  }

  /** A backslash, written with an escape, followed by plain text. */
  function Quoted(w: string, k: Pieces): Pieces {
    PCons(Once1(Esc('\\')), PCons(Once1(Lit(w)), k))
  }

  /** A key and the quote that opens its value. */
  function Key(w: string, k: Pieces): Pieces { Quoted(w, Quoted("\":", Quoted("\"", k))) }

  predicate NotLitFirst(k: Pieces) {
    k.PCons? ==> !(k.head.Item? && k.head.atom.Lit?)
  }

  predicate PlainText(w: string) {
    w != "" && forall i | 0 <= i < |w| :: IsLitChar(w[i])
  }

  lemma LitFacts(w: string, k: Pieces, text: string, size: nat, data: string)
    requires PlainText(w) && NotLitFirst(k) && Facts(k, text, size, data)
    ensures Facts(PCons(Once1(Lit(w)), k), w + text, 3 + size, w + data)
  {
    var p := Once1(Lit(w));
    FactsCons(p, k, text, size, data);
    assert PrintPiece(p) == w + "" == w && PieceSize(p) == 3;
  }

  lemma EscFacts(c: char, k: Pieces, text: string, size: nat, data: string)
    requires (c == '\\' || c == '[' || c == ']' || c == '}') && Facts(k, text, size, data)
    ensures Facts(PCons(Once1(Esc(c)), k), ['\\', c] + text, 3 + size, [c] + data)
  {
    var p := Once1(Esc(c));
    FactsCons(p, k, text, size, data);
    assert PrintPiece(p) == ['\\', c] + "" == ['\\', c] && PieceSize(p) == 3;
    assert PieceData(p) == [c];
  }

  lemma QuotedFacts(w: string, k: Pieces, text: string, size: nat, data: string)
    requires PlainText(w) && NotLitFirst(k) && Facts(k, text, size, data)
    ensures Facts(Quoted(w, k), "\\\\" + (w + text), 6 + size, "\\" + (w + data))
  {
    LitFacts(w, k, text, size, data);
    EscFacts('\\', PCons(Once1(Lit(w)), k), w + text, 3 + size, w + data);
  }

  lemma QuotedTwice(v: string, w: string, k: Pieces, text: string, size: nat, data: string)
    requires PlainText(v) && PlainText(w) && NotLitFirst(k) && Facts(k, text, size, data)
    ensures Facts(Quoted(v, Quoted(w, k)), "\\\\" + (v + ("\\\\" + (w + text))), 12 + size,
        "\\" + (v + ("\\" + (w + data))))
  {
    QuotedFacts(w, k, text, size, data);
    QuotedFacts(v, Quoted(w, k), "\\\\" + (w + text), 6 + size, "\\" + (w + data));
  }

  lemma GroupFacts(a: Atom, printed: string, k: Pieces, text: string, size: nat, data: string)
    requires a.Group? && WfAtom(a) && PrintAtom(a) == printed && Facts(k, text, size, data)
    ensures Facts(PCons(Once1(a), k), printed + text, AtomSize(a) + size, AtomData(a) + data)
  {
    FactsCons(Once1(a), k, text, size, data);
    assert PrintPiece(Once1(a)) == printed + "" == printed;
  }

  lemma EolFacts()
    ensures Facts(PCons(Eol, PNil), "$", 1, "")
  {
    FactsNil();
    FactsCons(Eol, PNil, "", 0, "");
  }

  lemma BolFacts(k: Pieces, text: string, size: nat, data: string)
    requires Facts(k, text, size, data)
    ensures Facts(PCons(Bol, k), "^" + text, 1 + size, data)
  {
    FactsCons(Bol, k, text, size, data);
  }

  // ------------------------------------------------------- the header of a message part

  function HeaderEnd(): Pieces {
    PCons(Once1(Field(NotUnderscore())), PCons(Once1(Lit("_")), PCons(Once1(ANY_TEXT), PCons(Eol, PNil))))
  }

  function Header(): Pieces {
    PCons(Bol, PCons(Once1(Field(NotUnderscore())), PCons(Once1(Lit("_")),
      PCons(Once1(Field(NotUnderscore())), PCons(Once1(Lit("-")), HeaderEnd())))))
  }

  /** A field followed by a literal. */
  lemma FieldThen(w: string, k: Pieces, text: string, size: nat, data: string)
    requires PlainText(w) && NotLitFirst(k) && Facts(k, text, size, data)
    ensures Facts(PCons(Once1(Field(NotUnderscore())), PCons(Once1(Lit(w)), k)),
                  "(.[^_]*)" + (w + text), 14 + size, "_" + (w + data))
  {
    NotUnderscoreFacts();
    FieldFacts(NotUnderscore());
    LitFacts(w, k, text, size, data);
    FieldText("_", "_");
    GroupFacts(Field(NotUnderscore()), "(.[^_]*)", PCons(Once1(Lit(w)), k), w + text, 3 + size, w + data);
  }

  lemma AnyTextThen(k: Pieces, text: string, size: nat, data: string)
    requires Facts(k, text, size, data)
    ensures Facts(PCons(Once1(ANY_TEXT), k), "(.*)" + text, 8 + size, data)
  {
    AnyTextFacts();
    GroupFacts(ANY_TEXT, "(.*)", k, text, size, data);
    assert "" + data == data;
  }

  lemma HeaderEndFacts()
    ensures Facts(HeaderEnd(), "(.[^_]*)" + ("_" + ("(.*)" + "$")), 23, "_" + ("_" + ""))
  {
    EolFacts();
    AnyTextThen(PCons(Eol, PNil), "$", 1, "");
    FieldThen("_", PCons(Once1(ANY_TEXT), PCons(Eol, PNil)), "(.*)" + "$", 9, "");
  }

  lemma HeaderFacts(text: string, data: string)
    requires Facts(HeaderEnd(), text, 23, data)
    ensures Facts(Header(), "^" + ("(.[^_]*)" + ("_" + ("(.[^_]*)" + ("-" + text)))), 52,
        "_" + ("_" + ("_" + ("-" + data))))
  {
    FieldThen("-", HeaderEnd(), text, 23, data);
    var f := Field(NotUnderscore());
    var k := PCons(Once1(f), PCons(Once1(Lit("-")), HeaderEnd()));
    FieldThen("_", k, "(.[^_]*)" + ("-" + text), 37, "_" + ("-" + data));
    BolFacts(PCons(Once1(f), PCons(Once1(Lit("_")), k)), "(.[^_]*)" + ("_" + ("(.[^_]*)" + ("-" + text))), 51,
             "_" + ("_" + ("_" + ("-" + data))));
  }

  lemma HeaderText()
    ensures "^" + ("(.[^_]*)" + ("_" + ("(.[^_]*)" + ("-" + ("(.[^_]*)" + ("_" + ("(.*)" + "$")))))))
        == MULTIPART_PATTERN
    ensures "_" + ("_" + ("_" + ("-" + ("_" + ("_" + ""))))) == "___-__"
  {
  }

  function MultipartAlt(): Alt { Last(Header()) }

  lemma MultipartCompilable()
    ensures Compilable(MultipartAlt(), MULTIPART_PATTERN) && AltData(MultipartAlt()) == "___-__"
  {
    HeaderEndFacts();
    var text, data := "(.[^_]*)" + ("_" + ("(.*)" + "$")), "_" + ("_" + "");
    HeaderFacts(text, data);
    FactsDone(Header(), "^" + ("(.[^_]*)" + ("_" + ("(.[^_]*)" + ("-" + text)))), 52,
        "_" + ("_" + ("_" + ("-" + data))));
    HeaderText();
  }

  // ------------------------------------------------------------------- a message frame

  function MessageEnd(): Pieces {
    PCons(Once1(ANY_TEXT),
        Quoted("\"", PCons(Once1(Esc('}')), PCons(Once1(Lit("\"")), PCons(Once1(Esc(']')), PCons(Eol, PNil))))))
  }

  function MessageMiddle(): Pieces {
    PCons(Once1(ANY_TEXT), Quoted("\",", Quoted("\"m", Quoted("\":", Quoted("\"", MessageEnd())))))
  }

  function MessageStart(k: Pieces): Pieces {
    PCons(Bol, PCons(Item(Lit("a"), ZeroOrOne), PCons(Once1(Esc('[')), PCons(Once1(Lit("\"{")), k))))
  }

  function Message(): Pieces {
    MessageStart(Key("\"ch", MessageMiddle()))
  }

  function MessageAlt(): Alt { Last(Message()) }

  lemma MessageEndFacts()
    ensures Facts(MessageEnd(), "(.*)\\\\\"\\}\"\\]$", 24, "\\\"}\"]")
  {
    EolFacts();
    var k0 := PCons(Eol, PNil);
    EscFacts(']', k0, "$", 1, "");
    var k1 := PCons(Once1(Esc(']')), k0);
    LitFacts("\"", k1, "\\]" + "$", 4, "]" + "");
    var k2 := PCons(Once1(Lit("\"")), k1);
    EscFacts('}', k2, "\"" + ("\\]" + "$"), 7, "\"" + ("]" + ""));
    var k3 := PCons(Once1(Esc('}')), k2);
    EndQuote(k3, "\\}" + ("\"" + ("\\]" + "$")), 10, "}" + ("\"" + ("]" + "")));
    MessageEndText();
  }

  lemma EndQuote(k: Pieces, text: string, size: nat, data: string)
    requires NotLitFirst(k) && Facts(k, text, size, data)
    ensures Facts(PCons(Once1(ANY_TEXT), Quoted("\"", k)), "(.*)" + ("\\\\" + ("\"" + text)), 14 + size,
        "\\" + ("\"" + data))
  {
    QuotedFacts("\"", k, text, size, data);
    AnyTextThen(Quoted("\"", k), "\\\\" + ("\"" + text), 6 + size, "\\" + ("\"" + data));
  }

  lemma MessageEndText()
    ensures "(.*)" + ("\\\\" + ("\"" + ("\\}" + ("\"" + ("\\]" + "$"))))) == "(.*)\\\\\"\\}\"\\]$"
    ensures "\\" + ("\"" + ("}" + ("\"" + ("]" + "")))) == "\\\"}\"]"
  {
  }

  lemma MiddleFacts(k: Pieces, text: string, size: nat, data: string)
    requires NotLitFirst(k) && Facts(k, text, size, data)
    ensures Facts(PCons(Once1(ANY_TEXT), Quoted("\",", Quoted("\"m", Quoted("\":", Quoted("\"", k))))),
                  "(.*)\\\\\",\\\\\"m\\\\\":\\\\\"" + text, 32 + size, "\\\",\\\"m\\\":\\\"" + data)
  {
    QuotedTwice("\":", "\"", k, text, size, data);
    var k2 := Quoted("\":", Quoted("\"", k));
    var t2, d2 := "\\\\" + ("\":" + ("\\\\" + ("\"" + text))), "\\" + ("\":" + ("\\" + ("\"" + data)));
    TextKeyFacts(k2, t2, 12 + size, d2);
    MiddleText(text, data);
  }

  lemma TextKeyFacts(k: Pieces, text: string, size: nat, data: string)
    requires NotLitFirst(k) && Facts(k, text, size, data)
    ensures Facts(PCons(Once1(ANY_TEXT), Quoted("\",", Quoted("\"m", k))),
                  "(.*)" + ("\\\\" + ("\"," + ("\\\\" + ("\"m" + text)))), 20 + size,
                  "\\" + ("\"," + ("\\" + ("\"m" + data))))
  {
    QuotedTwice("\",", "\"m", k, text, size, data);
    AnyTextThen(Quoted("\",", Quoted("\"m", k)), "\\\\" + ("\"," + ("\\\\" + ("\"m" + text))), 12 + size,
                "\\" + ("\"," + ("\\" + ("\"m" + data))));
  }

  lemma MiddleText(text: string, data: string)
    ensures "(.*)" + ("\\\\" + ("\"," + ("\\\\" + ("\"m" + ("\\\\" + ("\":" + ("\\\\" + ("\"" + text))))))))
         == "(.*)\\\\\",\\\\\"m\\\\\":\\\\\"" + text
    ensures "\\" + ("\"," + ("\\" + ("\"m" + ("\\" + ("\":" + ("\\" + ("\"" + data)))))))
         == "\\\",\\\"m\\\":\\\"" + data
  {
  }

  lemma ChannelKeyFacts(k: Pieces, text: string, size: nat, data: string)
    requires NotLitFirst(k) && Facts(k, text, size, data)
    ensures Facts(Key("\"ch", k), "\\\\\"ch\\\\\":\\\\\"" + text, 18 + size,
                  "\\\"ch\\\":\\\"" + data)
  {
    KeyFacts("\"ch", k, text, size, data);
    ChannelKeyText(text, data);
  }

  lemma KeyFacts(w: string, k: Pieces, text: string, size: nat, data: string)
    requires PlainText(w) && NotLitFirst(k) && Facts(k, text, size, data)
    ensures Facts(Key(w, k), "\\\\" + (w + ("\\\\" + ("\":" + ("\\\\" + ("\"" + text))))), 18 + size,
                  "\\" + (w + ("\\" + ("\":" + ("\\" + ("\"" + data))))))
  {
    QuotedTwice("\":", "\"", k, text, size, data);
    QuotedFacts(w, Quoted("\":", Quoted("\"", k)), "\\\\" + ("\":" + ("\\\\" + ("\"" + text))), 12 + size,
                "\\" + ("\":" + ("\\" + ("\"" + data))));
  }

  lemma ChannelKeyText(text: string, data: string)
    ensures "\\\\" + ("\"ch" + ("\\\\" + ("\":" + ("\\\\" + ("\"" + text))))) == "\\\\\"ch\\\\\":\\\\\"" + text
    ensures "\\" + ("\"ch" + ("\\" + ("\":" + ("\\" + ("\"" + data))))) == "\\\"ch\\\":\\\"" + data
  {
  }

  lemma StartFacts(k: Pieces, text: string, size: nat, data: string)
    requires NotLitFirst(k) && Facts(k, text, size, data)
    ensures Facts(MessageStart(k), "^a?\\[\"{" + text, 13 + size, "a[\"{" + data)
  {
    LitFacts("\"{", k, text, size, data);
    var k1 := PCons(Once1(Lit("\"{")), k);
    EscFacts('[', k1, "\"{" + text, 3 + size, "\"{" + data);
    var k2 := PCons(Once1(Esc('[')), k1);
    LetterFacts(k2, "\\[" + ("\"{" + text), 6 + size, "[" + ("\"{" + data));
    StartText(text, data);
  }

  lemma StartText(text: string, data: string)
    ensures "^" + ("a?" + ("\\[" + ("\"{" + text))) == "^a?\\[\"{" + text
    ensures "a" + ("[" + ("\"{" + data)) == "a[\"{" + data
  {
  }

  lemma LetterFacts(k: Pieces, text: string, size: nat, data: string)
    requires NotLitFirst(k) && Facts(k, text, size, data)
    ensures Facts(PCons(Bol, PCons(Item(Lit("a"), ZeroOrOne), k)), "^" + ("a?" + text), 7 + size, "a" + data)
  {
    var a := Item(Lit("a"), ZeroOrOne);
    FactsCons(a, k, text, size, data);
    assert PrintPiece(a) == "a" + "?" == "a?" && PieceData(a) == "a" && PieceSize(a) == 6;
    BolFacts(PCons(a, k), "a?" + text, 6 + size, "a" + data);
  }

  lemma MessageMiddleFacts()
    ensures var text, data := "(.*)\\\\\"\\}\"\\]$", "\\\"}\"]";
      NotLitFirst(MessageMiddle())
      && Facts(MessageMiddle(), "(.*)\\\\\",\\\\\"m\\\\\":\\\\\"" + text, 56, "\\\",\\\"m\\\":\\\"" + data)
  {
    MessageEndFacts();
    MiddleFacts(MessageEnd(), "(.*)\\\\\"\\}\"\\]$", 24, "\\\"}\"]");
  }

  /** The pattern up to the channel. */
  lemma HeadFacts(k: Pieces, text: string, size: nat, data: string)
    requires NotLitFirst(k) && Facts(k, text, size, data)
    ensures Facts(MessageStart(Key("\"ch", k)),
        "^a?\\[\"{" + ("\\\\\"ch\\\\\":\\\\\"" + text), 31 + size,
                  "a[\"{" + ("\\\"ch\\\":\\\"" + data))
  {
    ChannelKeyFacts(k, text, size, data);
    StartFacts(Key("\"ch", k), "\\\\\"ch\\\\\":\\\\\"" + text, 18 + size,
               "\\\"ch\\\":\\\"" + data);
  }

  lemma MessageCompilable()
    ensures Compilable(MessageAlt(), MESSAGE_PATTERN)
  {
    MessageMiddleFacts();
    var text, data := "(.*)\\\\\"\\}\"\\]$", "\\\"}\"]";
    var text', data' := "(.*)\\\\\",\\\\\"m\\\\\":\\\\\"" + text, "\\\",\\\"m\\\":\\\"" + data;
    HeadFacts(MessageMiddle(), text', 56, data');
    FactsDone(Message(), "^a?\\[\"{" + ("\\\\\"ch\\\\\":\\\\\"" + text'), 87, "a[\"{" + ("\\\"ch\\\":\\\"" + data'));
  }

  // ------------------------------------------------------------- a channel and its hash

  function PermissionEnd(): Pieces {
    Quoted("\"", PCons(Once1(Field(NotQuote())), Quoted("\"", PNil)))
  }

  function Permission(): Pieces {
    Quoted("\"", PCons(Once1(Field(NotQuote())), Quoted("\":", PermissionEnd())))
  }

  function PermissionAlt(): Alt { Last(Permission()) }

  lemma QuotedFieldFacts(w: string, k: Pieces, text: string, size: nat, data: string)
    requires PlainText(w) && NotLitFirst(k) && Facts(k, text, size, data)
    ensures Facts(Quoted("\"", PCons(Once1(Field(NotQuote())), Quoted(w, k))),
                  "\\\\" + ("\"" + ("(.[^\\\\\"]*)" + ("\\\\" + (w + text)))), 23 + size,
                  "\\" + ("\"" + ("\\\"" + ("\\" + (w + data)))))
  {
    QuotedFacts(w, k, text, size, data);
    NotQuoteFields(Quoted(w, k), "\\\\" + (w + text), 6 + size, "\\" + (w + data));
    QuotedFacts("\"", PCons(Once1(Field(NotQuote())), Quoted(w, k)), "(.[^\\\\\"]*)" + ("\\\\" + (w + text)), 17 + size,
                "\\\"" + ("\\" + (w + data)));
  }

  lemma NotQuoteFields(k: Pieces, text: string, size: nat, data: string)
    requires Facts(k, text, size, data)
    ensures Facts(PCons(Once1(Field(NotQuote())), k), "(.[^\\\\\"]*)" + text, 11 + size, "\\\"" + data)
  {
    NotQuoteFacts();
    FieldFacts(NotQuote());
    FieldText("\\\\\"", "");
    GroupFacts(Field(NotQuote()), "(.[^\\\\\"]*)", k, text, size, data);
  }

  lemma PermissionCompilable()
    ensures Compilable(PermissionAlt(), PERMISSION_PATTERN)
  {
    FactsNil();
    QuotedFieldFacts("\"", PNil, "", 0, "");
    var t := "\\\\" + ("\"" + ("(.[^\\\\\"]*)" + ("\\\\" + ("\"" + ""))));
    var d := "\\" + ("\"" + ("\\\"" + ("\\" + ("\"" + ""))));
    QuotedFieldFacts("\":", PermissionEnd(), t, 23, d);
    FactsDone(Permission(), "\\\\" + ("\"" + ("(.[^\\\\\"]*)" + ("\\\\" + ("\":" + t)))), 46,
              "\\" + ("\"" + ("\\\"" + ("\\" + ("\":" + d)))));
    PermissionText();
  }

  lemma PermissionText()
    ensures "\\\\" + ("\"" + ("(.[^\\\\\"]*)" + ("\\\\" + ("\":" +
              ("\\\\" + ("\"" + ("(.[^\\\\\"]*)" + ("\\\\" + ("\"" + ""))))))))) == PERMISSION_PATTERN
  {
  }

  // --------------------------------------------------------------- the input validators

  lemma SetCharsConcat(u: string, v: string)
    requires forall k | 0 <= k < |u| :: IsSetChar(u[k])
    requires forall k | 0 <= k < |v| :: IsSetChar(v[k])
    ensures forall k | 0 <= k < |u + v| :: IsSetChar((u + v)[k])
  {
  }

  lemma LettersAreSetChars()
    ensures forall k | 0 <= k < |LOWER| :: IsSetChar(LOWER[k])
    ensures forall k | 0 <= k < |UPPER| :: IsSetChar(UPPER[k])
    ensures forall k | 0 <= k < |DIGITS| :: IsSetChar(DIGITS[k])
  {
  }

  lemma AlphabetsAreSetChars()
    ensures forall k | 0 <= k < |INPUT_CHARS| :: IsSetChar(INPUT_CHARS[k])
    ensures forall k | 0 <= k < |URL_CHARS| :: IsSetChar(URL_CHARS[k])
    ensures |INPUT_CHARS| == 67 && |URL_CHARS| == 66
  {
    LettersAreSetChars();
    SetCharsConcat(DIGITS, ":._/-");
    SetCharsConcat(UPPER, DIGITS + ":._/-");
    SetCharsConcat(LOWER, UPPER + (DIGITS + ":._/-"));
    SetCharsConcat(DIGITS, "./:-");
    SetCharsConcat(UPPER, DIGITS + "./:-");
    SetCharsConcat(LOWER, UPPER + (DIGITS + "./:-"));
  }

  /** A group around one quantified atom. */
  function GroupOf(a: Atom, q: Quant): Atom {
    Group(Last(PCons(Item(a, q), PNil)))
  }

  lemma GroupOfFacts(a: Atom, q: Quant, k: Pieces, text: string, size: nat, data: string)
    requires WfAtom(a) && HeadOf(a) == "" && q != Once && Facts(k, text, size, data)
    ensures Facts(PCons(Once1(GroupOf(a, q)), k), ("(" + (PrintAtom(a) + PrintQuant(q)) + ")") + text,
                  7 + AtomSize(a) + size, AtomData(a) + data)
  {
    var p := Item(a, q);
    FactsNil();
    FactsCons(p, PNil, "", 0, "");
    assert PrintPieces(PCons(p, PNil)) == (PrintAtom(a) + PrintQuant(q)) + "" == PrintAtom(a) + PrintQuant(q);
    assert AtomData(a) + "" == AtomData(a);
    assert PiecesSize(PCons(p, PNil)) == PieceSize(p) + 0 == AtomSize(a) + 3;
    assert PiecesData(PCons(p, PNil)) == AtomData(a) + "";
    assert AtomSize(GroupOf(a, q)) == 7 + AtomSize(a) && AtomData(GroupOf(a, q)) == AtomData(a);
    GroupFacts(GroupOf(a, q), "(" + (PrintAtom(a) + PrintQuant(q)) + ")", k, text, size, data);
  }

  function SetOf(w: string): Atom { Set(false, Plains(w)) }

  lemma SetOfFacts(w: string)
    requires forall k | 0 <= k < |w| :: IsSetChar(w[k])
    ensures WfAtom(SetOf(w)) && PrintAtom(SetOf(w)) == "[" + "" + w + "]" && AtomSize(SetOf(w)) == 3
    ensures AtomData(SetOf(w)) == w
  {
    PlainsFacts(w);
  }

  function InputAlt(): Alt { Last(PCons(Bol, PCons(Once1(GroupOf(SetOf(INPUT_CHARS), ZeroOrMore)), PCons(Eol, PNil)))) }

  lemma InputCompilable()
    ensures Compilable(InputAlt(), VALID_INPUT_PATTERN)
  {
    AlphabetsAreSetChars();
    SetOfFacts(INPUT_CHARS);
    EolFacts();
    GroupOfFacts(SetOf(INPUT_CHARS), ZeroOrMore, PCons(Eol, PNil), "$", 1, "");
    var t := ("(" + (("[" + "" + INPUT_CHARS + "]") + "*") + ")") + "$";
    BolFacts(PCons(Once1(GroupOf(SetOf(INPUT_CHARS), ZeroOrMore)), PCons(Eol, PNil)), t, 11, INPUT_CHARS + "");
    FactsDone(InputAlt().ps, "^" + t, 12, INPUT_CHARS + "");
    SetText(INPUT_CHARS, "*");
  }

  lemma SetText(w: string, q: string)
    ensures "(" + (("[" + "" + w + "]") + q) + ")" == "([" + w + "]" + q + ")"
    ensures q == "*" ==> "(" + (("[" + "" + w + "]") + q) + ")" == "([" + w + "]*)"
    ensures q == "+" ==> "(" + (("[" + "" + w + "]") + q) + ")" == "([" + w + "]+)"
  {
  }

  function UrlTail(): Pieces { PCons(Once1(GroupOf(SetOf(URL_CHARS), OneOrMore)), PCons(Eol, PNil)) }

  function UrlAlt(): Alt {
    Last(PCons(Bol,
        PCons(Once1(Lit("http")), PCons(Once1(GroupOf(Lit("s"), ZeroOrMore)), PCons(Once1(Lit("://")), UrlTail())))))
  }

  lemma UrlTailFacts()
    ensures Facts(UrlTail(), ("([" + URL_CHARS + "]+)") + "$", 11, URL_CHARS + "")
  {
    AlphabetsAreSetChars();
    SetOfFacts(URL_CHARS);
    EolFacts();
    GroupOfFacts(SetOf(URL_CHARS), OneOrMore, PCons(Eol, PNil), "$", 1, "");
    SetText(URL_CHARS, "+");
  }

  lemma UrlHeadFacts(k: Pieces, text: string, size: nat, data: string)
    requires NotLitFirst(k) && Facts(k, text, size, data)
    ensures Facts(PCons(Once1(GroupOf(Lit("s"), ZeroOrMore)), PCons(Once1(Lit("://")), k)), "(s*)" + ("://" + text),
                  13 + size, "s" + ("://" + data))
  {
    LitFacts("://", k, text, size, data);
    LettersFacts(PCons(Once1(Lit("://")), k), "://" + text, 3 + size, "://" + data);
  }

  lemma LettersFacts(k: Pieces, text: string, size: nat, data: string)
    requires Facts(k, text, size, data)
    ensures Facts(PCons(Once1(GroupOf(Lit("s"), ZeroOrMore)), k), "(s*)" + text, 10 + size, "s" + data)
  {
    assert "(" + ("s" + "*") + ")" == "(s*)";
    GroupOfFacts(Lit("s"), ZeroOrMore, k, text, size, data);
  }

  lemma UrlCompilable()
    ensures Compilable(UrlAlt(), VALID_URL_PATTERN)
  {
    UrlTailFacts();
    var t, d := ("([" + URL_CHARS + "]+)") + "$", URL_CHARS + "";
    UrlHeadFacts(UrlTail(), t, 11, d);
    UrlStart(PCons(Once1(GroupOf(Lit("s"), ZeroOrMore)), PCons(Once1(Lit("://")), UrlTail())),
             "(s*)" + ("://" + t), 24, "s" + ("://" + d));
  }

  lemma UrlStart(k: Pieces, text: string, size: nat, data: string)
    requires NotLitFirst(k) && Facts(k, text, size, data) && size == 24 && |data| == 70
    ensures Compilable(Last(PCons(Bol, PCons(Once1(Lit("http")), k))), "^" + ("http" + text))
  {
    LitFacts("http", k, text, size, data);
    BolFacts(PCons(Once1(Lit("http")), k), "http" + text, 27, "http" + data);
    FactsDone(PCons(Bol, PCons(Once1(Lit("http")), k)), "^" + ("http" + text), 28, "http" + data);
  }
}
