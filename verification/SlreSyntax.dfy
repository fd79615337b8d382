/**
 The regular expressions the compiler accepts: their concrete syntax, the language
 they denote, and the byte code they are compiled to.

 A quantifier binds the last byte of a literal run, as in the concrete syntax.
 */
module SlreSyntax {
  import opened Basics
  import opened SlreProgram

  datatype Quant = Once | ZeroOrMore | OneOrMore | ZeroOrOne

  datatype SetItem = Plain(c: char) | Escaped(c: char)

  datatype Atom =
    | Lit(w: string)
    | Dot
    | Set(neg: bool, items: seq<SetItem>)
    | Esc(c: char)
    | Group(alt: Alt)

  datatype Piece = Item(atom: Atom, q: Quant) | Bol | Eol

  datatype Pieces = PNil | PCons(head: Piece, tail: Pieces)

  /** Alternatives separated by '|'. */
  datatype Alt = Last(ps: Pieces) | Bar(ps: Pieces, more: Alt)

  // ---------------------------------------------------------- concrete syntax

  const META_CHARS := "|.^$*+?()[\\"

  function PrintQuant(q: Quant): string {
    match q
    case Once => ""
    case ZeroOrMore => "*"
    case OneOrMore => "+"
    case ZeroOrOne => "?"
  }

  function PrintItems(items: seq<SetItem>): string {
    if items == [] then ""
    else (match items[0]
          case Plain(c) => [c]
          case Escaped(c) => ['\\', c]) + PrintItems(items[1..])
  }

  function PrintAtom(a: Atom): string {
    match a
    case Lit(w) => w
    case Dot => "."
    case Set(neg, items) => "[" + (if neg then "^" else "") + PrintItems(items) + "]"
    case Esc(c) => ['\\', c]
    case Group(alt) => "(" + PrintAlt(alt) + ")"
  }

  function PrintPiece(p: Piece): string {
    match p
    case Item(a, q) => PrintAtom(a) + PrintQuant(q)
    case Bol => "^"
    case Eol => "$"
  }

  function PrintPieces(ps: Pieces): string {
    match ps
    case PNil => ""
    case PCons(p, rest) => PrintPiece(p) + PrintPieces(rest)
  }

  function PrintAlt(alt: Alt): string {
    match alt
    case Last(ps) => PrintPieces(ps)
    case Bar(ps, more) => PrintPieces(ps) + "|" + PrintAlt(more)
  }

  /** A byte of a C string. */
  predicate IsCChar(c: char) { 0 < c as int < 256 }

  predicate IsLitChar(c: char) { IsCChar(c) && c !in META_CHARS }

  predicate IsCString(s: string) { forall k | 0 <= k < |s| :: IsCChar(s[k]) }

  predicate WfItem(i: SetItem) {
    IsCChar(i.c) && (i.Plain? ==> i.c != ']' && i.c != '\\')
  }

  predicate WfItems(items: seq<SetItem>) {
    items == [] || (WfItem(items[0]) && WfItems(items[1..]))
  }

  /**
   Well-formed patterns: literal runs are maximal, a set that is not negated does
   not begin with '^', and an escaped byte outside a set is below 128.
   */
  predicate WfAtom(a: Atom) {
    match a
    case Lit(w) => w != "" && forall k | 0 <= k < |w| :: IsLitChar(w[k])
    case Dot => true
    case Set(neg, items) =>
      && WfItems(items)
      && (!neg && items != [] ==> items[0] != Plain('^'))
    case Esc(c) => 0 < c as int < 128
    case Group(alt) => WfAlt(alt)
  }

  predicate WfPieces(ps: Pieces) {
    match ps
    case PNil => true
    case PCons(p, rest) =>
      && (p.Item? ==> WfAtom(p.atom))
      && (p.Item? && p.atom.Lit? && p.q == Once && rest.PCons? ==> !(rest.head.Item? && rest.head.atom.Lit?))
      && WfPieces(rest)
  }

  predicate WfAlt(alt: Alt) {
    match alt
    case Last(ps) => WfPieces(ps)
    case Bar(ps, more) => WfPieces(ps) && WfAlt(more)
  }

  // ------------------------------------------------------------------ escapes

  /** The value of an escape: a byte, or an instruction number in the second byte. */
  function EscapeCode(c: char): int {
    match c
    case 'n' => 10
    case 'r' => 13
    case 't' => 9
    case '0' => 0
    case 'S' => NONSPACE * 256
    case 's' => SPACE * 256
    case 'd' => DIGIT * 256
    case _ => if c as int < 128 then c as int else c as int - 256
  }

  predicate IsClass(esc: int) { esc / 256 % 256 != 0 }

  function EscapeData(esc: int): (d: string)
    ensures |d| >= 1
  {
    if esc % 256 == 0 then [0 as char, (esc / 256 % 256) as char] else [(esc % 256) as char]
  }

  /** The bytes a set item contributes to the data section. */
  function ItemData(i: SetItem): string {
    match i
    case Plain(c) => [c]
    case Escaped(c) => EscapeData(EscapeCode(c))
  }

  function SetData(items: seq<SetItem>): string {
    if items == [] then "" else ItemData(items[0]) + SetData(items[1..])
  }

  // ----------------------------------------------------------------- language

  /** Does an escape outside a set accept `x`? */
  predicate EscAccepts(c: char, x: char) {
    match c
    case 'S' => !IsSpace(x)
    case 's' => IsSpace(x)
    case 'd' => IsDigit(x)
    case _ => x as int == EscapeCode(c)
  }

  /** s[i..j] is in the language of the atom; anchors look at the position in `s`. */
  ghost predicate MAtom(a: Atom, s: string, i: nat, j: nat)
    decreases a, 0, 0
  {
    i <= j <= |s| &&
    match a
    case Lit(w) => s[i..j] == w
    case Dot => j == i + 1
    case Set(neg, items) => j == i + 1 && neg != InSet(SetData(items), s[i])
    case Esc(c) => j == i + 1 && EscAccepts(c, s[i])
    case Group(alt) => MAlt(alt, s, i, j)
  }

  /** What the atoms of one byte match, byte by byte. */
  lemma AtomsMean(s: string, i: nat, j: nat, items: seq<SetItem>)
    requires i < |s|
    ensures MAtom(Dot, s, i, j) <==> j == i + 1
    ensures MAtom(Set(false, items), s, i, j) <==> j == i + 1 && s[i] in SetData(items) && s[i] as int < 128
    ensures MAtom(Set(true, items), s, i, j) <==> j == i + 1 && !(s[i] in SetData(items) && s[i] as int < 128)
    ensures MAtom(Esc('d'), s, i, j) <==> j == i + 1 && s[i] in "0123456789"
    ensures MAtom(Esc('s'), s, i, j)
       <==> j == i + 1 && (s[i] in " \t\n\r" || s[i] as int == 11 || s[i] as int == 12)
    ensures MAtom(Esc('S'), s, i, j)
       <==> j == i + 1 && !(s[i] in " \t\n\r" || s[i] as int == 11 || s[i] as int == 12)
    ensures MAtom(Esc('n'), s, i, j) <==> j == i + 1 && s[i] == '\n'
    ensures MAtom(Esc('r'), s, i, j) <==> j == i + 1 && s[i] == '\r'
    ensures MAtom(Esc('t'), s, i, j) <==> j == i + 1 && s[i] == '\t'
    ensures MAtom(Esc('.'), s, i, j) <==> j == i + 1 && s[i] == '.'
  {
  }

  /** What a quantifier repeats: the last byte of a literal, or the whole atom. */
  ghost predicate MUnit(a: Atom, s: string, i: nat, j: nat)
    decreases a, 1, 0
  {
    i <= j <= |s| &&
    if a.Lit? then a.w != "" && j == i + 1 && s[i] == a.w[|a.w| - 1] else MAtom(a, s, i, j)
  }

  ghost predicate MStar(a: Atom, s: string, i: nat, j: nat)
    decreases a, 2, j - i
  {
    i <= j <= |s| &&
    (i == j || exists k: nat | i < k <= j :: MUnit(a, s, i, k) && MStar(a, s, k, j))
  }

  /** The part of a quantified atom in front of what the quantifier repeats. */
  function HeadOf(a: Atom): string {
    if a.Lit? && |a.w| > 1 then a.w[..|a.w| - 1] else ""
  }

  ghost predicate MQuant(a: Atom, q: Quant, s: string, i: nat, j: nat)
    decreases a, 3, 0
  {
    i <= j <= |s| &&
    match q
    case Once => MUnit(a, s, i, j)
    case ZeroOrMore => MStar(a, s, i, j)
    case OneOrMore => exists k: nat | i <= k <= j :: MUnit(a, s, i, k) && MStar(a, s, k, j)
    case ZeroOrOne => i == j || MUnit(a, s, i, j)
  }

  ghost predicate MPiece(p: Piece, s: string, i: nat, j: nat)
    decreases p, 0, 0
  {
    i <= j <= |s| &&
    match p
    case Item(a, Once) => MAtom(a, s, i, j)
    case Item(a, q) =>
      var h := |HeadOf(a)|;
      i + h <= j && s[i..i + h] == HeadOf(a) && MQuant(a, q, s, i + h, j)
    case Bol => i == j == 0
    case Eol => i == j == |s|
  }

  ghost predicate MPieces(ps: Pieces, s: string, i: nat, j: nat)
    decreases ps, 0, 0
  {
    i <= j <= |s| &&
    match ps
    case PNil => i == j
    case PCons(p, rest) => exists k: nat | i <= k <= j :: MPiece(p, s, i, k) && MPieces(rest, s, k, j)
  }

  /** The language of a pattern. */
  ghost predicate MAlt(alt: Alt, s: string, i: nat, j: nat)
    decreases alt, 0, 0
  {
    i <= j <= |s| &&
    match alt
    case Last(ps) => MPieces(ps, s, i, j)
    case Bar(ps, more) => MPieces(ps, s, i, j) || MAlt(more, s, i, j)
  }

  // ------------------------------------------------------- compositional code

  function AtomCaps(a: Atom): nat { if a.Group? then 1 + AltCaps(a.alt) else 0 }

  function PiecesCaps(ps: Pieces): nat {
    match ps
    case PNil => 0
    case PCons(p, rest) => (if p.Item? then AtomCaps(p.atom) else 0) + PiecesCaps(rest)
  }

  /** The number of bracket pairs. */
  function AltCaps(alt: Alt): nat {
    match alt
    case Last(ps) => PiecesCaps(ps)
    case Bar(ps, more) => PiecesCaps(ps) + AltCaps(more)
  }

  function AtomData(a: Atom): string {
    match a
    case Lit(w) => w
    case Dot => ""
    case Set(_, items) => SetData(items)
    case Esc(c) => if IsClass(EscapeCode(c)) then "" else [(EscapeCode(c) % 256) as char]
    case Group(alt) => AltData(alt)
  }

  function PiecesData(ps: Pieces): string {
    match ps
    case PNil => ""
    case PCons(p, rest) => (if p.Item? then AtomData(p.atom) else "") + PiecesData(rest)
  }

  /** The data section of a pattern. */
  function AltData(alt: Alt): string {
    match alt
    case Last(ps) => PiecesData(ps)
    case Bar(ps, more) => PiecesData(ps) + AltData(more)
  }

  function EscInstr(c: char, off: nat): Instr {
    match c
    case 'S' => NonSpace
    case 's' => Space
    case 'd' => Digit
    case _ => Exact(off, [(EscapeCode(c) % 256) as char])
  }

  /** Code for an atom in front of the code `k`; `cap` brackets and `off` data bytes precede it. */
  function LowerAtom(a: Atom, cap: nat, off: nat, k: Prog): Prog
    decreases a, 0
  {
    match a
    case Lit(w) => Op(Exact(off, w), k)
    case Dot => Op(AnyChar, k)
    case Set(neg, items) => Op(if neg then AnyBut(off, SetData(items)) else AnyOf(off, SetData(items)), k)
    case Esc(c) => Op(EscInstr(c, off), k)
    case Group(alt) => Op(Open(cap + 1), LowerAlt(alt, cap + 1, off, Op(Close(cap + 1), k)))
  }

  function LowerUnit(a: Atom, cap: nat, off: nat, k: Prog): Prog
    decreases a, 1
  {
    if a.Lit? && |a.w| > 1 then Op(Exact(off + |a.w| - 1, a.w[|a.w| - 1..]), k) else LowerAtom(a, cap, off, k)
  }

  function LoopInstr(q: Quant, body: Prog): Instr
    requires q != Once
  {
    match q
    case ZeroOrMore => Star(body)
    case OneOrMore => Plus(body)
    case ZeroOrOne => Quest(body)
  }

  function LowerPiece(p: Piece, cap: nat, off: nat, k: Prog): Prog
    decreases p, 0
  {
    match p
    case Item(a, Once) => LowerAtom(a, cap, off, k)
    case Item(a, q) =>
      var loop := Op(LoopInstr(q, LowerUnit(a, cap, off, Halt)), k);
      if HeadOf(a) == "" then loop else Op(Exact(off, HeadOf(a)), loop)
    case Bol => Op(AtBol, k)
    case Eol => Op(AtEol, k)
  }

  function PieceCaps(p: Piece): nat { if p.Item? then AtomCaps(p.atom) else 0 }
  function PieceData(p: Piece): string { if p.Item? then AtomData(p.atom) else "" }

  function LowerPieces(ps: Pieces, cap: nat, off: nat, k: Prog): Prog
    decreases ps, 0
  {
    match ps
    case PNil => k
    case PCons(p, rest) => LowerPiece(p, cap, off, LowerPieces(rest, cap + PieceCaps(p), off + |PieceData(p)|, k))
  }

  /** Code for the remaining alternatives, the earlier ones being `left`: '|' associates to the left. */
  function LowerBars(left: Prog, more: Alt, cap: nat, off: nat, k: Prog): Prog
    decreases more, 0
  {
    match more
    case Last(ps) => Op(Branch(left, LowerPieces(ps, cap, off, Halt)), k)
    case Bar(ps, rest) =>
      LowerBars(Op(Branch(left, LowerPieces(ps, cap, off, Halt)), Halt), rest,
                cap + PiecesCaps(ps), off + |PiecesData(ps)|, k)
  }

  function LowerAlt(alt: Alt, cap: nat, off: nat, k: Prog): Prog
    decreases alt, 0
  {
    match alt
    case Last(ps) => LowerPieces(ps, cap, off, k)
    case Bar(ps, more) =>
      LowerBars(LowerPieces(ps, cap, off, Halt), more, cap + PiecesCaps(ps), off + |PiecesData(ps)|, k)
  }

  /** The program of a pattern: the whole match is capture 0. */
  function Lower(alt: Alt): Prog {
    Op(Open(0), LowerAlt(alt, 0, 0, Op(Close(0), Halt)))
  }
}
