/**
 The receiver's passes: on the wire form of a message they decode one kind of token
 after another, and give back the message exactly when it contains none of the seven
 texts that look like a token once their backslashes are on the wire.
 */
module WireDecode {
  import opened Basics
  import opened Text
  import opened WireEscape
  import opened Json

  /** The bytes the passes restore, in the order of the passes. */
  const TARGETS: string := ['"', BEL, VT, '\'', '\\', BS, FF, LF, CR, TAB]

  /** The pass that restores a byte. */
  function PassOf(c: char): (n: nat)
    ensures n <= 10 && (n < 10 ==> TARGETS[n] == c)
  {
    if c == '"' then 0 else if c == BEL then 1 else if c == VT then 2 else if c == '\'' then 3 else if c == '\\' then 4
    else if c == BS then 5 else if c == FF then 6 else if c == LF then 7 else if c == CR then 8 else if c == TAB then 9
    else 10
  }

  lemma TargetsInOrder(n: nat)
    requires n < 10
    ensures PassOf(TARGETS[n]) == n
  {
  }

  function Pattern(n: nat): (w: string)
    requires n < 10
    ensures w != ""
  {
    WireByte(TARGETS[n])
  }

  /** The first `k` passes. */
  function Unescape(k: nat, s: string): string
    requires k <= 10
  {
    if k == 0 then s else ReplaceAll(Unescape(k - 1, s), Pattern(k - 1), [TARGETS[k - 1]])
  }

  lemma PatternFirst(n: nat)
    requires n < 10
    ensures Pattern(n)[0] == '\\'
  {
    PatternTexts();
  }

  lemma NoPattern(n: nat, s: string)
    requires n < 10 && forall i | 0 <= i < |s| :: s[i] != '\\'
    ensures ReplaceAll(s, Pattern(n), [TARGETS[n]]) == s
  {
    PatternFirst(n);
    var w := Pattern(n);
    forall i | 0 <= i < |s| ensures !StartsWith(s[i..], w) { assert s[i..][0] == s[i]; }
    AbsentUnchanged(s, w, [TARGETS[n]]);
  }

  /** A text without backslashes stays as it is. */
  lemma {:induction false} NothingToUnescape(k: nat, s: string)
    requires k <= 10 && forall i | 0 <= i < |s| :: s[i] != '\\'
    ensures Unescape(k, s) == s
  {
    if k > 0 {
      NothingToUnescape(k - 1, s);
      NoPattern(k - 1, s);
    }
  }

  /** Text of a message that a pass takes for a token although it is none. */
  function Lookalike(n: nat): string {
    match n
    case 1 => "\\a"
    case 2 => "\\v"
    case 5 => "\\\\b"
    case 6 => "\\\\f"
    case 7 => "\\\\n"
    case 8 => "\\\\r"
    case 9 => "\\\\t"
    case _ => ""
  }

  /** What the first `k` passes make of a message, apart from its tokens. */
  function Misread(k: nat, m: string): string
    requires k <= 10
  {
    if k == 0 then m else MisreadOnce(k - 1, Misread(k - 1, m))
  }

  function MisreadOnce(n: nat, m: string): string
    requires n < 10
  {
    if Lookalike(n) == "" then m else ReplaceAll(m, Lookalike(n), [TARGETS[n]])
  }

  // --------------------------------------------------------------- the text in between

  /** A byte of the message after `n` passes: still a token, or itself. */
  function Token(n: nat, c: char): string {
    if n <= PassOf(c) then WireByte(c) else [c]
  }

  function Partly(n: nat, m: string): string {
    if m == "" then "" else Token(n, m[0]) + Partly(n, m[1..])
  }

  lemma {:induction false} AtFirst(m: string)
    ensures Partly(0, m) == Wire(m)
  {
    if m != "" { AtFirst(m[1..]); }
  }

  lemma {:induction false} AtLast(m: string)
    ensures Partly(10, m) == m
  {
    if m != "" {
      AtLast(m[1..]);
      assert PassOf(m[0]) == 10 ==> WireByte(m[0]) == [m[0]];
    }
  }

  // --------------------------------------------------------------- runs of backslashes

  /** The number of backslashes a text begins with. */
  function Lead(s: string): (k: nat)
    ensures k <= |s| && (k < |s| ==> s[k] != '\\')
  {
    if s != "" && s[0] == '\\' then 1 + Lead(s[1..]) else 0
  }

  /** The byte behind them. */
  function After(s: string): string {
    if Lead(s) < |s| then [s[Lead(s)]] else ""
  }

  function Slashes(k: nat): (s: string)
    ensures |s| == k && forall i | 0 <= i < k :: s[i] == '\\'
  {
    if k == 0 then "" else "\\" + Slashes(k - 1)
  }

  lemma {:induction false} LeadOfSlashes(k: nat, t: string)
    ensures Lead(Slashes(k) + t) == k + Lead(t) && After(Slashes(k) + t) == After(t)
  {
    var s := Slashes(k) + t;
    if k == 0 {
      assert s == t;
    } else {
      LeadOfSlashes(k - 1, t);
      assert s[1..] == Slashes(k - 1) + t;
    }
  }

  /** Where a token of backslashes and a byte stands. */
  lemma {:induction false} TokenAt(s: string, k: nat, c: char)
    requires c != '\\'
    ensures StartsWith(s, Slashes(k) + [c]) <==> Lead(s) == k && After(s) == [c]
  {
    var w := Slashes(k) + [c];
    if StartsWith(s, w) {
      assert s == w + s[k + 1..];
      assert s == Slashes(k) + ([c] + s[k + 1..]);
      LeadOfSlashes(k, [c] + s[k + 1..]);
    }
    if Lead(s) == k && After(s) == [c] {
      LeadPrefix(s);
      assert s[..k + 1] == s[..k] + [c];
    }
  }

  lemma {:induction false} LeadPrefix(s: string)
    ensures s[..Lead(s)] == Slashes(Lead(s))
  {
    if s != "" && s[0] == '\\' {
      LeadPrefix(s[1..]);
      assert s[..Lead(s)] == "\\" + s[1..][..Lead(s) - 1];
    }
  }

  // ------------------------------------------------------------------------ the tokens

  /** Backslashes and last byte of a token. */
  function Count(c: char): nat {
    if c == '"' then 3 else if PassOf(c) < 4 then 4 else if 4 < PassOf(c) < 10 then 2 else 0
  }

  function Letter(c: char): char {
    if c == BEL then 'a' else if c == VT then 'v' else if c == BS then 'b' else if c == FF then 'f'
    else if c == LF then 'n' else if c == CR then 'r' else if c == TAB then 't' else c
  }

  lemma TokenShape(c: char)
    requires PassOf(c) < 10 && c != '\\'
    ensures WireByte(c) == Slashes(Count(c)) + [Letter(c)] && Letter(c) != '\\'
  {
    SlashTexts();
  }

  lemma SlashTexts()
    ensures Slashes(1) == "\\" && Slashes(2) == "\\\\" && Slashes(3) == "\\\\\\" && Slashes(4) == "\\\\\\\\"
  {
  }

  lemma LettersDiffer(c: char, d: char)
    requires PassOf(c) < 10 && PassOf(d) < 10 && c != d
    ensures Letter(c) != Letter(d)
  {
  }

  /** Backslashes of a message byte on their own. */
  function OwnSlashes(n: nat): nat { if n <= 4 then 4 else 1 }

  /** How the text in between begins. */
  lemma PartlyBegins(n: nat, m: string)
    requires m != ""
    ensures var s := Partly(n, m); var c := m[0]; var rest := Partly(n, m[1..]);
      if c == '\\' then Lead(s) == OwnSlashes(n) + Lead(rest) && After(s) == After(rest)
      else if n <= PassOf(c) < 10 then Lead(s) == Count(c) && After(s) == [Letter(c)]
      else Lead(s) == 0 && After(s) == [c]
  {
    TokenBegins(n, m[0], Partly(n, m[1..]));
  }

  lemma TokenBegins(n: nat, c: char, rest: string)
    ensures var s := Token(n, c) + rest;
      if c == '\\' then Lead(s) == OwnSlashes(n) + Lead(rest) && After(s) == After(rest)
      else if n <= PassOf(c) < 10 then Lead(s) == Count(c) && After(s) == [Letter(c)]
      else Lead(s) == 0 && After(s) == [c]
  {
    if c == '\\' {
      SlashTexts();
      LeadOfSlashes(OwnSlashes(n), rest);
    } else if n <= PassOf(c) < 10 {
      TokenShape(c);
      LeadOfSlashes(Count(c), [Letter(c)] + rest);
      assert Token(n, c) + rest == Slashes(Count(c)) + ([Letter(c)] + rest);
    } else {
      assert PassOf(c) == 10 ==> WireByte(c) == [c];
      assert Token(n, c) + rest == [c] + rest;
    }
  }

  /** Replacing leaves a prefix alone when no occurrence begins in it. */
  lemma {:induction false} SkipPrefix(t: string, rest: string, w: string, r: string)
    requires w != "" && forall i | 0 <= i < |t| :: !StartsWith((t + rest)[i..], w)
    ensures ReplaceAll(t + rest, w, r) == t + ReplaceAll(rest, w, r)
  {
    if t == "" {
      assert t + rest == rest;
    } else {
      var s := t + rest;
      assert s[0..] == s && s[1..] == t[1..] + rest;
      forall i | 0 <= i < |t[1..]| ensures !StartsWith((t[1..] + rest)[i..], w) {
        assert (t[1..] + rest)[i..] == s[i + 1..];
      }
      SkipPrefix(t[1..], rest, w, r);
      Regroup([t[0]], t[1..], ReplaceAll(rest, w, r));
    }
  }

  lemma TakePrefix(w: string, rest: string, r: string)
    requires w != ""
    ensures ReplaceAll(w + rest, w, r) == r + ReplaceAll(rest, w, r)
  {
    assert (w + rest)[..|w|] == w && (w + rest)[|w|..] == rest;
  }

  /** Inside a run of backslashes and what follows it. */
  lemma LeadInside(k: nat, i: nat, t: string)
    requires i <= k
    ensures Lead((Slashes(k) + t)[i..]) == k - i + Lead(t) && After((Slashes(k) + t)[i..]) == After(t)
  {
    SlashesDrop(k, i);
    assert (Slashes(k) + t)[i..] == Slashes(k)[i..] + t;
    LeadOfSlashes(k - i, t);
  }

  lemma {:induction false} SlashesDrop(k: nat, i: nat)
    requires i <= k
    ensures Slashes(k)[i..] == Slashes(k - i)
  {
    if i > 0 { SlashesDrop(k - 1, i - 1); assert Slashes(k)[i..] == Slashes(k - 1)[i - 1..]; }
  }

  // --------------------------------------------------------------- no token in between

  /** The patterns of backslashes and a byte. */
  predicate Lettered(n: nat) { n < 10 && n != 4 }

  lemma PatternAt(n: nat, s: string)
    requires Lettered(n)
    ensures StartsWith(s, Pattern(n)) <==> Lead(s) == Count(TARGETS[n]) && After(s) == [Letter(TARGETS[n])]
  {
    TargetsInOrder(n);
    TokenShape(TARGETS[n]);
    TokenAt(s, Count(TARGETS[n]), Letter(TARGETS[n]));
  }

  /** No pattern begins inside a token of another byte, or at a byte that is no token. */
  lemma NotInToken(n: nat, m: string)
    requires Lettered(n) && m != "" && m[0] != TARGETS[n] && m[0] != '\\'
    ensures Partly(n + 1, [m[0]]) == Token(n, m[0])
    ensures ReplaceAll(Partly(n, m), Pattern(n), [TARGETS[n]])
        == Token(n, m[0]) + ReplaceAll(Partly(n, m[1..]), Pattern(n), [TARGETS[n]])
  {
    var c, rest := m[0], Partly(n, m[1..]);
    var t := Token(n, c);
    TargetsInOrder(n);
    assert [c][1..] == "" && t + "" == t;
    forall i | 0 <= i < |t| ensures !StartsWith((t + rest)[i..], Pattern(n)) {
      PatternAt(n, (t + rest)[i..]);
      TokenTail(n, c, rest, i);
    }
    SkipPrefix(t, rest, Pattern(n), [TARGETS[n]]);
  }

  lemma TokenTail(n: nat, c: char, rest: string, i: nat)
    requires Lettered(n) && c != TARGETS[n] && c != '\\' && i < |Token(n, c)|
    ensures var s := (Token(n, c) + rest)[i..]; !(Lead(s) == Count(TARGETS[n]) && After(s) == [Letter(TARGETS[n])])
  {
    TargetsInOrder(n);
    if n <= PassOf(c) < 10 {
      InsideToken(n, c, rest, i);
    } else {
      assert PassOf(c) == 10 ==> WireByte(c) == [c];
      assert (Token(n, c) + rest)[i..] == [c] + rest;
    }
  }

  lemma InsideToken(n: nat, c: char, rest: string, i: nat)
    requires Lettered(n) && c != TARGETS[n] && c != '\\' && n <= PassOf(c) < 10 && i < |Token(n, c)|
    ensures var s := (Token(n, c) + rest)[i..]; !(Lead(s) == Count(TARGETS[n]) && After(s) == [Letter(TARGETS[n])])
  {
    TargetsInOrder(n);
    TokenShape(c);
    LettersDiffer(c, TARGETS[n]);
    assert Token(n, c) + rest == Slashes(Count(c)) + ([Letter(c)] + rest);
    LeadInside(Count(c), i, [Letter(c)] + rest);
  }

  /** No pattern begins at the backslashes of a message byte, unless a lookalike begins there. */
  lemma NotInSlashes(n: nat, m: string, i: nat)
    requires Lettered(n) && m != "" && m[0] == '\\' && i < OwnSlashes(n)
    requires Lookalike(n) != "" ==> !StartsWith(m, Lookalike(n))
    ensures !StartsWith(Partly(n, m)[i..], Pattern(n))
  {
    var rest := Partly(n, m[1..]);
    var d := TARGETS[n];
    SlashTexts();
    LeadInside(OwnSlashes(n), i, rest);
    assert Partly(n, m) == Slashes(OwnSlashes(n)) + rest;
    PatternAt(n, Partly(n, m)[i..]);
    if m[1..] != "" {
      PartlyBegins(n, m[1..]);
      RestBegins(n, m, i);
    }
  }

  lemma RestBegins(n: nat, m: string, i: nat)
    requires Lettered(n) && |m| >= 2 && m[0] == '\\' && i < OwnSlashes(n)
    requires Lookalike(n) != "" ==> !StartsWith(m, Lookalike(n))
    ensures var rest := Partly(n, m[1..]);
      !(OwnSlashes(n) - i + Lead(rest) == Count(TARGETS[n]) && After(rest) == [Letter(TARGETS[n])])
  {
    var c, d := m[1], TARGETS[n];
    PartlyBegins(n, m[1..]);
    TargetsInOrder(n);
    assert m[..2] == ['\\', c];
    if c != '\\' {
      if n <= PassOf(c) < 10 && c != d { LettersDiffer(c, d); }
    } else if n >= 5 && |m| >= 3 {
      assert m[1..][1..] == m[2..] && m[..3] == ['\\', '\\', m[2]];
      PartlyBegins(n, m[2..]);
    }
  }

  // ------------------------------------------------------------------------ the passes

  lemma PartlyNext(n: nat, m: string, c: char)
    ensures Partly(n, [c] + m) == Token(n, c) + Partly(n, m)
  {
    assert ([c] + m)[1..] == m;
  }

  /** A lookalike is on the wire exactly as a token is. */
  lemma LookalikeOnWire(n: nat, m: string)
    requires n < 10 && Lookalike(n) != "" && StartsWith(m, Lookalike(n))
    ensures Partly(n, m) == Pattern(n) + Partly(n, m[|Lookalike(n)|..])
  {
    var w := Lookalike(n);
    var rest := m[|w|..];
    assert m == w + rest;
    TargetsInOrder(n);
    if |w| == 2 { PairOnWire(n, w[1], rest); } else { TripleOnWire(n, w[2], rest); }
  }

  lemma PairOnWire(n: nat, c: char, rest: string)
    requires n == 1 || n == 2
    requires c == Letter(TARGETS[n])
    ensures Partly(n, ['\\', c] + rest) == Pattern(n) + Partly(n, rest)
  {
    PartlyNext(n, rest, c);
    PartlyNext(n, [c] + rest, '\\');
    assert ['\\', c] + rest == ['\\'] + ([c] + rest);
    PairPattern(n, c);
    Regroup(Token(n, '\\'), [c], Partly(n, rest));
  }

  lemma PairPattern(n: nat, c: char)
    requires (n == 1 || n == 2) && c == Letter(TARGETS[n])
    ensures Pattern(n) == Token(n, '\\') + [c] && Token(n, c) == [c]
  {
    TargetsInOrder(n);
    TokenShape(TARGETS[n]);
    SlashTexts();
  }

  lemma TripleOnWire(n: nat, c: char, rest: string)
    requires 5 <= n < 10 && c == Letter(TARGETS[n])
    ensures Partly(n, ['\\', '\\', c] + rest) == Pattern(n) + Partly(n, rest)
  {
    PartlyNext(n, rest, c);
    PartlyNext(n, [c] + rest, '\\');
    PartlyNext(n, ['\\'] + ([c] + rest), '\\');
    ThreeBytes('\\', '\\', c, rest);
    ThreeBytes('\\', '\\', c, Partly(n, rest));
    ShortPattern(n, c);
  }

  lemma ThreeBytes(a: char, b: char, c: char, r: string)
    ensures [a, b, c] + r == [a] + ([b] + ([c] + r))
  {
  }

  lemma ShortPattern(n: nat, c: char)
    requires 5 <= n < 10 && c == Letter(TARGETS[n])
    ensures Pattern(n) == ['\\', '\\', c] && Token(n, '\\') == ['\\'] && Token(n, c) == [c]
  {
    TargetsInOrder(n);
    TokenShape(TARGETS[n]);
    SlashTexts();
  }

  /** A pass restores one kind of token, and takes the lookalikes for it. */
  lemma {:induction false} LetteredPass(n: nat, m: string)
    requires Lettered(n)
    ensures ReplaceAll(Partly(n, m), Pattern(n), [TARGETS[n]]) == Partly(n + 1, MisreadOnce(n, m))
    decreases |m|
  {
    var d, look := TARGETS[n], Lookalike(n);
    TargetsInOrder(n);
    if m == "" {
    } else if look != "" && StartsWith(m, look) {
      LookalikeOnWire(n, m);
      LetteredPass(n, m[|look|..]);
      TakePrefix(Pattern(n), Partly(n, m[|look|..]), [d]);
      PartlyNext(n + 1, MisreadOnce(n, m[|look|..]), d);
    } else {
      LetteredPass(n, m[1..]);
      PartlyNext(n + 1, MisreadOnce(n, m[1..]), m[0]);
      assert MisreadOnce(n, m) == [m[0]] + MisreadOnce(n, m[1..]);
      OneToken(n, m);
    }
  }

  /** The first token when no lookalike begins there. */
  lemma OneToken(n: nat, m: string)
    requires Lettered(n) && m != "" && (Lookalike(n) != "" ==> !StartsWith(m, Lookalike(n)))
    ensures ReplaceAll(Partly(n, m), Pattern(n), [TARGETS[n]])
         == Token(n + 1, m[0]) + ReplaceAll(Partly(n, m[1..]), Pattern(n), [TARGETS[n]])
  {
    var rest := Partly(n, m[1..]);
    TargetsInOrder(n);
    if m[0] == TARGETS[n] {
      TakePrefix(Pattern(n), rest, [m[0]]);
    } else if m[0] == '\\' {
      forall i | 0 <= i < |Token(n, '\\')| ensures !StartsWith((Token(n, '\\') + rest)[i..], Pattern(n)) {
        NotInSlashes(n, m, i);
      }
      SkipPrefix(Token(n, '\\'), rest, Pattern(n), [TARGETS[n]]);
    } else {
      NotInToken(n, m);
    }
  }

  /** Four backslashes become one. */
  lemma {:induction false} SlashPass(m: string)
    ensures ReplaceAll(Partly(4, m), Pattern(4), "\\") == Partly(5, m)
  {
    if m != "" {
      var rest := Partly(4, m[1..]);
      SlashPass(m[1..]);
      SlashTexts();
      if m[0] == '\\' {
        TakePrefix(Pattern(4), rest, "\\");
      } else {
        FewSlashes(m[0], rest);
        SkipPrefix(Token(4, m[0]), rest, Pattern(4), "\\");
      }
    }
  }

  lemma FewSlashes(c: char, rest: string)
    requires c != '\\'
    ensures forall i | 0 <= i < |Token(4, c)| :: !StartsWith((Token(4, c) + rest)[i..], Pattern(4))
  {
    forall i | 0 <= i < |Token(4, c)| ensures !StartsWith((Token(4, c) + rest)[i..], Pattern(4)) {
      var s := (Token(4, c) + rest)[i..];
      assert s[..|Token(4, c)| - i] == Token(4, c)[i..];
      assert s[|Token(4, c)| - i - 1] == Token(4, c)[|Token(4, c)| - 1] != '\\';
      assert Pattern(4) == "\\\\\\\\";
    }
  }

  lemma {:induction false} Passes(k: nat, m: string)
    requires k <= 10
    ensures Unescape(k, Wire(m)) == Partly(k, Misread(k, m))
  {
    if k == 0 {
      AtFirst(m);
    } else {
      Passes(k - 1, m);
      if k - 1 == 4 { SlashPass(Misread(4, m)); } else { LetteredPass(k - 1, Misread(k - 1, m)); }
    }
  }

  // --------------------------------------------------------------------- what arrives

  /** What the receiver makes of the wire form of a message. */
  lemma Arrives(m: string)
    ensures Unescape(10, Wire(m)) == Misread(10, m)
  {
    Passes(10, m);
    AtLast(Misread(10, m));
  }

  ghost predicate Contains(s: string, w: string) {
    exists i | 0 <= i <= |s| :: StartsWith(s[i..], w)
  }

  /** No text that a pass takes for a token. */
  ghost predicate Clean(m: string) {
    forall n: nat | n < 10 && Lookalike(n) != "" :: !Contains(m, Lookalike(n))
  }

  lemma {:induction false} ReplaceShrinks(s: string, w: string, r: string)
    requires |r| < |w|
    ensures |ReplaceAll(s, w, r)| <= |s|
    ensures Contains(s, w) <==> |ReplaceAll(s, w, r)| < |s|
    ensures !Contains(s, w) ==> ReplaceAll(s, w, r) == s
  {
    if s == "" {
    } else {
      assert s[0..] == s;
      if StartsWith(s, w) {
        ReplaceShrinks(s[|w|..], w, r);
        assert StartsWith(s[0..], w);
      } else {
        ReplaceShrinks(s[1..], w, r);
        if Contains(s[1..], w) {
          var i :| 0 <= i <= |s[1..]| && StartsWith(s[1..][i..], w);
          assert s[1..][i..] == s[i + 1..];
        }
        if Contains(s, w) {
          var i :| 0 <= i <= |s| && StartsWith(s[i..], w);
          assert i > 0 && s[1..][i - 1..] == s[i..];
        }
      }
    }
  }

  lemma {:induction false} MisreadShrinks(k: nat, m: string)
    requires k <= 10
    ensures |Misread(k, m)| <= |m|
    ensures |Misread(k, m)| == |m| <==> (forall n: nat | n < k && Lookalike(n) != "" :: !Contains(m, Lookalike(n)))
    ensures |Misread(k, m)| == |m| ==> Misread(k, m) == m
  {
    if k > 0 {
      MisreadShrinks(k - 1, m);
      if Lookalike(k - 1) != "" {
        ReplaceShrinks(Misread(k - 1, m), Lookalike(k - 1), [TARGETS[k - 1]]);
      }
    }
  }

  /** A message arrives unchanged if and only if it contains no lookalike. */
  lemma ArrivesExactly(m: string)
    ensures Unescape(10, Wire(m)) == m <==> Clean(m)
  {
    Arrives(m);
    MisreadShrinks(10, m);
  }

  /** In particular every message without backslashes. */
  lemma NoBackslashIsClean(m: string)
    requires forall k | 0 <= k < |m| :: m[k] != '\\'
    ensures Clean(m)
  {
    forall n: nat | n < 10 && Lookalike(n) != "" ensures !Contains(m, Lookalike(n)) {
      forall i | 0 <= i <= |m| ensures !StartsWith(m[i..], Lookalike(n)) {
        if |Lookalike(n)| <= |m| - i { assert m[i..][..|Lookalike(n)|][0] == m[i]; }
      }
    }
  }

  /** A backslash in front of an `a` does not arrive. */
  lemma BackslashA()
    ensures Unescape(10, Wire("\\a")) != "\\a"
  {
    ArrivesExactly("\\a");
    assert StartsWith("\\a"[0..], Lookalike(1));
    assert Contains("\\a", Lookalike(1));
  }

  // ------------------------------------------------------------------ the routine itself

  lemma PatternTexts()
    ensures Pattern(0) == "\\\\\\\"" && Pattern(1) == "\\\\\\\\a" && Pattern(2) == "\\\\\\\\v"
    ensures Pattern(3) == "\\\\\\\\'" && Pattern(4) == "\\\\\\\\"
    ensures Pattern(5) == "\\\\b" && Pattern(6) == "\\\\f" && Pattern(7) == "\\\\n" && Pattern(8) == "\\\\r"
    ensures Pattern(9) == "\\\\t"
  {
  }

  /** A pass of the receiver. */
  method Pass(s: string, w: string, c: char, ghost n: nat, ghost all: string) returns (r: string)
    requires |s| <= INT_MAX && n < 10 && w == Pattern(n) && c == TARGETS[n] && s == Unescape(n, all)
    ensures r == Unescape(n + 1, all) && |r| <= |s|
  {
    if |w| > 1 { ReplaceShrinks(s, w, [c]); }
    r := Replace(s, w, [c]);
  }

  /** `_ortc_escape_sequences_after`. */
  method EscapeSequencesAfter(s: string) returns (r: string)
    requires |s| <= INT_MAX
    ensures r == Unescape(10, s)
  {
    PatternTexts();
    r := Pass(s, "\\\\\\\"", '"', 0, s);
    r := Pass(r, "\\\\\\\\a", BEL, 1, s);
    r := Pass(r, "\\\\\\\\v", VT, 2, s);
    r := Pass(r, "\\\\\\\\'", '\'', 3, s);
    r := Pass(r, "\\\\\\\\", '\\', 4, s);
    r := Pass(r, "\\\\b", BS, 5, s);
    r := Pass(r, "\\\\f", FF, 6, s);
    r := Pass(r, "\\\\n", LF, 7, s);
    r := Pass(r, "\\\\r", CR, 8, s);
    r := Pass(r, "\\\\t", TAB, 9, s);
  }
}
