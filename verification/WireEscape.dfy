/**
 The escaping of messages on the wire: the passes the sender makes, what a JSON server
 turns them into, and the passes the receiver makes.
 */
module WireEscape {
  import opened Basics
  import opened Text

  const BEL: char := 7 as char
  const BS: char := 8 as char
  const TAB: char := 9 as char
  const LF: char := 10 as char
  const VT: char := 11 as char
  const FF: char := 12 as char
  const CR: char := 13 as char

  /** The control bytes that are escaped. */
  predicate IsSeven(c: char) { 7 <= c as int <= 13 }

  /** No control bytes but the seven. */
  ghost predicate OnlySeven(s: string) {
    forall k | 0 <= k < |s| :: s[k] as int >= 32 || IsSeven(s[k])
  }

  // ------------------------------------------------------------- the sender's passes

  function EscapeChain(s: string): string { LaterPasses(FirstPasses(s)) }

  function FirstPasses(s: string): string {
    var s0 := ReplaceAll(s, "\\", "\\\\");
    var s1 := ReplaceAll(s0, [BEL], "\\\\a");
    var s2 := ReplaceAll(s1, [BS], "\\b");
    var s3 := ReplaceAll(s2, [FF], "\\f");
    ReplaceAll(s3, [LF], "\\n")
  }

  function LaterPasses(s4: string): string {
    var s5 := ReplaceAll(s4, [CR], "\\r");
    var s6 := ReplaceAll(s5, [TAB], "\\t");
    var s7 := ReplaceAll(s6, [VT], "\\\\v");
    var s8 := ReplaceAll(s7, "'", "\\\\'");
    ReplaceAll(s8, "\"", "\\\"")
  }

  /** The one substitution that the passes amount to. */
  function EscapeByte(c: char): string {
    if c == '\\' then "\\\\"
    else if c == BEL then "\\\\a"
    else if c == BS then "\\b"
    else if c == FF then "\\f"
    else if c == LF then "\\n"
    else if c == CR then "\\r"
    else if c == TAB then "\\t"
    else if c == VT then "\\\\v"
    else if c == '\'' then "\\\\'"
    else if c == '"' then "\\\""
    else [c]
  }

  function Escaped(s: string): string {
    if s == "" then "" else EscapeByte(s[0]) + Escaped(s[1..])
  }

  /** Replacing a single byte works on each side of a concatenation. */
  lemma {:induction false} ByteReplaceConcat(s: string, t: string, c: char, w: string)
    ensures ReplaceAll(s + t, [c], w) == ReplaceAll(s, [c], w) + ReplaceAll(t, [c], w)
  {
    if s == "" {
      assert s + t == t;
    } else {
      ByteReplaceConcat(s[1..], t, c, w);
      ByteReplaceStep(s, c, w);
      ByteReplaceStep(s + t, c, w);
      assert (s + t)[1..] == s[1..] + t;
      Regroup(if s[0] == c then w else [s[0]], ReplaceAll(s[1..], [c], w), ReplaceAll(t, [c], w));
    }
  }

  lemma ByteReplaceStep(s: string, c: char, w: string)
    requires s != ""
    ensures ReplaceAll(s, [c], w) == (if s[0] == c then w else [s[0]]) + ReplaceAll(s[1..], [c], w)
  {
    assert s[..1] == [s[0]];
  }

  lemma {:induction false} ByteReplaceAbsent(s: string, c: char, w: string)
    requires forall k | 0 <= k < |s| :: s[k] != c
    ensures ReplaceAll(s, [c], w) == s
  {
    if s != "" {
      ByteReplaceStep(s, c, w);
      ByteReplaceAbsent(s[1..], c, w);
    }
  }

  lemma ByteReplaceOne(c: char, w: string)
    ensures ReplaceAll([c], [c], w) == w
  {
    ByteReplaceStep([c], c, w);
    assert [c][1..] == "" && w + "" == w;
  }

  lemma EscapeChainConcat(s: string, t: string)
    ensures EscapeChain(s + t) == EscapeChain(s) + EscapeChain(t)
  {
    ByteReplaceConcat(s, t, '\\', "\\\\");
    var a0, b0 := ReplaceAll(s, "\\", "\\\\"), ReplaceAll(t, "\\", "\\\\");
    ByteReplaceConcat(a0, b0, BEL, "\\\\a");
    var a1, b1 := ReplaceAll(a0, [BEL], "\\\\a"), ReplaceAll(b0, [BEL], "\\\\a");
    ByteReplaceConcat(a1, b1, BS, "\\b");
    var a2, b2 := ReplaceAll(a1, [BS], "\\b"), ReplaceAll(b1, [BS], "\\b");
    ByteReplaceConcat(a2, b2, FF, "\\f");
    var a3, b3 := ReplaceAll(a2, [FF], "\\f"), ReplaceAll(b2, [FF], "\\f");
    ByteReplaceConcat(a3, b3, LF, "\\n");
    var a4, b4 := ReplaceAll(a3, [LF], "\\n"), ReplaceAll(b3, [LF], "\\n");
    ByteReplaceConcat(a4, b4, CR, "\\r");
    var a5, b5 := ReplaceAll(a4, [CR], "\\r"), ReplaceAll(b4, [CR], "\\r");
    ByteReplaceConcat(a5, b5, TAB, "\\t");
    var a6, b6 := ReplaceAll(a5, [TAB], "\\t"), ReplaceAll(b5, [TAB], "\\t");
    ByteReplaceConcat(a6, b6, VT, "\\\\v");
    var a7, b7 := ReplaceAll(a6, [VT], "\\\\v"), ReplaceAll(b6, [VT], "\\\\v");
    ByteReplaceConcat(a7, b7, '\'', "\\\\'");
    var a8, b8 := ReplaceAll(a7, "'", "\\\\'"), ReplaceAll(b7, "'", "\\\\'");
    ByteReplaceConcat(a8, b8, '"', "\\\"");
  }

  lemma ByteReplaceShort(x: string, c: char, w: string)
    ensures (forall k | 0 <= k < |x| :: x[k] != c) ==> ReplaceAll(x, [c], w) == x
    ensures x == [c] ==> ReplaceAll(x, [c], w) == w
  {
    if forall k | 0 <= k < |x| :: x[k] != c { ByteReplaceAbsent(x, c, w); }
    if x == [c] { ByteReplaceOne(c, w); }
  }

  /** The bytes the first passes deal with. */
  predicate IsFirst(c: char) { c == '\\' || c == BEL || c == BS || c == FF || c == LF }

  lemma FirstOne(c: char)
    ensures FirstPasses([c]) == if IsFirst(c) then EscapeByte(c) else [c]
  {
    var s := [c];
    ByteReplaceShort(s, '\\', "\\\\");
    var s0 := ReplaceAll(s, "\\", "\\\\");
    ByteReplaceShort(s0, BEL, "\\\\a");
    var s1 := ReplaceAll(s0, [BEL], "\\\\a");
    ByteReplaceShort(s1, BS, "\\b");
    var s2 := ReplaceAll(s1, [BS], "\\b");
    ByteReplaceShort(s2, FF, "\\f");
    var s3 := ReplaceAll(s2, [FF], "\\f");
    ByteReplaceShort(s3, LF, "\\n");
  }

  /** The bytes dealt with when quotes are still to come. */
  predicate IsEarly(c: char) { IsFirst(c) || c == CR || c == TAB }

  lemma EarlyOne(c: char)
    ensures var s4 := if IsFirst(c) then EscapeByte(c) else [c];
      ReplaceAll(ReplaceAll(s4, [CR], "\\r"), [TAB], "\\t") == if IsEarly(c) then EscapeByte(c) else [c]
  {
    var s4 := if IsFirst(c) then EscapeByte(c) else [c];
    ByteReplaceShort(s4, CR, "\\r");
    ByteReplaceShort(ReplaceAll(s4, [CR], "\\r"), TAB, "\\t");
  }

  lemma TabOne(c: char)
    ensures var s6 := if IsEarly(c) then EscapeByte(c) else [c];
      ReplaceAll(s6, [VT], "\\\\v") == if IsEarly(c) || c == VT then EscapeByte(c) else [c]
  {
    ByteReplaceShort(if IsEarly(c) then EscapeByte(c) else [c], VT, "\\\\v");
  }

  /** The two kinds of quotes come last. */
  lemma ApostropheOne(c: char)
    ensures ReplaceAll(if IsEarly(c) || c == VT then EscapeByte(c) else [c], "'", "\\\\'")
         == if c == '"' then [c] else EscapeByte(c)
  {
    ByteReplaceShort(if IsEarly(c) || c == VT then EscapeByte(c) else [c], '\'', "\\\\'");
  }

  lemma QuoteOne(c: char)
    ensures ReplaceAll(if c == '"' then [c] else EscapeByte(c), "\"", "\\\"") == EscapeByte(c)
  {
    ByteReplaceShort(if c == '"' then [c] else EscapeByte(c), '"', "\\\"");
  }

  lemma LaterOne(c: char)
    ensures LaterPasses(if IsFirst(c) then EscapeByte(c) else [c]) == EscapeByte(c)
  {
    EarlyOne(c);
    TabOne(c);
    ApostropheOne(c);
    QuoteOne(c);
  }

  /** On a single byte at most one pass has an effect. */
  lemma EscapeOne(c: char)
    ensures EscapeChain([c]) == EscapeByte(c)
  {
    FirstOne(c);
    LaterOne(c);
  }

  /** The passes are one substitution byte by byte. */
  lemma {:induction false} EscapeIsPerByte(s: string)
    ensures EscapeChain(s) == Escaped(s)
  {
    if s == "" {
      EscapeNothing();
    } else {
      assert s == [s[0]] + s[1..];
      EscapeChainConcat([s[0]], s[1..]);
      EscapeOne(s[0]);
      EscapeIsPerByte(s[1..]);
    }
  }

  lemma EscapeNothing()
    ensures EscapeChain("") == ""
  {
  }

  /** So parts can be escaped one by one. */
  lemma {:induction false} EscapedConcat(s: string, t: string)
    ensures Escaped(s + t) == Escaped(s) + Escaped(t)
  {
    EscapeIsPerByte(s);
    EscapeIsPerByte(t);
    EscapeIsPerByte(s + t);
    EscapeChainConcat(s, t);
  }

  // ------------------------------------------------------------------ the routine itself

  lemma {:induction false} ReplaceGrows(s: string, w: string, r: string)
    requires w != "" && |r| >= |w|
    ensures |ReplaceAll(s, w, r)| >= |s|
  {
    if s == "" {
    } else if StartsWith(s, w) {
      ReplaceGrows(s[|w|..], w, r);
    } else {
      ReplaceGrows(s[1..], w, r);
    }
  }

  lemma {:induction false} EscapedLength(s: string)
    ensures |Escaped(s)| <= 3 * |s|
  {
    if s != "" { EscapedLength(s[1..]); }
  }

  /** A pass of the sender. */
  method Pass(s: string, c: char, w: string) returns (r: string)
    requires |s| <= INT_MAX && 1 <= |w| <= 3
    ensures r == ReplaceAll(s, [c], w) && |r| >= |s|
  {
    ReplaceGrows(s, [c], w);
    assert |s| * (|w| + 1) <= |s| * 4;
    r := Replace(s, [c], w);
  }

  lemma LaterGrow(s4: string)
    ensures |s4| <= |LaterPasses(s4)|
    ensures var s5 := ReplaceAll(s4, [CR], "\\r"); var s6 := ReplaceAll(s5, [TAB], "\\t");
      var s7 := ReplaceAll(s6, [VT], "\\\\v"); var s8 := ReplaceAll(s7, "'", "\\\\'");
      |s5| <= |s6| <= |s7| <= |s8| <= |LaterPasses(s4)|
  {
    ReplaceGrows(s4, [CR], "\\r");
    var s5 := ReplaceAll(s4, [CR], "\\r");
    ReplaceGrows(s5, [TAB], "\\t");
    var s6 := ReplaceAll(s5, [TAB], "\\t");
    ReplaceGrows(s6, [VT], "\\\\v");
    var s7 := ReplaceAll(s6, [VT], "\\\\v");
    ReplaceGrows(s7, "'", "\\\\'");
    ReplaceGrows(ReplaceAll(s7, "'", "\\\\'"), "\"", "\\\"");
  }

  lemma FirstGrow(s: string)
    ensures var s0 := ReplaceAll(s, "\\", "\\\\"); var s1 := ReplaceAll(s0, [BEL], "\\\\a");
      var s2 := ReplaceAll(s1, [BS], "\\b"); var s3 := ReplaceAll(s2, [FF], "\\f");
      |s0| <= |s1| <= |s2| <= |s3| <= |FirstPasses(s)|
  {
    var s0 := ReplaceAll(s, "\\", "\\\\");
    ReplaceGrows(s0, [BEL], "\\\\a");
    var s1 := ReplaceAll(s0, [BEL], "\\\\a");
    ReplaceGrows(s1, [BS], "\\b");
    var s2 := ReplaceAll(s1, [BS], "\\b");
    ReplaceGrows(s2, [FF], "\\f");
    ReplaceGrows(ReplaceAll(s2, [FF], "\\f"), [LF], "\\n");
  }

  /** `_ortc_escape_sequences_before`: ten passes that amount to one substitution. */
  method EscapeSequencesBefore(s: string) returns (r: string)
    requires 3 * |s| <= INT_MAX
    ensures r == Escaped(s)
  {
    EscapeIsPerByte(s);
    EscapedLength(s);
    LaterGrow(FirstPasses(s));
    FirstGrow(s);
    r := Pass(s, '\\', "\\\\");
    r := Pass(r, BEL, "\\\\a");
    r := Pass(r, BS, "\\b");
    r := Pass(r, FF, "\\f");
    r := Pass(r, LF, "\\n");
    r := Pass(r, CR, "\\r");
    r := Pass(r, TAB, "\\t");
    r := Pass(r, VT, "\\\\v");
    r := Pass(r, '\'', "\\\\'");
    r := Pass(r, '"', "\\\"");
  }
}
