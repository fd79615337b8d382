/**
 The frames that are no messages through the matcher: type and parameters of an
 operation, the permissions among the parameters, and the channel.
 */
module OperationFrames {
  import opened Basics
  import opened SlreProgram
  import opened SlreSyntax
  import opened SlreExact
  import opened Patterns
  import opened Captures
  import opened Frames
  import opened CaptureRange
  import opened OperationPatterns

  /**
   `([^members]*)` from `i` captures up to `m` when the rest matches at `m` and at no
   later place before the next member.
   */
  lemma SetTextEnds(n: nat, off: nat, members: string, next: Prog, s: string, i: nat, m: nat, end: nat, spans: Spans)
    requires NoneOf(members, s, i, m) && Ends(next, s, m, end, spans)
    requires forall k: nat | m < k && NoneOf(members, s, i, k) :: Fails(next, s, k)
    ensures Ends(SetTextProg(n, off, members, next), s, i, end, Span(n, i, m, spans))
  {
    var b, close := Op(AnyBut(off, members), Halt), Op(Close(n), next);
    var p := SetTextProg(n, off, members, next);
    NoneOfIsAccepted(off, members, s, i, m);
    forall k: nat | m < k && AllAccepted(b, s, i, k) ensures Fails(close, s, k) {
      NoneOfIsAccepted(off, members, s, i, k);
      CloseFails(n, next, s, k);
    }
    forall caps: seq<Cap> ensures EndsWith(p, s, i, end, Span(n, i, m, spans), caps) {
      GoStep(p, s, i, caps);
      LoopThenClose(b, n, next, s, i, m, end, spans, OpenCap(caps, n, i));
    }
  }

  lemma TwoRecorded(caps: seq<Cap>, end: nat, a: nat, b: nat, c: nat, d: nat)
    requires |caps| >= 3
    ensures var r := Record(Span(1, a, b, Span(2, c, d, Done)), caps, end);
      r[1] == Cap(a, b - a) && r[2] == Cap(c, d - c)
  {
    var c1 := CloseCap(OpenCap(caps, 1, a), 1, b);
    var c2 := CloseCap(OpenCap(c1, 2, c), 2, d);
    assert Record(Span(2, c, d, Done), c1, end) == CloseCap(c2, 0, end);
  }

  lemma OneRecorded(caps: seq<Cap>, end: nat, a: nat, b: nat)
    requires |caps| >= 2
    ensures Record(Span(1, a, b, Done), caps, end)[1] == Cap(a, b - a)
  {
    var c := CloseCap(OpenCap(caps, 1, a), 1, b);
    assert Record(Done, c, end) == CloseCap(c, 0, end);
  }

  // ------------------------------------------------------------------- an operation

  /** Type and parameters as the server writes them. */
  function OperationFrame(kind: string, params: string): string {
    START_OF_OPERATION + kind + COMMA + params + END_OF_OPERATION
  }

  /** The type lies before `m`, the parameters before `e`. */
  ghost predicate OperationLaidOut(s: string, m: nat, e: nat) {
    && 13 <= m && m + 3 <= e && e + 3 == |s|
    && TextAt(s, 0, START_OF_OPERATION) && NoneOf("\"", s, 13, m) && TextAt(s, m, COMMA)
    && TextAt(s, e, END_OF_OPERATION)
  }

  lemma ParamsRun(s: string, i: nat, e: nat)
    requires i <= e && e + 3 == |s| && TextAt(s, e, END_OF_OPERATION)
    ensures Ends(ParamsProg(), s, i, |s|, Span(2, i, e, Done))
  {
    OperationTexts();
    FinishEnds(s, |s|);
    WordsEnds(CloseWords(), 17, FINISH, s, e, |s|, Done);
    forall k: nat | e < k <= |s| ensures Fails(WordsProg(CloseWords(), 17, FINISH), s, k) {
      WordsFail(CloseWords(), 17, FINISH, s, k);
    }
    AnyTextEnds(2, WordsProg(CloseWords(), 17, FINISH), s, i, e, |s|, Done);
  }

  /** The type ends at its closing quote, the only place where the rest matches. */
  lemma TypeRuns(params: Prog, s: string, m: nat, e: nat, spans: Spans)
    requires OperationLaidOut(s, m, e) && Ends(params, s, m + 3, |s|, spans)
    ensures Ends(TypeProg(params), s, 13, |s|, Span(1, 13, m, spans))
  {
    OperationTexts();
    var rest := WordsProg(CommaWords(), 14, params);
    WordsEnds(CommaWords(), 14, params, s, m, |s|, spans);
    forall k: nat | m < k && NoneOf("\"", s, 13, k) ensures Fails(rest, s, k) {
      OnlyComma(s, m, k);
      WordsFail(CommaWords(), 14, params, s, k);
    }
    SetTextEnds(1, 13, "\"", rest, s, 13, m, |s|, spans);
  }

  lemma OnlyComma(s: string, m: nat, k: nat)
    requires 13 <= m < k && TextAt(s, m, COMMA) && NoneOf("\"", s, 13, k)
    ensures !TextAt(s, k, COMMA)
  {
    CommaChars(s, m);
    CommaChars(s, k);
    assert InSet("\"", s[m + 1]);
  }

  lemma CommaChars(s: string, k: nat)
    ensures TextAt(s, k, COMMA) ==> s[k] == '\\' && s[k + 1] == '"'
  {
    if TextAt(s, k, COMMA) { assert s[k..k + 3][0] == s[k] && s[k..k + 3][1] == s[k + 1]; }
  }

  lemma OperationRuns(params: Prog, s: string, m: nat, e: nat, spans: Spans, all: Spans)
    requires OperationLaidOut(s, m, e) && Ends(params, s, m + 3, |s|, spans) && all == Span(1, 13, m, spans)
    ensures Ends(WordsProg(OperationWords(), 0, TypeProg(params)), s, 0, |s|, all)
  {
    TypeRuns(params, s, m, e, spans);
    OperationTexts();
    WordsEnds(OperationWords(), 0, TypeProg(params), s, 0, |s|, all);
  }

  /** The matcher splits an operation frame into its type and its parameters. */
  lemma OperationCaptures(s: string, m: nat, e: nat, caps: seq<Cap>) returns (o: Out)
    requires OperationLaidOut(s, m, e) && |caps| == 3
    ensures Productive(Lower(OperationAlt())) && o == Search(Lower(OperationAlt()), true, s, caps)
    ensures o.ok && |o.caps| == 3 && o.caps[1] == Cap(13, m - 13) && o.caps[2] == Cap(m + 3, e - m - 3)
  {
    OperationProg();
    o := OperationFound(s, m, e, caps);
  }

  lemma OperationFound(s: string, m: nat, e: nat, caps: seq<Cap>) returns (o: Out)
    requires OperationLaidOut(s, m, e) && |caps| == 3
    ensures var p := Op(Open(0), Op(AtBol, WordsProg(OperationWords(), 0, TypeProg(ParamsProg()))));
      Productive(p) && o == Search(p, true, s, caps)
    ensures o.ok && |o.caps| == 3 && o.caps[1] == Cap(13, m - 13) && o.caps[2] == Cap(m + 3, e - m - 3)
  {
    ParamsRun(s, m + 3, e);
    o := OperationSearch(ParamsProg(), s, m, e, caps);
  }

  lemma OperationSearch(params: Prog, s: string, m: nat, e: nat, caps: seq<Cap>) returns (o: Out)
    requires OperationLaidOut(s, m, e) && |caps| == 3 && Ends(params, s, m + 3, |s|, Span(2, m + 3, e, Done))
    ensures var p := Op(Open(0), Op(AtBol, WordsProg(OperationWords(), 0, TypeProg(params))));
      Productive(p) && o == Search(p, true, s, caps)
    ensures o.ok && |o.caps| == 3 && o.caps[1] == Cap(13, m - 13) && o.caps[2] == Cap(m + 3, e - m - 3)
  {
    var spans := Span(1, 13, m, Span(2, m + 3, e, Done));
    var p := WordsProg(OperationWords(), 0, TypeProg(params));
    OperationRuns(params, s, m, e, Span(2, m + 3, e, Done), spans);
    AnchoredEnds(p, s, |s|, spans, caps);
    TwoRecorded(OpenCap(caps, 0, 0), |s|, 13, m, m + 3, e);
    o := Search(Op(Open(0), Op(AtBol, p)), true, s, caps);
  }

  predicate NoQuote(s: string) { forall k | 0 <= k < |s| :: s[k] != '"' }

  lemma OperationParts(kind: string, params: string, s: string, m: nat, e: nat)
    requires s == OperationFrame(kind, params) && m == 13 + |kind| && e == m + 3 + |params|
    ensures e + 3 == |s| && s[13..m] == kind && s[m + 3..e] == params
    ensures TextAt(s, 0, START_OF_OPERATION) && TextAt(s, m, COMMA) && TextAt(s, e, END_OF_OPERATION)
  {
  }

  lemma OperationIsLaidOut(kind: string, params: string, s: string, m: nat, e: nat)
    requires s == OperationFrame(kind, params) && m == 13 + |kind| && e == m + 3 + |params| && NoQuote(kind)
    ensures OperationLaidOut(s, m, e)
  {
    OperationParts(kind, params, s, m, e);
    forall k | 13 <= k < m ensures !InSet("\"", s[k]) { assert s[13..m][k - 13] == s[k]; }
  }

  // --------------------------------------------------------------- the permissions

  /** The parameters of a validated frame: the permissions and what follows them. */
  function PermissionsText(permissions: string, rest: string): string {
    START_OF_PERMISSIONS + permissions + SET_KEY + rest
  }

  /** The key behind the permissions is at `m`, and at no later place. */
  ghost predicate PermissionsLaidOut(s: string, m: nat) {
    && 8 <= m && m + 10 <= |s| && TextAt(s, 0, START_OF_PERMISSIONS) && TextAt(s, m, SET_KEY)
    && forall k: nat | m < k :: !TextAt(s, k, SET_KEY)
  }

  lemma SetRuns(s: string, i: nat)
    requires i <= |s|
    ensures Ends(SetProg(), s, i, |s|, Span(2, i, |s|, Done))
  {
    FinishEnds(s, |s|);
    EolEnds(FINISH, s, Done);
    AnyTextEnds(2, Op(AtEol, FINISH), s, i, |s|, |s|, Done);
  }

  lemma UpRuns(rest: Prog, s: string, m: nat, spans: Spans)
    requires PermissionsLaidOut(s, m) && Ends(rest, s, m + 10, |s|, spans)
    ensures Ends(UpProg(rest), s, 8, |s|, Span(1, 8, m, spans))
  {
    OperationTexts();
    WordsEnds(SetWords(), 8, rest, s, m, |s|, spans);
    forall k: nat | m < k <= |s| ensures Fails(WordsProg(SetWords(), 8, rest), s, k) {
      WordsFail(SetWords(), 8, rest, s, k);
    }
    AnyTextEnds(1, WordsProg(SetWords(), 8, rest), s, 8, m, |s|, spans);
  }

  lemma PermissionsRuns(rest: Prog, s: string, m: nat, spans: Spans, all: Spans)
    requires PermissionsLaidOut(s, m) && Ends(rest, s, m + 10, |s|, spans) && all == Span(1, 8, m, spans)
    ensures Ends(WordsProg(UpWords(), 0, UpProg(rest)), s, 0, |s|, all)
  {
    UpRuns(rest, s, m, spans);
    OperationTexts();
    WordsEnds(UpWords(), 0, UpProg(rest), s, 0, |s|, all);
  }

  /** The permissions are captured up to the last key that stands behind them. */
  lemma PermissionsCaptures(s: string, m: nat, caps: seq<Cap>) returns (o: Out)
    requires PermissionsLaidOut(s, m) && |caps| == 5
    ensures Productive(Lower(PermissionsAlt())) && o == Search(Lower(PermissionsAlt()), true, s, caps)
    ensures o.ok && |o.caps| == 5 && o.caps[1] == Cap(8, m - 8)
  {
    PermissionsProg();
    o := PermissionsFound(s, m, caps);
  }

  lemma PermissionsFound(s: string, m: nat, caps: seq<Cap>) returns (o: Out)
    requires PermissionsLaidOut(s, m) && |caps| == 5
    ensures var p := Op(Open(0), Op(AtBol, WordsProg(UpWords(), 0, UpProg(SetProg()))));
      Productive(p) && o == Search(p, true, s, caps)
    ensures o.ok && |o.caps| == 5 && o.caps[1] == Cap(8, m - 8)
  {
    SetRuns(s, m + 10);
    o := PermissionsSearch(SetProg(), s, m, caps);
  }

  lemma PermissionsSearch(rest: Prog, s: string, m: nat, caps: seq<Cap>) returns (o: Out)
    requires PermissionsLaidOut(s, m) && |caps| == 5 && Ends(rest, s, m + 10, |s|, Span(2, m + 10, |s|, Done))
    ensures var p := Op(Open(0), Op(AtBol, WordsProg(UpWords(), 0, UpProg(rest))));
      Productive(p) && o == Search(p, true, s, caps)
    ensures o.ok && |o.caps| == 5 && o.caps[1] == Cap(8, m - 8)
  {
    var spans := Span(1, 8, m, Span(2, m + 10, |s|, Done));
    var p := WordsProg(UpWords(), 0, UpProg(rest));
    PermissionsRuns(rest, s, m, Span(2, m + 10, |s|, Done), spans);
    AnchoredEnds(p, s, |s|, spans, caps);
    TwoRecorded(OpenCap(caps, 0, 0), |s|, 8, m, m + 10, |s|);
    o := Search(Op(Open(0), Op(AtBol, p)), true, s, caps);
  }

  /** The key that follows the permissions does not occur in `rest`. */
  ghost predicate NoSetKey(rest: string) { forall k: nat :: !TextAt(rest, k, SET_KEY) }

  lemma PermissionsParts(permissions: string, rest: string, s: string, m: nat)
    requires s == PermissionsText(permissions, rest) && m == 8 + |permissions|
    ensures m + 10 <= |s| && s[8..m] == permissions && s[m + 10..] == rest
    ensures TextAt(s, 0, START_OF_PERMISSIONS) && TextAt(s, m, SET_KEY)
  {
  }

  /** Keys do not overlap. */
  lemma KeysApart(s: string, m: nat, k: nat)
    requires TextAt(s, m, SET_KEY) && TextAt(s, k, SET_KEY) && m < k
    ensures m + 10 <= k
  {
    KeyChars(s, m);
    KeyChars(s, k);
  }

  lemma KeyChars(s: string, k: nat)
    requires TextAt(s, k, SET_KEY)
    ensures s[k] == '}' && forall i | k < i < k + 10 :: s[i] != '}'
  {
    forall i | k <= i < k + 10 ensures s[i] == SET_KEY[i - k] { assert s[k..k + 10][i - k] == s[i]; }
  }

  lemma KeyInRest(s: string, rest: string, m: nat, k: nat)
    requires m + 10 <= |s| && s[m + 10..] == rest && m + 10 <= k
    ensures TextAt(s, k, SET_KEY) <==> TextAt(rest, k - m - 10, SET_KEY)
  {
    var j := k - m - 10;
    if k + 10 <= |s| { assert s[k..k + 10] == rest[j..j + 10]; }
  }

  /** The key behind the permissions is the last one if and only if the rest does not hold it. */
  lemma LastKeyIs(permissions: string, rest: string, s: string, m: nat)
    requires s == PermissionsText(permissions, rest) && m == 8 + |permissions|
    ensures PermissionsLaidOut(s, m) <==> NoSetKey(rest)
  {
    PermissionsParts(permissions, rest, s, m);
    if NoSetKey(rest) {
      forall k: nat | m < k ensures !TextAt(s, k, SET_KEY) {
        if TextAt(s, k, SET_KEY) {
          KeysApart(s, m, k);
          KeyInRest(s, rest, m, k);
        }
      }
    }
    if PermissionsLaidOut(s, m) {
      forall k: nat ensures !TextAt(rest, k, SET_KEY) { KeyInRest(s, rest, m, m + 10 + k); }
    }
  }

  /** Some key is the last one. */
  lemma {:induction false} SomeKeyIsLast(s: string, m: nat) returns (k: nat)
    requires 8 <= m && TextAt(s, 0, START_OF_PERMISSIONS) && TextAt(s, m, SET_KEY)
    ensures m <= k && PermissionsLaidOut(s, k)
    decreases |s| - m
  {
    if j: nat :| m < j && TextAt(s, j, SET_KEY) {
      k := SomeKeyIsLast(s, j);
    } else {
      k := m;
    }
  }

  /** Without the first key, or without the key behind it, the permissions pattern does not match. */
  lemma PermissionsNeed(s: string, caps: seq<Cap>)
    requires TextAt(s, 0, START_OF_PERMISSIONS) ==> forall m: nat | 8 <= m :: !TextAt(s, m, SET_KEY)
    ensures Productive(Lower(PermissionsAlt())) && !Search(Lower(PermissionsAlt()), true, s, caps).ok
  {
    PermissionsProg();
    SetBracketed();
    UpNeeds(SetProg(), s, caps);
  }

  lemma UpNeeds(rest: Prog, s: string, caps: seq<Cap>)
    requires Simple(rest) && (TextAt(s, 0, START_OF_PERMISSIONS) ==> forall m: nat | 8 <= m :: !TextAt(s, m, SET_KEY))
    ensures var p := Op(Open(0), Op(AtBol, WordsProg(UpWords(), 0, UpProg(rest))));
      Productive(p) && !Search(p, true, s, caps).ok
  {
    OperationTexts();
    var key := WordsProg(SetWords(), 8, rest);
    WordsSimple(SetWords(), 8, rest);
    AnyTextIsSimple(1, key);
    if TextAt(s, 0, START_OF_PERMISSIONS) {
      forall m: nat | 8 <= m <= |s| ensures Fails(key, s, m) { WordsFail(SetWords(), 8, rest, s, m); }
      AnyTextFails(1, key, s, 8);
    }
    WordsFail(UpWords(), 0, UpProg(rest), s, 0);
    AnchoredFails(WordsProg(UpWords(), 0, UpProg(rest)), s, caps);
  }

  // ------------------------------------------------------------------------ a channel

  function ChannelText(channel: string): string { START_OF_CHANNEL + channel + "\\\"" }

  ghost predicate ChannelLaidOut(s: string, m: nat) {
    9 <= m && m + 2 == |s| && TextAt(s, 0, START_OF_CHANNEL) && TextAt(s, m, "\\\"")
  }

  lemma NameRuns(s: string, m: nat)
    requires ChannelLaidOut(s, m)
    ensures Ends(NameProg(), s, 9, |s|, Span(1, 9, m, Done))
  {
    OperationTexts();
    var eol := Op(AtEol, FINISH);
    FinishEnds(s, |s|);
    EolEnds(FINISH, s, Done);
    WordsEnds(QuoteWords(), 9, eol, s, m, |s|, Done);
    forall k: nat | m < k <= |s| ensures Fails(WordsProg(QuoteWords(), 9, eol), s, k) {
      WordsFail(QuoteWords(), 9, eol, s, k);
    }
    AnyTextEnds(1, WordsProg(QuoteWords(), 9, eol), s, 9, m, |s|, Done);
  }

  lemma ChannelCaptures(s: string, m: nat, caps: seq<Cap>) returns (o: Out)
    requires ChannelLaidOut(s, m) && |caps| == 5
    ensures Productive(Lower(ChannelAlt())) && o == Search(Lower(ChannelAlt()), true, s, caps)
    ensures o.ok && |o.caps| == 5 && o.caps[1] == Cap(9, m - 9)
  {
    ChannelProg();
    NameRuns(s, m);
    o := ChannelSearch(NameProg(), s, m, caps);
  }

  lemma ChannelSearch(name: Prog, s: string, m: nat, caps: seq<Cap>) returns (o: Out)
    requires ChannelLaidOut(s, m) && |caps| == 5 && Ends(name, s, 9, |s|, Span(1, 9, m, Done))
    ensures var p := Op(Open(0), Op(AtBol, WordsProg(KeyWords("\"ch", NoWord), 0, name)));
      Productive(p) && o == Search(p, true, s, caps)
    ensures o.ok && |o.caps| == 5 && o.caps[1] == Cap(9, m - 9)
  {
    OperationTexts();
    var words := KeyWords("\"ch", NoWord);
    WordsEnds(words, 0, name, s, 0, |s|, Span(1, 9, m, Done));
    AnchoredEnds(WordsProg(words, 0, name), s, |s|, Span(1, 9, m, Done), caps);
    OneRecorded(OpenCap(caps, 0, 0), |s|, 9, m);
    o := Search(Op(Open(0), Op(AtBol, WordsProg(words, 0, name))), true, s, caps);
  }

  lemma ChannelParts(channel: string, s: string, m: nat)
    requires s == ChannelText(channel) && m == 9 + |channel|
    ensures ChannelLaidOut(s, m) && s[9..m] == channel
  {
  }

  /** Without the key or the quote at the end the channel pattern does not match. */
  lemma ChannelNeeds(s: string, caps: seq<Cap>)
    requires TextAt(s, 0, START_OF_CHANNEL) ==> |s| < 11 || !TextAt(s, |s| - 2, "\\\"")
    ensures Productive(Lower(ChannelAlt())) && !Search(Lower(ChannelAlt()), true, s, caps).ok
  {
    ChannelProg();
    NameNeeds(s, caps);
  }

  lemma NameNeeds(s: string, caps: seq<Cap>)
    requires TextAt(s, 0, START_OF_CHANNEL) ==> |s| < 11 || !TextAt(s, |s| - 2, "\\\"")
    ensures var p := Op(Open(0), Op(AtBol, WordsProg(KeyWords("\"ch", NoWord), 0, NameProg())));
      Productive(p) && !Search(p, true, s, caps).ok
  {
    OperationTexts();
    NameBracketed();
    var words := KeyWords("\"ch", NoWord);
    if TextAt(s, 0, START_OF_CHANNEL) { NameFails(s); }
    WordsFail(words, 0, NameProg(), s, 0);
    AnchoredFails(WordsProg(words, 0, NameProg()), s, caps);
  }

  lemma NameFails(s: string)
    requires |s| < 11 || !TextAt(s, |s| - 2, "\\\"")
    ensures Fails(NameProg(), s, 9)
  {
    OperationTexts();
    var eol := Op(AtEol, FINISH);
    FinishCloses();
    var end := WordsProg(QuoteWords(), 9, eol);
    WordsSimple(QuoteWords(), 9, eol);
    forall m: nat | 9 <= m <= |s| ensures Fails(end, s, m) {
      if TextAt(s, m, "\\\"") { NotAtEnd(FINISH, s, m + 2); }
      WordsFail(QuoteWords(), 9, eol, s, m);
    }
    AnyTextFails(1, end, s, 9);
  }

  lemma NotAtEnd(next: Prog, s: string, i: nat)
    requires Simple(next) && i != |s|
    ensures Fails(Op(AtEol, next), s, i)
  {
    if i <= |s| { GoStep(Op(AtEol, next), s, i, []); }
  }

  // --------------------------------------------------------- captures of any match

  lemma SetTextBracketed(n: nat, off: nat, members: string, next: Prog, open: set<nat>)
    requires n !in open && Simple(next)
    ensures Simple(SetTextProg(n, off, members, next))
    ensures Bracketed(SetTextProg(n, off, members, next), open) == Bracketed(next, open + {n})
    ensures Closed(SetTextProg(n, off, members, next)) == {n} + Closed(next)
  {
    var close := Op(Close(n), next);
    var loop := ByteLoop(Op(AnyBut(off, members), Halt), close);
    assert Bracketed(close, open + {n}) == Bracketed(next, open + {n}) && Closed(close) == {n} + Closed(next);
    assert Bracketed(loop, open + {n}) == Bracketed(close, open + {n}) && Closed(loop) == Closed(close);
    assert Simple(close) && Simple(loop);
  }

  /** `(.*)` and words, as group `n`, and what follows. */
  lemma TextAndWords(n: nat, ws: Words, off: nat, next: Prog, open: set<nat>)
    requires n !in open && Simple(next)
    ensures var p := AnyTextProg(n, WordsProg(ws, off, next));
      Simple(p) && Bracketed(p, open) == Bracketed(next, open + {n}) && Closed(p) == {n} + Closed(next)
  {
    WordsSimple(ws, off, next);
    WordsBracketed(ws, off, next, open + {n});
    AnyTextIsSimple(n, WordsProg(ws, off, next));
    AnyTextBracketed(n, WordsProg(ws, off, next), open);
  }

  lemma ParamsBracketed()
    ensures Simple(ParamsProg()) && Bracketed(ParamsProg(), {0, 1}) && Closed(ParamsProg()) == {0, 2}
  {
    FinishCloses();
    assert Bracketed(FINISH, {0, 1} + {2});
    TextAndWords(2, CloseWords(), 17, FINISH, {0, 1});
  }

  lemma TypeBracketed(params: Prog)
    requires Simple(params) && Bracketed(params, {0, 1}) && Closed(params) == {0, 2}
    ensures var p := WordsProg(OperationWords(), 0, TypeProg(params));
      Simple(p) && Bracketed(p, {0}) && Closed(p) == {0, 1, 2}
  {
    assert {0} + {1} == {0, 1} && {1} + {0, 2} == {0, 1, 2};
    WordsSimple(CommaWords(), 14, params);
    WordsBracketed(CommaWords(), 14, params, {0, 1});
    SetTextBracketed(1, 13, "\"", WordsProg(CommaWords(), 14, params), {0});
    WordsSimple(OperationWords(), 0, TypeProg(params));
    WordsBracketed(OperationWords(), 0, TypeProg(params), {0});
  }

  /** Whatever the text, the groups of an operation that matches can be copied. */
  lemma OperationInText(s: string, caps: seq<Cap>)
    requires |caps| == 3
    ensures var p := Lower(OperationAlt());
      Productive(p) && (Search(p, true, s, caps).ok ==> AllInText(s, Search(p, true, s, caps).caps, 0))
  {
    OperationProg();
    ParamsBracketed();
    OperationGroupsInText(ParamsProg(), s, caps);
  }

  lemma OperationGroupsInText(params: Prog, s: string, caps: seq<Cap>)
    requires |caps| == 3 && Simple(params) && Bracketed(params, {0, 1}) && Closed(params) == {0, 2}
    ensures var p := Op(Open(0), Op(AtBol, WordsProg(OperationWords(), 0, TypeProg(params))));
      Productive(p) && (Search(p, true, s, caps).ok ==> AllInText(s, Search(p, true, s, caps).caps, 0))
  {
    TypeBracketed(params);
    AnchoredInText(WordsProg(OperationWords(), 0, TypeProg(params)), s, caps);
  }

  /** Group 1 can be copied when `p` matches. */
  ghost predicate FirstInText(p: Prog, s: string, caps: seq<Cap>) {
    Productive(p) && (Search(p, true, s, caps).ok ==>
                        |Search(p, true, s, caps).caps| == |caps| > 1 && InText(s, Search(p, true, s, caps).caps[1]))
  }

  lemma SetBracketed()
    ensures Simple(SetProg()) && Bracketed(SetProg(), {0, 1}) && Closed(SetProg()) == {0, 2}
  {
    FinishCloses();
    var eol := Op(AtEol, FINISH);
    assert Simple(eol) && Bracketed(FINISH, {0, 1} + {2});
    assert Bracketed(eol, {0, 1} + {2}) && Closed(eol) == {0};
    TextAndWords(2, NoWord, 18, eol, {0, 1});
  }

  lemma UpBracketed(rest: Prog, s: string, caps: seq<Cap>)
    requires |caps| == 5 && Simple(rest) && Bracketed(rest, {0, 1}) && Closed(rest) == {0, 2}
    ensures FirstInText(Op(Open(0), Op(AtBol, WordsProg(UpWords(), 0, UpProg(rest)))), s, caps)
  {
    assert {0} + {1} == {0, 1} && {1} + {0, 2} == {0, 1, 2};
    TextAndWords(1, SetWords(), 8, rest, {0});
    WordsSimple(UpWords(), 0, UpProg(rest));
    WordsBracketed(UpWords(), 0, UpProg(rest), {0});
    AnchoredClosed(WordsProg(UpWords(), 0, UpProg(rest)), s, caps);
  }

  lemma PermissionsInText(s: string, caps: seq<Cap>)
    requires |caps| == 5
    ensures FirstInText(Lower(PermissionsAlt()), s, caps)
  {
    PermissionsProg();
    SetBracketed();
    UpBracketed(SetProg(), s, caps);
  }

  lemma NameBracketed()
    ensures Simple(NameProg()) && Bracketed(NameProg(), {0}) && Closed(NameProg()) == {0, 1}
  {
    FinishCloses();
    var eol := Op(AtEol, FINISH);
    assert Simple(eol) && Bracketed(FINISH, {0} + {1});
    assert Bracketed(eol, {0} + {1}) && Closed(eol) == {0};
    TextAndWords(1, QuoteWords(), 9, eol, {0});
  }

  lemma NameInText(name: Prog, s: string, caps: seq<Cap>)
    requires |caps| == 5 && Simple(name) && Bracketed(name, {0}) && Closed(name) == {0, 1}
    ensures FirstInText(Op(Open(0), Op(AtBol, WordsProg(KeyWords("\"ch", NoWord), 0, name))), s, caps)
  {
    var words := KeyWords("\"ch", NoWord);
    WordsSimple(words, 0, name);
    WordsBracketed(words, 0, name, {0});
    AnchoredClosed(WordsProg(words, 0, name), s, caps);
  }

  lemma ChannelInText(s: string, caps: seq<Cap>)
    requires |caps| == 5
    ensures FirstInText(Lower(ChannelAlt()), s, caps)
  {
    ChannelProg();
    NameBracketed();
    NameInText(NameProg(), s, caps);
  }

  // -------------------------------------------------------------- no message frames

  /** The message pattern does not match an operation: the key is another one. */
  lemma OperationIsNoMessage(s: string, kind: string, params: string, caps: seq<Cap>)
    requires s == OperationFrame(kind, params) && |caps| == 3
    ensures Productive(Lower(MessageAlt())) && !Search(Lower(MessageAlt()), true, s, caps).ok
  {
    MessageProg();
    EndBracketed();
    NoMessage(s, kind, params, EndProg(), caps);
  }

  lemma OtherKey(s: string, kind: string, params: string)
    requires s == OperationFrame(kind, params)
    ensures s != "" && s[0] == 'a' && !TextAt(s, 1, Text(StartWords()))
  {
    OperationParts(kind, params, s, 13 + |kind|, 16 + |kind| + |params|);
    MessageKey(s);
    assert s[0..13][6] == s[6] && START_OF_OPERATION[6] == 'o' && s[0..13][0] == s[0];
  }

  lemma MessageKey(s: string)
    ensures TextAt(s, 1, Text(StartWords())) ==> |s| > 6 && s[6] == 'c'
  {
    WordTexts();
    if TextAt(s, 1, Text(StartWords())) { assert s[1..13][5] == s[6]; }
  }

  lemma NoMessage(s: string, kind: string, params: string, end: Prog, caps: seq<Cap>)
    requires s == OperationFrame(kind, params) && Simple(end)
    ensures var p := Op(Open(0), Op(AtBol, OptionalA(WordsProg(StartWords(), 1, MiddleProg(end)))));
      Productive(p) && !Search(p, true, s, caps).ok
  {
    WordsSimple(MiddleWords(), 13, end);
    AnyTextIsSimple(1, WordsProg(MiddleWords(), 13, end));
    var next := WordsProg(StartWords(), 1, MiddleProg(end));
    WordsSimple(StartWords(), 1, MiddleProg(end));
    OtherKey(s, kind, params);
    var i := OptionalRuns(next, s, caps);
    WordsFail(StartWords(), 1, MiddleProg(end), s, 1);
    SimpleIsProductive(next);
    CapsDoNotMatter(next, s, 1, [], OpenCap(caps, 0, 0));
  }
}
