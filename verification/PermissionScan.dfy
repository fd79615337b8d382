/**
 The permissions frame through the matcher: where the pattern of an entry matches in a
 frame, and which entry a search from inside the frame finds.
 */
module PermissionScan {
  import opened Basics
  import opened SlreProgram
  import opened SlreSyntax
  import opened SlreExact
  import opened Patterns
  import opened Captures
  import opened Frames

  datatype Entry = Entry(channel: string, hash: string)

  const QUOTE := "\\\""
  const COLON := "\\\":\\\""
  const BOTH := "\\\""

  /** An entry of the frame: a quoted channel, a colon and a quoted hash. */
  function EntryText(e: Entry): string { QUOTE + e.channel + COLON + e.hash + QUOTE }

  /** Nonempty, and free of quote and backslash. */
  predicate Quotable(w: string) {
    w != "" && forall k | 0 <= k < |w| :: w[k] != '\\' && w[k] != '"'
  }

  predicate EntryOk(e: Entry) { Quotable(e.channel) && Quotable(e.hash) }

  // ------------------------------------------------------------------ the compiled entry

  function QuoteWords(): Words { Word("\\", Word("\"", NoWord)) }
  function ColonWords(): Words { Word("\\", Word("\":", Word("\\", Word("\"", NoWord)))) }

  function HashProg(): Prog { FieldProg(2, 9, BOTH, WordsProg(QuoteWords(), 11, FINISH)) }
  function EntryProg(hash: Prog): Prog
  {
    WordsProg(QuoteWords(), 0, FieldProg(1, 2, BOTH, WordsProg(ColonWords(), 4, hash)))
  }

  lemma EntryWordTexts()
    ensures Text(QuoteWords()) == QUOTE && Text(ColonWords()) == COLON
  {
  }

  lemma FieldCompiles(k: Pieces, cap: nat, off: nat, ws: Words, next: Prog)
    requires Compiles(k, cap + 1, off + 2, ws, next)
    ensures Compiles(PCons(Once1(Field(NotQuote())), k), cap, off, NoWord,
        FieldProg(cap + 1, off, BOTH, WordsProg(ws, off + 2, next)))
  {
    NotQuoteFacts();
    LowerCons(Once1(Field(NotQuote())), k, cap, off, FINISH);
    LowerField(NotQuote(), cap, off, LowerPieces(k, cap + 1, off + 2, FINISH));
  }

  lemma HashCompiles()
    ensures Compiles(PCons(Once1(Field(NotQuote())), Quoted("\"", PNil)), 1, 9, NoWord, HashProg())
  {
    assert Compiles(PNil, 2, 13, NoWord, FINISH);
    QuotedCompiles("\"", PNil, 2, 11, NoWord, FINISH);
    FieldCompiles(Quoted("\"", PNil), 1, 9, QuoteWords(), FINISH);
  }

  lemma EntryCompiles(k: Pieces, hash: Prog)
    requires Compiles(k, 1, 9, NoWord, hash)
    ensures Compiles(Quoted("\"", PCons(Once1(Field(NotQuote())), Quoted("\":", Quoted("\"", k)))), 0, 0, NoWord,
        EntryProg(hash))
  {
    QuotedCompiles("\"", k, 1, 7, NoWord, hash);
    QuotedCompiles("\":", Quoted("\"", k), 1, 4, QuoteWords(), hash);
    var k2 := Quoted("\":", Quoted("\"", k));
    FieldCompiles(k2, 0, 2, ColonWords(), hash);
    QuotedCompiles("\"", PCons(Once1(Field(NotQuote())), k2), 0, 0, NoWord,
        FieldProg(1, 2, BOTH, WordsProg(ColonWords(), 4, hash)));
  }

  lemma PermissionProg()
    ensures Lower(PermissionAlt()) == Op(Open(0), EntryProg(HashProg()))
  {
    HashCompiles();
    EntryCompiles(PCons(Once1(Field(NotQuote())), Quoted("\"", PNil)), HashProg());
  }

  // ------------------------------------------------------------------- where it matches

  /** A text between quotes is captured whole. */
  lemma QuotedFieldEnds(n: nat, off: nat, ws: Words, next: Prog, s: string, i: nat, w: string, end: nat, spans: Spans)
    requires Quotable(w) && TextAt(s, i, w) && TextAt(s, i + |w|, Text(ws)) && |Text(ws)| >= 1 && Text(ws)[0] == '\\'
    requires Ends(next, s, i + |w| + |Text(ws)|, end, spans)
    ensures Ends(FieldProg(n, off, BOTH, WordsProg(ws, off + 2, next)), s, i, end, Span(n, i, i + |w|, spans))
  {
    var m := i + |w|;
    WordsEnds(ws, off + 2, next, s, m, end, spans);
    assert s[m] == s[m..m + |Text(ws)|][0] == '\\';
    forall k | i <= k < m ensures !InSet(BOTH, s[k]) { assert s[k] == s[i..i + |w|][k - i] == w[k - i]; }
    assert InSet(BOTH, s[m]);
    FieldEnds(n, off, BOTH, WordsProg(ws, off + 2, next), s, i, m, end, spans);
  }

  function EntrySpans(e: Entry, i: nat): Spans {
    Span(1, i + 2, i + 2 + |e.channel|, Span(2, i + 7 + |e.channel|, i + 7 + |e.channel| + |e.hash|, Done))
  }

  lemma HashEnds(s: string, h: nat, w: string)
    requires Quotable(w) && TextAt(s, h, w) && TextAt(s, h + |w|, QUOTE)
    ensures Ends(HashProg(), s, h, h + |w| + 2, Span(2, h, h + |w|, Done))
  {
    EntryWordTexts();
    FinishEnds(s, h + |w| + 2);
    QuotedFieldEnds(2, 9, QuoteWords(), FINISH, s, h, w, h + |w| + 2, Done);
  }

  lemma ChannelEnds(hash: Prog, s: string, i: nat, w: string, end: nat, spans: Spans, all: Spans)
    requires Quotable(w) && TextAt(s, i, QUOTE) && TextAt(s, i + 2, w) && TextAt(s, i + 2 + |w|, COLON)
    requires Ends(hash, s, i + 7 + |w|, end, spans) && all == Span(1, i + 2, i + 2 + |w|, spans)
    ensures Ends(EntryProg(hash), s, i, end, all)
  {
    EntryWordTexts();
    QuotedFieldEnds(1, 2, ColonWords(), hash, s, i + 2, w, end, spans);
    WordsEnds(QuoteWords(), 0, FieldProg(1, 2, BOTH, WordsProg(ColonWords(), 4, hash)), s, i, end, all);
  }

  /** If a hash and its closing quote stand at `h`, the code of the hash captures it. */
  ghost predicate HashAt(hash: Prog, s: string, h: nat, w: string) {
    Quotable(w) && TextAt(s, h, w) && TextAt(s, h + |w|, QUOTE) ==>
      Ends(hash, s, h, h + |w| + 2, Span(2, h, h + |w|, Done))
  }

  ghost predicate HashRuns(hash: Prog, s: string) {
    Fails(hash, s, |s|) && forall h: nat, w: string :: HashAt(hash, s, h, w)
  }

  lemma HashRunsAt(hash: Prog, s: string, h: nat, w: string, end: nat)
    requires HashRuns(hash, s) && Quotable(w) && TextAt(s, h, w) && TextAt(s, h + |w|, QUOTE) && end == h + |w| + 2
    ensures Ends(hash, s, h, end, Span(2, h, h + |w|, Done))
  {
    assert HashAt(hash, s, h, w);
  }

  lemma HashProgRuns(s: string)
    ensures HashRuns(HashProg(), s)
  {
    var hash := HashProg();
    HashFailsAtEnd(s);
    forall h: nat, w: string ensures HashAt(hash, s, h, w) {
      if Quotable(w) && TextAt(s, h, w) && TextAt(s, h + |w|, QUOTE) { HashEnds(s, h, w); }
    }
  }

  lemma HashFailsAtEnd(s: string)
    ensures Fails(HashProg(), s, |s|)
  {
    HashIsSimple();
    WordsSimple(QuoteWords(), 11, FINISH);
    FieldFails(2, 9, BOTH, WordsProg(QuoteWords(), 11, FINISH), s, |s|);
  }

  lemma HashIsSimple()
    ensures Simple(HashProg())
  {
    WordsSimple(QuoteWords(), 11, FINISH);
    assert Simple(ByteLoop(Op(AnyBut(9, BOTH), Halt), Op(Close(2), WordsProg(QuoteWords(), 11, FINISH))));
  }

  lemma EntryEnds(hash: Prog, s: string, i: nat, e: Entry, end: nat, all: Spans)
    requires Quotable(e.channel) && Quotable(e.hash) && TextAt(s, i, EntryText(e)) && HashRuns(hash, s)
    requires end == i + |EntryText(e)| && all == EntrySpans(e, i)
    ensures Ends(EntryProg(hash), s, i, end, all)
  {
    EntrySplit(s, i, e);
    TextsEnd(hash, s, i, e.channel, e.hash, end, all);
  }

  lemma TextsEnd(hash: Prog, s: string, i: nat, c: string, w: string, end: nat, all: Spans)
    requires Quotable(c) && Quotable(w) && HashRuns(hash, s) && end == i + 9 + |c| + |w| && TextsAt(s, i, c, w)
    requires all == Span(1, i + 2, i + 2 + |c|, Span(2, i + 7 + |c|, i + 7 + |c| + |w|, Done))
    ensures Ends(EntryProg(hash), s, i, end, all)
  {
    HashRunsAt(hash, s, i + 7 + |c|, w, end);
    ChannelEnds(hash, s, i, c, end, Span(2, i + 7 + |c|, i + 7 + |c| + |w|, Done), all);
  }

  ghost predicate TextsAt(s: string, i: nat, c: string, w: string) {
    && TextAt(s, i, QUOTE) && TextAt(s, i + 2, c) && TextAt(s, i + 2 + |c|, COLON)
    && TextAt(s, i + 7 + |c|, w) && TextAt(s, i + 7 + |c| + |w|, QUOTE)
  }

  lemma EntrySplit(s: string, i: nat, e: Entry)
    requires TextAt(s, i, EntryText(e))
    ensures TextsAt(s, i, e.channel, e.hash) && |EntryText(e)| == 9 + |e.channel| + |e.hash|
  {
    TextAtSplit(s, i, QUOTE + e.channel + COLON + e.hash, QUOTE);
    TextAtSplit(s, i, QUOTE + e.channel + COLON, e.hash);
    TextAtSplit(s, i, QUOTE + e.channel, COLON);
    TextAtSplit(s, i, QUOTE, e.channel);
  }

  // -------------------------------------------------------------- where it does not match

  lemma FieldFails(n: nat, off: nat, members: string, next: Prog, s: string, i: nat)
    requires Simple(next) && forall k: nat | i < k && NoneOf(members, s, i + 1, k) :: Fails(next, s, k)
    ensures Fails(FieldProg(n, off, members, next), s, i)
  {
    var b, close := Op(AnyBut(off, members), Halt), Op(Close(n), next);
    var loop := ByteLoop(b, close);
    var p := FieldProg(n, off, members, next);
    assert Simple(loop);
    if i <= |s| {
      GoStep(p, s, i, []);
      GoStep(p.next, s, i, []);
      if i < |s| {
        GoStep(loop, s, i + 1, []);
        GreedyIsBest(loop, s, i + 1, i + 1);
        var g := Greedy(loop, s, i + 1, i + 1);
        NoneOfIsAccepted(off, members, s, i + 1, g);
        assert Fails(next, s, g);
        CloseFails(n, next, s, g);
      }
    }
  }

  /**
   The entry pattern fails where its first field would end, at the first quote or
   backslash, in front of something other than the colon between quotes.
   */
  lemma EntryFails(hash: Prog, s: string, i: nat, j: nat)
    requires Simple(hash) && i + 2 < j <= |s| && (j == |s| || InSet(BOTH, s[j]))
    requires NoneOf(BOTH, s, i + 3, j) && !TextAt(s, j, COLON)
    ensures Fails(EntryProg(hash), s, i)
  {
    var next := WordsProg(ColonWords(), 4, hash);
    WordsSimple(ColonWords(), 4, hash);
    forall k: nat | i + 2 < k && NoneOf(BOTH, s, i + 3, k) ensures Fails(next, s, k) {
      NoColon(s, i + 3, j, k);
      ColonFails(hash, s, k);
    }
    FirstFieldFails(next, s, i);
  }

  /** Where the text ends behind the colon between quotes, no hash can follow. */
  lemma EntryFailsAtEnd(hash: Prog, s: string, i: nat)
    requires Fails(hash, s, |s|) && i + 8 == |s| && InSet(BOTH, s[i + 3])
    ensures Fails(EntryProg(hash), s, i)
  {
    var next := WordsProg(ColonWords(), 4, hash);
    WordsSimple(ColonWords(), 4, hash);
    forall k: nat | i + 2 < k && NoneOf(BOTH, s, i + 3, k) ensures Fails(next, s, k) {
      assert k == i + 3;
      EntryWordTexts();
      WordsFail(ColonWords(), 4, hash, s, k);
    }
    FirstFieldFails(next, s, i);
  }

  lemma ColonFails(hash: Prog, s: string, k: nat)
    requires Simple(hash) && !TextAt(s, k, COLON)
    ensures Fails(WordsProg(ColonWords(), 4, hash), s, k)
  {
    EntryWordTexts();
    WordsFail(ColonWords(), 4, hash, s, k);
  }

  lemma FirstFieldFails(next: Prog, s: string, i: nat)
    requires Simple(next) && forall k: nat | i + 2 < k && NoneOf(BOTH, s, i + 3, k) :: Fails(next, s, k)
    ensures Fails(WordsProg(QuoteWords(), 0, FieldProg(1, 2, BOTH, next)), s, i)
  {
    EntryWordTexts();
    FieldFails(1, 2, BOTH, next, s, i + 2);
    WordsFail(QuoteWords(), 0, FieldProg(1, 2, BOTH, next), s, i);
  }

  lemma NoColon(s: string, i: nat, j: nat, k: nat)
    requires i <= j <= |s| && (j == |s| || InSet(BOTH, s[j])) && !TextAt(s, j, COLON)
    requires i <= k && NoneOf(BOTH, s, i, j) && NoneOf(BOTH, s, i, k)
    ensures !TextAt(s, k, COLON)
  {
    assert j < |s| ==> InSet(BOTH, s[j]);
    assert k <= j;
    if k < j {
      assert !InSet(BOTH, s[k]);
      assert s[k] != '\\' by { assert InSet(BOTH, '\\'); }
      NoBackslash(s, k, COLON);
    }
  }

  lemma NoBackslash(s: string, i: nat, w: string)
    requires w != "" && w[0] == '\\' && (i < |s| ==> s[i] != '\\')
    ensures !TextAt(s, i, w)
  {
    if i + |w| <= |s| {
      assert s[i..i + |w|][0] == s[i];
    }
  }

  lemma OtherByteFails(hash: Prog, s: string, i: nat)
    requires Simple(hash) && (i < |s| ==> s[i] != '\\')
    ensures Fails(EntryProg(hash), s, i)
  {
    EntryWordTexts();
    NoBackslash(s, i, QUOTE);
    WordsSimple(ColonWords(), 4, hash);
    var field := FieldProg(1, 2, BOTH, WordsProg(ColonWords(), 4, hash));
    assert Simple(ByteLoop(Op(AnyBut(2, BOTH), Halt), Op(Close(1), WordsProg(ColonWords(), 4, hash))));
    assert Simple(field);
    WordsFail(QuoteWords(), 0, field, s, i);
  }

  // ----------------------------------------------------------------------- the frame

  function FrameText(es: seq<Entry>): string {
    if |es| == 0 then ""
    else if |es| == 1 then EntryText(es[0])
    else EntryText(es[0]) + "," + FrameText(es[1..])
  }

  ghost predicate EntriesOk(es: seq<Entry>) { forall k | 0 <= k < |es| :: EntryOk(es[k]) }

  /** What stands behind an entry: nothing, or a comma and an entry. */
  ghost predicate Follows(tail: string) {
    tail == "" || (|tail| >= 5 && tail[0] == ',' && tail[1] == '\\' && tail[2] == '"')
  }

  /** The channel of the entry that follows is a single colon. */
  ghost predicate ColonFollows(tail: string) { |tail| >= 5 && tail[3] == ':' && tail[4] == '\\' }

  /**
   Where the pattern matches inside an entry: at the closing quote of its channel when the
   hash is a single colon and another entry follows, and at the closing quote of its hash
   when the next channel is a single colon.
   */
  ghost predicate StrayAt(e: Entry, tail: string, x: nat) {
    || (x == 2 + |e.channel| && e.hash == ":" && tail != "")
    || (x == 7 + |e.channel| + |e.hash| && ColonFollows(tail))
  }

  /** The search fails at every other position inside an entry but its first, and at the comma behind it. */
  lemma InsideFails(hash: Prog, s: string, i: nat, e: Entry, tail: string, x: nat)
    requires Fails(hash, s, |s|) && EntryOk(e) && Follows(tail) && i <= |s|
    requires 0 < x <= |EntryText(e)| && s[i..] == (EntryText(e) + tail)[x..] && !StrayAt(e, tail, x)
    ensures Fails(EntryProg(hash), s, i)
  {
    var t := EntryText(e) + tail;
    Shifted(s, i, t, x);
    EntryChars(e, tail);
    var a := 2 + |e.channel|;
    var d := a + 5 + |e.hash|;
    if x == a {
      ColonNeeds(s, i + 3);
      assert s[i + 3] == t[a + 3] && s[i + 5] == t[a + 5] && (i + 6 < |s| ==> s[i + 6] == t[a + 6]);
      if e.hash == ":" { EntryFailsAtEnd(hash, s, i); } else { EntryFails(hash, s, i, i + 3); }
    } else if x == a + 3 {
      HashQuoteFails(hash, s, i, e, tail);
    } else if x == d {
      LastQuoteFails(hash, s, i, e, tail);
    } else {
      assert x == d + 2 ==> t[d + 2..] == tail;
      assert i < |s| ==> s[i] == t[x];
      OtherByteFails(hash, s, i);
    }
  }

  /** At the opening quote of the hash. */
  lemma HashQuoteFails(hash: Prog, s: string, i: nat, e: Entry, tail: string)
    requires Simple(hash) && EntryOk(e) && Follows(tail) && i <= |s|
    requires s[i..] == (EntryText(e) + tail)[5 + |e.channel|..]
    ensures Fails(EntryProg(hash), s, i)
  {
    var t, x, d := EntryText(e) + tail, 5 + |e.channel|, 7 + |e.channel| + |e.hash|;
    EntryChars(e, tail);
    Shifted(s, i, t, x);
    var j := i + 2 + |e.hash|;
    ColonNeeds(s, j);
    assert s[j] == t[d];
    assert t[d + 2..] == tail;
    assert j + 2 < |s| ==> s[j + 2] == t[d + 2] == tail[0];
    forall k | i + 3 <= k < j ensures !InSet(BOTH, s[k]) { assert s[k] == t[k - i + x]; }
    EntryFails(hash, s, i, j);
  }

  /** At the closing quote of the hash. */
  lemma LastQuoteFails(hash: Prog, s: string, i: nat, e: Entry, tail: string)
    requires Simple(hash) && EntryOk(e) && Follows(tail) && !ColonFollows(tail) && i <= |s|
    requires s[i..] == (EntryText(e) + tail)[7 + |e.channel| + |e.hash|..]
    ensures Fails(EntryProg(hash), s, i)
  {
    var t, d := EntryText(e) + tail, 7 + |e.channel| + |e.hash|;
    EntryChars(e, tail);
    Shifted(s, i, t, d);
    assert t[d + 2..] == tail;
    if tail == "" {
      NothingLeft(hash, s, i);
    } else {
      ColonNeeds(s, i + 3);
      assert t[d + 3] == tail[1] && t[d + 5] == tail[3] && t[d + 6] == tail[4];
      assert s[i + 3] == t[d + 3] && s[i + 5] == t[d + 5] && s[i + 6] == t[d + 6];
      EntryFails(hash, s, i, i + 3);
    }
  }

  lemma NothingLeft(hash: Prog, s: string, i: nat)
    requires Simple(hash) && i + 2 == |s|
    ensures Fails(EntryProg(hash), s, i)
  {
    var next := WordsProg(ColonWords(), 4, hash);
    WordsSimple(ColonWords(), 4, hash);
    FirstFieldFails(next, s, i);
  }

  /** The bytes of an entry, with backslashes only where its quotes begin. */
  lemma EntryChars(e: Entry, tail: string)
    requires EntryOk(e)
    ensures var t := EntryText(e) + tail; var a := 2 + |e.channel|; var d := a + 5 + |e.hash|;
      && |EntryText(e)| == d + 2
      && (forall k | 0 <= k < d + 2 :: t[k] == '\\' <==> k == 0 || k == a || k == a + 3 || k == d)
      && (forall k | a + 5 <= k < d :: !InSet(BOTH, t[k]))
      && t[a + 5] == e.hash[0] && (|e.hash| == 1 && e.hash[0] == ':' ==> e.hash == ":")
      && InSet(BOTH, '\\')
  {
    var t, a := EntryText(e) + tail, 2 + |e.channel|;
    var d := a + 5 + |e.hash|;
    FourQuotes(e, tail);
    forall k | 0 <= k < d + 2
      ensures t[k] == '\\' <==> k == 0 || k == a || k == a + 3 || k == d
      ensures a + 5 <= k < d ==> !InSet(BOTH, t[k])
    {
      if 2 <= k < a {
        assert t[k] == e.channel[k - 2];
      } else if a + 5 <= k < d {
        assert t[k] == e.hash[k - a - 5];
      } else if a <= k < a + 5 {
        assert t[k] == COLON[k - a];
      } else if k < 2 {
        assert t[k] == QUOTE[k];
      } else {
        assert t[k] == QUOTE[k - d];
      }
    }
  }

  lemma FourQuotes(e: Entry, tail: string)
    ensures var t := EntryText(e) + tail; var a := 2 + |e.channel|; var d := a + 5 + |e.hash|;
      && |EntryText(e)| == d + 2
      && (forall k | 0 <= k < 2 :: t[k] == QUOTE[k])
      && (forall k | 2 <= k < a :: t[k] == e.channel[k - 2])
      && (forall k | a <= k < a + 5 :: t[k] == COLON[k - a])
      && (forall k | a + 5 <= k < d :: t[k] == e.hash[k - a - 5])
      && (forall k | d <= k < d + 2 :: t[k] == QUOTE[k - d])
  {
  }

  lemma ColonNeeds(s: string, j: nat)
    ensures TextAt(s, j, COLON) ==> j + 5 <= |s| && s[j + 2] == ':' && s[j + 3] == '\\'
  {
    if TextAt(s, j, COLON) { assert s[j..j + 5][2] == s[j + 2] && s[j..j + 5][3] == s[j + 3]; }
  }

  lemma Shifted(s: string, i: nat, t: string, x: nat)
    requires i <= |s| && x <= |t| && s[i..] == t[x..]
    ensures |s| - i == |t| - x && forall k | x <= k < |t| :: s[k - x + i] == t[k]
  {
    forall k | x <= k < |t| ensures s[k - x + i] == t[k] { assert s[i..][k - x] == t[x..][k - x]; }
  }

  // ------------------------------------------------------------------- stray matches

  /** What is taken for an entry at the closing quote of a channel whose hash is a colon. */
  const HASH_STRAY := Entry(":", ",")

  /** What is taken for an entry at the closing quote of a hash in front of the channel that is a colon. */
  const CHANNEL_STRAY := Entry(",", ":")

  lemma HashStrayText(c: string, rest: string)
    ensures (EntryText(Entry(c, ":")) + ("," + (QUOTE + rest)))[2 + |c|..] == EntryText(HASH_STRAY) + rest
  {
    assert EntryText(Entry(c, ":")) + ("," + (QUOTE + rest)) == (QUOTE + c) + (EntryText(HASH_STRAY) + rest);
  }

  lemma ChannelStrayText(e: Entry, h: string, rest: string)
    ensures (EntryText(e) + ("," + (EntryText(Entry(":", h)) + rest)))[7 + |e.channel| + |e.hash|..]
         == EntryText(CHANNEL_STRAY) + (h + QUOTE + rest)
  {
    var u := QUOTE + e.channel + COLON + e.hash;
    assert "," + EntryText(Entry(":", h)) == "," + COLON + ":" + QUOTE + h + QUOTE;
    assert EntryText(e) + ("," + (EntryText(Entry(":", h)) + rest))
        == u + (EntryText(CHANNEL_STRAY) + (h + QUOTE + rest));
  }

  // ----------------------------------------------------------------------- searching

  /** The captures of an entry found at `i`. */
  function EntryCaps(e: Entry, i: int): seq<Cap> {
    [Cap(i, |EntryText(e)|), Cap(i + 2, |e.channel|), Cap(i + 7 + |e.channel|, |e.hash|)]
  }

  lemma EntryRecord(e: Entry, i: nat, caps: seq<Cap>)
    requires |caps| == 3
    ensures Record(EntrySpans(e, i), OpenCap(caps, 0, i), i + |EntryText(e)|) == EntryCaps(e, i)
  {
    var c, h, end := i + 2, i + 7 + |e.channel|, i + |EntryText(e)|;
    var c0 := OpenCap(caps, 0, i);
    var c1 := CloseCap(OpenCap(c0, 1, c), 1, c + |e.channel|);
    var c2 := CloseCap(OpenCap(c1, 2, h), 2, h + |e.hash|);
    assert Record(Span(2, h, h + |e.hash|, Done), c1, end) == CloseCap(c2, 0, end);
  }

  /** A search that fails up to `pos` and ends a match there, with `c` recorded before. */
  lemma {:induction false} SearchFinds(p: Prog, s: string, i: nat, pos: nat, end: nat, spans: Spans, caps: seq<Cap>)
    returns (c: seq<Cap>)
    requires Simple(p) && Productive(Op(Open(0), p))
    requires i <= pos < |s| && (forall k: nat | i <= k < pos :: Fails(p, s, k)) && Ends(p, s, pos, end, spans)
    ensures |c| == |caps|
    ensures SearchFrom(Op(Open(0), p), s, i, caps) == Out(true, end, Record(spans, OpenCap(c, 0, pos), end))
    decreases pos - i
  {
    if i == pos {
      SearchHits(p, s, pos, end, spans, caps);
      c := caps;
    } else {
      var next := SearchPasses(p, s, i, caps);
      c := SearchFinds(p, s, i + 1, pos, end, spans, next);
    }
  }

  lemma SearchHits(p: Prog, s: string, pos: nat, end: nat, spans: Spans, caps: seq<Cap>)
    requires Simple(p) && Productive(Op(Open(0), p)) && pos < |s| && Ends(p, s, pos, end, spans)
    ensures SearchFrom(Op(Open(0), p), s, pos, caps) == Out(true, end, Record(spans, OpenCap(caps, 0, pos), end))
  {
    assert EndsWith(p, s, pos, end, spans, OpenCap(caps, 0, pos));
    GoStep(Op(Open(0), p), s, pos, caps);
    assert Run(Op(Open(0), p), s, pos, caps) == Go(p, s, pos, OpenCap(caps, 0, pos));
  }

  lemma SearchPasses(p: Prog, s: string, i: nat, caps: seq<Cap>) returns (next: seq<Cap>)
    requires Simple(p) && Productive(Op(Open(0), p)) && i < |s| && Fails(p, s, i)
    ensures |next| == |caps| && SearchFrom(Op(Open(0), p), s, i, caps) == SearchFrom(Op(Open(0), p), s, i + 1, next)
  {
    var q := Op(Open(0), p);
    GoStep(q, s, i, caps);
    CapsDoNotMatter(p, s, i, OpenCap(caps, 0, i), []);
    next := Run(q, s, i, caps).caps;
  }

  lemma {:induction false} SearchMisses(p: Prog, s: string, i: nat, caps: seq<Cap>)
    requires Simple(p) && Productive(Op(Open(0), p))
    requires i <= |s| && (forall k: nat | i <= k < |s| :: Fails(p, s, k))
    ensures !SearchFrom(Op(Open(0), p), s, i, caps).ok
    decreases |s| - i
  {
    if i < |s| {
      var next := SearchPasses(p, s, i, caps);
      SearchMisses(p, s, i + 1, next);
    }
  }
}
