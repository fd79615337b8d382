/**
 Saving the permissions of a validated connection: the repeated search over the frame,
 and the lookup of a channel's hash.
 */
module Permissions {
  import opened Basics
  import opened SlreProgram
  import opened SlreSyntax
  import opened SlreCodegen
  import opened SlreExact
  import opened Patterns
  import opened Captures
  import opened Frames
  import opened PermissionScan
  import opened Slre
  import Channels
  import DList

  function Saved(e: Entry): DList.Entry {
    DList.Entry(e.channel, Some(e.hash), None, 0, None)
  }

  function AllSaved(es: seq<Entry>): (v: seq<DList.Entry>)
    ensures |v| == |es| && forall i | 0 <= i < |es| :: v[i] == Saved(es[i])
  {
    seq(|es|, i requires 0 <= i < |es| => Saved(es[i]))
  }

  // --------------------------------------------------------------- any match of an entry

  lemma {:induction false} WordsRun(ws: Words, off: nat, next: Prog, s: string, i: nat, caps: seq<Cap>)
    requires Simple(next) && i <= |s| && Simple(WordsProg(ws, off, next)) && Go(WordsProg(ws, off, next), s, i, caps).ok
    ensures i + |Text(ws)| <= |s| && Go(WordsProg(ws, off, next), s, i, caps) == Go(next, s, i + |Text(ws)|, caps)
  {
    match ws
    case NoWord =>
    case Word(w, more) =>
      ExactRuns(off, w, WordsProg(more, off + |w|, next), s, i, caps);
      WordsRun(more, off + |w|, next, s, i + |w|, caps);
  }

  lemma ExactRuns(off: nat, w: string, rest: Prog, s: string, i: nat, caps: seq<Cap>)
    requires i <= |s| && Simple(rest) && Simple(Op(Exact(off, w), rest)) && Go(Op(Exact(off, w), rest), s, i, caps).ok
    ensures i + |w| <= |s| && Go(Op(Exact(off, w), rest), s, i, caps) == Go(rest, s, i + |w|, caps)
  {
    GoStep(Op(Exact(off, w), rest), s, i, caps);
  }

  /** What the three captures are when the fields end at `m` and `n`. */
  function MatchCaps(pos: int, m: int, n: int): seq<Cap> {
    [Cap(pos, n + 2 - pos), Cap(pos + 2, m - pos - 2), Cap(m + 5, n - m - 5)]
  }

  lemma MatchRecord(caps: seq<Cap>, pos: int, m: int, n: int)
    requires |caps| == 3 && 0 <= pos && pos + 2 <= m && m + 5 <= n
    ensures var c0 := OpenCap(caps, 0, pos); var c1 := CloseCap(OpenCap(c0, 1, pos + 2), 1, m);
      var c2 := CloseCap(OpenCap(c1, 2, m + 5), 2, n); CloseCap(c2, 0, n + 2) == MatchCaps(pos, m, n)
  {
  }

  lemma FieldThenWords(n: nat, off: nat, ws: Words, next: Prog, s: string, i: nat, caps: seq<Cap>) returns (m: nat)
    requires i <= |s| && Simple(next) && Simple(WordsProg(ws, off + 2, next))
    requires Simple(FieldProg(n, off, BOTH, WordsProg(ws, off + 2, next)))
    requires Go(FieldProg(n, off, BOTH, WordsProg(ws, off + 2, next)), s, i, caps).ok
    ensures i < m && m + |Text(ws)| <= |s|
    ensures Go(FieldProg(n, off, BOTH, WordsProg(ws, off + 2, next)), s, i, caps)
         == Go(next, s, m + |Text(ws)|, CloseCap(OpenCap(caps, n, i), n, m))
  {
    m := FieldRuns(n, off, BOTH, WordsProg(ws, off + 2, next), s, i, caps);
    WordsRun(ws, off + 2, next, s, m, CloseCap(OpenCap(caps, n, i), n, m));
  }

  lemma FieldIsSimple(n: nat, off: nat, ws: Words, next: Prog)
    requires Simple(next)
    ensures Simple(WordsProg(ws, off + 2, next)) && Simple(FieldProg(n, off, BOTH, WordsProg(ws, off + 2, next)))
  {
    WordsSimple(ws, off + 2, next);
    assert Simple(ByteLoop(Op(AnyBut(off, BOTH), Halt), Op(Close(n), WordsProg(ws, off + 2, next))));
  }

  lemma HashMatch(s: string, i: nat, caps: seq<Cap>) returns (n: nat)
    requires i <= |s| && Simple(HashProg()) && Go(HashProg(), s, i, caps).ok
    ensures i < n && n + 2 <= |s|
    ensures Go(HashProg(), s, i, caps) == Out(true, n + 2, CloseCap(CloseCap(OpenCap(caps, 2, i), 2, n), 0, n + 2))
  {
    EntryWordTexts();
    n := FieldThenQuote(QuoteWords(), s, i, caps);
  }

  lemma FieldThenQuote(ws: Words, s: string, i: nat, caps: seq<Cap>) returns (n: nat)
    requires i <= |s| && |Text(ws)| == 2
    requires Simple(FieldProg(2, 9, BOTH, WordsProg(ws, 11, FINISH)))
    requires Go(FieldProg(2, 9, BOTH, WordsProg(ws, 11, FINISH)), s, i, caps).ok
    ensures i < n && n + 2 <= |s|
    ensures Go(FieldProg(2, 9, BOTH, WordsProg(ws, 11, FINISH)), s, i, caps)
         == Out(true, n + 2, CloseCap(CloseCap(OpenCap(caps, 2, i), 2, n), 0, n + 2))
  {
    FieldIsSimple(2, 9, ws, FINISH);
    n := FieldThenWords(2, 9, ws, FINISH, s, i, caps);
    GoStep(FINISH, s, n + 2, CloseCap(OpenCap(caps, 2, i), 2, n));
  }

  lemma EntryMatch(hash: Prog, s: string, i: nat, caps: seq<Cap>) returns (m: nat)
    requires i <= |s| && Simple(hash) && Simple(EntryProg(hash)) && Go(EntryProg(hash), s, i, caps).ok
    ensures i + 2 < m && m + 5 <= |s|
    ensures Go(EntryProg(hash), s, i, caps) == Go(hash, s, m + 5, CloseCap(OpenCap(caps, 1, i + 2), 1, m))
  {
    EntryWordTexts();
    m := QuotedMatch(QuoteWords(), ColonWords(), hash, s, i, caps);
  }

  lemma QuotedMatch(before: Words, after: Words, next: Prog, s: string, i: nat, caps: seq<Cap>) returns (m: nat)
    requires i <= |s| && Simple(next) && |Text(before)| == 2 && |Text(after)| == 5
    requires Simple(WordsProg(before, 0, FieldProg(1, 2, BOTH, WordsProg(after, 4, next))))
    requires Go(WordsProg(before, 0, FieldProg(1, 2, BOTH, WordsProg(after, 4, next))), s, i, caps).ok
    ensures i + 2 < m && m + 5 <= |s|
    ensures Go(WordsProg(before, 0, FieldProg(1, 2, BOTH, WordsProg(after, 4, next))), s, i, caps)
         == Go(next, s, m + 5, CloseCap(OpenCap(caps, 1, i + 2), 1, m))
  {
    FieldIsSimple(1, 2, after, next);
    WordsRun(before, 0, FieldProg(1, 2, BOTH, WordsProg(after, 4, next)), s, i, caps);
    m := FieldThenWords(1, 2, after, next, s, i + 2, caps);
  }

  /** Where a successful search has matched. */
  lemma {:induction false} SearchSucceeds(p: Prog, s: string, i: nat, caps: seq<Cap>) returns (pos: nat, c: seq<Cap>)
    requires i <= |s| && Productive(p) && SearchFrom(p, s, i, caps).ok
    ensures i <= pos < |s| && |c| == |caps| && Run(p, s, pos, c) == SearchFrom(p, s, i, caps)
    decreases |s| - i
  {
    if Run(p, s, i, caps).ok {
      pos, c := i, caps;
    } else {
      pos, c := SearchSucceeds(p, s, i + 1, Run(p, s, i, caps).caps);
    }
  }

  /** From `i` the code of the hash ends its group at `n`. */
  ghost predicate HashEnd(hash: Prog, s: string, i: nat, c: seq<Cap>, n: nat) {
    && Simple(hash) && i < n && n + 2 <= |s|
    && Go(hash, s, i, c) == Out(true, n + 2, CloseCap(CloseCap(OpenCap(c, 2, i), 2, n), 0, n + 2))
  }

  ghost predicate GroupEnds(hash: Prog, s: string, i: nat, c: seq<Cap>)
    requires Simple(hash)
  {
    i <= |s| && Go(hash, s, i, c).ok ==> exists n: nat :: HashEnd(hash, s, i, c, n)
  }

  ghost predicate HashEndsGroup(hash: Prog, s: string) {
    Simple(hash) && forall i: nat, c: seq<Cap> :: GroupEnds(hash, s, i, c)
  }

  lemma HashProgEndsGroup(s: string)
    ensures HashEndsGroup(HashProg(), s)
  {
    HashIsSimple();
    var hash := HashProg();
    forall i: nat, c: seq<Cap> ensures GroupEnds(hash, s, i, c) {
      if i <= |s| && Go(hash, s, i, c).ok {
        var n := HashMatch(s, i, c);
        assert HashEnd(hash, s, i, c, n);
      }
    }
  }

  /** A successful search has delimited a match and its two groups, whatever the text. */
  lemma SearchMatch(hash: Prog, s: string, caps: seq<Cap>) returns (pos: nat, m: nat, n: nat)
    requires HashEndsGroup(hash, s) && |caps| == 3 && Productive(Op(Open(0), EntryProg(hash)))
    requires SearchFrom(Op(Open(0), EntryProg(hash)), s, 0, caps).ok
    ensures pos + 2 < m && m + 5 < n && n + 2 <= |s|
    ensures SearchFrom(Op(Open(0), EntryProg(hash)), s, 0, caps) == Out(true, n + 2, MatchCaps(pos, m, n))
  {
    var c: seq<Cap>;
    pos, c := SearchSucceeds(Op(Open(0), EntryProg(hash)), s, 0, caps);
    EntryIsSimple(hash);
    OpenedRun(EntryProg(hash), s, pos, c);
    m, n := MatchFrom(hash, s, pos, OpenCap(c, 0, pos));
    MatchRecord(c, pos, m, n);
  }

  lemma EntryIsSimple(hash: Prog)
    requires Simple(hash)
    ensures Simple(EntryProg(hash))
  {
    FieldIsSimple(1, 2, ColonWords(), hash);
    WordsSimple(QuoteWords(), 0, FieldProg(1, 2, BOTH, WordsProg(ColonWords(), 4, hash)));
  }

  lemma OpenedRun(p: Prog, s: string, pos: nat, c: seq<Cap>)
    requires Simple(p) && pos <= |s|
    ensures Productive(Op(Open(0), p))
    ensures Run(Op(Open(0), p), s, pos, c) == Go(p, s, pos, OpenCap(c, 0, pos))
  {
    GoStep(Op(Open(0), p), s, pos, c);
  }

  lemma MatchFrom(hash: Prog, s: string, pos: nat, c: seq<Cap>) returns (m: nat, n: nat)
    requires HashEndsGroup(hash, s) && Simple(EntryProg(hash)) && pos <= |s| && Go(EntryProg(hash), s, pos, c).ok
    ensures pos + 2 < m && m + 5 < n && n + 2 <= |s|
    ensures var c1 := CloseCap(OpenCap(c, 1, pos + 2), 1, m); var c2 := CloseCap(OpenCap(c1, 2, m + 5), 2, n);
      Go(EntryProg(hash), s, pos, c) == Out(true, n + 2, CloseCap(c2, 0, n + 2))
  {
    m := EntryMatch(hash, s, pos, c);
    var c1 := CloseCap(OpenCap(c, 1, pos + 2), 1, m);
    assert GroupEnds(hash, s, m + 5, c1);
    n :| HashEnd(hash, s, m + 5, c1, n);
  }

  // ------------------------------------------------------------------- the lagging offset

  function Behind(e: Entry): string { EntryText(e) + "," }

  /**
   The unread text still holds `lag` bytes of the entry before entry `t`, but not its
   first byte: entry `t` is the next one a search finds.
   */
  ghost predicate Pending(es: seq<Entry>, t: nat, u: string, lag: nat) {
    && t < |es| && lag <= |u| && u[lag..] == FrameText(es[t..])
    && (lag == 0 || (t > 0 && lag <= |EntryText(es[t - 1])|
                     && u[..lag] == Behind(es[t - 1])[|Behind(es[t - 1])| - lag..]))
  }

  /** Only bytes of the last entry are left, without its first. */
  ghost predicate Finished(es: seq<Entry>, u: string) {
    u == "" || (es != [] && |u| < |EntryText(es[|es| - 1])|
                && u == EntryText(es[|es| - 1])[|EntryText(es[|es| - 1])| - |u|..])
  }

  lemma FrameSplit(es: seq<Entry>)
    requires es != []
    ensures FrameText(es) == EntryText(es[0]) + (if |es| == 1 then "" else "," + FrameText(es[1..]))
  {
    if |es| == 1 { assert EntryText(es[0]) + "" == EntryText(es[0]); }
  }

  lemma FrameBegins(es: seq<Entry>)
    requires es != [] && EntriesOk(es)
    ensures Follows("," + FrameText(es)) && (ColonFollows("," + FrameText(es)) <==> es[0].channel == ":")
  {
    FrameSplit(es);
    EntryChars(es[0], "");
    assert EntryText(es[0]) + "" == EntryText(es[0]);
    var c, w, t := es[0].channel, EntryText(es[0]), "," + FrameText(es);
    assert w[2] == c[0] && w[3] == if |c| > 1 then c[1] else '\\';
    assert t[1] == w[0] && t[2] == w[1] && t[3] == w[2] && t[4] == w[3];
  }

  /** The lag reaches back to a quote from which the pattern matches. */
  predicate HashMisread(es: seq<Entry>, t: nat, lag: nat)
    requires t < |es|
  {
    lag >= 9 && t > 0 && es[t - 1].hash == ":"
  }

  predicate Misread(es: seq<Entry>, t: nat, lag: nat)
    requires t < |es|
  {
    HashMisread(es, t, lag) || (lag >= 3 && es[t].channel == ":")
  }

  /** Where the next match is, and what it takes for an entry. */
  function HitAt(es: seq<Entry>, t: nat, lag: nat): (k: nat)
    requires t < |es|
    ensures k <= lag
  {
    if HashMisread(es, t, lag) then lag - 9 else if Misread(es, t, lag) then lag - 3 else lag
  }

  function Hit(es: seq<Entry>, t: nat, lag: nat): Entry
    requires t < |es|
  {
    if HashMisread(es, t, lag) then HASH_STRAY else if Misread(es, t, lag) then CHANNEL_STRAY else es[t]
  }

  /**
   A search from inside the frame finds entry `t`, at the lag, unless the state is
   misread; then it finds a text in front of it that is no entry.
   */
  lemma PendingFound(hash: Prog, es: seq<Entry>, t: nat, u: string, lag: nat, caps: seq<Cap>)
    requires EntriesOk(es) && Pending(es, t, u, lag) && |caps| == 3
    requires HashRuns(hash, u) && Productive(Op(Open(0), EntryProg(hash)))
    ensures var k, e := HitAt(es, t, lag), Hit(es, t, lag);
      && SearchFrom(Op(Open(0), EntryProg(hash)), u, 0, caps) == Out(true, k + |EntryText(e)|, EntryCaps(e, k))
      && TextAt(u, k, EntryText(e))
  {
    HitIsNext(es, t, u, lag);
    LagFails(hash, es, t, u, lag);
    FoundAt(hash, u, HitAt(es, t, lag), Hit(es, t, lag), caps);
  }

  lemma HitIsNext(es: seq<Entry>, t: nat, u: string, lag: nat)
    requires EntriesOk(es) && Pending(es, t, u, lag)
    ensures TextAt(u, HitAt(es, t, lag), EntryText(Hit(es, t, lag))) && EntryOk(Hit(es, t, lag))
    ensures |EntryText(Hit(es, t, lag))| > 0
  {
    if HashMisread(es, t, lag) {
      HashStrayNext(es, t, u, lag);
    } else if Misread(es, t, lag) {
      ChannelStrayNext(es, t, u, lag);
    } else {
      EntryIsNext(es, t, u, lag);
    }
  }

  lemma TextBegins(u: string, k: nat, w: string, rest: string)
    requires k <= |u| && u[k..] == w + rest
    ensures TextAt(u, k, w)
  {
    assert u[k..k + |w|] == u[k..][..|w|] == w;
  }

  lemma HashStrayNext(es: seq<Entry>, t: nat, u: string, lag: nat)
    requires Pending(es, t, u, lag) && HashMisread(es, t, lag)
    ensures TextAt(u, lag - 9, EntryText(HASH_STRAY))
  {
    var e, f := es[t - 1], FrameText(es[t..]);
    PositionInside(es, t, u, lag, lag - 9);
    FrameSplit(es[t..]);
    assert f[..2] == QUOTE && f == QUOTE + f[2..];
    HashStrayText(e.channel, f[2..]);
    assert e == Entry(e.channel, ":");
    TextBegins(u, lag - 9, EntryText(HASH_STRAY), f[2..]);
  }

  lemma ChannelStrayNext(es: seq<Entry>, t: nat, u: string, lag: nat)
    requires Pending(es, t, u, lag) && lag >= 3 && es[t].channel == ":"
    ensures TextAt(u, lag - 3, EntryText(CHANNEL_STRAY))
  {
    var e, f, h := es[t - 1], FrameText(es[t..]), es[t].hash;
    var rest := if t + 1 == |es| then "" else "," + FrameText(es[t + 1..]);
    PositionInside(es, t, u, lag, lag - 3);
    FrameSplit(es[t..]);
    assert es[t..][0] == Entry(":", h) && es[t..][1..] == es[t + 1..];
    ChannelStrayText(e, h, rest);
    TextBegins(u, lag - 3, EntryText(CHANNEL_STRAY), h + QUOTE + rest);
  }

  lemma FoundAt(hash: Prog, u: string, lag: nat, e: Entry, caps: seq<Cap>)
    requires EntryOk(e) && TextAt(u, lag, EntryText(e)) && |EntryText(e)| > 0 && |caps| == 3
    requires HashRuns(hash, u) && Productive(Op(Open(0), EntryProg(hash)))
    requires forall k: nat | k < lag :: Fails(EntryProg(hash), u, k)
    ensures SearchFrom(Op(Open(0), EntryProg(hash)), u, 0, caps) == Out(true, lag + |EntryText(e)|, EntryCaps(e, lag))
  {
    var p, end, spans := EntryProg(hash), lag + |EntryText(e)|, EntrySpans(e, lag);
    EntryIsSimple(hash);
    EntryEnds(hash, u, lag, e, end, spans);
    FoundEnding(p, u, lag, e, end, caps);
  }

  lemma FoundEnding(p: Prog, u: string, lag: nat, e: Entry, end: nat, caps: seq<Cap>)
    requires end == lag + |EntryText(e)| > lag && TextAt(u, lag, EntryText(e)) && |caps| == 3
    requires Simple(p) && Productive(Op(Open(0), p)) && Ends(p, u, lag, end, EntrySpans(e, lag))
    requires forall k: nat | k < lag :: Fails(p, u, k)
    ensures SearchFrom(Op(Open(0), p), u, 0, caps) == Out(true, end, EntryCaps(e, lag))
  {
    var c := SearchFinds(p, u, 0, lag, end, EntrySpans(e, lag), caps);
    EntryRecord(e, lag, c);
  }

  lemma EntryIsNext(es: seq<Entry>, t: nat, u: string, lag: nat)
    requires Pending(es, t, u, lag)
    ensures TextAt(u, lag, EntryText(es[t])) && |EntryText(es[t])| > 0
  {
    var rest := es[t..];
    FrameSplit(rest);
    assert rest[0] == es[t];
    assert u[lag..][..|EntryText(es[t])|] == EntryText(es[t]);
    assert u[lag..lag + |EntryText(es[t])|] == EntryText(es[t]);
  }

  lemma LagFails(hash: Prog, es: seq<Entry>, t: nat, u: string, lag: nat)
    requires EntriesOk(es) && Pending(es, t, u, lag) && Fails(hash, u, |u|)
    ensures forall k: nat | k < HitAt(es, t, lag) :: Fails(EntryProg(hash), u, k)
  {
    FrameBegins(es[t..]);
    forall k: nat | k < HitAt(es, t, lag) ensures Fails(EntryProg(hash), u, k) {
      PositionInside(es, t, u, lag, k);
      NoStray(es, t, lag, k);
      InsideFails(hash, u, k, es[t - 1], "," + FrameText(es[t..]), |Behind(es[t - 1])| - lag + k);
    }
  }

  lemma NoStray(es: seq<Entry>, t: nat, lag: nat, k: nat)
    requires 0 < t < |es| && lag <= |EntryText(es[t - 1])| && k < HitAt(es, t, lag)
    requires ColonFollows("," + FrameText(es[t..])) <==> es[t].channel == ":"
    ensures !StrayAt(es[t - 1], "," + FrameText(es[t..]), |Behind(es[t - 1])| - lag + k)
  {
    assert |Behind(es[t - 1])| == 10 + |es[t - 1].channel| + |es[t - 1].hash|;
  }

  lemma PositionInside(es: seq<Entry>, t: nat, u: string, lag: nat, k: nat)
    requires Pending(es, t, u, lag) && k < lag
    ensures var x := |Behind(es[t - 1])| - lag + k;
      0 < x <= |EntryText(es[t - 1])| && u[k..] == (EntryText(es[t - 1]) + ("," + FrameText(es[t..])))[x..]
  {
    var b := Behind(es[t - 1]);
    var x := |b| - lag + k;
    assert u == u[..lag] + u[lag..];
    assert EntryText(es[t - 1]) + ("," + FrameText(es[t..])) == b + u[lag..];
    assert (b + u[lag..])[x..] == b[|b| - lag..][k..] + u[lag..];
  }

  /** When only bytes of the last entry are left, the search fails. */
  lemma FinishedMisses(hash: Prog, es: seq<Entry>, u: string, caps: seq<Cap>)
    requires EntriesOk(es) && Finished(es, u) && Fails(hash, u, |u|) && Productive(Op(Open(0), EntryProg(hash)))
    ensures !SearchFrom(Op(Open(0), EntryProg(hash)), u, 0, caps).ok
  {
    EntryIsSimple(hash);
    RestFails(hash, es, u);
    SearchMisses(EntryProg(hash), u, 0, caps);
  }

  lemma RestFails(hash: Prog, es: seq<Entry>, u: string)
    requires EntriesOk(es) && Finished(es, u) && Fails(hash, u, |u|)
    ensures forall k: nat | k < |u| :: Fails(EntryProg(hash), u, k)
  {
    forall k: nat | k < |u| ensures Fails(EntryProg(hash), u, k) {
      var e := es[|es| - 1];
      var x := |EntryText(e)| - |u| + k;
      assert u[k..] == (EntryText(e) + "")[x..];
      InsideFails(hash, u, k, e, "", x);
    }
  }

  lemma DropWithin<T>(p: seq<T>, r: seq<T>, n: nat)
    requires n <= |p|
    ensures (p + r)[n..] == p[n..] + r
  {
  }

  lemma DropBeyond<T>(p: seq<T>, w: seq<T>, tail: seq<T>)
    requires |p| < |w|
    ensures (p + (w + tail))[|w|..] == w[|w| - |p|..] + tail
  {
  }

  lemma SuffixThenByte<T>(w: seq<T>, c: T, n: nat, r: seq<T>)
    requires n <= |w|
    ensures w[|w| - n..] + ([c] + r) == (w + [c])[|w| - n..] + r
  {
  }

  lemma SuffixOfSuffix<T>(b: seq<T>, lag: nat, n: nat)
    requires n <= lag <= |b|
    ensures b[|b| - lag..][n..] == b[|b| - (lag - n)..]
  {
  }

  lemma AdvanceWithin(es: seq<Entry>, t: nat, u: string, lag: nat)
    requires Pending(es, t, u, lag) && |EntryText(es[t])| <= lag
    ensures Pending(es, t, u[|EntryText(es[t])|..], lag - |EntryText(es[t])|)
  {
    var len := |EntryText(es[t])|;
    var p, r := u[..lag], u[lag..];
    assert u == p + r;
    DropWithin(p, r, len);
    SuffixOfSuffix(Behind(es[t - 1]), lag, len);
  }

  lemma AdvanceBeyond(es: seq<Entry>, t: nat, u: string, lag: nat)
    requires Pending(es, t, u, lag) && lag < |EntryText(es[t])|
    ensures var len := |EntryText(es[t])|;
      len <= |u| && if t + 1 < |es| then Pending(es, t + 1, u[len..], lag + 1) else Finished(es, u[len..])
  {
    var w := EntryText(es[t]);
    FrameSplit(es[t..]);
    assert es[t..][0] == es[t] && es[t..][1..] == es[t + 1..];
    var p := u[..lag];
    assert u == p + u[lag..];
    if t + 1 < |es| {
      var f := FrameText(es[t + 1..]);
      DropBeyond(p, w, [','] + f);
      SuffixThenByte(w, ',', lag, f);
      var v, b := u[|w|..], Behind(es[t]);
      assert v == b[|w| - lag..] + f && |b| - (lag + 1) == |w| - lag;
    } else {
      DropBeyond(p, w, "");
      assert w[|w| - lag..] + "" == w[|w| - lag..];
    }
  }

  /**
   The offset moves by the length of the match, and so falls behind by one comma more:
   the next search finds the following entry, or this one again, or nothing when it was
   the last.
   */
  lemma Advance(es: seq<Entry>, t: nat, u: string, lag: nat)
    requires Pending(es, t, u, lag)
    ensures var len := |EntryText(es[t])|;
      len <= |u| && (if len <= lag then Pending(es, t, u[len..], lag - len)
                     else if t + 1 < |es| then Pending(es, t + 1, u[len..], lag + 1)
                     else Finished(es, u[len..]))
  {
    if |EntryText(es[t])| <= lag { AdvanceWithin(es, t, u, lag); } else { AdvanceBeyond(es, t, u, lag); }
  }

  // -------------------------------------------------------------------- the stored list

  /** `v` is `w` with every element once or several times in a row. */
  ghost predicate Stutters<T(!new)>(v: seq<T>, w: seq<T>) {
    if v == [] then w == []
    else w != [] && v[|v| - 1] == w[|w| - 1] && (Stutters(v[..|v| - 1], w) || Stutters(v[..|v| - 1], w[..|w| - 1]))
  }

  lemma StutterNext<T(!new)>(v: seq<T>, w: seq<T>, x: T)
    requires Stutters(v, w) || Stutters(v, w + [x])
    ensures Stutters(v + [x], w + [x])
  {
    assert (v + [x])[..|v|] == v && (w + [x])[..|w|] == w;
  }

  lemma {:induction false} StutterElements<T(!new)>(v: seq<T>, w: seq<T>)
    requires Stutters(v, w)
    ensures (forall x :: x in v <==> x in w)
  {
    if v != [] {
      var u := v[..|v| - 1];
      assert v == u + [v[|v| - 1]];
      assert w == w[..|w| - 1] + [w[|w| - 1]];
      if Stutters(u, w) { StutterElements(u, w); } else { StutterElements(u, w[..|w| - 1]); }
    }
  }

  lemma {:induction false} FirstMatchConcat(u: seq<DList.Entry>, v: seq<DList.Entry>, q: DList.Query)
    ensures DList.FirstMatch(u + v, q) == if DList.FirstMatch(u, q) < |u| then DList.FirstMatch(u, q)
        else |u| + DList.FirstMatch(v, q)
  {
    var k := DList.FirstMatch(u, q);
    DList.FirstMatchIs(u + v, q, if k < |u| then k else |u| + DList.FirstMatch(v, q));
  }

  /** Repetitions do not change what a search finds. */
  lemma {:induction false} StutterSearch(v: seq<DList.Entry>, w: seq<DList.Entry>, q: DList.Query)
    requires Stutters(v, w)
    ensures var i, j := DList.FirstMatch(v, q), DList.FirstMatch(w, q);
      (i < |v| <==> j < |w|) && (i < |v| ==> v[i] == w[j])
  {
    if v != [] {
      var u, x := v[..|v| - 1], [v[|v| - 1]];
      var t := w[..|w| - 1];
      assert v == u + x && w == t + x;
      FirstMatchConcat(u, x, q);
      FirstMatchConcat(t, x, q);
      if Stutters(u, w) { StutterSearch(u, w, q); } else { StutterSearch(u, t, q); }
    }
  }

  /** The permission of a channel is the hash of the frame's first entry that covers it, whatever was stored twice. */
  lemma PermissionFromFrame(stored: seq<DList.Entry>, es: seq<Entry>, channel: string, k: nat)
    requires Stutters(stored, AllSaved(es)) && k <= |es|
    requires forall i | 0 <= i < k :: !DList.Covers(es[i].channel, channel)
    ensures k < |es| && DList.Covers(es[k].channel, channel) ==> Channels.PermissionOf(stored, channel) == es[k].hash
    ensures k == |es| ==> Channels.PermissionOf(stored, channel) == ""
  {
    var v, q := AllSaved(es), DList.ForChannel(channel);
    StutterSearch(stored, v, q);
    if k == |es| || DList.Covers(es[k].channel, channel) { DList.FirstMatchIs(v, q, k); }
  }

  // ------------------------------------------------------------------------ the scan

  lemma AllSavedNext(es: seq<Entry>, t: nat)
    requires t < |es|
    ensures AllSaved(es[..t + 1]) == AllSaved(es[..t]) + [Saved(es[t])]
  {
  }

  /** No state that the scan reaches from entry `t` on is misread; computed from the names alone. */
  predicate ReadsRight(es: seq<Entry>, t: nat, lag: nat)
    decreases |es| - t, lag
  {
    t < |es| ==>
      && !Misread(es, t, lag)
      && if |EntryText(es[t])| <= lag then ReadsRight(es, t, lag - |EntryText(es[t])|)
         else ReadsRight(es, t + 1, lag + 1)
  }

  /** A pair has been stored that a search took for an entry. */
  ghost predicate Strayed(v: seq<DList.Entry>) {
    exists k | 0 <= k < |v| :: v[k] == Saved(HASH_STRAY) || v[k] == Saved(CHANNEL_STRAY)
  }

  /** What the scan of a frame has stored in the end. */
  ghost predicate Outcome(es: seq<Entry>, v: seq<DList.Entry>) {
    if ReadsRight(es, 0, 0) then Stutters(v, AllSaved(es)) else Strayed(v)
  }

  /** Entry `t` is the next one, and nothing has been misread so far. */
  ghost predicate Reading(es: seq<Entry>, t: nat, u: string, lag: nat, v: seq<DList.Entry>) {
    && Pending(es, t, u, lag) && (ReadsRight(es, 0, 0) <==> ReadsRight(es, t, lag))
    && (Stutters(v, AllSaved(es[..t])) || Stutters(v, AllSaved(es[..t + 1])))
  }

  /** What has been stored while the text `u` is still unread. */
  ghost predicate Scanning(es: seq<Entry>, u: string, v: seq<DList.Entry>) {
    || (Finished(es, u) && Stutters(v, AllSaved(es)) && ReadsRight(es, 0, 0))
    || (Strayed(v) && !ReadsRight(es, 0, 0))
    || exists t: nat, lag: nat :: Reading(es, t, u, lag, v)
  }

  lemma ScanBegins(es: seq<Entry>)
    ensures Scanning(es, FrameText(es), [])
  {
    if es != [] {
      assert es[0..] == es && FrameText(es)[0..] == FrameText(es);
      assert Reading(es, 0, FrameText(es), 0, []);
    }
  }

  /** The captures lie inside the text, and the match is not empty. */
  ghost predicate InRange(u: string, c: seq<Cap>) {
    && |c| == 3 && 1 <= c[0].len <= |u|
    && (forall k | 1 <= k < 3 :: 0 <= c[k].ptr && 0 <= c[k].len && c[k].ptr + c[k].len <= |u|)
  }

  function Found(u: string, c: seq<Cap>): DList.Entry
    requires InRange(u, c)
  {
    Saved(Entry(u[c[1].ptr..c[1].ptr + c[1].len], u[c[2].ptr..c[2].ptr + c[2].len]))
  }

  /** What one search in the text yields, when the text is unread text of a frame. */
  ghost predicate Searched(es: seq<Entry>, u: string, found: bool, c: seq<Cap>) {
    && (found ==> InRange(u, c))
    && (Finished(es, u) ==> !found)
    && forall t: nat, lag: nat | Pending(es, t, u, lag) ::
         found && Hits(es, t, u, lag, c)
  }

  ghost predicate Hits(es: seq<Entry>, t: nat, u: string, lag: nat, c: seq<Cap>)
    requires t < |es|
  {
    var k, e := HitAt(es, t, lag), Hit(es, t, lag);
    c == EntryCaps(e, k) && TextAt(u, k, EntryText(e))
  }

  lemma FoundEntry(u: string, lag: nat, e: Entry)
    requires TextAt(u, lag, EntryText(e)) && InRange(u, EntryCaps(e, lag))
    ensures Found(u, EntryCaps(e, lag)) == Saved(e)
  {
    EntrySplit(u, lag, e);
  }

  /** Entry `t` is stored, for the first time or again. */
  lemma EntryStored(es: seq<Entry>, t: nat, u: string, lag: nat, v: seq<DList.Entry>)
    requires Reading(es, t, u, lag, v) && !Misread(es, t, lag)
    ensures |EntryText(es[t])| <= |u| && Scanning(es, u[|EntryText(es[t])|..], v + [Saved(es[t])])
  {
    AllSavedNext(es, t);
    StutterNext(v, AllSaved(es[..t]), Saved(es[t]));
    Advance(es, t, u, lag);
    AfterStored(es, t, u, lag, |EntryText(es[t])|, v + [Saved(es[t])]);
  }

  lemma AfterStored(es: seq<Entry>, t: nat, u: string, lag: nat, len: nat, w: seq<DList.Entry>)
    requires t < |es| && len == |EntryText(es[t])| <= |u| && Stutters(w, AllSaved(es[..t + 1]))
    requires !Misread(es, t, lag) && (ReadsRight(es, 0, 0) <==> ReadsRight(es, t, lag))
    requires if len <= lag then Pending(es, t, u[len..], lag - len)
             else if t + 1 < |es| then Pending(es, t + 1, u[len..], lag + 1)
             else Finished(es, u[len..])
    ensures Scanning(es, u[len..], w)
  {
    if len <= lag {
      assert Reading(es, t, u[len..], lag - len, w);
    } else if t + 1 < |es| {
      assert Reading(es, t + 1, u[len..], lag + 1, w);
    } else {
      assert es[..t + 1] == es;
    }
  }

  lemma StrayStays(v: seq<DList.Entry>, x: DList.Entry)
    ensures Strayed(v) || x == Saved(HASH_STRAY) || x == Saved(CHANNEL_STRAY) ==> Strayed(v + [x])
  {
    var w := v + [x];
    if Strayed(v) {
      var k :| 0 <= k < |v| && (v[k] == Saved(HASH_STRAY) || v[k] == Saved(CHANNEL_STRAY));
      assert w[k] == v[k];
    }
    assert w[|v|] == x;
  }

  lemma ScanStep(es: seq<Entry>, u: string, v: seq<DList.Entry>, found: bool, c: seq<Cap>)
    requires Scanning(es, u, v) && Searched(es, u, found, c)
    ensures found ==> Scanning(es, u[c[0].len..], v + [Found(u, c)])
    ensures !found ==> Outcome(es, v)
  {
    if found && Strayed(v) && !ReadsRight(es, 0, 0) {
      StrayStays(v, Found(u, c));
    } else if found {
      var t: nat, lag: nat :| Reading(es, t, u, lag, v);
      ReadOn(es, t, u, lag, v, c);
    }
  }

  /** One match: the next entry, or the first one that is none. */
  lemma ReadOn(es: seq<Entry>, t: nat, u: string, lag: nat, v: seq<DList.Entry>, c: seq<Cap>)
    requires Reading(es, t, u, lag, v) && InRange(u, c) && Hits(es, t, u, lag, c)
    ensures Scanning(es, u[c[0].len..], v + [Found(u, c)])
  {
    FoundEntry(u, HitAt(es, t, lag), Hit(es, t, lag));
    if Misread(es, t, lag) {
      StrayStays(v, Found(u, c));
    } else {
      EntryStored(es, t, u, lag, v);
    }
  }

  /** One search, in whatever text. */
  lemma SearchedAny(es: seq<Entry>, u: string, caps: seq<Cap>)
    requires EntriesOk(es) && |caps| == 3
    ensures Productive(Lower(PermissionAlt()))
    ensures var o := SearchFrom(Lower(PermissionAlt()), u, 0, caps); Searched(es, u, o.ok, o.caps)
  {
    PermissionProg();
    HashProgRuns(u);
    HashProgEndsGroup(u);
    SearchedWith(HashProg(), es, u, caps);
  }

  lemma SearchedWith(hash: Prog, es: seq<Entry>, u: string, caps: seq<Cap>)
    requires EntriesOk(es) && |caps| == 3 && HashRuns(hash, u) && HashEndsGroup(hash, u)
    ensures var p := Op(Open(0), EntryProg(hash));
      Productive(p) && Searched(es, u, SearchFrom(p, u, 0, caps).ok, SearchFrom(p, u, 0, caps).caps)
  {
    EntryIsSimple(hash);
    OpenedRun(EntryProg(hash), u, 0, caps);
    var o := SearchFrom(Op(Open(0), EntryProg(hash)), u, 0, caps);
    SearchedInRange(hash, u, caps, o);
    SearchedPending(hash, es, u, caps, o);
    if Finished(es, u) { FinishedMisses(hash, es, u, caps); }
  }

  lemma SearchedInRange(hash: Prog, u: string, caps: seq<Cap>, o: Out)
    requires |caps| == 3 && HashEndsGroup(hash, u) && Productive(Op(Open(0), EntryProg(hash)))
    requires o == SearchFrom(Op(Open(0), EntryProg(hash)), u, 0, caps)
    ensures o.ok ==> InRange(u, o.caps)
  {
    if o.ok { var pos, m, n := SearchMatch(hash, u, caps); }
  }

  lemma SearchedPending(hash: Prog, es: seq<Entry>, u: string, caps: seq<Cap>, o: Out)
    requires EntriesOk(es) && |caps| == 3 && HashRuns(hash, u) && Productive(Op(Open(0), EntryProg(hash)))
    requires o == SearchFrom(Op(Open(0), EntryProg(hash)), u, 0, caps)
    ensures forall t: nat, lag: nat | Pending(es, t, u, lag) :: o.ok && Hits(es, t, u, lag, o.caps)
  {
    forall t: nat, lag: nat | Pending(es, t, u, lag) ensures o.ok && Hits(es, t, u, lag, o.caps) {
      PendingFound(hash, es, t, u, lag, caps);
    }
  }

  ghost predicate HoldsPermission(re: Engine)
    reads re, re.code, re.data
  {
    re.Valid() && re.Loaded(0, Lower(PermissionAlt())) && CapsBelow(Lower(PermissionAlt()), 3) && !re.anchored
  }

  method CompilePermission() returns (re: Engine)
    ensures HoldsPermission(re) && fresh(re)
  {
    PermissionCompilable();
    PermissionGroups();
    re := new Engine();
    var ok := re.SlreCompile(PERMISSION_PATTERN, PermissionAlt());
  }

  lemma PermissionGroups()
    ensures AltCaps(PermissionAlt()) == 2 && PERMISSION_PATTERN[0] != '^'
  {
    NotQuoteFacts();
    var q := Quoted("\"", PNil);
    assert PiecesCaps(q) == 0;
    LowerField(NotQuote(), 0, 0, Halt);
    var f := PCons(Once1(Field(NotQuote())), q);
    assert PiecesCaps(f) == 1;
    assert PiecesCaps(Quoted("\"", f)) == 1;
    assert PiecesCaps(Quoted("\":", Quoted("\"", f))) == 1;
    assert PiecesCaps(PCons(Once1(Field(NotQuote())), Quoted("\":", Quoted("\"", f)))) == 2;
  }

  method FindEntry(rePerm: Engine, u: string, caps: array<Cap>, ghost es: seq<Entry>) returns (found: bool)
    requires HoldsPermission(rePerm) && caps.Length == 3
    modifies caps
    ensures found ==> InRange(u, caps[..])
    ensures EntriesOk(es) ==> Searched(es, u, found, caps[..])
  {
    SearchedAny([], u, caps[..]);
    if EntriesOk(es) { SearchedAny(es, u, caps[..]); }
    found := rePerm.SlreMatch(u, caps, Lower(PermissionAlt()));
  }

  /** `_ortc_get_from_slre` for the two groups. */
  method CopyOut(u: string, pmatch: array<Cap>) returns (e: Entry)
    requires InRange(u, pmatch[..])
    ensures Saved(e) == Found(u, pmatch[..])
  {
    e := Entry(u[pmatch[1].ptr..pmatch[1].ptr + pmatch[1].len], u[pmatch[2].ptr..pmatch[2].ptr + pmatch[2].len]);
  }

  /** Searches the unread text `u` and copies the captures out; `v` is what is stored so far. */
  method TakeEntry(rePerm: Engine, u: string, pmatch: array<Cap>, ghost es: seq<Entry>, ghost v: seq<DList.Entry>)
    returns (found: bool, e: Entry, len: nat)
    requires HoldsPermission(rePerm) && pmatch.Length == 3
    modifies pmatch
    ensures len <= |u| && (found <==> len > 0)
    ensures EntriesOk(es) && Scanning(es, u, v) ==>
      if found then Scanning(es, u[len..], v + [Saved(e)]) else Outcome(es, v)
  {
    found := FindEntry(rePerm, u, pmatch, es);
    ScanOnce(es, u, v, found, pmatch[..]);
    e, len := Entry("", ""), 0;
    if found {
      e := CopyOut(u, pmatch);
      len := pmatch[0].len;
    }
  }

  lemma ScanOnce(es: seq<Entry>, u: string, v: seq<DList.Entry>, found: bool, c: seq<Cap>)
    requires (found ==> InRange(u, c)) && (EntriesOk(es) ==> Searched(es, u, found, c))
    ensures EntriesOk(es) && Scanning(es, u, v) ==>
      if found then Scanning(es, u[c[0].len..], v + [Found(u, c)]) else Outcome(es, v)
  {
    if EntriesOk(es) && Scanning(es, u, v) { ScanStep(es, u, v, found, c); }
  }

  /** One turn of the loop: what is found from the offset on is stored, and the offset moves by its length. */
  method SaveNext(rePerm: Engine, permissions: DList.List, text: string, offset: nat, pmatch: array<Cap>,
                  ghost es: seq<Entry>)
    returns (found: bool, offset': nat)
    requires permissions.Valid() && HoldsPermission(rePerm) && pmatch.Length == 3 && offset <= |text|
    modifies permissions, permissions.repr, pmatch
    ensures permissions.Valid() && fresh(permissions.repr - old(permissions.repr))
    ensures old(permissions.repr) <= permissions.repr
    ensures offset' <= |text| && (if found then offset < offset' else offset == offset')
    ensures EntriesOk(es) && Scanning(es, text[offset..], old(permissions.view)) ==>
      if found then Scanning(es, text[offset'..], permissions.view) else Outcome(es, permissions.view)
  {
    ghost var v := permissions.view;
    var e: Entry, len: nat;
    found, e, len := TakeEntry(rePerm, text[offset..], pmatch, es, v);
    offset' := offset + len;
    assert text[offset'..] == text[offset..][len..];
    if found {
      permissions.Insert(DList.Entry(e.channel, Some(e.hash), None, 0, None));
    }
  }

  /**
   For frames without an entry that looks like a stray match, the scan is right if and
   only if no state is misread.
   */
  lemma RightExactly(es: seq<Entry>, v: seq<DList.Entry>)
    requires Outcome(es, v) && forall k | 0 <= k < |es| :: es[k] != HASH_STRAY && es[k] != CHANNEL_STRAY
    ensures Stutters(v, AllSaved(es)) <==> ReadsRight(es, 0, 0)
  {
    if Stutters(v, AllSaved(es)) && Strayed(v) {
      var k :| 0 <= k < |v| && (v[k] == Saved(HASH_STRAY) || v[k] == Saved(CHANNEL_STRAY));
      assert v[k] in v;
      StutterElements(v, AllSaved(es));
    }
  }

  /** A frame of four entries that is misread at the last of them: a pair is stored that it does not hold. */
  lemma FourEntries(es: seq<Entry>, v: seq<DList.Entry>)
    requires es == [Entry("a", "h"), Entry("a", "h"), Entry("a", "h"), Entry(":", "h")] && Outcome(es, v)
    ensures EntriesOk(es) && Strayed(v) && !Stutters(v, AllSaved(es))
  {
    SameLengths(es);
    assert Misread(es, 3, 3);
    assert !ReadsRight(es, 3, 3);
    assert !ReadsRight(es, 2, 2);
    assert !ReadsRight(es, 1, 1);
    RightExactly(es, v);
  }

  lemma SameLengths(es: seq<Entry>)
    requires forall k | 0 <= k < |es| :: |es[k].channel| == 1 && |es[k].hash| == 1
    ensures forall k | 0 <= k < |es| :: |EntryText(es[k])| == 11
  {
  }

  /** The same channel at the beginning of a frame is read. */
  lemma ColonFirst(es: seq<Entry>)
    requires es == [Entry(":", "h"), Entry("a", "h"), Entry("a", "h"), Entry("a", "h")]
    ensures EntriesOk(es) && ReadsRight(es, 0, 0)
  {
    SameLengths(es);
    assert ReadsRight(es, 4, 4);
    assert ReadsRight(es, 3, 3);
    assert ReadsRight(es, 2, 2);
    assert ReadsRight(es, 1, 1);
  }

  /** Without single colons no frame is misread. */
  lemma {:induction false} NoColonsReadRight(es: seq<Entry>, t: nat, lag: nat)
    requires forall k | 0 <= k < |es| :: es[k].channel != ":" && es[k].hash != ":"
    ensures ReadsRight(es, t, lag)
    decreases |es| - t, lag
  {
    if t < |es| {
      var len := |EntryText(es[t])|;
      if len <= lag { NoColonsReadRight(es, t, lag - len); } else { NoColonsReadRight(es, t + 1, lag + 1); }
    }
  }

  /**
   Stores the entries of the frame. The offset lags behind, so that an entry may be
   stored several times in a row; unless a state is misread, none is skipped and the
   order is that of the frame.
   */
  method SavePermissions(permissions: DList.List, text: string, ghost es: seq<Entry>)
    requires permissions.Valid()
    modifies permissions, permissions.repr
    ensures permissions.Valid() && fresh(permissions.repr - old(permissions.repr))
    ensures text == "null" ==> permissions.view == []
    ensures text != "null" && EntriesOk(es) && text == FrameText(es) ==> Outcome(es, permissions.view)
  {
    permissions.Clear();
    if text != "null" {
      var rePerm := CompilePermission();
      ScanText(rePerm, permissions, text, es);
    }
  }

  method ScanText(rePerm: Engine, permissions: DList.List, text: string, ghost es: seq<Entry>)
    requires permissions.Valid() && permissions.view == [] && HoldsPermission(rePerm)
    modifies permissions, permissions.repr
    ensures permissions.Valid() && fresh(permissions.repr - old(permissions.repr))
    ensures EntriesOk(es) && text == FrameText(es) ==> Outcome(es, permissions.view)
  {
    var pmatch := new Cap[3](_ => Cap(0, 0));
    var offset, found := 0, true;
    ghost var inFrame := EntriesOk(es) && text == FrameText(es);
    ScanBegins(es);
    assert text[0..] == text;
    while found
      invariant offset <= |text| && permissions.Valid() && fresh(permissions.repr - old(permissions.repr))
      invariant HoldsPermission(rePerm)
      invariant inFrame ==> if found then Scanning(es, text[offset..], permissions.view)
          else Outcome(es, permissions.view)
      decreases found, |text| - offset
    {
      found, offset := SaveNext(rePerm, permissions, text, offset, pmatch, es);
    }
  }
}
