/**
 The presence reply: a scanner driven by flags, and the proof that it recovers exactly
 the subscription count and the records that were printed.
 */
module Presence {
  import opened Basics
  import opened Text
  import opened Decimals

  /** A record; its metadata is missing when the scanner has seen none. */
  datatype Record = Record(metadata: Option<string>, count: int)

  datatype Data = Data(subscriptions: int, records: seq<Record>)

  // ------------------------------------------------------------------ the two replaces

  /** What may stand between two quotes: bytes other than quotes, and pairs of a backslash and any byte. */
  predicate Quoted(q: string) {
    q == "" || if q[0] == '\\' then |q| >= 2 && Quoted(q[2..]) else q[0] != '"' && Quoted(q[1..])
  }

  function Unquote(s: string): string {
    ReplaceAll(ReplaceAll(s, "\\\\", "\\"), "\\\"", "\"")
  }

  /** What a pair stands for: only backslash and quote are read, all other pairs stay. */
  function ReadPair(c: char): string { if c == '\\' || c == '"' then [c] else ['\\', c] }

  function ReadText(q: string): string
    requires Quoted(q)
  {
    if q == "" then "" else if q[0] == '\\' then ReadPair(q[1]) + ReadText(q[2..]) else [q[0]] + ReadText(q[1..])
  }

  /** After the first replace: the quotes still have their backslashes. */
  function HalfPair(c: char): string { if c == '\\' then [c] else ['\\', c] }

  function HalfText(q: string): string
    requires Quoted(q)
  {
    if q == "" then "" else if q[0] == '\\' then HalfPair(q[1]) + HalfText(q[2..]) else [q[0]] + HalfText(q[1..])
  }

  lemma NotQuoteFirst(q: string)
    requires Quoted(q)
    ensures HalfText(q) != "" ==> HalfText(q)[0] != '"'
  {
  }

  lemma PassOver(s: string, w: string, r: string)
    requires s != "" && w != "" && !StartsWith(s, w)
    ensures ReplaceAll(s, w, r) == [s[0]] + ReplaceAll(s[1..], w, r)
  {
  }

  lemma PassByte(s: string, w: string, r: string)
    requires s != "" && w != "" && s[0] != w[0]
    ensures ReplaceAll(s, w, r) == [s[0]] + ReplaceAll(s[1..], w, r)
  {
    if |w| <= |s| { assert s[..|w|][0] == s[0]; }
  }

  lemma TakeOver(w: string, t: string, r: string)
    requires w != ""
    ensures ReplaceAll(w + t, w, r) == r + ReplaceAll(t, w, r)
  {
    assert (w + t)[..|w|] == w && (w + t)[|w|..] == t;
  }

  lemma FirstPair(c: char, t: string)
    ensures ReplaceAll(['\\', c] + t, "\\\\", "\\") == HalfPair(c) + ReplaceAll(t, "\\\\", "\\")
  {
    if c == '\\' {
      assert ['\\', c] == "\\\\";
      TakeOver("\\\\", t, "\\");
    } else {
      var u := ['\\', c] + t;
      assert u[1] == c && u[1..] == [c] + t && u[1..][1..] == t;
      PassOver(u, "\\\\", "\\");
      PassByte(u[1..], "\\\\", "\\");
      assert ['\\'] + ([c] + ReplaceAll(t, "\\\\", "\\")) == ['\\', c] + ReplaceAll(t, "\\\\", "\\");
    }
  }

  lemma {:induction false} FirstReplace(q: string)
    requires Quoted(q)
    ensures ReplaceAll(q, "\\\\", "\\") == HalfText(q)
    decreases |q|
  {
    if q == "" {
    } else if q[0] == '\\' {
      FirstReplace(q[2..]);
      FirstPair(q[1], q[2..]);
      assert q == ['\\', q[1]] + q[2..];
    } else {
      FirstReplace(q[1..]);
      PassByte(q, "\\\\", "\\");
    }
  }

  /** A byte in front of a text that does not begin with a quote. */
  lemma PassFirst(c: char, t: string)
    requires t != "" ==> t[0] != '"'
    ensures ReplaceAll([c] + t, "\\\"", "\"") == [c] + ReplaceAll(t, "\\\"", "\"")
  {
    var u := [c] + t;
    assert u[1..] == t && (|u| > 1 ==> u[1] == t[0]);
    PassOver(u, "\\\"", "\"");
  }

  lemma SecondPair(c: char, t: string)
    requires t != "" ==> t[0] != '"'
    ensures ReplaceAll(HalfPair(c) + t, "\\\"", "\"") == ReadPair(c) + ReplaceAll(t, "\\\"", "\"")
  {
    if c == '"' {
      assert ['\\', c] == "\\\"" && ['"'] == "\"";
      TakeOver("\\\"", t, "\"");
    } else if c == '\\' {
      PassFirst(c, t);
    } else {
      PassFirst(c, t);
      PassFirst('\\', [c] + t);
      assert ['\\'] + ([c] + t) == ['\\', c] + t;
      assert ['\\'] + ([c] + ReplaceAll(t, "\\\"", "\"")) == ['\\', c] + ReplaceAll(t, "\\\"", "\"");
    }
  }

  lemma {:induction false} SecondReplace(q: string)
    requires Quoted(q)
    ensures ReplaceAll(HalfText(q), "\\\"", "\"") == ReadText(q)
    decreases |q|
  {
    if q == "" {
    } else if q[0] == '\\' {
      SecondReplace(q[2..]);
      NotQuoteFirst(q[2..]);
      SecondPair(q[1], HalfText(q[2..]));
    } else {
      SecondReplace(q[1..]);
      NotQuoteFirst(q[1..]);
      PassFirst(q[0], HalfText(q[1..]));
    }
  }

  /** The two replaces read backslashes and quotes, and leave all other pairs as they are. */
  lemma UnquoteReads(q: string)
    requires Quoted(q)
    ensures Unquote(q) == ReadText(q)
  {
    FirstReplace(q);
    SecondReplace(q);
  }

  /** Any text can be put between quotes, with a backslash before each backslash and quote. */
  function QuoteByte(c: char): string {
    if c == '\\' || c == '"' then ['\\', c] else [c]
  }

  function Quote(s: string): string {
    if s == "" then "" else QuoteByte(s[0]) + Quote(s[1..])
  }

  lemma {:induction false} QuoteReads(s: string)
    ensures Quoted(Quote(s)) && ReadText(Quote(s)) == s
  {
    if s != "" {
      QuoteReads(s[1..]);
      var q, t := Quote(s), Quote(s[1..]);
      assert q[|QuoteByte(s[0])|..] == t;
      assert s == [s[0]] + s[1..];
    }
  }

  /** The two replaces undo the escaping, for every text. */
  lemma UnquoteQuote(s: string)
    ensures Quoted(Quote(s)) && Unquote(Quote(s)) == s
  {
    QuoteReads(s);
    UnquoteReads(Quote(s));
  }

  // ------------------------------------------------------------------------ the scanner

  /** A piece of the reply. */
  datatype Range = Range(from: nat, to: nat)

  /** A record as the scanner delimits it; `closing` in front of the closing bracket. */
  datatype Mark = Mark(metadata: Option<Range>, count: Range, closing: bool)

  /** The variables of the scanning loop; `done` after its `break`. */
  datatype Scan = Scan(isCM: bool, isEsc: bool, start: nat, metadata: Option<Range>, marks: seq<Mark>, done: bool)

  /** The loop body at byte `i`. */
  function Step(p: string, i: nat, s: Scan): (t: Scan)
    requires i < |p| && s.start < i
    ensures t.start <= i
  {
    var c := p[i];
    if c == '}' && !s.isCM && !s.isEsc then
      s.(marks := s.marks + [Mark(s.metadata, Range(s.start + 1, i), true)], done := true)
    else if c == '\\' then s.(isEsc := !s.isEsc)
    else if c == '"' && !s.isEsc then
      if !s.isCM then s.(isCM := true, start := i) else s.(isCM := false, metadata := Some(Range(s.start + 1, i)))
    else if c == ':' && !s.isCM then s.(start := i)
    else if c == ',' && !s.isCM then s.(marks := s.marks + [Mark(s.metadata, Range(s.start + 1, i), false)])
    else s.(isEsc := false)
  }

  function RangeText(p: string, r: Range): string {
    if r.from <= r.to <= |p| then p[r.from..r.to] else ""
  }

  /** The texts that a mark delimits. */
  datatype Raw = Raw(metadata: Option<string>, count: string, closing: bool)

  function RawMetadata(p: string, m: Option<Range>): Option<string> {
    if m.Some? then Some(RangeText(p, m.value)) else None
  }

  function RawAt(p: string, k: Mark): Raw { Raw(RawMetadata(p, k.metadata), RangeText(p, k.count), k.closing) }

  function RawsAt(p: string, ks: seq<Mark>): (ws: seq<Raw>)
    ensures |ws| == |ks| && forall i | 0 <= i < |ks| :: ws[i] == RawAt(p, ks[i])
  {
    seq(|ks|, i requires 0 <= i < |ks| => RawAt(p, ks[i]))
  }

  function MetadataOf(m: Option<string>): Option<string> {
    if m.Some? then Some(Unquote(m.value)) else None
  }

  /** The record that is added; in front of the bracket only when its count is positive. */
  function RecordsOf(w: Raw): seq<Record> {
    if w.closing && Atoi(w.count) <= 0 then [] else [Record(MetadataOf(w.metadata), Atoi(w.count))]
  }

  function AllRecords(ws: seq<Raw>): seq<Record> {
    if ws == [] then [] else AllRecords(ws[..|ws| - 1]) + RecordsOf(ws[|ws| - 1])
  }

  lemma AllRecordsNext(ws: seq<Raw>, w: Raw)
    ensures AllRecords(ws + [w]) == AllRecords(ws) + RecordsOf(w)
  {
    assert (ws + [w])[..|ws|] == ws;
  }

  function ScanFrom(p: string, i: nat, s: Scan): Scan
    requires s.start < i
    decreases |p| - i
  {
    if i >= |p| || s.done then s else ScanFrom(p, i + 1, Step(p, i, s))
  }

  /** The end of the subscription count. */
  function CountEnd(p: string, i: nat): (e: nat)
    requires i <= |p|
    ensures i <= e <= |p|
    decreases |p| - i
  {
    if i < |p| && p[i] != ',' && p[i] != '}' then CountEnd(p, i + 1) else i
  }

  const FRESH := Scan(false, false, 0, None, [], false)

  /** The records found from `i` on. */
  function RecordsFrom(p: string, i: nat): seq<Record>
    requires i > 0
  {
    AllRecords(RawsAt(p, ScanFrom(p, i, FRESH).marks))
  }

  function Parse(p: string): Option<Data> {
    if |p| < 19 || p[16] != ':' then None
    else
      var i := CountEnd(p, 17);
      var records := if i < |p| && p[i] == ',' then RecordsFrom(p, i + 12) else [];
      Some(Data(Atoi(p[17..i]), records))
  }

  method ParsePresence(p: string) returns (r: Option<Data>)
    requires |p| <= INT_MAX
    ensures r == Parse(p) && (r == None <==> |p| < 19 || p[16] != ':')
  {
    var len := |p|;
    if len < 19 { return None; }
    if p[16] != ':' { return None; }
    var i := 17;
    while i < len && p[i] != ',' && p[i] != '}'
      invariant 17 <= i <= len && CountEnd(p, 17) == CountEnd(p, i)
    {
      i := i + 1;
    }
    var subscriptions := Atoi(p[17..i]);
    var records: seq<Record> := [];
    if i < len && p[i] == ',' {
      records := ScanRecords(p, i + 12);
    }
    r := Some(Data(subscriptions, records));
  }

  method UnquoteMetadata(cm: string) returns (metadata: string)
    requires |cm| <= INT_MAX
    ensures metadata == Unquote(cm)
  {
    ReplacedLength(cm, "\\\\", "\\");
    NoLonger(Occurrences(cm, "\\\\"));
    var replaced := Replace(cm, "\\\\", "\\");
    metadata := Replace(replaced, "\\\"", "\"");
  }

  lemma NoLonger(n: nat)
    ensures n * (1 - 2) <= 0
  {
  }

  /** What the loop variables hold: the metadata seen last, and the records so far. */
  ghost predicate Held(p: string, metadata: Option<Range>, marks: seq<Mark>, current: Option<string>,
                       records: seq<Record>)
  {
    current == MetadataOf(RawMetadata(p, metadata)) && records == AllRecords(RawsAt(p, marks))
  }

  lemma RawsAtNext(p: string, ks: seq<Mark>, k: Mark)
    ensures RawsAt(p, ks + [k]) == RawsAt(p, ks) + [RawAt(p, k)]
  {
  }

  method AddRecord(p: string, records: seq<Record>, current: Option<string>, countText: string, ghost s: Scan,
                   ghost k: Mark)
    returns (r: seq<Record>)
    requires Held(p, s.metadata, s.marks, current, records) && k.metadata == s.metadata
    requires countText == RangeText(p, k.count)
    requires !k.closing
    ensures Held(p, s.metadata, s.marks + [k], current, r)
  {
    RawsAtNext(p, s.marks, k);
    AllRecordsNext(RawsAt(p, s.marks), RawAt(p, k));
    r := records + [Record(current, Atoi(countText))];
  }

  method AddLastRecord(p: string, records: seq<Record>, current: Option<string>, countText: string, ghost s: Scan,
                       ghost k: Mark)
    returns (r: seq<Record>)
    requires Held(p, s.metadata, s.marks, current, records) && k.metadata == s.metadata
    requires countText == RangeText(p, k.count)
    requires k.closing
    ensures Held(p, s.metadata, s.marks + [k], current, r)
  {
    RawsAtNext(p, s.marks, k);
    AllRecordsNext(RawsAt(p, s.marks), RawAt(p, k));
    r := records;
    var count := Atoi(countText);
    if count > 0 { r := records + [Record(current, count)]; }
  }

  method SetMetadata(p: string, cm: string, ghost s: Scan, ghost current: Option<string>, ghost records: seq<Record>,
                     ghost m: Range)
    returns (metadata: Option<string>)
    requires |cm| <= INT_MAX && cm == RangeText(p, m) && Held(p, s.metadata, s.marks, current, records)
    ensures Held(p, Some(m), s.marks, metadata, records)
  {
    var text := UnquoteMetadata(cm);
    metadata := Some(text);
  }

  method ScanRecords(p: string, from: nat) returns (records: seq<Record>)
    requires |p| <= INT_MAX && from >= 1
    ensures records == RecordsFrom(p, from)
  {
    var isCM, isEsc, cmStartIdx := false, false, 0;
    var currentMetadata: Option<string> := None;
    records := [];
    ghost var s, goal := FRESH, ScanFrom(p, from, FRESH);
    var i := from;
    while i < |p|
      invariant from <= i && s.start == cmStartIdx < i && s.isCM == isCM && s.isEsc == isEsc && !s.done
      invariant goal == ScanFrom(p, i, s)
      invariant Held(p, s.metadata, s.marks, currentMetadata, records) == true
      decreases |p| - i
    {
      ghost var here := Range(cmStartIdx + 1, i);
      ghost var t := Step(p, i, s);
      ScanOne(p, i, s);
      if p[i] == '}' && !isCM && !isEsc {
        records := AddLastRecord(p, records, currentMetadata, p[cmStartIdx + 1..i], s, Mark(s.metadata, here, true));
        s := t;
        break;
      } else if p[i] == '\\' {
        isEsc := !isEsc;
      } else if p[i] == '"' && !isEsc {
        if !isCM {
          isCM := true;
          cmStartIdx := i;
        } else {
          isCM := false;
          currentMetadata := SetMetadata(p, p[cmStartIdx + 1..i], s, currentMetadata, records, here);
        }
      } else if p[i] == ':' && !isCM {
        cmStartIdx := i;
      } else if p[i] == ',' && !isCM {
        records := AddRecord(p, records, currentMetadata, p[cmStartIdx + 1..i], s, Mark(s.metadata, here, false));
      } else if isEsc {
        isEsc := false;
      }
      s := t;
      i := i + 1;
    }
    ScanEnds(p, from, goal, s, currentMetadata, records);
  }

  lemma ScanEnds(p: string, from: nat, goal: Scan, s: Scan, current: Option<string>, records: seq<Record>)
    requires from >= 1 && goal == ScanFrom(p, from, FRESH) == s && Held(p, s.metadata, s.marks, current, records)
    ensures records == RecordsFrom(p, from)
  {
  }

  // ------------------------------------------------------------------------- round trip

  /** A record as the server writes it: quoted text and a count. */
  datatype Written = Written(text: string, count: nat)

  function RecordText(r: Written): string { "\"" + r.text + "\":" + Decimal(r.count) }

  ghost predicate Printable(rs: seq<Written>) {
    forall k | 0 <= k < |rs| :: Quoted(rs[k].text)
  }

  /** The records and the closing bracket. */
  function RecordsText(rs: seq<Written>): string
    requires Printable(rs)
  {
    if |rs| == 0 then "}"
    else RecordText(rs[0]) + (if |rs| == 1 then "}" else "," + RecordsText(rs[1..]))
  }

  /** The reply: `{"subscriptions":n}`, or with `,"metadata":{...}` in it. */
  function Print(n: nat, metadata: bool, rs: seq<Written>): string
    requires Printable(rs)
  {
    "{\"subscriptions\":" + Decimal(n) + (if metadata then ",\"metadata\":{" + RecordsText(rs) + "}" else "}")
  }

  /** What is still to be read. */
  ghost predicate Ahead(p: string, i: nat, w: string) { i <= |p| && p[i..] == w }

  lemma ScanOne(p: string, i: nat, s: Scan)
    requires i < |p| && s.start < i && !s.done
    ensures ScanFrom(p, i, s) == ScanFrom(p, i + 1, Step(p, i, s))
  {
  }

  lemma AheadSplit(p: string, i: nat, u: string, v: string)
    requires Ahead(p, i, u + v)
    ensures Ahead(p, i + |u|, v) && forall k | 0 <= k < |u| :: p[i + k] == u[k]
  {
    assert p[i..][|u|..] == p[i + |u|..];
    forall k | 0 <= k < |u| ensures p[i + k] == u[k] { assert p[i..][k] == u[k]; }
  }

  /** Inside quotes, a byte that is no quote and no backslash leaves the state as it is. */
  lemma ScanByte(p: string, i: nat, s: Scan)
    requires s.start < i < |p| && s.isCM && !s.isEsc && !s.done && p[i] != '"' && p[i] != '\\'
    ensures ScanFrom(p, i, s) == ScanFrom(p, i + 1, s)
  {
    ScanOne(p, i, s);
  }

  /** So does a backslash with any byte behind it. */
  lemma ScanPair(p: string, i: nat, s: Scan)
    requires s.start < i && i + 2 <= |p| && s.isCM && !s.isEsc && !s.done && p[i] == '\\'
    ensures ScanFrom(p, i, s) == ScanFrom(p, i + 2, s)
  {
    ScanOne(p, i, s);
    ScanOne(p, i + 1, s.(isEsc := true));
  }

  /** And so does any quoted text. */
  lemma {:induction false} ScanQuoted(p: string, i: nat, s: Scan, q: string, rest: string)
    requires s.start < i && s.isCM && !s.isEsc && !s.done && Quoted(q) && Ahead(p, i, q + rest)
    ensures Ahead(p, i + |q|, rest) && ScanFrom(p, i, s) == ScanFrom(p, i + |q|, s)
    decreases |q|
  {
    if q == "" {
      assert q + rest == rest;
    } else {
      var n := if q[0] == '\\' then 2 else 1;
      assert q + rest == q[..n] + (q[n..] + rest);
      AheadSplit(p, i, q[..n], q[n..] + rest);
      assert p[i + 0] == q[0];
      if n == 2 { ScanPair(p, i, s); } else { ScanByte(p, i, s); }
      ScanQuoted(p, i + n, s, q[n..], rest);
    }
  }

  /** Digits do not change the state. */
  lemma {:induction false} ScanDigits(p: string, i: nat, s: Scan, d: string, rest: string)
    requires s.start < i && !s.isCM && !s.isEsc && !s.done && Ahead(p, i, d + rest)
    requires forall k | 0 <= k < |d| :: '0' <= d[k] <= '9'
    ensures Ahead(p, i + |d|, rest) && ScanFrom(p, i, s) == ScanFrom(p, i + |d|, s)
    decreases |d|
  {
    AheadSplit(p, i, d, rest);
    if d != "" {
      assert p[i + 0] == d[0];
      ScanOne(p, i, s);
      assert d + rest == [d[0]] + (d[1..] + rest);
      AheadSplit(p, i, [d[0]], d[1..] + rest);
      ScanDigits(p, i + 1, s, d[1..], rest);
    }
  }

  lemma OpenQuote(p: string, i: nat, s: Scan, rest: string)
    requires s.start < i && !s.isCM && !s.isEsc && !s.done && Ahead(p, i, "\"" + rest)
    ensures Ahead(p, i + 1, rest) && ScanFrom(p, i, s) == ScanFrom(p, i + 1, s.(isCM := true, start := i))
  {
    AheadSplit(p, i, "\"", rest);
    assert p[i + 0] == '"';
    ScanOne(p, i, s);
  }

  lemma CloseQuote(p: string, i: nat, s: Scan, rest: string)
    requires s.start < i && s.isCM && !s.isEsc && !s.done && Ahead(p, i, "\"" + rest)
    ensures Ahead(p, i + 1, rest)
    ensures ScanFrom(p, i, s) == ScanFrom(p, i + 1, s.(isCM := false, metadata := Some(Range(s.start + 1, i))))
  {
    AheadSplit(p, i, "\"", rest);
    assert p[i + 0] == '"';
    ScanOne(p, i, s);
  }

  lemma ScanOpened(p: string, i: nat, s: Scan, q: string, rest: string)
    requires s.start < i && !s.isCM && !s.isEsc && !s.done && Quoted(q) && Ahead(p, i, "\"" + (q + rest))
    ensures var j := i + 1 + |q|;
      Ahead(p, j, rest) && ScanFrom(p, i, s) == ScanFrom(p, j, s.(isCM := true, start := i))
  {
    OpenQuote(p, i, s, q + rest);
    ScanQuoted(p, i + 1, s.(isCM := true, start := i), q, rest);
  }

  /** Metadata with its quotes. */
  lemma ScanMetadata(p: string, i: nat, s: Scan, q: string, rest: string)
    requires s.start < i && !s.isCM && !s.isEsc && !s.done && Quoted(q)
    requires Ahead(p, i, "\"" + (q + ("\"" + rest)))
    ensures var j := i + |q| + 2;
      Ahead(p, j, rest) && ScanFrom(p, i, s) == ScanFrom(p, j, s.(start := i, metadata := Some(Range(i + 1, j - 1))))
  {
    var j := i + 1 + |q|;
    ScanOpened(p, i, s, q, "\"" + rest);
    CloseQuote(p, j, s.(isCM := true, start := i), rest);
  }

  /** A colon and a count. */
  lemma ScanCount(p: string, i: nat, s: Scan, n: nat, rest: string)
    requires s.start < i && !s.isCM && !s.isEsc && !s.done && Ahead(p, i, ":" + (Decimal(n) + rest))
    ensures var e := i + 1 + |Decimal(n)|; Ahead(p, e, rest) && ScanFrom(p, i, s) == ScanFrom(p, e, s.(start := i))
  {
    AheadSplit(p, i, ":", Decimal(n) + rest);
    assert p[i + 0] == ':';
    ScanOne(p, i, s);
    ScanDigits(p, i + 1, s.(start := i), Decimal(n), rest);
  }

  /** Where a record printed at `i` has its metadata and its count. */
  function MetadataRange(i: nat, r: Written): Range
  {
    Range(i + 1, i + 1 + |r.text|)
  }

  function CountRange(i: nat, r: Written): Range
  {
    Range(i + |r.text| + 3, i + |RecordText(r)|)
  }

  /** The state in front of the colon behind the metadata. */
  function AfterMetadata(s: Scan, i: nat, r: Written): Scan
  {
    s.(start := i, metadata := Some(MetadataRange(i, r)))
  }

  /** The state in front of the byte behind a record. */
  function AfterRecord(s: Scan, i: nat, r: Written): Scan
  {
    Scan(false, false, i + |r.text| + 2, Some(MetadataRange(i, r)), s.marks, false)
  }

  function MarkOf(i: nat, r: Written, closing: bool): Mark
  {
    Mark(Some(MetadataRange(i, r)), CountRange(i, r), closing)
  }

  /** A record up to its count. */
  lemma ScanRecord(p: string, i: nat, s: Scan, r: Written, rest: string)
    requires s.start < i && !s.isCM && !s.isEsc && !s.done && Quoted(r.text)
    requires Ahead(p, i, RecordText(r) + rest)
    ensures Ahead(p, i + |RecordText(r)|, rest)
    ensures ScanFrom(p, i, s) == ScanFrom(p, i + |RecordText(r)|, AfterRecord(s, i, r))
  {
    var q, d := r.text, Decimal(r.count);
    RecordAhead(p, i, r, q, d, rest);
    ScanFields(p, i, s, r, q, d, rest);
  }

  lemma ScanFields(p: string, i: nat, s: Scan, r: Written, q: string, d: string, rest: string)
    requires s.start < i && !s.isCM && !s.isEsc && !s.done && Quoted(r.text)
    requires q == r.text && d == Decimal(r.count)
    requires Ahead(p, i, "\"" + (q + ("\"" + (":" + (d + rest)))))
    ensures var e := i + |q| + |d| + 3; Ahead(p, e, rest) && ScanFrom(p, i, s) == ScanFrom(p, e, AfterRecord(s, i, r))
  {
    var j := i + |q| + 2;
    ScanMetadataOf(p, i, s, r, q, j, ":" + (d + rest));
    ScanCountOf(p, i, j, s, r, d, rest);
  }

  lemma ScanCountOf(p: string, i: nat, j: nat, s: Scan, r: Written, d: string, rest: string)
    requires s.start < i && !s.isCM && !s.isEsc && !s.done && d == Decimal(r.count) && j == i + |r.text| + 2
    requires Ahead(p, j, ":" + (d + rest))
    ensures var e := j + |d| + 1;
      Ahead(p, e, rest) && ScanFrom(p, j, AfterMetadata(s, i, r)) == ScanFrom(p, e, AfterRecord(s, i, r))
  {
    ScanCount(p, j, AfterMetadata(s, i, r), r.count, rest);
    assert AfterMetadata(s, i, r).(start := j) == AfterRecord(s, i, r);
  }

  lemma ScanMetadataOf(p: string, i: nat, s: Scan, r: Written, q: string, j: nat, rest: string)
    requires s.start < i && !s.isCM && !s.isEsc && !s.done && Quoted(r.text) && q == r.text
    requires j == i + |q| + 2
    requires Ahead(p, i, "\"" + (q + ("\"" + rest)))
    ensures Ahead(p, j, rest) && ScanFrom(p, i, s) == ScanFrom(p, j, AfterMetadata(s, i, r))
  {
    ScanMetadata(p, i, s, r.text, rest);
  }

  lemma RecordAhead(p: string, i: nat, r: Written, q: string, d: string, rest: string)
    requires Quoted(r.text) && q == r.text && d == Decimal(r.count)
    requires Ahead(p, i, RecordText(r) + rest)
    ensures Ahead(p, i, "\"" + (q + ("\"" + (":" + (d + rest))))) && |RecordText(r)| == |q| + |d| + 3
  {
    RecordSplit(q, d, rest);
  }

  /** The marks of a printed record delimit its texts. */
  lemma MarkReads(p: string, i: nat, r: Written, closing: bool, rest: string)
    requires Quoted(r.text) && Ahead(p, i, RecordText(r) + rest)
    ensures RawAt(p, MarkOf(i, r, closing)) == RawOf(r, closing)
  {
    var q, d := r.text, Decimal(r.count);
    RecordSplit(q, d, rest);
    RangeReads(p, i, "\"", q, "\"" + (":" + (d + rest)));
    KeyThenCount(q, d + rest);
    RangeReads(p, i, "\"" + q + "\":", d, rest);
  }

  lemma KeyThenCount(q: string, t: string)
    ensures "\"" + (q + ("\"" + (":" + t))) == ("\"" + q + "\":") + t
  {
  }

  /** What is printed for a record. */
  function RawOf(r: Written, closing: bool): Raw
  {
    Raw(Some(r.text), Decimal(r.count), closing)
  }

  /** What is read for a record. */
  function ReadRecord(r: Written): Record
    requires Quoted(r.text)
  {
    Record(Some(ReadText(r.text)), r.count)
  }

  lemma RawReads(r: Written, closing: bool)
    requires Quoted(r.text)
    ensures RecordsOf(RawOf(r, closing)) == if closing && r.count == 0 then [] else [ReadRecord(r)]
  {
    UnquoteReads(r.text);
    AtoiDecimal(r.count);
  }

  lemma RangeReads(p: string, i: nat, u: string, v: string, w: string)
    requires Ahead(p, i, u + (v + w))
    ensures i + |u| + |v| <= |p| && RangeText(p, Range(i + |u|, i + |u| + |v|)) == v
  {
    assert p[i..][|u|..][..|v|] == v;
  }

  lemma RecordSplit(q: string, d: string, rest: string)
    ensures ("\"" + q + "\":" + d) + rest == "\"" + (q + ("\"" + (":" + (d + rest))))
  {
    assert "\"" + (":" + (d + rest)) == "\":" + (d + rest);
  }

  /** The marks of records printed one behind the other from `i` on. */
  function MarksOf(i: nat, rs: seq<Written>): seq<Mark>
    requires Printable(rs)
    decreases |rs|
  {
    if rs == [] then []
    else [MarkOf(i, rs[0], |rs| == 1)] + MarksOf(i + |RecordText(rs[0])| + 1, rs[1..])
  }

  lemma MarksCons(i: nat, rs: seq<Written>)
    requires Printable(rs) && rs != []
    ensures MarksOf(i, rs) == [MarkOf(i, rs[0], |rs| == 1)] + MarksOf(i + |RecordText(rs[0])| + 1, rs[1..])
  {
  }

  lemma RecordsSplit(rs: seq<Written>, rest: string)
    requires Printable(rs) && rs != []
    ensures |rs| == 1 ==> RecordsText(rs) + rest == RecordText(rs[0]) + ("}" + rest)
    ensures |rs| > 1 ==> RecordsText(rs) + rest == RecordText(rs[0]) + ("," + (RecordsText(rs[1..]) + rest))
  {
    if |rs| > 1 {
      Regroup(RecordText(rs[0]), "," + RecordsText(rs[1..]), rest);
      Regroup(",", RecordsText(rs[1..]), rest);
    } else {
      Regroup(RecordText(rs[0]), "}", rest);
    }
  }

  lemma Skip(p: string, i: nat, u: string, v: string, w: string)
    requires Ahead(p, i, u + (v + w))
    ensures Ahead(p, i + |u| + |v|, w)
  {
    assert p[i..][|u|..][|v|..] == w;
    assert p[i + |u| + |v|..] == p[i..][|u|..][|v|..];
  }

  /** All records, up to and with the closing bracket. */
  lemma {:induction false} ScanAll(p: string, i: nat, s: Scan, rs: seq<Written>, rest: string)
    requires s.start < i && !s.isCM && !s.isEsc && !s.done && Printable(rs) && rs != []
    requires Ahead(p, i, RecordsText(rs) + rest)
    ensures ScanFrom(p, i, s).marks == s.marks + MarksOf(i, rs)
    decreases |rs|
  {
    var r := rs[0];
    RecordsSplit(rs, rest);
    MarksCons(i, rs);
    if |rs| == 1 {
      ScanLast(p, i, s, r, rest);
      assert MarksOf(i, rs) == [MarkOf(i, r, true)] + [];
    } else {
      var j := i + |RecordText(r)| + 1;
      var t := ScanInner(p, i, s, r, RecordsText(rs[1..]) + rest);
      ScanAll(p, j, t, rs[1..], rest);
      Regroup(s.marks, [MarkOf(i, r, false)], MarksOf(j, rs[1..]));
    }
  }

  lemma ScanLast(p: string, i: nat, s: Scan, r: Written, rest: string)
    requires s.start < i && !s.isCM && !s.isEsc && !s.done && Quoted(r.text)
    requires Ahead(p, i, RecordText(r) + ("}" + rest))
    ensures ScanFrom(p, i, s).marks == s.marks + [MarkOf(i, r, true)]
  {
    ScanRecord(p, i, s, r, "}" + rest);
    var e := i + |RecordText(r)|;
    AheadSplit(p, e, "}", rest);
    assert p[e + 0] == '}';
    ScanOne(p, e, AfterRecord(s, i, r));
  }

  lemma ScanInner(p: string, i: nat, s: Scan, r: Written, rest: string) returns (t: Scan)
    requires s.start < i && !s.isCM && !s.isEsc && !s.done && Quoted(r.text)
    requires Ahead(p, i, RecordText(r) + ("," + rest))
    ensures var e := i + |RecordText(r)| + 1;
      && Ahead(p, e, rest) && t.start < e && !t.isCM && !t.isEsc && !t.done
          && t.marks == s.marks + [MarkOf(i, r, false)]
      && ScanFrom(p, i, s) == ScanFrom(p, e, t)
  {
    ScanRecord(p, i, s, r, "," + rest);
    var e := i + |RecordText(r)|;
    AheadSplit(p, e, ",", rest);
    assert p[e + 0] == ',';
    ScanOne(p, e, AfterRecord(s, i, r));
    t := AfterRecord(s, i, r).(marks := s.marks + [MarkOf(i, r, false)]);
  }

  /** The texts printed for records, the last one in front of the bracket. */
  function RawsOf(rs: seq<Written>): (ws: seq<Raw>)
    requires Printable(rs)
    ensures |ws| == |rs| && forall k | 0 <= k < |rs| :: ws[k] == RawOf(rs[k], k == |rs| - 1)
  {
    seq(|rs|, k requires 0 <= k < |rs| => RawOf(rs[k], k == |rs| - 1))
  }

  lemma RawsAtCons(p: string, k: Mark, ks: seq<Mark>)
    ensures RawsAt(p, [k] + ks) == [RawAt(p, k)] + RawsAt(p, ks)
  {
  }

  lemma RawsOfCons(rs: seq<Written>)
    requires Printable(rs) && rs != []
    ensures RawsOf(rs) == [RawOf(rs[0], |rs| == 1)] + RawsOf(rs[1..])
  {
  }

  lemma MarksReadCons(p: string, i: nat, j: nat, rs: seq<Written>)
    requires Printable(rs) && rs != [] && j == i + |RecordText(rs[0])| + 1
    requires RawAt(p, MarkOf(i, rs[0], |rs| == 1)) == RawOf(rs[0], |rs| == 1)
    requires RawsAt(p, MarksOf(j, rs[1..])) == RawsOf(rs[1..])
    ensures RawsAt(p, MarksOf(i, rs)) == RawsOf(rs)
  {
    MarksCons(i, rs);
    RawsAtCons(p, MarkOf(i, rs[0], |rs| == 1), MarksOf(j, rs[1..]));
    RawsOfCons(rs);
  }

  /** The marks of printed records delimit the texts of the records. */
  lemma {:induction false} MarksRead(p: string, i: nat, rs: seq<Written>, rest: string)
    requires Printable(rs) && rs != [] && Ahead(p, i, RecordsText(rs) + rest)
    ensures RawsAt(p, MarksOf(i, rs)) == RawsOf(rs)
    decreases |rs|
  {
    var j := i + |RecordText(rs[0])| + 1;
    FirstMarkReads(p, i, rs, rest);
    if |rs| > 1 { MarksRead(p, j, rs[1..], rest); }
    MarksReadCons(p, i, j, rs);
  }

  lemma FirstMarkReads(p: string, i: nat, rs: seq<Written>, rest: string)
    requires Printable(rs) && rs != [] && Ahead(p, i, RecordsText(rs) + rest)
    ensures RawAt(p, MarkOf(i, rs[0], |rs| == 1)) == RawOf(rs[0], |rs| == 1)
    ensures |rs| > 1 ==> Ahead(p, i + |RecordText(rs[0])| + 1, RecordsText(rs[1..]) + rest)
  {
    RecordsSplit(rs, rest);
    if |rs| == 1 {
      MarkReads(p, i, rs[0], true, "}" + rest);
    } else {
      InnerMarkReads(p, i, rs[0], RecordsText(rs[1..]) + rest);
    }
  }

  lemma InnerMarkReads(p: string, i: nat, r: Written, rest: string)
    requires Quoted(r.text) && Ahead(p, i, RecordText(r) + ("," + rest))
    ensures RawAt(p, MarkOf(i, r, false)) == RawOf(r, false) && Ahead(p, i + |RecordText(r)| + 1, rest)
  {
    MarkReads(p, i, r, false, "," + rest);
    Skip(p, i, RecordText(r), ",", rest);
  }

  /** What is read for all records: the last one is dropped when nobody has its metadata. */
  function ReadRecords(rs: seq<Written>): seq<Record>
    requires Printable(rs)
  {
    if rs == [] then []
    else (if |rs| == 1 && rs[0].count == 0 then [] else [ReadRecord(rs[0])]) + ReadRecords(rs[1..])
  }

  lemma {:induction false} AllRecordsCons(w: Raw, ws: seq<Raw>)
    ensures AllRecords([w] + ws) == RecordsOf(w) + AllRecords(ws)
  {
    var u := [w] + ws;
    if ws == [] {
      assert u[..0] == [] && u == [w];
      assert AllRecords([w]) == AllRecords([]) + RecordsOf(w);
    } else {
      var n := |ws| - 1;
      assert u[..|u| - 1] == [w] + ws[..n] && u[|u| - 1] == ws[n];
      AllRecordsCons(w, ws[..n]);
      Regroup(RecordsOf(w), AllRecords(ws[..n]), RecordsOf(ws[n]));
    }
  }

  /** The texts give back the records. */
  lemma {:induction false} RawsRead(rs: seq<Written>)
    requires Printable(rs)
    ensures AllRecords(RawsOf(rs)) == ReadRecords(rs)
  {
    if rs != [] {
      RawsRead(rs[1..]);
      RawsOfCons(rs);
      RawReads(rs[0], |rs| == 1);
      AllRecordsCons(RawOf(rs[0], |rs| == 1), RawsOf(rs[1..]));
    }
  }

  // ---------------------------------------------------------------------- the reply

  lemma {:induction false} CountEnds(p: string, i: nat, d: string, rest: string)
    requires Ahead(p, i, d + rest) && rest != "" && (rest[0] == ',' || rest[0] == '}')
    requires forall k | 0 <= k < |d| :: '0' <= d[k] <= '9'
    ensures i <= |p| && CountEnd(p, i) == i + |d| && Ahead(p, i + |d|, rest)
    decreases |d|
  {
    AheadSplit(p, i, d, rest);
    if d == "" {
      assert p[i..][0] == rest[0];
    } else {
      assert p[i + 0] == d[0];
      assert d + rest == [d[0]] + (d[1..] + rest);
      AheadSplit(p, i, [d[0]], d[1..] + rest);
      CountEnds(p, i + 1, d[1..], rest);
    }
  }

  const START_OF_REPLY := "{\"subscriptions\":"

  lemma PrintSplit(n: nat, metadata: bool, rs: seq<Written>)
    requires Printable(rs)
    ensures var p := Print(n, metadata, rs);
      var rest := if metadata then ",\"metadata\":{" + (RecordsText(rs) + "}") else "}";
      && p == START_OF_REPLY + (Decimal(n) + rest) && Ahead(p, 17, Decimal(n) + rest)
      && |p| >= 19 && p[1] == '"' && p[16] == ':'
  {
    var d, rest := Decimal(n), if metadata then ",\"metadata\":{" + (RecordsText(rs) + "}") else "}";
    if metadata { Regroup(",\"metadata\":{", RecordsText(rs), "}"); }
    Regroup(START_OF_REPLY, d, rest);
    ReplyBegins(d + rest);
  }

  lemma ReplyBegins(t: string)
    ensures var p := START_OF_REPLY + t; Ahead(p, 17, t) && p[1] == '"' && p[16] == ':'
  {
  }

  /** Without records the closing bracket is found, and nothing is added. */
  lemma ScanNone(p: string, i: nat, rest: string)
    requires i >= 17 && Ahead(p, i, "}" + rest) && p[1] == '"'
    ensures RecordsFrom(p, i) == []
  {
    AheadSplit(p, i, "}", rest);
    assert p[i + 0] == '}';
    assert p[1..i][0] == '"';
    assert Atoi(p[1..i]) == 0;
    ScanOne(p, i, FRESH);
    var w := Raw(None, p[1..i], true);
    AllRecordsNext([], w);
    assert RawsAt(p, [Mark(None, Range(1, i), true)]) == [] + [w];
  }

  lemma NumberAt(p: string, i: nat, n: nat, rest: string)
    requires Ahead(p, i, Decimal(n) + rest)
    ensures i + |Decimal(n)| <= |p| && Atoi(p[i..i + |Decimal(n)|]) == n
  {
    assert p[i..][..|Decimal(n)|] == Decimal(n);
    assert p[i..i + |Decimal(n)|] == Decimal(n);
    AtoiDecimal(n);
  }

  /** In front of the records: the opening bracket. */
  lemma ScanBracket(p: string, i: nat, rest: string)
    requires i >= 17 && Ahead(p, i, ",\"metadata\":{" + rest)
    ensures Ahead(p, i + 13, rest) && ScanFrom(p, i + 12, FRESH) == ScanFrom(p, i + 13, FRESH)
  {
    AheadSplit(p, i, ",\"metadata\":{", rest);
    assert p[i + 12] == '{';
    ScanOne(p, i + 12, FRESH);
  }

  lemma ScanWritten(p: string, i: nat, rs: seq<Written>, rest: string)
    requires i > 0 && Printable(rs) && rs != [] && Ahead(p, i, RecordsText(rs) + rest)
    ensures RawsAt(p, ScanFrom(p, i, FRESH).marks) == RawsOf(rs)
  {
    ScanAll(p, i, FRESH, rs, rest);
    MarksRead(p, i, rs, rest);
    assert [] + MarksOf(i, rs) == MarksOf(i, rs);
  }

  /** The metadata part of the reply, from its comma on, without records and with some. */
  lemma ScanEmptyReply(p: string, i: nat)
    requires i >= 17 && Ahead(p, i, ",\"metadata\":{" + ("}" + "}")) && p[1] == '"'
    ensures RecordsFrom(p, i + 12) == []
  {
    ScanBracket(p, i, "}" + "}");
    ScanNone(p, i + 13, "}");
  }

  /** The records and the two closing brackets come next. */
  ghost predicate RecordsAhead(p: string, i: nat, rs: seq<Written>) {
    Printable(rs) && Ahead(p, i, RecordsText(rs) + "}")
  }

  lemma ScanFull(p: string, i: nat, rs: seq<Written>)
    requires i > 0 && rs != [] && RecordsAhead(p, i, rs)
    ensures Printable(rs) && RecordsFrom(p, i) == ReadRecords(rs)
  {
    ScanWritten(p, i, rs, "}");
    RawsRead(rs);
  }

  lemma BracketThen(p: string, i: nat, rs: seq<Written>)
    requires i >= 17 && Printable(rs) && Ahead(p, i, ",\"metadata\":{" + (RecordsText(rs) + "}"))
    ensures RecordsAhead(p, i + 13, rs) == true && RecordsFrom(p, i + 12) == RecordsFrom(p, i + 13)
  {
    ScanBracket(p, i, RecordsText(rs) + "}");
  }

  lemma ScanFullReply(p: string, i: nat, rs: seq<Written>)
    requires i >= 17 && Printable(rs) && rs != [] && Ahead(p, i, ",\"metadata\":{" + (RecordsText(rs) + "}")) == true
    ensures RecordsFrom(p, i + 12) == ReadRecords(rs)
  {
    BracketThen(p, i, rs);
    ScanFull(p, i + 13, rs);
  }

  /**
   Whatever the records, with any pairs in their texts and any counts, the scanner gives
   back the count and what is read for the records, in order.
   */
  lemma ParseWritten(n: nat, metadata: bool, rs: seq<Written>)
    requires Printable(rs) && (!metadata ==> rs == [])
    ensures Parse(Print(n, metadata, rs)) == Some(Data(n, ReadRecords(rs)))
  {
    var p := Print(n, metadata, rs);
    var rest := if metadata then ",\"metadata\":{" + (RecordsText(rs) + "}") else "}";
    PrintSplit(n, metadata, rs);
    CountEnds(p, 17, Decimal(n), rest);
    NumberAt(p, 17, n, rest);
    var i := 17 + |Decimal(n)|;
    assert p[i..][0] == rest[0];
    if metadata {
      if rs == [] { ScanEmptyReply(p, i); } else { ScanFullReply(p, i, rs); }
    }
  }

  /** Any metadata, with a backslash before each backslash and quote. */
  function WrittenOf(rs: seq<Record>): (ws: seq<Written>)
    requires forall k | 0 <= k < |rs| :: rs[k].metadata.Some? && rs[k].count >= 1
    ensures |ws| == |rs| && forall k | 0 <= k < |rs| :: ws[k] == Written(Quote(rs[k].metadata.value), rs[k].count)
  {
    seq(|rs|, k requires 0 <= k < |rs| => Written(Quote(rs[k].metadata.value), rs[k].count))
  }

  lemma {:induction false} ReadsBack(rs: seq<Record>)
    requires forall k | 0 <= k < |rs| :: rs[k].metadata.Some? && rs[k].count >= 1
    ensures Printable(WrittenOf(rs)) && ReadRecords(WrittenOf(rs)) == rs
  {
    var ws := WrittenOf(rs);
    forall k | 0 <= k < |ws| ensures Quoted(ws[k].text) { QuoteReads(rs[k].metadata.value); }
    if rs != [] {
      ReadsBack(rs[1..]);
      QuoteReads(rs[0].metadata.value);
      assert ws[1..] == WrittenOf(rs[1..]);
      assert ReadRecord(ws[0]) == rs[0];
      assert rs == [rs[0]] + rs[1..];
    }
  }

  /** Records of any metadata and positive counts are given back, in order. */
  lemma ParsePrinted(n: nat, metadata: bool, rs: seq<Record>)
    requires forall k | 0 <= k < |rs| :: rs[k].metadata.Some? && rs[k].count >= 1
    requires !metadata ==> rs == []
    ensures Printable(WrittenOf(rs)) && Parse(Print(n, metadata, WrittenOf(rs))) == Some(Data(n, rs))
  {
    ReadsBack(rs);
    ParseWritten(n, metadata, WrittenOf(rs));
  }
}
