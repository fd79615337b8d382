/**
 The message branch of the receiver: the frame is taken apart by the matcher, a part is
 stored, and a message is fired when it is complete.
 */
module Receiver {
  import opened Basics
  import opened SlreProgram
  import opened SlreSyntax
  import opened SlreCodegen
  import opened Patterns
  import opened Captures
  import opened Frames
  import opened CaptureRange
  import opened Slre
  import opened WireDecode
  import opened Decimals
  import opened Reassembly
  import Channels
  import PartRuns
  import DList
  import Text

  // ------------------------------------------------------------------ the two patterns

  ghost predicate HoldsMessage(re: Engine)
    reads re, re.code, re.data
  {
    re.Valid() && re.Loaded(0, Lower(MessageAlt())) && CapsBelow(Lower(MessageAlt()), 3) && re.anchored
  }

  ghost predicate HoldsMultipart(re: Engine)
    reads re, re.code, re.data
  {
    re.Valid() && re.Loaded(0, Lower(MultipartAlt())) && CapsBelow(Lower(MultipartAlt()), 5) && re.anchored
  }

  /** Both patterns are compiled; `== true` keeps the verifier from taking it apart where it is only passed on. */
  ghost predicate Compiled(reMessage: Engine, reMultipart: Engine)
    reads reMessage, reMessage.code, reMessage.data, reMultipart, reMultipart.code, reMultipart.data
  {
    HoldsMessage(reMessage) && HoldsMultipart(reMultipart)
  }

  lemma MessageGroups()
    ensures AltCaps(MessageAlt()) == 2
  {
    var end := PCons(Once1(Esc('}')), PCons(Once1(Lit("\"")), PCons(Once1(Esc(']')), PCons(Eol, PNil))));
    LowerAnyText(0, 0, Halt);
    assert PiecesCaps(PCons(Once1(Esc(']')), PCons(Eol, PNil))) == 0;
    assert PiecesCaps(end) == 0;
    assert PiecesCaps(Quoted("\"", end)) == 0;
    assert PiecesCaps(MessageEnd()) == 1;
    assert PiecesCaps(Quoted("\":", Quoted("\"", MessageEnd()))) == 1;
    assert PiecesCaps(Quoted("\",", Quoted("\"m", Quoted("\":", Quoted("\"", MessageEnd()))))) == 1;
    assert PiecesCaps(MessageMiddle()) == 2;
    assert PiecesCaps(Quoted("\":", Quoted("\"", MessageMiddle()))) == 2;
    var k := Quoted("\"ch", Quoted("\":", Quoted("\"", MessageMiddle())));
    assert PiecesCaps(k) == 2;
    assert PiecesCaps(PCons(Once1(Esc('[')), PCons(Once1(Lit("\"{")), k))) == 2;
    assert PiecesCaps(PCons(Item(Lit("a"), ZeroOrOne), PCons(Once1(Esc('[')), PCons(Once1(Lit("\"{")), k)))) == 2;
  }

  lemma MultipartGroups()
    ensures AltCaps(MultipartAlt()) == 4
  {
    LowerAnyText(0, 0, Halt);
    LowerField(NotUnderscore(), 0, 0, Halt);
    assert PiecesCaps(PCons(Once1(ANY_TEXT), PCons(Eol, PNil))) == 1;
    assert PiecesCaps(HeaderEnd()) == 2;
    var k := PCons(Once1(Field(NotUnderscore())), PCons(Once1(Lit("-")), HeaderEnd()));
    assert PiecesCaps(k) == 3;
    assert PiecesCaps(PCons(Once1(Field(NotUnderscore())), PCons(Once1(Lit("_")), k))) == 4;
  }

  method CompileMessage() returns (re: Engine)
    ensures HoldsMessage(re) && fresh(re)
  {
    MessageCompilable();
    MessageGroups();
    re := new Engine();
    var ok := re.SlreCompile(MESSAGE_PATTERN, MessageAlt());
  }

  method CompileMultipart() returns (re: Engine)
    ensures HoldsMultipart(re) && fresh(re)
  {
    MultipartCompilable();
    MultipartGroups();
    re := new Engine();
    var ok := re.SlreCompile(MULTIPART_PATTERN, MultipartAlt());
  }

  // ---------------------------------------------------------------- taking a frame apart

  const NO_CAPS := [Cap(0, 0), Cap(0, 0), Cap(0, 0)]

  ghost predicate MessageMatches(s: string) {
    Productive(Lower(MessageAlt())) && Search(Lower(MessageAlt()), true, s, NO_CAPS).ok
  }

  /** The frames of the message branch. */
  ghost predicate IsMessage(s: string) { s != "" && s[0] == 'a' && MessageMatches(s) }

  /** The frame of a channel and a text, with the ends of both. */
  ghost predicate FrameWith(s: string, c: string, t: string) { s == FrameOf(c, t) && NoSeparator(t) }

  ghost predicate TextsEnd(c: string, t: string, m: nat, e: nat) { m == 13 + |c| && e == m + 11 + |t| }

  /** The matcher on a message frame; `m` and `e` are where the channel and the text end. */
  method MatchMessage(reMessage: Engine, s: string, ghost c: string, ghost t: string, ghost m: nat, ghost e: nat)
    returns (found: bool, pmatch: array<Cap>)
    requires HoldsMessage(reMessage) && TextsEnd(c, t, m, e)
    ensures fresh(pmatch) && pmatch.Length == 3 && found == MessageMatches(s)
    ensures found ==> AllInText(s, pmatch[..], 0)
    ensures FrameWith(s, c, t) ==> found && pmatch[..][1..] == FrameCaps(m, e)
  {
    pmatch := new Cap[3](_ => Cap(0, 0));
    assert pmatch[..] == NO_CAPS;
    MessageInText(s, NO_CAPS);
    if FrameWith(s, c, t) { FrameMatches(s, c, t, m, e); }
    found := reMessage.SlreMatch(s, pmatch, Lower(MessageAlt()));
  }

  lemma FrameMatches(s: string, c: string, t: string, m: nat, e: nat)
    requires FrameWith(s, c, t) && TextsEnd(c, t, m, e)
    ensures MessageMatches(s) && Search(Lower(MessageAlt()), true, s, NO_CAPS).caps[1..] == FrameCaps(m, e)
  {
    FrameLaysOut(s, c, t, m, e);
    var o := MessageCaptures(s, m, e, NO_CAPS);
  }

  lemma FrameLaysOut(s: string, c: string, t: string, m: nat, e: nat)
    requires FrameWith(s, c, t) && TextsEnd(c, t, m, e)
    ensures FrameLaidOut(s, m, e)
  {
    FrameIsLaidOut(c, t);
  }

  method FromSlre(s: string, pmatch: array<Cap>, k: nat) returns (w: string)
    requires k < pmatch.Length && InText(s, pmatch[k])
    ensures w == s[pmatch[k].ptr..pmatch[k].ptr + pmatch[k].len]
  {
    w := s[pmatch[k].ptr..pmatch[k].ptr + pmatch[k].len];
  }

  /** The channel and the text of a message frame; `c` and `t` are what it was made of. */
  method TakeMessage(reMessage: Engine, s: string, ghost c: string, ghost t: string)
    returns (found: bool, channel: string, text: string)
    requires HoldsMessage(reMessage)
    ensures found == MessageMatches(s)
    ensures FrameWith(s, c, t) ==> found && channel == c && text == t
    ensures |text| <= |s|
  {
    ghost var m, e := 13 + |c|, 24 + |c| + |t|;
    var pmatch;
    found, pmatch := MatchMessage(reMessage, s, c, t, m, e);
    channel, text := "", "";
    if found {
      channel, text := CopyMessage(s, pmatch);
      if FrameWith(s, c, t) { MessageIs(s, c, t, m, e, pmatch[..], channel, text); }
    }
  }

  method CopyMessage(s: string, pmatch: array<Cap>) returns (channel: string, text: string)
    requires pmatch.Length == 3 && AllInText(s, pmatch[..], 0)
    ensures CapturedIs(s, pmatch[1], channel) && CapturedIs(s, pmatch[2], text)
  {
    assert forall k: nat | k < 3 :: InText(s, pmatch[..][k]);
    channel := FromSlre(s, pmatch, 1);
    text := FromSlre(s, pmatch, 2);
  }

  lemma MessageIs(s: string, c: string, t: string, m: nat, e: nat, caps: seq<Cap>, channel: string, text: string)
    requires s == FrameOf(c, t) && TextsEnd(c, t, m, e) && |caps| == 3 && caps[1..] == FrameCaps(m, e)
    requires CapturedIs(s, caps[1], channel) && CapturedIs(s, caps[2], text)
    ensures channel == c && text == t
  {
    FrameParts(c, t, s, m, e);
    assert caps[1] == caps[1..][0] && caps[2] == caps[1..][1];
  }

  datatype Fields = Fields(id: string, count: string, total: string, payload: string)

  ghost predicate Made(s: string, f: Fields) {
    s == HeaderOf(f.id, f.count, f.total, f.payload) && IdText(f.id) && NumberText(f.count) && NumberText(f.total)
  }

  /** Where the separators of a header are. */
  ghost predicate SeparatedAt(f: Fields, a: nat, b: nat, c: nat) {
    a == |f.id| && b == a + 1 + |f.count| && c == b + 1 + |f.total|
  }

  const NO_FIELDS := [Cap(0, 0), Cap(0, 0), Cap(0, 0), Cap(0, 0), Cap(0, 0)]

  /** The texts that the multipart pattern takes apart. */
  ghost predicate MultipartMatches(s: string) {
    Productive(Lower(MultipartAlt())) && Search(Lower(MultipartAlt()), true, s, NO_FIELDS).ok
  }

  /** The fields that it finds in them. */
  ghost predicate HeaderIs(s: string, f: Fields) {
    MultipartMatches(s) && FieldsAt(s, Search(Lower(MultipartAlt()), true, s, NO_FIELDS).caps, f)
  }

  /** The matcher with five captures, for whatever pattern the engine holds. */
  method MatchFive(re: Engine, s: string, ghost p: Prog) returns (found: bool, pmatch: array<Cap>)
    requires re.Valid() && re.Loaded(0, p) && CapsBelow(p, 5) && Productive(p)
    ensures fresh(pmatch) && pmatch.Length == 5
    ensures var o := Search(p, re.anchored, s, NO_FIELDS); found == o.ok && pmatch[..] == o.caps
  {
    pmatch := new Cap[5](_ => Cap(0, 0));
    assert pmatch[..] == NO_FIELDS;
    found := re.SlreMatch(s, pmatch, p);
  }

  method MatchMultipart(reMultipart: Engine, s: string) returns (found: bool, pmatch: array<Cap>)
    requires HoldsMultipart(reMultipart)
    ensures fresh(pmatch) && pmatch.Length == 5 && found == MultipartMatches(s)
    ensures found ==>
      AllInText(s, pmatch[..], 0) && pmatch[..] == Search(Lower(MultipartAlt()), true, s, NO_FIELDS).caps
  {
    MultipartInText(s, NO_FIELDS);
    found, pmatch := MatchFive(reMultipart, s, Lower(MultipartAlt()));
  }

  lemma MadeIsLaidOut(s: string, f: Fields, a: nat, b: nat, c: nat)
    requires Made(s, f) && SeparatedAt(f, a, b, c)
    ensures HeaderLaidOut(s, a, b, c)
  {
    HeaderIsLaidOut(f.id, f.count, f.total, f.payload);
  }

  /** The four fields of a header. */
  method TakeHeader(reMultipart: Engine, s: string) returns (found: bool, r: Fields)
    requires HoldsMultipart(reMultipart)
    ensures found == MultipartMatches(s) && (found ==> HeaderIs(s, r))
    ensures |r.payload| <= |s|
  {
    var pmatch;
    found, pmatch := MatchMultipart(reMultipart, s);
    r := Fields("", "", "", "");
    if found { r := CopyFields(s, pmatch); }
  }

  method CopyFields(s: string, pmatch: array<Cap>) returns (r: Fields)
    requires pmatch.Length == 5 && AllInText(s, pmatch[..], 0)
    ensures FieldsAt(s, pmatch[..], r)
  {
    assert forall k: nat | k < 5 :: InText(s, pmatch[..][k]);
    var id := FromSlre(s, pmatch, 1);
    var count := FromSlre(s, pmatch, 2);
    var total := FromSlre(s, pmatch, 3);
    var payload := FromSlre(s, pmatch, 4);
    r := Fields(id, count, total, payload);
  }

  ghost predicate FieldsAt(s: string, c: seq<Cap>, r: Fields) {
    && |c| == 5 && AllInText(s, c, 0) && CapturedIs(s, c[1], r.id) && CapturedIs(s, c[2], r.count)
    && CapturedIs(s, c[3], r.total) && CapturedIs(s, c[4], r.payload)
  }

  /** A header made of four fields is one, and these fields are found in it. */
  lemma HeaderRead(s: string, f: Fields)
    requires Made(s, f)
    ensures MultipartMatches(s) && forall g | HeaderIs(s, g) :: g == f
  {
    var a, b := |f.id|, |f.id| + 1 + |f.count|;
    var c := b + 1 + |f.total|;
    var caps := HeaderFound(s, f, a, b, c);
    forall g | HeaderIs(s, g) ensures g == f { FieldsOnce(s, f, a, b, c, caps, g); }
  }

  lemma HeaderFound(s: string, f: Fields, a: nat, b: nat, c: nat) returns (caps: seq<Cap>)
    requires Made(s, f) && SeparatedAt(f, a, b, c)
    ensures MultipartMatches(s) && caps == Search(Lower(MultipartAlt()), true, s, NO_FIELDS).caps
    ensures |caps| == 5 && caps[1..] == FieldCaps(a, b, c, |s|)
  {
    MadeIsLaidOut(s, f, a, b, c);
    var o := MultipartCaptures(s, a, b, c, NO_FIELDS);
    caps := o.caps;
  }

  lemma FieldsOnce(s: string, f: Fields, a: nat, b: nat, c: nat, caps: seq<Cap>, g: Fields)
    requires Made(s, f) && SeparatedAt(f, a, b, c) && FieldsAt(s, caps, g) && caps[1..] == FieldCaps(a, b, c, |s|)
    ensures g == f
  {
    SpansCapture(s, f.id, f.count, f.total, f.payload, caps);
  }

  /** Without an underscore a text is no header. */
  lemma NoUnderscore(s: string)
    requires forall k | 0 <= k < |s| :: s[k] != '_'
    ensures !MultipartMatches(s)
  {
    HeaderNeedsUnderscore(s, NO_FIELDS);
  }

  // ------------------------------------------------------------------------- firing

  /** The call of a channel's callback. */
  datatype Fired = Fired(callback: nat, channel: string, text: string)

  function Fire(channels: seq<DList.Entry>, channel: string, text: string): Option<Fired> {
    var k := DList.FirstMatch(channels, DList.ById(channel));
    if k < |channels| && channels[k].callback.Some?
    then Some(Fired(channels[k].callback.value, channel, Unescape(10, text)))
    else None
  }

  /** A callback given to `Subscribe` is the one that is called, if the channel was not in the list before. */
  lemma CallbackIsStored(u: seq<DList.Entry>, channel: string, again: int, f: nat, w: seq<DList.Entry>, text: string)
    requires forall i | 0 <= i < |u| :: u[i].id != channel
    ensures Fire(u + [Channels.Subscribed(channel, again, Some(f))] + w, channel, text)
         == Some(Fired(f, channel, Unescape(10, text)))
    ensures Fire(u, channel, text) == None
  {
    DList.FirstFound(u, Channels.Subscribed(channel, again, Some(f)), w, DList.ById(channel));
    DList.FirstMatchIs(u, DList.ById(channel), |u|);
  }

  method FireOnMessage(channels: DList.List, channel: string, message: string) returns (fired: Option<Fired>)
    requires channels.Valid() && |message| <= Text.INT_MAX
    ensures fired == Fire(channels.view, channel, message)
  {
    var t := channels.Search(channel);
    var messageR := EscapeSequencesAfter(message);
    fired := None;
    if t != null {
      assert t.Contents() == channels.view[DList.FirstMatch(channels.view, DList.ById(channel))];
      if t.callback.Some? {
        fired := Some(Fired(t.callback.value, channel, messageR));
      }
    }
  }

  /** The header fields of a part. */
  function FieldsOf(p: Part): Fields { Fields(p.id, Decimal(p.num), Decimal(p.total), p.payload) }

  function HeaderText(p: Part): string { HeaderOf(p.id, Decimal(p.num), Decimal(p.total), p.payload) }

  /** The text of a frame that carries a part. */
  function PartFrame(p: Part): string { FrameOf(p.channel, HeaderText(p)) }

  /** A part as the sender and the server make it. */
  ghost predicate PartOk(p: Part) {
    IdText(p.id) && NoSeparator(HeaderText(p))
  }

  /** The arrival of a part: the store afterwards and the message that is fired. */
  function Arrival(v: seq<DList.Entry>, p: Part): PartRuns.Store {
    if p.total > 1 then PartRuns.Receive(PartRuns.Store(v, []), p)
        else PartRuns.Store(v, [Joined(p.channel, p.payload)])
  }

  function FireAll(channels: seq<DList.Entry>, log: seq<Joined>): Option<Fired> {
    if log == [] then None else Fire(channels, log[0].channel, log[0].text)
  }

  /** Checks whether the message is complete, and fires it. */
  method CheckAndFire(multiparts: DList.List, channels: DList.List, id: string, total: nat)
    returns (fired: Option<Fired>)
    requires multiparts.Valid() && channels.Valid() && multiparts != channels && multiparts.repr !! channels.repr
    requires total >= 1
    requires TextSize(multiparts.view) <= Text.INT_MAX
    modifies multiparts, multiparts.repr
    ensures multiparts.Valid() && channels.Valid() && channels.view == old(channels.view)
    ensures multiparts.repr == old(multiparts.repr)
    ensures if HasAll(old(multiparts.view), id, total)
            then multiparts.view == WithoutParts(old(multiparts.view), id, total)
                 && fired == Fire(channels.view, TextOf(PartRuns.FirstPart(old(multiparts.view), id)),
                     JoinedText(old(multiparts.view), id, total))
            else multiparts.view == old(multiparts.view) && fired == None
  {
    ghost var v := multiparts.view;
    if HasAll(v, id, total) { JoinedSize(v, id, total); }
    var r := CheckIfGotAllParts(multiparts, id, total);
    if r.Some? {
      fired := FireOnMessage(channels, r.value.channel, r.value.text);
    } else {
      fired := None;
    }
  }

  /** What the arrival of a header with these fields does: the store afterwards and the message that is fired. */
  function Then(v: seq<DList.Entry>, channel: string, f: Fields): PartRuns.Store {
    var total := Atoi(f.total);
    var u := v + [DList.Entry(f.id, Some(channel), Some(f.payload), Atoi(f.count), None)];
    if total <= 1 then PartRuns.Store(v, [Joined(channel, f.payload)])
    else if PartRuns.AllThere(u, f.id, total)
    then PartRuns.Store(WithoutParts(u, f.id, total),
                        [Joined(TextOf(PartRuns.FirstPart(u, f.id)), JoinedText(u, f.id, total))])
    else PartRuns.Store(u, [])
  }

  /** For the header of a part it is the arrival of the part. */
  lemma ThenIsArrival(v: seq<DList.Entry>, p: Part)
    ensures Then(v, p.channel, FieldsOf(p)) == Arrival(v, p)
  {
    AtoiDecimal(p.num);
    AtoiDecimal(p.total);
  }

  /** The branch for a text whose header has been read. */
  method StorePart(multiparts: DList.List, channels: DList.List, channel: string, f: Fields)
    returns (fired: Option<Fired>)
    requires multiparts.Valid() && channels.Valid() && multiparts != channels && multiparts.repr !! channels.repr
    requires TextSize(multiparts.view) + |f.payload| <= Text.INT_MAX
    modifies multiparts, multiparts.repr
    ensures multiparts.Valid() && channels.Valid() && channels.view == old(channels.view)
    ensures fresh(multiparts.repr - old(multiparts.repr))
    ensures var after := Then(old(multiparts.view), channel, f);
      multiparts.view == after.parts && fired == FireAll(channels.view, after.log)
  {
    var iMessageTotal := Atoi(f.total);
    if iMessageTotal > 1 {
      ghost var v := multiparts.view;
      var e := DList.Entry(f.id, Some(channel), Some(f.payload), Atoi(f.count), None);
      multiparts.Insert(e);
      TextSizeConcat(v, [e]);
      fired := CheckAndFire(multiparts, channels, f.id, iMessageTotal);
    } else {
      fired := FireOnMessage(channels, channel, f.payload);
    }
  }

  lemma HeaderIsMade(p: Part)
    requires PartOk(p)
    ensures Made(HeaderText(p), FieldsOf(p))
  {
  }

  /** What a frame carries: nothing that concerns messages, a text without header, or a part. */
  datatype Reading = Other | Bare(channel: string, text: string) | APart(channel: string, fields: Fields)

  ghost predicate Carries(message: string, p: Part) { PartOk(p) && message == PartFrame(p) }

  /** What is read in the frame of a channel and a text. */
  ghost predicate IsRead(r: Reading, c: string, t: string) {
    if MultipartMatches(t) then r.APart? && r.channel == c && HeaderIs(t, r.fields) else r == Bare(c, t)
  }

  /** Reads a frame with the two patterns; `c` and `t` are what the frame was made of. */
  method ReadFrame(reMessage: Engine, reMultipart: Engine, message: string, ghost c: string, ghost t: string)
    returns (r: Reading)
    requires Compiled(reMessage, reMultipart) == true
    ensures r == Other <==> !MessageMatches(message)
    ensures r.Bare? ==> |r.text| <= |message|
    ensures r.APart? ==> |r.fields.payload| <= |message|
    ensures FrameWith(message, c, t) ==> IsRead(r, c, t) == true
  {
    var found, channel, text := TakeMessage(reMessage, message, c, t);
    if !found { return Other; }
    var f: Fields;
    found, f := TakeHeader(reMultipart, text);
    r := if found then APart(channel, f) else Bare(channel, text);
  }

  /** The two lists are in order and share no nodes. */
  ghost predicate Stores(multiparts: DList.List, channels: DList.List)
    reads multiparts, multiparts.nodes, channels, channels.nodes
  {
    multiparts.Valid() && channels.Valid() && multiparts != channels && multiparts.repr !! channels.repr
  }

  /** What a reading does to the store, and what it fires. */
  function Effect(v: seq<DList.Entry>, r: Reading): PartRuns.Store {
    match r
    case Other => PartRuns.Store(v, [])
    case Bare(channel, text) => PartRuns.Store(v, [Joined(channel, text)])
    case APart(channel, f) => Then(v, channel, f)
  }

  /**
   The frame of a channel and a text has been received: with a header in the text its
   fields have been dealt with; without one the store is as it was, and the first entry
   of the channel is called with the text.
   */
  ghost predicate Received(v: seq<DList.Entry>, channels: seq<DList.Entry>, c: string, t: string,
                           w: seq<DList.Entry>, fired: Option<Fired>)
  {
    if MultipartMatches(t)
    then exists f :: HeaderIs(t, f) && w == Then(v, c, f).parts && fired == FireAll(channels, Then(v, c, f).log)
    else w == v && fired == Fire(channels, c, t)
  }

  lemma ReadIsReceived(v: seq<DList.Entry>, channels: seq<DList.Entry>, r: Reading, message: string, c: string,
                       t: string)
    requires FrameWith(message, c, t) ==> IsRead(r, c, t)
    ensures FrameWith(message, c, t) ==>
      Received(v, channels, c, t, Effect(v, r).parts, FireAll(channels, Effect(v, r).log)) == true
  {
  }

  /** So the frame of a part is its arrival. */
  lemma PartReceived(v: seq<DList.Entry>, channels: seq<DList.Entry>, p: Part, w: seq<DList.Entry>,
                     fired: Option<Fired>)
    requires PartOk(p) && Received(v, channels, p.channel, HeaderText(p), w, fired)
    ensures w == Arrival(v, p).parts && fired == FireAll(channels, Arrival(v, p).log)
  {
    HeaderIsMade(p);
    HeaderRead(HeaderText(p), FieldsOf(p));
    ThenIsArrival(v, p);
  }

  /** And a text without underscore reaches the callback; without backslashes, as it is. */
  lemma TextReceived(v: seq<DList.Entry>, channels: seq<DList.Entry>, c: string, t: string, w: seq<DList.Entry>,
                     fired: Option<Fired>)
    requires Received(v, channels, c, t, w, fired) && forall k | 0 <= k < |t| :: t[k] != '_'
    ensures var k := DList.FirstMatch(channels, DList.ById(c));
      w == v && fired == if k < |channels| && channels[k].callback.Some?
                         then Some(Fired(channels[k].callback.value, c, Unescape(10, t))) else None
    ensures (forall k | 0 <= k < |t| :: t[k] != '\\') ==> Unescape(10, t) == t
  {
    NoUnderscore(t);
    if forall k | 0 <= k < |t| :: t[k] != '\\' { NothingToUnescape(10, t); }
  }

  /** And so does the text behind a header with a total of one, or with none that is a number. */
  lemma WholeReceived(v: seq<DList.Entry>, channels: seq<DList.Entry>, c: string, t: string, w: seq<DList.Entry>,
                      fired: Option<Fired>, f: Fields)
    requires Received(v, channels, c, t, w, fired) && HeaderIs(t, f) && Atoi(f.total) <= 1
    ensures w == v && fired == Fire(channels, c, f.payload)
  {
    var g :| HeaderIs(t, g) && w == Then(v, c, g).parts && fired == FireAll(channels, Then(v, c, g).log);
    OneHeader(t, f, g);
  }

  lemma OneHeader(s: string, f: Fields, g: Fields)
    requires HeaderIs(s, f) && HeaderIs(s, g)
    ensures f == g
  {
    SameFields(s, Search(Lower(MultipartAlt()), true, s, NO_FIELDS).caps, f, g);
  }

  lemma SameFields(s: string, caps: seq<Cap>, f: Fields, g: Fields)
    requires FieldsAt(s, caps, f) && FieldsAt(s, caps, g)
    ensures f == g
  {
  }

  /**
   The message branch of the receiver. Frames that it does not take are left to the
   branches that follow.
   */
  method ReceiveFrame(reMessage: Engine, reMultipart: Engine, multiparts: DList.List, channels: DList.List,
                      message: string, ghost c: string, ghost t: string)
    returns (taken: bool, fired: Option<Fired>)
    requires Compiled(reMessage, reMultipart) == true && Stores(multiparts, channels) == true
    requires TextSize(multiparts.view) + |message| <= Text.INT_MAX
    modifies multiparts, multiparts.repr
    ensures Stores(multiparts, channels) == true
    ensures forall n | n in multiparts.repr :: n in old(multiparts.repr) || fresh(n)
    ensures taken <==> IsMessage(message)
    ensures taken ==> channels.view == old(channels.view)
    ensures !taken ==> multiparts.view == old(multiparts.view) && fired == None
    ensures FrameWith(message, c, t) ==>
      taken && Received(old(multiparts.view), channels.view, c, t, multiparts.view, fired) == true
  {
    if message == "" || message[0] != 'a' { return false, None; }
    var r := ReadFrame(reMessage, reMultipart, message, c, t);
    taken := r != Other;
    ReadIsReceived(multiparts.view, channels.view, r, message, c, t);
    fired := Dispatch(multiparts, channels, r);
  }

  method Dispatch(multiparts: DList.List, channels: DList.List, r: Reading) returns (fired: Option<Fired>)
    requires Stores(multiparts, channels) == true
    requires r.Bare? ==> |r.text| <= Text.INT_MAX
    requires r.APart? ==> TextSize(multiparts.view) + |r.fields.payload| <= Text.INT_MAX
    modifies multiparts, multiparts.repr
    ensures Stores(multiparts, channels) == true && channels.view == old(channels.view)
    ensures forall n | n in multiparts.repr :: n in old(multiparts.repr) || fresh(n)
    ensures multiparts.view == Effect(old(multiparts.view), r).parts
    ensures fired == FireAll(channels.view, Effect(old(multiparts.view), r).log)
  {
    match r
    case Other => fired := None;
    case Bare(channel, text) => fired := FireOnMessage(channels, channel, text);
    case APart(channel, f) => fired := StorePart(multiparts, channels, channel, f);
  }
}
