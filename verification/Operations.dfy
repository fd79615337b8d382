/**
 The operation branch of the receiver: a validated frame saves the permissions and asks
 for CONNECTED, a confirmation changes the list of channels, an error cancels the
 connection that is being made.
 */
module Operations {
  import opened Basics
  import opened SlreProgram
  import opened SlreSyntax
  import opened SlreCodegen
  import opened SlreExact
  import opened Patterns
  import opened Captures
  import opened Exceptions
  import opened Frames
  import opened CaptureRange
  import opened OperationPatterns
  import opened OperationFrames
  import opened PermissionScan
  import opened Permissions
  import opened Slre
  import Channels
  import DList
  import Receiver
  import StateMachine

  // ------------------------------------------------------------------ the three engines

  /** An engine holds an anchored pattern with fewer than `n` groups. */
  ghost predicate HoldsPattern(re: Engine, alt: Alt, n: nat)
    reads re, re.code, re.data
  {
    re.Valid() && re.Loaded(0, Lower(alt)) && CapsBelow(Lower(alt), n) && re.anchored
  }

  method CompileOperation() returns (re: Engine)
    ensures HoldsPattern(re, OperationAlt(), 3) && fresh(re)
  {
    OperationCompilable();
    OperationGroups();
    re := new Engine();
    var ok := re.SlreCompile(OPERATION_PATTERN, OperationAlt());
  }

  method CompilePermissions() returns (re: Engine)
    ensures HoldsPattern(re, PermissionsAlt(), 5) && fresh(re)
  {
    PermissionsCompilable();
    PermissionsGroups();
    LowerOk(PermissionsAlt(), 5);
    re := new Engine();
    var ok := re.SlreCompile(PERMISSIONS_PATTERN, PermissionsAlt());
  }

  method CompileChannel() returns (re: Engine)
    ensures HoldsPattern(re, ChannelAlt(), 5) && fresh(re)
  {
    ChannelCompilable();
    ChannelGroups();
    LowerOk(ChannelAlt(), 5);
    re := new Engine();
    var ok := re.SlreCompile(CHANNEL_PATTERN, ChannelAlt());
  }

  // -------------------------------------------------------------- taking a frame apart

  function NoCaps(n: nat): seq<Cap> { seq(n, _ => Cap(0, 0)) }

  /** Whether the anchored pattern matches, and what its groups then hold. */
  ghost predicate Matches(alt: Alt, n: nat, s: string) {
    Productive(Lower(alt)) && Search(Lower(alt), true, s, NoCaps(n)).ok
  }

  ghost function Captured(alt: Alt, n: nat, s: string): seq<Cap>
    requires Productive(Lower(alt))
  {
    Search(Lower(alt), true, s, NoCaps(n)).caps
  }

  method MatchPattern(re: Engine, s: string, n: nat, ghost alt: Alt) returns (found: bool, pmatch: array<Cap>)
    requires HoldsPattern(re, alt, n) && Productive(Lower(alt))
    ensures fresh(pmatch) && pmatch.Length == n && found == Matches(alt, n, s) && pmatch[..] == Captured(alt, n, s)
  {
    pmatch := new Cap[n](_ => Cap(0, 0));
    assert pmatch[..] == NoCaps(n);
    found := re.SlreMatch(s, pmatch, Lower(alt));
  }

  // ------------------------------------------------------------------- an operation

  /** The groups can be copied, and hold what the frame was made of. */
  ghost predicate OperationTold(s: string, found: bool, c: seq<Cap>, kind: string, params: string) {
    && (found ==> |c| == 3 && InText(s, c[1]) && InText(s, c[2]))
    && (s == OperationFrame(kind, params) && NoQuote(kind) ==>
          found && CapturedIs(s, c[1], kind) && CapturedIs(s, c[2], params))
  }

  lemma OperationTells(s: string, kind: string, params: string)
    ensures Productive(Lower(OperationAlt()))
    ensures OperationTold(s, Matches(OperationAlt(), 3, s), Captured(OperationAlt(), 3, s), kind, params)
  {
    OperationInText(s, NoCaps(3));
    if s == OperationFrame(kind, params) && NoQuote(kind) { OperationHeld(s, kind, params); }
  }

  lemma OperationHeld(s: string, kind: string, params: string)
    requires s == OperationFrame(kind, params) && NoQuote(kind)
    ensures Matches(OperationAlt(), 3, s)
    ensures var c := Captured(OperationAlt(), 3, s);
      |c| == 3 && CapturedIs(s, c[1], kind) && CapturedIs(s, c[2], params)
  {
    var m := 13 + |kind|;
    OperationIsLaidOut(kind, params, s, m, m + 3 + |params|);
    OperationParts(kind, params, s, m, m + 3 + |params|);
    var o := OperationCaptures(s, m, m + 3 + |params|, NoCaps(3));
  }

  method MatchOperation(re: Engine, s: string, ghost kind: string, ghost params: string)
    returns (found: bool, pmatch: array<Cap>)
    requires HoldsPattern(re, OperationAlt(), 3)
    ensures found == Matches(OperationAlt(), 3, s) && OperationTold(s, found, pmatch[..], kind, params) == true
    ensures found ==> pmatch.Length == 3 && InText(s, pmatch[..][1]) && InText(s, pmatch[..][2])
  {
    OperationTells(s, kind, params);
    found, pmatch := MatchPattern(re, s, 3, OperationAlt());
  }

  /** The type and the parameters of an operation; `kind` and `params` are what it was made of. */
  method TakeOperation(re: Engine, s: string, ghost kind: string, ghost params: string)
    returns (found: bool, w: string, p: string)
    requires HoldsPattern(re, OperationAlt(), 3)
    ensures found == Matches(OperationAlt(), 3, s)
    ensures s == OperationFrame(kind, params) && NoQuote(kind) ==> found && w == kind && p == params
  {
    var pmatch;
    found, pmatch := MatchOperation(re, s, kind, params);
    w, p := "", "";
    if found {
      w, p := CopyTwo(s, pmatch);
    }
    TwoTexts(s, found, pmatch[..], kind, params, w, p);
  }

  lemma TwoTexts(s: string, found: bool, c: seq<Cap>, kind: string, params: string, w: string, p: string)
    requires OperationTold(s, found, c, kind, params)
    requires found ==> |c| == 3 && CapturedIs(s, c[1], w) && CapturedIs(s, c[2], p)
    ensures s == OperationFrame(kind, params) && NoQuote(kind) ==> found && w == kind && p == params
  {
  }

  method CopyTwo(s: string, pmatch: array<Cap>) returns (w: string, p: string)
    requires pmatch.Length == 3 && InText(s, pmatch[..][1]) && InText(s, pmatch[..][2])
    ensures CapturedIs(s, pmatch[..][1], w) && CapturedIs(s, pmatch[..][2], p)
  {
    w := Receiver.FromSlre(s, pmatch, 1);
    p := Receiver.FromSlre(s, pmatch, 2);
  }

  // ------------------------------------------------------------- the permissions, a channel

  /** The first group of a pattern for parameters can be copied. */
  lemma FirstTold(alt: Alt, s: string)
    requires FirstInText(Lower(alt), s, NoCaps(5))
    ensures Productive(Lower(alt))
    ensures Matches(alt, 5, s) ==> var c := Captured(alt, 5, s); |c| == 5 && InText(s, c[1])
  {
  }

  /** The first group of the pattern, if the text matches. */
  method TakeGroup(re: Engine, s: string, ghost alt: Alt) returns (r: Option<string>)
    requires HoldsPattern(re, alt, 5) && FirstInText(Lower(alt), s, NoCaps(5))
    ensures r.Some? <==> Matches(alt, 5, s)
    ensures r.Some? ==> var c := Captured(alt, 5, s); |c| == 5 && CapturedIs(s, c[1], r.value)
  {
    FirstTold(alt, s);
    var found, pmatch := MatchPattern(re, s, 5, alt);
    r := None;
    if found {
      assert pmatch[..][1] == pmatch[1];
      var w := Receiver.FromSlre(s, pmatch, 1);
      r := Some(w);
    }
  }

  lemma PermissionsHeld(permissions: string, rest: string, s: string) returns (k: nat)
    requires s == PermissionsText(permissions, rest)
    ensures Matches(PermissionsAlt(), 5, s) && 8 <= k <= |s| && (s[8..k] == permissions <==> NoSetKey(rest))
    ensures var c := Captured(PermissionsAlt(), 5, s); |c| == 5 && CapturedIs(s, c[1], s[8..k])
  {
    var m := 8 + |permissions|;
    PermissionsParts(permissions, rest, s, m);
    LastKeyIs(permissions, rest, s, m);
    k := SomeKeyIsLast(s, m);
    var o := PermissionsCaptures(s, k, NoCaps(5));
  }

  /** Which parameters bring permissions, and which a channel: those with the keys where the patterns ask for them. */
  lemma WhatMatches(s: string)
    ensures Matches(PermissionsAlt(), 5, s)
       <==> TextAt(s, 0, START_OF_PERMISSIONS) && exists m: nat :: 8 <= m && TextAt(s, m, SET_KEY)
    ensures Matches(ChannelAlt(), 5, s)
       <==> TextAt(s, 0, START_OF_CHANNEL) && |s| >= 11 && TextAt(s, |s| - 2, "\\\"")
  {
    PermissionsMatch(s);
    ChannelMatch(s);
  }

  lemma PermissionsMatch(s: string)
    ensures Matches(PermissionsAlt(), 5, s)
       <==> TextAt(s, 0, START_OF_PERMISSIONS) && exists m: nat :: 8 <= m && TextAt(s, m, SET_KEY)
  {
    if TextAt(s, 0, START_OF_PERMISSIONS) && exists m: nat :: 8 <= m && TextAt(s, m, SET_KEY) {
      var m: nat :| 8 <= m && TextAt(s, m, SET_KEY);
      var k := SomeKeyIsLast(s, m);
      var o := PermissionsCaptures(s, k, NoCaps(5));
    } else {
      PermissionsNeed(s, NoCaps(5));
    }
  }

  lemma ChannelMatch(s: string)
    ensures Matches(ChannelAlt(), 5, s)
       <==> TextAt(s, 0, START_OF_CHANNEL) && |s| >= 11 && TextAt(s, |s| - 2, "\\\"")
  {
    if TextAt(s, 0, START_OF_CHANNEL) && |s| >= 11 && TextAt(s, |s| - 2, "\\\"") {
      var o := ChannelCaptures(s, |s| - 2, NoCaps(5));
    } else {
      ChannelNeeds(s, NoCaps(5));
    }
  }

  /**
   The permissions among the parameters, if there are any; they are read as they were
   written if and only if the key behind them does not occur again.
   */
  method TakePermissions(re: Engine, s: string, ghost permissions: string, ghost rest: string)
    returns (r: Option<string>)
    requires HoldsPattern(re, PermissionsAlt(), 5)
    ensures r.Some? <==> Matches(PermissionsAlt(), 5, s)
    ensures s == PermissionsText(permissions, rest) ==> r.Some? && (r.value == permissions <==> NoSetKey(rest))
  {
    PermissionsInText(s, NoCaps(5));
    r := TakeGroup(re, s, PermissionsAlt());
    if s == PermissionsText(permissions, rest) { ghost var k := PermissionsHeld(permissions, rest, s); }
  }

  lemma ChannelHeld(channel: string, s: string)
    requires s == ChannelText(channel)
    ensures Matches(ChannelAlt(), 5, s)
    ensures var c := Captured(ChannelAlt(), 5, s); |c| == 5 && CapturedIs(s, c[1], channel)
  {
    ChannelParts(channel, s, 9 + |channel|);
    var o := ChannelCaptures(s, 9 + |channel|, NoCaps(5));
  }

  /** The channel among the parameters. */
  method TakeChannel(re: Engine, s: string, ghost channel: string) returns (r: Option<string>)
    requires HoldsPattern(re, ChannelAlt(), 5)
    ensures r.Some? <==> Matches(ChannelAlt(), 5, s)
    ensures s == ChannelText(channel) ==> r == Some(channel)
  {
    ChannelInText(s, NoCaps(5));
    r := TakeGroup(re, s, ChannelAlt());
    if s == ChannelText(channel) { ChannelHeld(channel, s); }
  }

  // ------------------------------------------------------------- what a frame tells

  const VALIDATED := "ortc-validated"
  const SUBSCRIBED := "ortc-subscribed"
  const UNSUBSCRIBED := "ortc-unsubscribed"
  const ERROR := "ortc-error"

  /** What the receiver makes of a frame; without permissions or channel when the parameters do not match. */
  datatype Event =
    | NoOperation
    | OtherOperation
    | Validated(permissions: Option<string>)
    | Subscribed(channel: Option<string>)
    | Unsubscribed(channel: Option<string>)
    | Failed(params: string)

  /** What the server reports. */
  datatype Report =
    | IsValidated(permissions: string, rest: string)
    | IsSubscribed(channel: string)
    | IsUnsubscribed(channel: string)

  function TypeOf(r: Report): string {
    match r
    case IsValidated(_, _) => VALIDATED
    case IsSubscribed(_) => SUBSCRIBED
    case IsUnsubscribed(_) => UNSUBSCRIBED
  }

  function ParamsOf(r: Report): string {
    match r
    case IsValidated(permissions, rest) => PermissionsText(permissions, rest)
    case IsSubscribed(channel) => ChannelText(channel)
    case IsUnsubscribed(channel) => ChannelText(channel)
  }

  /** The frame of a report. */
  function ReportFrame(r: Report): string { OperationFrame(TypeOf(r), ParamsOf(r)) }

  /** The event tells the report. */
  ghost predicate Tells(e: Event, r: Report) {
    match r
    case IsValidated(permissions, rest) =>
      e.Validated? && e.permissions.Some? && (e.permissions.value == permissions <==> NoSetKey(rest))
    case IsSubscribed(channel) => e == Subscribed(Some(channel))
    case IsUnsubscribed(channel) => e == Unsubscribed(Some(channel))
  }

  /**
   What the receiver makes of a type and its parameters: the type is told by its first
   bytes, as `strncmp` compares them.
   */
  ghost predicate Reads(e: Event, kind: string, params: string) {
    && (e.Validated? <==> "ortc-validated" <= kind)
    && (e.Validated? ==> (e.permissions.Some? <==> Matches(PermissionsAlt(), 5, params)))
    && (e.Subscribed? <==> "ortc-subscribed" <= kind)
    && (e.Subscribed? ==> (e.channel.Some? <==> Matches(ChannelAlt(), 5, params)))
    && (e.Unsubscribed? <==> "ortc-unsubscribed" <= kind)
    && (e.Unsubscribed? ==> (e.channel.Some? <==> Matches(ChannelAlt(), 5, params)))
    && (e.Failed? <==> "ortc-error" <= kind) && (e.Failed? ==> e == Failed(params))
    && e != NoOperation
  }

  /** No type begins with two of the four. */
  lemma TypesApart(w: string)
    ensures VALIDATED <= w ==> !(SUBSCRIBED <= w) && !(UNSUBSCRIBED <= w) && !(ERROR <= w)
    ensures SUBSCRIBED <= w ==> !(UNSUBSCRIBED <= w) && !(ERROR <= w)
    ensures UNSUBSCRIBED <= w ==> !(ERROR <= w)
  {
    assert VALIDATED[5] == 'v' && SUBSCRIBED[5] == 's' && UNSUBSCRIBED[5] == 'u' && ERROR[5] == 'e';
  }

  lemma ReportTypes(r: Report)
    ensures NoQuote(TypeOf(r))
    ensures VALIDATED <= TypeOf(r) <==> r.IsValidated?
    ensures SUBSCRIBED <= TypeOf(r) <==> r.IsSubscribed?
    ensures UNSUBSCRIBED <= TypeOf(r) <==> r.IsUnsubscribed?
  {
    TypesApart(TypeOf(r));
  }

  /** Reads the parameters as the type demands. */
  method ReadParams(rePermissions: Engine, reChannel: Engine, w: string, p: string, ghost r: Report)
    returns (e: Event)
    requires HoldsPattern(rePermissions, PermissionsAlt(), 5) && HoldsPattern(reChannel, ChannelAlt(), 5)
    ensures Reads(e, w, p)
    ensures w == TypeOf(r) && p == ParamsOf(r) ==> Tells(e, r)
  {
    TypesApart(w);
    ReportTypes(r);
    if VALIDATED <= w {
      ghost var IsValidated(permissions, rest) := if r.IsValidated? then r else IsValidated("", "");
      var found := TakePermissions(rePermissions, p, permissions, rest);
      e := Validated(found);
    } else if SUBSCRIBED <= w {
      var found := TakeChannel(reChannel, p, if r.IsSubscribed? then r.channel else "");
      e := Subscribed(found);
    } else if UNSUBSCRIBED <= w {
      var found := TakeChannel(reChannel, p, if r.IsUnsubscribed? then r.channel else "");
      e := Unsubscribed(found);
    } else if ERROR <= w {
      e := Failed(p);
    } else {
      e := OtherOperation;
    }
  }

  /** What a frame was made of: a type and its parameters. */
  ghost predicate IsOperation(s: string, kind: string, params: string) {
    s == OperationFrame(kind, params) && NoQuote(kind)
  }

  lemma OneOperation(s: string, kind: string, params: string, r: Report)
    requires IsOperation(s, kind, params) && s == ReportFrame(r)
    ensures kind == TypeOf(r) && params == ParamsOf(r)
  {
    ReportTypes(r);
    OperationHeld(s, kind, params);
    OperationHeld(s, TypeOf(r), ParamsOf(r));
  }

  /** Reads a frame; `kind` and `params`, or the report `r`, are what it was made of. */
  method ReadOperation(reOperation: Engine, rePermissions: Engine, reChannel: Engine, s: string, ghost kind: string,
                       ghost params: string, ghost r: Report)
    returns (e: Event)
    requires HoldsPattern(reOperation, OperationAlt(), 3)
    requires HoldsPattern(rePermissions, PermissionsAlt(), 5) && HoldsPattern(reChannel, ChannelAlt(), 5)
    ensures e == NoOperation <==> !Matches(OperationAlt(), 3, s)
    ensures IsOperation(s, kind, params) ==> Reads(e, kind, params) == true
    ensures s == ReportFrame(r) ==> Tells(e, r)
  {
    ReportTypes(r);
    if s == ReportFrame(r) && IsOperation(s, kind, params) { OneOperation(s, kind, params, r); }
    ghost var isReport := s == ReportFrame(r);
    var found, w, p := TakeOperation(reOperation, s, if isReport then TypeOf(r) else kind,
                                     if isReport then ParamsOf(r) else params);
    e := NoOperation;
    if found {
      e := ReadParams(rePermissions, reChannel, w, p, r);
    }
  }

  // ---------------------------------------------------------------------- what it causes

  /** The list of channels after an event. */
  function ChannelsAfter(e: Event, v: seq<DList.Entry>): seq<DList.Entry> {
    match e
    case Subscribed(Some(channel)) => Channels.Renumbered(v, channel, n => n + 2)
    case Unsubscribed(Some(channel)) => DList.AfterDelete(v, channel)
    case _ => v
  }

  lemma ConfirmedThen(u: seq<DList.Entry>, e: DList.Entry, w: seq<DList.Entry>)
    requires forall i | 0 <= i < |u| :: u[i].id != e.id
    ensures ChannelsAfter(Subscribed(Some(e.id)), u + [e] + w)
         == u + [DList.Entry(e.id, e.val1, e.val2, e.num + 2, e.callback)] + w
  {
    Channels.RenumberedIs(u, e, w, n => n + 2);
  }

  /** A confirmation adds 2 to the number of its channel, the end of a subscription takes the entry out. */
  lemma ChannelsThen(u: seq<DList.Entry>, e: DList.Entry, w: seq<DList.Entry>)
    requires forall i | 0 <= i < |u| :: u[i].id != e.id
    ensures ChannelsAfter(Subscribed(Some(e.id)), u + [e] + w)
         == u + [DList.Entry(e.id, e.val1, e.val2, e.num + 2, e.callback)] + w
    ensures (forall i | 0 <= i < |w| :: w[i].id != e.id) ==>
      Orderly(Unsubscribed(Some(e.id)), u + [e] + w) && ChannelsAfter(Unsubscribed(Some(e.id)), u + [e] + w) == u + w
  {
    ConfirmedThen(u, e, w);
    if forall i | 0 <= i < |w| :: w[i].id != e.id { DList.DeleteOnly(u, e, w); }
  }

  /** Deleting keeps the list in order. */
  ghost predicate Orderly(e: Event, v: seq<DList.Entry>) {
    e.Unsubscribed? && e.channel.Some? ==> DList.Deletable(v, e.channel.value)
  }

  /** Saves the permissions, if there are any, and asks for CONNECTED. */
  method HandleValidated(found: Option<string>, permissions: DList.List, context: StateMachine.Context,
                         ghost es: seq<Entry>)
    requires permissions.Valid() && context.Valid()
    modifies permissions, permissions.repr, context
    ensures permissions.Valid() && forall n | n in permissions.repr :: n in old(permissions.repr) || fresh(n)
    ensures context.Valid() && context.inputs == old(context.inputs) + [StateMachine.ValidatedFrame]
    ensures found == None ==> permissions.view == old(permissions.view)
    ensures found == Some(FrameText(es)) && EntriesOk(es) ==> Outcome(es, permissions.view) == true
  {
    if found.Some? {
      FrameIsNotNull(es);
      SavePermissions(permissions, found.value, es);
    }
    context.ChangeState(StateMachine.Connected, StateMachine.ValidatedFrame);
  }

  lemma FrameIsNotNull(es: seq<Entry>)
    ensures FrameText(es) != "null"
  {
    if es != [] {
      assert EntryText(es[0])[0] == '\\';
      assert FrameText(es)[0] == '\\';
    }
  }

  method HandleChannel(e: Event, channels: DList.List)
    requires channels.Valid()
    modifies channels, channels.repr
    ensures channels.Chained() && channels.repr == old(channels.repr)
    ensures Orderly(e, old(channels.view)) == true ==>
      channels.Valid() == true && channels.view == ChannelsAfter(e, old(channels.view))
  {
    match e
    case Subscribed(Some(channel)) => Channels.OnSubscribed(channels, channel);
    case Unsubscribed(Some(channel)) => channels.Delete(channel);
    case _ =>
  }

  /** Two lists that share no nodes; the nodes of the second may be more than it counts. */
  ghost predicate Lists(permissions: DList.List, channels: DList.List)
    reads permissions, permissions.nodes, channels, channels.nodes
  {
    permissions.Valid() && channels.Chained() && permissions != channels && permissions.repr !! channels.repr
  }

  /** Cancels the connection that is being made, if the parameters hold an exception. */
  method HandleError(reException: Engine, params: string, context: StateMachine.Context)
    returns (exception: Option<string>)
    requires HoldsException(reException) == true && context.Valid() == true
    modifies context
    ensures context.Valid() == true && ExceptionIs(params, exception) == true
    ensures context.inputs == old(context.inputs) + if exception.Some? then [StateMachine.ErrorFrame] else []
  {
    exception := TakeException(reException, params);
    if exception.Some? { context.CancelConnecting(); }
  }

  /** The exception is that of the event, if it has one. */
  ghost predicate Caught(e: Event, exception: Option<string>) {
    if e.Failed? then ExceptionIs(e.params, exception) else exception == None
  }

  /** What the state machine gets. */
  function Posts(e: Event, exception: Option<string>): seq<StateMachine.Input> {
    if e.Validated? then [StateMachine.ValidatedFrame]
    else if exception.Some? then [StateMachine.ErrorFrame]
    else []
  }

  /** What it gets for a frame of this type with these parameters. */
  ghost function Asked(kind: string, params: string): seq<StateMachine.Input> {
    if "ortc-validated" <= kind then [StateMachine.ValidatedFrame]
    else if "ortc-error" <= kind && exists k: nat :: ExceptionAt(params, k) then [StateMachine.ErrorFrame]
    else []
  }

  lemma PostsAsked(e: Event, exception: Option<string>, kind: string, params: string)
    requires Reads(e, kind, params) && Caught(e, exception)
    ensures Posts(e, exception) == Asked(kind, params)
  {
    TypesApart(kind);
  }

  /** What an event leaves of the channels `v` and the permissions `ps`: `w`, if the list stays in order, and `qs`. */
  ghost predicate Leaves(e: Event, es: seq<Entry>, v: seq<DList.Entry>, ps: seq<DList.Entry>, w: seq<DList.Entry>,
                         ordered: bool, qs: seq<DList.Entry>)
  {
    && (Orderly(e, v) ==> ordered && w == ChannelsAfter(e, v))
    && (!(e.Validated? && e.permissions.Some?) ==> qs == ps)
    && (e == Validated(Some(FrameText(es))) && EntriesOk(es) ==> Outcome(es, qs))
  }

  /** What an event causes: permissions saved, a request for CONNECTED, a change in the list of channels. */
  method Handle(e: Event, permissions: DList.List, channels: DList.List, context: StateMachine.Context,
                ghost es: seq<Entry>)
    requires Lists(permissions, channels) == true && channels.Valid() == true && context.Valid() == true
    modifies permissions, permissions.repr, channels, channels.repr, context
    ensures Lists(permissions, channels) == true && context.Valid() == true
    ensures context.inputs == old(context.inputs) + if e.Validated? then [StateMachine.ValidatedFrame] else []
    ensures Leaves(e, es, old(channels.view), old(permissions.view), channels.view, channels.Valid() == true,
                   permissions.view) == true
  {
    if e.Validated? {
      HandleValidated(e.permissions, permissions, context, es);
    } else {
      HandleChannel(e, channels);
    }
  }

  lemma FailedLeaves(e: Event, es: seq<Entry>, v: seq<DList.Entry>, ps: seq<DList.Entry>)
    requires e.Failed?
    ensures Leaves(e, es, v, ps, v, true, ps) == true
  {
  }

  /** The same, and the end of a connection that an error reports. */
  method Respond(reException: Engine, e: Event, permissions: DList.List, channels: DList.List,
                 context: StateMachine.Context, ghost es: seq<Entry>)
    returns (exception: Option<string>)
    requires HoldsException(reException) == true
    requires Lists(permissions, channels) == true && channels.Valid() == true && context.Valid() == true
    modifies permissions, permissions.repr, channels, channels.repr, context
    ensures Lists(permissions, channels) == true && context.Valid() == true
    ensures Caught(e, exception) == true && context.inputs == old(context.inputs) + Posts(e, exception)
    ensures Leaves(e, es, old(channels.view), old(permissions.view), channels.view, channels.Valid() == true,
                   permissions.view) == true
  {
    if e.Failed? {
      FailedLeaves(e, es, channels.view, permissions.view);
      exception := HandleError(reException, e.params, context);
    } else {
      exception := None;
      Handle(e, permissions, channels, context, es);
    }
  }

  /** The engines of the operation branch. */
  ghost predicate OperationEngines(reOperation: Engine, rePermissions: Engine, reChannel: Engine)
    reads reOperation, reOperation.code, reOperation.data, rePermissions, rePermissions.code, rePermissions.data
    reads reChannel, reChannel.code, reChannel.data
  {
    && HoldsPattern(reOperation, OperationAlt(), 3)
    && HoldsPattern(rePermissions, PermissionsAlt(), 5) && HoldsPattern(reChannel, ChannelAlt(), 5)
  }

  /** The frame reports the connection as validated, with the permissions of `es`. */
  ghost predicate Permits(message: string, es: seq<Entry>, r: Report) {
    && message == ReportFrame(r) && r.IsValidated? && r.permissions == FrameText(es) && NoSetKey(r.rest)
    && EntriesOk(es)
  }

  /** What a frame is read as. */
  ghost predicate ReadAs(message: string, kind: string, params: string, es: seq<Entry>, r: Report, e: Event) {
    && (IsOperation(message, kind, params) ==> Reads(e, kind, params))
    && (message == ReportFrame(r) ==> Tells(e, r))
    && (Permits(message, es, r) ==> e == Validated(Some(FrameText(es))) && EntriesOk(es))
  }

  method ReadReport(reOperation: Engine, rePermissions: Engine, reChannel: Engine, message: string,
                    ghost kind: string, ghost params: string, ghost es: seq<Entry>, ghost r: Report)
    returns (e: Event)
    requires OperationEngines(reOperation, rePermissions, reChannel) == true
    ensures ReadAs(message, kind, params, es, r, e) == true
  {
    e := ReadOperation(reOperation, rePermissions, reChannel, message, kind, params, r);
  }

  /** What follows for a frame of this type and these parameters, and for a report with the permissions of `es`. */
  ghost predicate AsMade(message: string, kind: string, params: string, es: seq<Entry>, r: Report,
                         inputs: seq<StateMachine.Input>, qs: seq<DList.Entry>)
  {
    && (IsOperation(message, kind, params) ==> inputs == Asked(kind, params))
    && (Permits(message, es, r) ==> Outcome(es, qs))
  }

  lemma FrameAsMade(message: string, kind: string, params: string, es: seq<Entry>, r: Report, e: Event,
                    exception: Option<string>, v: seq<DList.Entry>, ps: seq<DList.Entry>, w: seq<DList.Entry>,
                    ordered: bool, qs: seq<DList.Entry>)
    requires ReadAs(message, kind, params, es, r, e) == true && Caught(e, exception) == true
    requires Leaves(e, es, v, ps, w, ordered, qs) == true
    ensures AsMade(message, kind, params, es, r, Posts(e, exception), qs) == true
  {
    if IsOperation(message, kind, params) { PostsAsked(e, exception, kind, params); }
  }

  /** Responds to what a frame has been read as. */
  method Act(reException: Engine, e: Event, permissions: DList.List, channels: DList.List,
             context: StateMachine.Context, ghost message: string, ghost kind: string, ghost params: string,
             ghost es: seq<Entry>, ghost r: Report)
    returns (exception: Option<string>)
    requires HoldsException(reException) == true && ReadAs(message, kind, params, es, r, e) == true
    requires Lists(permissions, channels) == true && channels.Valid() == true && context.Valid() == true
    modifies permissions, permissions.repr, channels, channels.repr, context
    ensures Lists(permissions, channels) == true && context.Valid() == true
    ensures Caught(e, exception) == true && context.inputs == old(context.inputs) + Posts(e, exception)
    ensures Leaves(e, es, old(channels.view), old(permissions.view), channels.view, channels.Valid() == true,
                   permissions.view) == true
    ensures AsMade(message, kind, params, es, r, Posts(e, exception), permissions.view) == true
  {
    ghost var v, ps := channels.view, permissions.view;
    exception := Respond(reException, e, permissions, channels, context, es);
    FrameAsMade(message, kind, params, es, r, e, exception, v, ps, channels.view, channels.Valid() == true,
                permissions.view);
  }

  /**
   The operation branch: reads a frame and does what it tells. `es` are the entries and
   `r` is the report that the frame was made of.
   */
  method ReceiveOperation(reOperation: Engine, rePermissions: Engine, reChannel: Engine, reException: Engine,
                          permissions: DList.List, channels: DList.List, context: StateMachine.Context,
                          message: string, ghost kind: string, ghost params: string, ghost es: seq<Entry>,
                          ghost r: Report)
    returns (e: Event, exception: Option<string>)
    requires OperationEngines(reOperation, rePermissions, reChannel) == true && HoldsException(reException) == true
    requires Lists(permissions, channels) == true && channels.Valid() == true && context.Valid() == true
    modifies permissions, permissions.repr, channels, channels.repr, context
    ensures Lists(permissions, channels) == true && context.Valid() == true
    ensures ReadAs(message, kind, params, es, r, e) == true
    ensures Caught(e, exception) == true && context.inputs == old(context.inputs) + Posts(e, exception)
    ensures Leaves(e, es, old(channels.view), old(permissions.view), channels.view, channels.Valid() == true,
                   permissions.view) == true
    ensures AsMade(message, kind, params, es, r, Posts(e, exception), permissions.view) == true
  {
    e := ReadReport(reOperation, rePermissions, reChannel, message, kind, params, es, r);
    exception := Act(reException, e, permissions, channels, context, message, kind, params, es, r);
  }

  /** `ReceiveFrame` leaves a report to the operation branch. */
  lemma ReportIsNoMessage(r: Report)
    ensures !Receiver.IsMessage(ReportFrame(r))
  {
    OperationIsNoMessage(ReportFrame(r), TypeOf(r), ParamsOf(r), Receiver.NO_CAPS);
  }
}
