/**
 The connection: a one-slot mailbox of requested states, taken out by the main thread.
 The steps are atomic: each holds the mutex. What the other threads, the server and the
 caller do are the inputs of a run.
 */
module StateMachine {
  import opened Basics

  datatype State = Disconnected | Connected | Connecting | Opened | Disconnecting | Reconnecting | Quitting

  datatype Callback = NoCallback | OnConnected | OnReconnected | OnDisconnected

  /**
   What happens: calls of the user, a socket that opens, a validated frame, an error
   frame, a heartbeat that fails, the end of clearing up, and the main thread waking, by
   a timeout or not, with its helper thread started or not.
   */
  datatype Input =
    | Connect(prepared: bool)
    | Disconnect
    | Quit
    | SocketOpen
    | ValidatedFrame
    | ErrorFrame
    | HeartbeatLost
    | Cleared
    | Wake(timedOut: bool, started: bool)

  datatype Memory = Memory(state: State, stateToBe: State, virginConnect: bool)

  /** The transitions of the main thread. */
  predicate Edge(from: State, to: State) {
    match from
    case Disconnected => to == Quitting || to == Connecting
    case Connecting => to == Quitting || to == Disconnecting || to == Opened
    case Opened => to == Quitting || to == Connected || to == Disconnecting || to == Reconnecting
    case Connected => to == Quitting || to == Disconnecting || to == Reconnecting
    case Disconnecting => to == Quitting || to == Disconnected
    case Reconnecting => to == Quitting || to == Disconnecting || to == Opened
    case Quitting => false
  }

  /** Transitions that start no helper thread, or ignore that it could not be started. */
  predicate Unconditional(to: State) { to == Quitting || to == Opened || to == Disconnected }

  function Post(m: Memory, s: State): Memory { m.(stateToBe := s) }

  function Wakes(m: Memory, timedOut: bool, started: bool): Memory {
    var request := if m.state == Opened && timedOut then Reconnecting else m.stateToBe;
    var goes := Edge(m.state, request) && (started || Unconditional(request));
    Memory(if goes then request else m.state, request, m.virginConnect && !(goes && request == Connected))
  }

  function Next(m: Memory, i: Input): Memory {
    match i
    case Connect(prepared) =>
      if m.state == Disconnected && prepared then Memory(m.state, Connecting, true) else m
    case Disconnect => if m.state != Disconnected then Post(m, Disconnecting) else m
    case Quit => Post(m, Quitting)
    case SocketOpen => Post(m, Opened)
    case ValidatedFrame => Post(m, Connected)
    case ErrorFrame => if m.state == Opened then Post(m, Disconnecting) else m
    case HeartbeatLost => Post(m, Reconnecting)
    case Cleared => Post(m, Disconnected)
    case Wake(timedOut, started) => Wakes(m, timedOut, started)
  }

  /** The callback of a step. */
  function Fires(m: Memory, i: Input): Callback {
    var n := Next(m, i);
    if m.state == n.state then NoCallback
    else if n.state == Connected then (if m.virginConnect then OnConnected else OnReconnected)
    else if n.state == Disconnected then OnDisconnected
    else NoCallback
  }

  // ------------------------------------------------------------------- the main thread

  class Context {
    var state: State
    var stateToBe: State
    var virginConnect: bool
    var toBeAlive: bool
    /** The inputs so far and the callbacks fired by them. */
    ghost var inputs: seq<Input>
    ghost var fired: seq<Callback>

    ghost function Contents(): Memory
      reads this
    {
      Memory(state, stateToBe, virginConnect)
    }

    /** The context is where the run of its inputs leads. */
    ghost predicate Valid()
      reads this
    {
      && Contents() == After(inputs) && fired == Calls(inputs)
      && (toBeAlive <==> state != Quitting)
    }

    constructor ()
      ensures Valid() && inputs == [] && fired == []
    {
      state, stateToBe, virginConnect, toBeAlive := Disconnected, Disconnected, false, true;
      inputs, fired := [], [];
    }

    /** `_ortc_change_state` by another thread or by the server. */
    method ChangeState(newState: State, ghost i: Input)
      requires Valid() && Next(Contents(), i) == Post(Contents(), newState) && !i.Wake?
      modifies this
      ensures Valid() && inputs == old(inputs) + [i]
      ensures stateToBe == newState && state == old(state) && virginConnect == old(virginConnect)
    {
      OneMore(inputs, i);
      stateToBe := newState;
      inputs, fired := inputs + [i], fired + [NoCallback];
    }

    /** `ortc_connect`, when its arguments are in order; `prepared` tells whether the socket library is. */
    method OrtcConnect(prepared: bool)
      requires Valid()
      modifies this
      ensures Valid() && inputs == old(inputs) + [Connect(prepared)]
    {
      OneMore(inputs, Connect(prepared));
      if state == Disconnected && prepared {
        virginConnect := true;
        stateToBe := Connecting;
      }
      inputs, fired := inputs + [Connect(prepared)], fired + [NoCallback];
    }

    method OrtcDisconnect()
      requires Valid()
      modifies this
      ensures Valid() && inputs == old(inputs) + [Disconnect]
    {
      if state != Disconnected {
        ChangeState(Disconnecting, Disconnect);
      } else {
        OneMore(inputs, Disconnect);
        inputs, fired := inputs + [Disconnect], fired + [NoCallback];
      }
    }

    /** `_ortc_cancel_connecting`, on an error frame. */
    method CancelConnecting()
      requires Valid()
      modifies this
      ensures Valid() && inputs == old(inputs) + [ErrorFrame]
    {
      if state == Opened {
        ChangeState(Disconnecting, ErrorFrame);
      } else {
        OneMore(inputs, ErrorFrame);
        inputs, fired := inputs + [ErrorFrame], fired + [NoCallback];
      }
    }

    /** One turn of `_ortc_main_thread`, from the end of the wait to the end of the switch. */
    method MainTurn(timedOut: bool, started: bool) returns (call: Callback)
      requires Valid() && toBeAlive
      modifies this
      ensures Valid() && inputs == old(inputs) + [Wake(timedOut, started)] && fired == old(fired) + [call]
    {
      ghost var i := Wake(timedOut, started);
      OneMore(inputs, i);
      if state == Opened && timedOut { stateToBe := Reconnecting; }
      var newState := stateToBe;
      call := Switch(newState, started);
      inputs, fired := inputs + [i], fired + [call];
    }

    /** The switch over the state. */
    method Switch(newState: State, started: bool) returns (call: Callback)
      requires stateToBe == newState && state != Quitting && toBeAlive
      modifies `state, `virginConnect, `toBeAlive
      ensures Contents() == Wakes(old(Contents()), false, started) && (toBeAlive <==> state != Quitting)
      ensures call == Fires(old(Contents()), Wake(false, started))
    {
      call := NoCallback;
      match state {
        case Disconnected =>
          if newState == Quitting {
            toBeAlive := false;
            state := newState;
          } else if newState == Connecting {
            if started { state := newState; }
          }
        case Connecting =>
          if newState == Quitting {
            toBeAlive := false;
            state := newState;
          } else if newState == Disconnecting {
            if started { state := newState; }
          } else if newState == Opened {
            state := newState;
          }
        case Opened =>
          if newState == Quitting {
            toBeAlive := false;
            state := newState;
          } else if newState == Connected {
            if started {
              state := newState;
              if virginConnect {
                call := OnConnected;
                virginConnect := false;
              } else {
                call := OnReconnected;
              }
            }
          } else if newState == Disconnecting {
            if started { state := newState; }
          } else if newState == Reconnecting {
            if started { state := newState; }
          }
        case Connected =>
          if newState == Quitting {
            toBeAlive := false;
            state := newState;
          } else if newState == Disconnecting {
            if started { state := newState; }
          } else if newState == Reconnecting {
            if started { state := newState; }
          }
        case Disconnecting =>
          if newState == Quitting {
            toBeAlive := false;
            state := newState;
          } else if newState == Disconnected {
            state := newState;
            call := OnDisconnected;
          }
        case Reconnecting =>
          if newState == Quitting {
            toBeAlive := false;
            state := newState;
          } else if newState == Disconnecting {
            if started { state := newState; }
          } else if newState == Opened {
            state := newState;
          }
        case Quitting =>
      }
    }
  }

  // ------------------------------------------------------------------------------ runs

  const INITIAL := Memory(Disconnected, Disconnected, false)

  function After(inputs: seq<Input>): Memory {
    if inputs == [] then INITIAL else Next(After(inputs[..|inputs| - 1]), inputs[|inputs| - 1])
  }

  function Calls(inputs: seq<Input>): seq<Callback> {
    if inputs == [] then []
    else Calls(inputs[..|inputs| - 1]) + [Fires(After(inputs[..|inputs| - 1]), inputs[|inputs| - 1])]
  }

  lemma OneMore(inputs: seq<Input>, i: Input)
    ensures After(inputs + [i]) == Next(After(inputs), i)
    ensures Calls(inputs + [i]) == Calls(inputs) + [Fires(After(inputs), i)]
  {
    assert (inputs + [i])[..|inputs|] == inputs;
  }

  /** The memory before step `k` of a run. */
  function Before(inputs: seq<Input>, k: nat): Memory
    requires k <= |inputs|
  {
    After(inputs[..k])
  }

  lemma AtStart(inputs: seq<Input>)
    ensures Before(inputs, 0) == INITIAL
  {
  }

  lemma StepOf(inputs: seq<Input>, k: nat)
    requires k < |inputs|
    ensures Before(inputs, k + 1) == Next(Before(inputs, k), inputs[k])
  {
    assert inputs[..k + 1] == inputs[..k] + [inputs[k]];
    OneMore(inputs[..k], inputs[k]);
  }

  /** Step `k` goes to another state. */
  predicate Moves(inputs: seq<Input>, k: nat) {
    k < |inputs| && Before(inputs, k).state != Before(inputs, k + 1).state
  }

  predicate Enters(inputs: seq<Input>, k: nat, s: State) {
    Moves(inputs, k) && Before(inputs, k + 1).state == s
  }

  /** Step `k` puts a request into the mailbox, the timeout of the handshake included. */
  predicate Requests(inputs: seq<Input>, k: nat) {
    k < |inputs| && (inputs[k].Wake? ==> Before(inputs, k).state == Opened && inputs[k].timedOut)
  }

  /** Only the main thread moves, along an edge, to the state that was requested. */
  lemma MoveFacts(inputs: seq<Input>, k: nat)
    requires Moves(inputs, k)
    ensures inputs[k].Wake? && Edge(Before(inputs, k).state, Before(inputs, k + 1).state)
    ensures Before(inputs, k + 1).stateToBe == Before(inputs, k + 1).state
  {
    StepOf(inputs, k);
  }

  /** Without a request nothing moves once state and request agree. */
  lemma {:induction false} Still(inputs: seq<Input>, i: nat, j: nat)
    requires i <= j <= |inputs| && Before(inputs, i).state == Before(inputs, i).stateToBe
    requires forall k | i <= k < j :: !Requests(inputs, k)
    ensures Before(inputs, j) == Before(inputs, i)
    decreases j - i
  {
    if i < j {
      StepOf(inputs, i);
      assert !Requests(inputs, i);
      Still(inputs, i + 1, j);
    }
  }

  /** No request causes two transitions: between two of them there is a request. */
  lemma RequestBetween(inputs: seq<Input>, i: nat, j: nat) returns (k: nat)
    requires i < j && Moves(inputs, i) && Moves(inputs, j)
    ensures i < k <= j && Requests(inputs, k)
  {
    if forall k | i < k <= j :: !Requests(inputs, k) {
      MoveFacts(inputs, i);
      Still(inputs, i + 1, j + 1);
      Still(inputs, i + 1, j);
      k := j;
    } else {
      k :| i < k <= j && Requests(inputs, k);
    }
  }

  // -------------------------------------------------------------- entering CONNECTED

  /** A validated frame has come since the latest entry to OPENED, and nothing else has been requested since. */
  ghost predicate Validated(inputs: seq<Input>, n: nat)
    requires n <= |inputs|
  {
    exists o: nat, k: nat :: o < k < n && OpenedSince(inputs, o, n) && inputs[k] == ValidatedFrame
        && ConnectPending(inputs, k, n)
  }

  /** From behind step `k` on the mailbox has held CONNECTED. */
  ghost predicate ConnectPending(inputs: seq<Input>, k: nat, n: nat)
    requires n <= |inputs|
  {
    forall m: nat | k < m <= n :: Before(inputs, m).stateToBe == Connected
  }

  /** Step `o` enters OPENED, and it has not been left before step `n`. */
  ghost predicate OpenedSince(inputs: seq<Input>, o: nat, n: nat)
    requires n <= |inputs|
  {
    o < n && Enters(inputs, o, Opened) && forall k: nat | o < k <= n :: Before(inputs, k).state == Opened
  }

  /** While OPENED: since when. */
  lemma {:induction false} SinceWhen(inputs: seq<Input>, n: nat) returns (o: nat)
    requires n <= |inputs| && Before(inputs, n).state == Opened
    ensures OpenedSince(inputs, o, n)
  {
    o := 0;
    AtStart(inputs);
    if n > 0 {
      o := n - 1;
      if Before(inputs, n - 1).state == Opened { o := SinceWhen(inputs, n - 1); }
    }
  }

  /** While OPENED with CONNECTED requested: a validated frame has come since. */
  lemma {:induction false} RequestIsValidated(inputs: seq<Input>, n: nat)
    requires n <= |inputs| && Before(inputs, n).state == Opened && Before(inputs, n).stateToBe == Connected
    ensures Validated(inputs, n)
  {
    AtStart(inputs);
    if n > 0 {
      StepOf(inputs, n - 1);
      var o := SinceWhen(inputs, n);
      if inputs[n - 1] == ValidatedFrame {
        MoveFacts(inputs, o);
        assert ConnectPending(inputs, n - 1, n);
      } else {
        assert Before(inputs, n - 1).state == Opened;
        RequestIsValidated(inputs, n - 1);
        StillValidated(inputs, n);
      }
    }
  }

  lemma StillValidated(inputs: seq<Input>, n: nat)
    requires 0 < n <= |inputs| && Validated(inputs, n - 1)
    requires Before(inputs, n).state == Opened && Before(inputs, n).stateToBe == Connected
    ensures Validated(inputs, n)
  {
    var p: nat, k: nat :|
      p < k < n - 1 && OpenedSince(inputs, p, n - 1) && inputs[k] == ValidatedFrame && ConnectPending(inputs, k, n - 1);
    assert OpenedSince(inputs, p, n) && ConnectPending(inputs, k, n);
  }

  /** CONNECTED is entered only from OPENED, on a validated frame since the latest entry to OPENED. */
  lemma ConnectedIsValidated(inputs: seq<Input>, j: nat)
    requires Enters(inputs, j, Connected)
    ensures Before(inputs, j).state == Opened && Validated(inputs, j)
  {
    MoveFacts(inputs, j);
    StepOf(inputs, j);
    RequestIsValidated(inputs, j);
  }

  // -------------------------------------------------------------------------- sessions

  /** Step `s` leaves DISCONNECTED, and it has not been entered again before step `n`. */
  ghost predicate Session(inputs: seq<Input>, s: nat, n: nat)
    requires n <= |inputs|
  {
    s < n && Before(inputs, s).state == Disconnected
        && forall k: nat | s < k <= n :: Before(inputs, k).state != Disconnected
  }

  ghost predicate WasConnected(inputs: seq<Input>, s: nat, n: nat) {
    exists k: nat :: s < k < n && Enters(inputs, k, Connected)
  }

  /** A pending request to connect is a fresh one. */
  lemma {:induction false} Fresh(inputs: seq<Input>, n: nat)
    requires n <= |inputs| && Before(inputs, n).state == Disconnected && Before(inputs, n).stateToBe == Connecting
    ensures Before(inputs, n).virginConnect
  {
    AtStart(inputs);
    if n > 0 {
      StepOf(inputs, n - 1);
      if Before(inputs, n - 1).state != Disconnected {
        MoveFacts(inputs, n - 1);
      } else if !inputs[n - 1].Connect? || !inputs[n - 1].prepared {
        Fresh(inputs, n - 1);
      }
    }
  }

  /** Within a session, until the end, the flag tells whether CONNECTED has not been entered yet. */
  lemma {:induction false} FlagInSession(inputs: seq<Input>, s: nat, n: nat)
    requires n <= |inputs| && Session(inputs, s, n) && Before(inputs, n).state != Quitting
    ensures Before(inputs, n).virginConnect <==> !WasConnected(inputs, s, n)
    decreases n
  {
    StepOf(inputs, n - 1);
    if n - 1 == s {
      assert Moves(inputs, s);
      MoveFacts(inputs, s);
      assert Before(inputs, s).stateToBe == Connecting;
      Fresh(inputs, s);
    } else {
      assert Session(inputs, s, n - 1);
      FlagInSession(inputs, s, n - 1);
      if WasConnected(inputs, s, n - 1) {
        var k: nat :| s < k < n - 1 && Enters(inputs, k, Connected);
        assert s < k < n && Enters(inputs, k, Connected);
      }
      assert Enters(inputs, n - 1, Connected) ==> WasConnected(inputs, s, n);
    }
  }

  lemma {:induction false} CallsAt(inputs: seq<Input>, k: nat)
    requires k < |inputs|
    ensures |Calls(inputs)| == |inputs| && Calls(inputs)[k] == Fires(Before(inputs, k), inputs[k])
  {
    var n := |inputs| - 1;
    if n > 0 { CallsAt(inputs[..n], if k < n then k else 0); }
    assert k < n ==> inputs[..n][..k] == inputs[..k];
  }

  /**
   In every session the first entry to CONNECTED fires onConnected, and every later one
   onReconnected.
   */
  lemma FirstThenAgain(inputs: seq<Input>, s: nat, j: nat)
    requires Enters(inputs, j, Connected) && Session(inputs, s, j)
    ensures |Calls(inputs)| == |inputs|
    ensures Calls(inputs)[j] == if WasConnected(inputs, s, j) then OnReconnected else OnConnected
  {
    CallsAt(inputs, j);
    StepOf(inputs, j);
    MoveFacts(inputs, j);
    FlagInSession(inputs, s, j);
  }

  /** Callbacks are fired by nothing else: onDisconnected on entering DISCONNECTED, the others on entering CONNECTED. */
  lemma NoOtherCalls(inputs: seq<Input>, k: nat)
    requires k < |inputs|
    ensures |Calls(inputs)| == |inputs|
    ensures Calls(inputs)[k] == OnDisconnected <==> Enters(inputs, k, Disconnected)
    ensures Calls(inputs)[k] == OnConnected || Calls(inputs)[k] == OnReconnected <==> Enters(inputs, k, Connected)
  {
    CallsAt(inputs, k);
    StepOf(inputs, k);
  }

  // -------------------------------------------------------------- getting somewhere

  /** Where further inputs lead from a memory, and the callbacks they fire. */
  function Onward(m: Memory, more: seq<Input>): Memory
    decreases |more|
  {
    if more == [] then m else Onward(Next(m, more[0]), more[1..])
  }

  function CallsOnward(m: Memory, more: seq<Input>): (calls: seq<Callback>)
    ensures |calls| == |more|
    decreases |more|
  {
    if more == [] then [] else [Fires(m, more[0])] + CallsOnward(Next(m, more[0]), more[1..])
  }

  lemma OneBefore(inputs: seq<Input>, more: seq<Input>)
    requires more != []
    ensures inputs + more == (inputs + [more[0]]) + more[1..]
  {
  }

  lemma {:induction false} Continues(inputs: seq<Input>, more: seq<Input>)
    ensures After(inputs + more) == Onward(After(inputs), more)
    decreases |more|
  {
    if more == [] {
      assert inputs + more == inputs;
    } else {
      OneMore(inputs, more[0]);
      Continues(inputs + [more[0]], more[1..]);
      OneBefore(inputs, more);
    }
  }

  lemma {:induction false} CallsContinue(inputs: seq<Input>, more: seq<Input>)
    ensures Calls(inputs + more) == Calls(inputs) + CallsOnward(After(inputs), more)
    decreases |more|
  {
    if more == [] {
      assert inputs + more == inputs && Calls(inputs) + [] == Calls(inputs);
    } else {
      var i := more[0];
      OneMore(inputs, i);
      CallsContinue(inputs + [i], more[1..]);
      OneBefore(inputs, more);
      Regroup(Calls(inputs), [Fires(After(inputs), i)], CallsOnward(Next(After(inputs), i), more[1..]));
    }
  }

  lemma OnwardCons(m: Memory, i: Input, more: seq<Input>)
    ensures Onward(m, [i] + more) == Onward(Next(m, i), more)
    ensures CallsOnward(m, [i] + more) == [Fires(m, i)] + CallsOnward(Next(m, i), more)
  {
    assert ([i] + more)[1..] == more;
  }

  /** An event of the outside, and the main thread waking in time with its helper thread started. */
  function Pass(i: Input): seq<Input> { [i] + ([Wake(false, true)] + []) }

  lemma PassOf(m: Memory, i: Input, more: seq<Input>)
    requires !i.Wake?
    ensures var n := Next(m, i); var w := Wakes(n, false, true);
      && Onward(m, Pass(i) + more) == Onward(w, more)
      && CallsOnward(m, Pass(i) + more) == [NoCallback, Fires(n, Wake(false, true))] + CallsOnward(w, more)
  {
    assert Pass(i) + more == [i] + ([Wake(false, true)] + more);
    OnwardCons(m, i, [Wake(false, true)] + more);
    OnwardCons(Next(m, i), Wake(false, true), more);
    assert Fires(m, i) == NoCallback;
  }

  /** The main thread wakes in time and can start its helper thread. */
  const WOKEN := Wake(false, true)

  lemma ThreePasses(m: Memory, i: Input, j: Input, k: Input)
    requires !i.Wake? && !j.Wake? && !k.Wake?
    ensures var run := [i, WOKEN, j, WOKEN, k, WOKEN];
      var m1 := Next(m, i); var m2 := Wakes(m1, false, true); var m3 := Next(m2, j); var m4 := Wakes(m3, false, true);
      && Onward(m, run) == Wakes(Next(m4, k), false, true)
      && CallsOnward(m, run)
         == [NoCallback, Fires(m1, WOKEN), NoCallback, Fires(m3, WOKEN), NoCallback, Fires(Next(m4, k), WOKEN)]
  {
    var m2 := Wakes(Next(m, i), false, true);
    var m4 := Wakes(Next(m2, j), false, true);
    PassOf(m, i, Pass(j) + (Pass(k) + []));
    PassOf(m2, j, Pass(k) + []);
    PassOf(m4, k, []);
    assert [i, WOKEN, j, WOKEN, k, WOKEN] == Pass(i) + (Pass(j) + (Pass(k) + []));
  }

  /** From DISCONNECTED the client connects, and onConnected is fired. */
  lemma Connects(inputs: seq<Input>)
    requires After(inputs).state == Disconnected
    ensures var run := inputs + [Connect(true), WOKEN, SocketOpen, WOKEN, ValidatedFrame, WOKEN];
      && After(run) == Memory(Connected, Connected, false)
      && Calls(run) == Calls(inputs) + [NoCallback, NoCallback, NoCallback, NoCallback, NoCallback, OnConnected]
  {
    Continues(inputs, [Connect(true), WOKEN, SocketOpen, WOKEN, ValidatedFrame, WOKEN]);
    CallsContinue(inputs, [Connect(true), WOKEN, SocketOpen, WOKEN, ValidatedFrame, WOKEN]);
    ThreePasses(After(inputs), Connect(true), SocketOpen, ValidatedFrame);
  }

  /** The flag of a first connection is down while CONNECTED. */
  lemma {:induction false} ConnectedIsNotFirst(inputs: seq<Input>)
    requires After(inputs).state == Connected
    ensures !After(inputs).virginConnect
  {
    var n := |inputs| - 1;
    if After(inputs[..n]).state == Connected { ConnectedIsNotFirst(inputs[..n]); }
  }

  /** After a lost heartbeat the client comes back, and onReconnected is fired. */
  lemma ComesBack(inputs: seq<Input>)
    requires After(inputs).state == Connected
    ensures var run := inputs + [HeartbeatLost, WOKEN, SocketOpen, WOKEN, ValidatedFrame, WOKEN];
      && After(run) == Memory(Connected, Connected, false)
      && Calls(run) == Calls(inputs) + [NoCallback, NoCallback, NoCallback, NoCallback, NoCallback, OnReconnected]
  {
    ConnectedIsNotFirst(inputs);
    Continues(inputs, [HeartbeatLost, WOKEN, SocketOpen, WOKEN, ValidatedFrame, WOKEN]);
    CallsContinue(inputs, [HeartbeatLost, WOKEN, SocketOpen, WOKEN, ValidatedFrame, WOKEN]);
    ThreePasses(After(inputs), HeartbeatLost, SocketOpen, ValidatedFrame);
  }

  /** From every other state a request to disconnect, carried out, leads to DISCONNECTED and fires onDisconnected. */
  lemma Disconnects(inputs: seq<Input>)
    requires After(inputs).state != Disconnected && After(inputs).state != Quitting
    ensures var run := inputs + [Disconnect, WOKEN, Cleared, WOKEN];
      && After(run).state == Disconnected
      && Calls(run) == Calls(inputs) + [NoCallback, NoCallback, NoCallback, OnDisconnected]
  {
    var m := After(inputs);
    var m2 := Wakes(Next(m, Disconnect), false, true);
    Continues(inputs, [Disconnect, WOKEN, Cleared, WOKEN]);
    CallsContinue(inputs, [Disconnect, WOKEN, Cleared, WOKEN]);
    PassOf(m, Disconnect, Pass(Cleared) + []);
    PassOf(m2, Cleared, []);
    assert [Disconnect, WOKEN, Cleared, WOKEN] == Pass(Disconnect) + (Pass(Cleared) + []);
  }

  /** A socket that opens is what RECONNECTING and CONNECTING wait for. */
  lemma Opens(inputs: seq<Input>, timedOut: bool, started: bool)
    requires After(inputs).state == Reconnecting || After(inputs).state == Connecting
    ensures After(inputs + [SocketOpen] + [Wake(timedOut, started)]).state == Opened
  {
    OneMore(inputs, SocketOpen);
    OneMore(inputs + [SocketOpen], Wake(timedOut, started));
  }

  /** The timeout of the handshake leads to RECONNECTING, whatever has been requested. */
  lemma TimesOut(inputs: seq<Input>)
    requires After(inputs).state == Opened
    ensures After(inputs + [Wake(true, true)]).state == Reconnecting
  {
    OneMore(inputs, Wake(true, true));
  }

  /** An error frame disconnects while the handshake is awaited, and does nothing otherwise. */
  lemma ErrorDisconnects(inputs: seq<Input>)
    ensures After(inputs).state == Opened ==> After(inputs + [ErrorFrame] + [WOKEN]).state == Disconnecting
    ensures After(inputs).state != Opened ==> After(inputs + [ErrorFrame]) == After(inputs)
  {
    OneMore(inputs, ErrorFrame);
    OneMore(inputs + [ErrorFrame], WOKEN);
  }

  /** A request to quit is carried out from every state. */
  lemma Quits(inputs: seq<Input>, started: bool)
    ensures After(inputs + [Quit] + [Wake(false, started)]).state == Quitting
  {
    OneMore(inputs, Quit);
    OneMore(inputs + [Quit], Wake(false, started));
  }

  /** What is asked for in vain: to connect when connected already or not prepared, to disconnect when disconnected. */
  lemma InVain(inputs: seq<Input>, prepared: bool)
    ensures After(inputs + [Connect(false)]) == After(inputs)
    ensures After(inputs).state != Disconnected ==> After(inputs + [Connect(prepared)]) == After(inputs)
    ensures After(inputs).state == Disconnected ==> After(inputs + [Disconnect]) == After(inputs)
  {
    OneMore(inputs, Connect(false));
    OneMore(inputs, Connect(prepared));
    OneMore(inputs, Disconnect);
  }

  /** When its helper thread cannot be started, the main thread stays where it is, and the request stays. */
  lemma NotStarted(inputs: seq<Input>)
    ensures var m := After(inputs);
      m.stateToBe != Quitting && m.stateToBe != Opened && m.stateToBe != Disconnected ==>
        After(inputs + [Wake(false, false)]) == m
  {
    OneMore(inputs, Wake(false, false));
  }

  /** Where each state is entered from; QUITTING is never left. */
  lemma EnteredFrom(inputs: seq<Input>, k: nat)
    requires Moves(inputs, k)
    ensures var from, to := Before(inputs, k).state, Before(inputs, k + 1).state;
      && from != Quitting
      && (to == Connecting ==> from == Disconnected)
      && (to == Opened ==> from == Connecting || from == Reconnecting)
      && (to == Connected ==> from == Opened)
      && (to == Reconnecting ==> from == Opened || from == Connected)
      && (to == Disconnecting ==> from != Disconnected)
      && (to == Disconnected ==> from == Disconnecting)
  {
    MoveFacts(inputs, k);
  }
}
