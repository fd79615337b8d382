/**
 Runs of the receiver: frames that carry the parts of any number of messages, in any
 order, and the callbacks they fire.
 */
module ReceiverRuns {
  import opened Basics
  import opened Slre
  import opened Json
  import opened WireDecode
  import opened Reassembly
  import opened PartRuns
  import opened Receiver
  import opened Sender
  import opened Delivery
  import DList
  import Text

  /** Each frame carries the part at its place. */
  ghost predicate CarryAll(frames: seq<string>, arr: seq<Part>) {
    |frames| == |arr| && forall k | 0 <= k < |frames| :: Carries(frames[k], arr[k])
  }

  /** The frame the server writes for part `p` of message `o`. */
  function ServedFrame(o: Outgoing, p: Part): string
    requires 1 <= p.num <= Total(o)
  {
    var served := ServerReads(FrameOfPart(o, p.num));
    if served.Served? then ServerWrites(served.channel, served.text) else ""
  }

  /** Frames from the server carry the parts they were made of. */
  lemma ServedCarry(msgs: seq<Outgoing>, frames: seq<string>, arr: seq<Part>)
    requires Arrivals(msgs, arr) && |frames| == |arr|
    requires forall k, j | 0 <= k < |frames| && 0 <= j < |msgs| && IsPartOf(msgs[j], arr[k]) ::
               frames[k] == ServedFrame(msgs[j], arr[k])
    ensures CarryAll(frames, arr)
  {
    forall k | 0 <= k < |frames| ensures Carries(frames[k], arr[k]) {
      assert IsPart(msgs, arr[k]);
      var j :| 0 <= j < |msgs| && IsPartOf(msgs[j], arr[k]);
      ServedPart(msgs[j], arr[k].num);
    }
  }

  // ---------------------------------------------------------------------------- sizes

  function TotalSize(frames: seq<string>): nat {
    if frames == [] then 0 else TotalSize(frames[..|frames| - 1]) + |frames[|frames| - 1]|
  }

  lemma TotalNext(frames: seq<string>, k: nat)
    requires k < |frames|
    ensures TotalSize(frames[..k + 1]) == TotalSize(frames[..k]) + |frames[k]|
  {
    assert frames[..k + 1][..k] == frames[..k];
  }

  lemma {:induction false} TotalGrows(frames: seq<string>, k: nat)
    requires k <= |frames|
    ensures TotalSize(frames[..k]) <= TotalSize(frames)
  {
    if k == |frames| {
      assert frames[..k] == frames;
    } else {
      TotalGrows(frames[..|frames| - 1], k);
      assert frames[..|frames| - 1][..k] == frames[..k];
    }
  }

  lemma PayloadSize(p: Part)
    ensures |p.payload| <= |PartFrame(p)|
  {
  }

  /** The store grows by no more than the part that arrives. */
  lemma ArrivalSize(v: seq<DList.Entry>, p: Part)
    ensures TextSize(Arrival(v, p).parts) <= TextSize(v) + |p.payload|
  {
    var u := v + [Stored(p)];
    TextSizeConcat(v, [Stored(p)]);
    if AllThere(u, p.id, p.total) { JoinedSize(u, p.id, p.total); }
  }

  lemma ArrivalNext(arr: seq<Part>, k: nat)
    requires k < |arr|
    ensures Deliver(arr[..k + 1]).parts == Arrival(Deliver(arr[..k]).parts, arr[k]).parts
  {
    assert arr[..k + 1][..k] == arr[..k];
  }

  // ------------------------------------------------------------------------- the calls

  /** The calls that are made at the first `n` arrivals. */
  function Calls(channels: seq<DList.Entry>, arr: seq<Part>, n: nat): (calls: seq<Option<Fired>>)
    requires n <= |arr|
    ensures |calls| == n
  {
    if n == 0 then [] else Calls(channels, arr, n - 1) + [FireAll(channels, LogAt(arr, n - 1))]
  }

  lemma {:induction false} CallAt(channels: seq<DList.Entry>, arr: seq<Part>, n: nat, k: nat)
    requires k < n <= |arr|
    ensures Calls(channels, arr, n)[k] == FireAll(channels, LogAt(arr, k))
  {
    if k < n - 1 { CallAt(channels, arr, n - 1, k); }
  }

  /** The call for a message: to the callback of its channel, with its bytes if and only if it is clean. */
  ghost predicate CallFor(channels: seq<DList.Entry>, o: Outgoing, call: Option<Fired>) {
    var c := DList.FirstMatch(channels, DList.ById(o.keys.channel));
    if c < |channels| && channels[c].callback.Some?
    then call.Some? && call.value.callback == channels[c].callback.value && call.value.channel == o.keys.channel
         && (call.value.text == o.text <==> Clean(o.text))
    else call == None
  }

  /** No part of the message other than the one at `k` makes a call. */
  ghost predicate OnlyAt(calls: seq<Option<Fired>>, arr: seq<Part>, id: string, k: int) {
    |calls| == |arr| && forall i | 0 <= i < |arr| && i != k && arr[i].id == id :: calls[i] == None
  }

  /** The one call for a message is made at the last of its parts. */
  ghost predicate CalledAt(calls: seq<Option<Fired>>, channels: seq<DList.Entry>, arr: seq<Part>, o: Outgoing,
                           k: nat) {
    && |calls| == |arr| && k < |arr| && arr[k].id == o.id && (forall i | k < i < |arr| :: arr[i].id != o.id)
    && CallFor(channels, o, calls[k]) && OnlyAt(calls, arr, o.id, k)
  }

  /** One call when all parts of the message are among the arrivals, none when one is missing. */
  ghost predicate Delivered(calls: seq<Option<Fired>>, channels: seq<DList.Entry>, arr: seq<Part>, o: Outgoing) {
    if AllArrive(arr, o) then exists k: nat :: CalledAt(calls, channels, arr, o, k) else OnlyAt(calls, arr, o.id, -1)
  }

  ghost predicate AllDelivered(calls: seq<Option<Fired>>, channels: seq<DList.Entry>, arr: seq<Part>,
                               msgs: seq<Outgoing>) {
    forall j | 0 <= j < |msgs| :: Delivered(calls, channels, arr, msgs[j])
  }

  lemma CallIsFor(channels: seq<DList.Entry>, o: Outgoing)
    requires Sendable(o)
    ensures CallFor(channels, o, FireAll(channels, [Joined(o.keys.channel, Wire(o.text))]))
  {
    CallbackGets(channels, o);
  }

  lemma Silent(calls: seq<Option<Fired>>, channels: seq<DList.Entry>, arr: seq<Part>, id: string, k: int)
    requires calls == Calls(channels, arr, |arr|)
    requires forall i | 0 <= i < |arr| && i != k && arr[i].id == id :: LogAt(arr, i) == []
    ensures OnlyAt(calls, arr, id, k)
  {
    forall i | 0 <= i < |arr| && i != k && arr[i].id == id ensures calls[i] == None { CallAt(channels, arr, |arr|, i); }
  }

  /** A message with a part missing is not handed on. */
  lemma NotHandedOn(msgs: seq<Outgoing>, arr: seq<Part>, j: nat, k: nat)
    requires Arrivals(msgs, arr) && j < |msgs| && !AllArrive(arr, msgs[j]) && k < |arr| && arr[k].id == msgs[j].id
    ensures LogAt(arr, k) == []
  {
    ArrivalsFit(msgs, arr);
    LogAtIs(arr, k);
    assert IsPart(msgs, arr[k]);
    IsFrom(msgs, arr[k], j);
    if Completes(arr, k) {
      forall i | 1 <= i <= Total(msgs[j]) ensures Arrived(arr, msgs[j].id, i) {
        ArrivedLater(arr, k + 1, msgs[j].id, i);
      }
    }
  }

  lemma ArrivedLater(arr: seq<Part>, n: nat, id: string, i: int)
    requires n <= |arr| && Arrived(arr[..n], id, i)
    ensures Arrived(arr, id, i)
  {
    var k :| 0 <= k < n && arr[..n][k].id == id && arr[..n][k].num == i;
    assert arr[k] == arr[..n][k];
  }

  lemma IsDelivered(msgs: seq<Outgoing>, arr: seq<Part>, calls: seq<Option<Fired>>, channels: seq<DList.Entry>,
                    j: nat)
    requires Arrivals(msgs, arr) && j < |msgs| && calls == Calls(channels, arr, |arr|)
    ensures Delivered(calls, channels, arr, msgs[j])
  {
    var o := msgs[j];
    if AllArrive(arr, o) {
      var k := MessageDelivered(msgs, arr, j);
      CallIsFor(channels, o);
      CallAt(channels, arr, |arr|, k);
      Silent(calls, channels, arr, o.id, k);
      assert CalledAt(calls, channels, arr, o, k);
    } else {
      forall i | 0 <= i < |arr| && i != -1 && arr[i].id == o.id ensures LogAt(arr, i) == [] {
        NotHandedOn(msgs, arr, j, i);
      }
      Silent(calls, channels, arr, o.id, -1);
    }
  }

  /** After all arrivals: what waits are the parts of incomplete messages, and every message is delivered. */
  lemma RunDelivers(msgs: seq<Outgoing>, arr: seq<Part>, calls: seq<Option<Fired>>, channels: seq<DList.Entry>)
    requires Arrivals(msgs, arr) && calls == Calls(channels, arr, |arr|)
    ensures Deliver(arr).parts == Waiting(arr, |arr|)
    ensures AllDelivered(calls, channels, arr, msgs)
  {
    ArrivalsFit(msgs, arr);
    DeliverIsRight(arr);
    forall j | 0 <= j < |msgs| ensures Delivered(calls, channels, arr, msgs[j]) {
      IsDelivered(msgs, arr, calls, channels, j);
    }
  }

  // ------------------------------------------------------------------------ the receiver

  /** What is stored after the first `k` frames, and its size. */
  ghost predicate StoredAfter(v: seq<DList.Entry>, frames: seq<string>, arr: seq<Part>, k: nat) {
    k <= |frames| && k <= |arr| && v == Deliver(arr[..k]).parts && TextSize(v) <= TotalSize(frames[..k])
  }

  lemma StoredNext(v: seq<DList.Entry>, frames: seq<string>, arr: seq<Part>, k: nat)
    requires CarryAll(frames, arr) && k < |frames| && StoredAfter(v, frames, arr, k)
    ensures Carries(frames[k], arr[k]) && TextSize(v) + |frames[k]| <= TotalSize(frames)
    ensures StoredAfter(Arrival(v, arr[k]).parts, frames, arr, k + 1)
  {
    TotalNext(frames, k);
    TotalGrows(frames, k + 1);
    ArrivalNext(arr, k);
    ArrivalSize(v, arr[k]);
    PayloadSize(arr[k]);
  }

  /** After the last frame. */
  lemma RunEnds(v: seq<DList.Entry>, msgs: seq<Outgoing>, frames: seq<string>, arr: seq<Part>,
                calls: seq<Option<Fired>>, channels: seq<DList.Entry>)
    requires Arrivals(msgs, arr) && CarryAll(frames, arr) && StoredAfter(v, frames, arr, |frames|)
    requires calls == Calls(channels, arr, |arr|)
    ensures v == Waiting(arr, |arr|) && |calls| == |frames| && AllDelivered(calls, channels, arr, msgs) == true
  {
    assert arr[..|frames|] == arr;
    RunDelivers(msgs, arr, calls, channels);
  }

  /** Between frames `k - 1` and `k`. */
  ghost predicate Ready(reMessage: Engine, reMultipart: Engine, multiparts: DList.List, channels: DList.List,
                        frames: seq<string>, arr: seq<Part>, k: nat)
    reads reMessage, reMessage.code, reMessage.data, reMultipart, reMultipart.code, reMultipart.data
    reads multiparts, multiparts.nodes, channels, channels.nodes
  {
    && Compiled(reMessage, reMultipart) == true && Stores(multiparts, channels) == true
    && CarryAll(frames, arr) && TotalSize(frames) <= Text.INT_MAX && StoredAfter(multiparts.view, frames, arr, k)
  }

  /** Receives frame `k`. */
  method ReceiveNext(reMessage: Engine, reMultipart: Engine, multiparts: DList.List, channels: DList.List,
                     frames: seq<string>, k: nat, ghost arr: seq<Part>)
    returns (fired: Option<Fired>)
    requires k < |frames| == |arr| && Ready(reMessage, reMultipart, multiparts, channels, frames, arr, k) == true
    modifies multiparts, multiparts.repr
    ensures Ready(reMessage, reMultipart, multiparts, channels, frames, arr, k + 1) == true
    ensures channels.view == old(channels.view) && fired == FireAll(channels.view, LogAt(arr, k))
    ensures forall n | n in multiparts.repr :: n in old(multiparts.repr) || fresh(n)
  {
    StoredNext(multiparts.view, frames, arr, k);
    fired := ReceivePart(reMessage, reMultipart, multiparts, channels, frames[k], arr[k]);
  }

  /** Receives a frame that carries a part. */
  method ReceivePart(reMessage: Engine, reMultipart: Engine, multiparts: DList.List, channels: DList.List,
                     frame: string, ghost p: Part)
    returns (fired: Option<Fired>)
    requires Compiled(reMessage, reMultipart) == true && Stores(multiparts, channels) == true
    requires Carries(frame, p) == true && TextSize(multiparts.view) + |frame| <= Text.INT_MAX
    modifies multiparts, multiparts.repr
    ensures Stores(multiparts, channels) == true
    ensures unchanged(reMessage, reMessage.code, reMessage.data)
    ensures unchanged(reMultipart, reMultipart.code, reMultipart.data)
    ensures forall n | n in multiparts.repr :: n in old(multiparts.repr) || fresh(n)
    ensures channels.view == old(channels.view)
    ensures var after := Arrival(old(multiparts.view), p);
      multiparts.view == after.parts && fired == FireAll(channels.view, after.log)
  {
    var taken;
    ghost var v := multiparts.view;
    taken, fired := ReceiveFrame(reMessage, reMultipart, multiparts, channels, frame, p.channel, HeaderText(p));
    PartReceived(v, channels.view, p, multiparts.view, fired);
  }

  /** The frames as they come, whatever parts they carry. */
  method ReceiveFrames(reMessage: Engine, reMultipart: Engine, multiparts: DList.List, channels: DList.List,
                       frames: seq<string>, ghost arr: seq<Part>)
    returns (calls: seq<Option<Fired>>)
    requires |frames| == |arr| && Ready(reMessage, reMultipart, multiparts, channels, frames, arr, 0) == true
    modifies multiparts, multiparts.repr
    ensures Ready(reMessage, reMultipart, multiparts, channels, frames, arr, |frames|) == true
    ensures channels.view == old(channels.view) && calls == Calls(channels.view, arr, |arr|)
  {
    calls := [];
    var k := 0;
    while k < |frames|
      invariant 0 <= k <= |frames| && Ready(reMessage, reMultipart, multiparts, channels, frames, arr, k) == true
      invariant forall n | n in multiparts.repr :: n in old(multiparts.repr) || fresh(n)
      invariant channels.view == old(channels.view) && calls == Calls(channels.view, arr, k)
    {
      var fired := ReceiveNext(reMessage, reMultipart, multiparts, channels, frames, k, arr);
      calls, k := calls + [fired], k + 1;
    }
  }

  /**
   With the parts of messages, from an empty store: every message has its one call, made at
   the last of its parts, and a message with a part missing has none.
   */
  method ReceiveAll(reMessage: Engine, reMultipart: Engine, multiparts: DList.List, channels: DList.List,
                    frames: seq<string>, ghost arr: seq<Part>, ghost msgs: seq<Outgoing>)
    returns (calls: seq<Option<Fired>>)
    requires Compiled(reMessage, reMultipart) == true && Stores(multiparts, channels) == true && multiparts.view == []
    requires Arrivals(msgs, arr) && CarryAll(frames, arr) && TotalSize(frames) <= Text.INT_MAX
    modifies multiparts, multiparts.repr
    ensures Stores(multiparts, channels) == true && channels.view == old(channels.view)
    ensures multiparts.view == Waiting(arr, |arr|) && |calls| == |frames|
    ensures AllDelivered(calls, channels.view, arr, msgs)
  {
    calls := ReceiveFrames(reMessage, reMultipart, multiparts, channels, frames, arr);
    RunEnds(multiparts.view, msgs, frames, arr, calls, channels.view);
  }
}
