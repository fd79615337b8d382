/**
 From the sender's call to the receiver's callback: splitting, escaping, the server,
 arrival of the parts in any order, reassembly and unescaping.
 */
module Delivery {
  import opened Basics
  import opened Captures
  import opened Frames
  import opened WireEscape
  import opened Json
  import opened WireDecode
  import opened Decimals
  import opened Reassembly
  import opened PartRuns
  import opened Receiver
  import opened Sender
  import DList
  import Outbound

  /** A message that is sent. */
  datatype Outgoing = Outgoing(keys: Keys, id: string, text: string)

  predicate IsAlnum(c: char) { 'a' <= c <= 'z' || 'A' <= c <= 'Z' || '0' <= c <= '9' }

  /** A nonempty message without control bytes but the seven, with a random id and plain keys. */
  ghost predicate Speakable(o: Outgoing) {
    && PlainKeys(o.keys) && OnlySeven(o.text) && o.text != ""
    && o.id != "" && forall k | 0 <= k < |o.id| :: IsAlnum(o.id[k])
  }

  /** And whose frames have room in the buffer of the writeable callback. */
  ghost predicate Sendable(o: Outgoing) { Speakable(o) && AllRoom(o) }

  function Total(o: Outgoing): nat { PartCount(|o.text|) }

  /** The frame that is queued for part `i`. */
  function FrameOfPart(o: Outgoing, i: nat): string
    requires 1 <= i <= Total(o)
  {
    SendFrame(o.keys, o.id, i, Total(o), Escaped(PartText(o.text, i - 1)))
  }

  /** The size of keys, numbers and escaped text is small enough; a caller can compute it. */
  predicate HasRoom(o: Outgoing, i: nat)
    requires 1 <= i <= Total(o)
  {
    var k := o.keys;
    14 + |k.appKey| + |k.token| + |k.channel| + |k.hash| + |o.id| + |Decimal(i)| + |Decimal(Total(o))|
    + |Escaped(PartText(o.text, i - 1))| <= 1800
  }

  ghost predicate AllRoom(o: Outgoing) { forall i | 1 <= i <= Total(o) :: HasRoom(o, i) }

  /** Part `i` as it arrives. */
  function PartOf(o: Outgoing, i: nat): Part
    requires 1 <= i <= Total(o)
  {
    Part(o.id, o.keys.channel, i, Total(o), Wire(PartText(o.text, i - 1)))
  }

  // ----------------------------------------------------------------- through the server

  /** Quotes stand only behind two backslashes. */
  ghost predicate Guarded(s: string) {
    forall k | 0 <= k < |s| && s[k] == '"' :: k >= 2 && s[k - 1] == '\\' && s[k - 2] == '\\'
  }

  lemma GuardedConcat(s: string, t: string)
    requires Guarded(s) && Guarded(t)
    ensures Guarded(s + t)
  {
    var u := s + t;
    forall k | 0 <= k < |u| && u[k] == '"' ensures k >= 2 && u[k - 1] == '\\' && u[k - 2] == '\\' {
      if k >= |s| { assert t[k - |s|] == '"'; }
    }
  }

  lemma {:induction false} WireIsGuarded(s: string)
    ensures Guarded(Wire(s))
  {
    if s != "" {
      WireIsGuarded(s[1..]);
      GuardedConcat(WireByte(s[0]), Wire(s[1..]));
    }
  }

  lemma HeadIsGuarded(id: string, i: nat, n: nat)
    requires forall k | 0 <= k < |id| :: IsAlnum(id[k])
    ensures Guarded(id + "_" + Decimal(i) + "-" + Decimal(n) + "_")
  {
  }

  lemma PartIsOk(o: Outgoing, i: nat)
    requires Speakable(o) && 1 <= i <= Total(o)
    ensures PartOk(PartOf(o, i))
  {
    var p := PartOf(o, i);
    HeaderSplit(o.id, Decimal(i), Decimal(Total(o)), p.payload);
    HeadIsGuarded(o.id, i, Total(o));
    WireIsGuarded(PartText(o.text, i - 1));
    GuardedConcat(o.id + "_" + Decimal(i) + "-" + Decimal(Total(o)) + "_", p.payload);
    GuardedHasNoSeparator(HeaderText(p));
  }

  lemma GuardedHasNoSeparator(s: string)
    requires Guarded(s)
    ensures NoSeparator(s)
  {
  }

  /** The head of the message queue is written, if and only if its part has room. */
  lemma WrittenIfRoom(o: Outgoing, i: nat, q: Outbound.Queues)
    requires 1 <= i <= Total(o) && q.throttleCounter < Outbound.MAX_WRITES
    requires q.commands == [] && q.messages != [] && q.messages[0] == DList.Item(FrameOfPart(o, i))
    ensures Outbound.Writes(q, true) == Outbound.Wrote(Outbound.Messages, FrameOfPart(o, i)) <==> HasRoom(o, i)
    ensures Outbound.Writes(q, true) == Outbound.Unfit(Outbound.Messages, FrameOfPart(o, i)) <==> !HasRoom(o, i)
  {
    FrameFits(o.keys, o.id, i, Total(o), Escaped(PartText(o.text, i - 1)));
  }

  /** The server turns each frame that is written into the frame that carries the part to the receiver. */
  lemma ServedPart(o: Outgoing, i: nat)
    requires Sendable(o) && 1 <= i <= Total(o)
    ensures Outbound.Fits(FrameOfPart(o, i))
    ensures var served := ServerReads(FrameOfPart(o, i));
      served.Served? && served.channel == o.keys.channel
          && Carries(ServerWrites(served.channel, served.text), PartOf(o, i))
  {
    PartsCover(|o.text|, i - 1);
    var t := PartText(o.text, i - 1);
    assert OnlySeven(t);
    ServerReadsFrame(o.keys, o.id, i, Total(o), t);
    ServerWritesFrame(o.keys.channel, o.id, i, Total(o), t);
    PartIsOk(o, i);
    assert HasRoom(o, i);
    FrameFits(o.keys, o.id, i, Total(o), Escaped(t));
  }

  /** 800 apostrophes: nothing in them is misread, but escaped they are 2400 bytes and have no room. */
  lemma ApostrophesHaveNoRoom(k: Keys, id: string, text: string)
    requires PlainKeys(k) && id != "" && (forall i | 0 <= i < |id| :: IsAlnum(id[i])) && text == Apostrophes(800)
    ensures var o := Outgoing(k, id, text);
      Speakable(o) && Clean(o.text) && Total(o) == 1 && !HasRoom(o, 1)
  {
    NoBackslashIsClean(text);
    ApostrophesGrow(800);
    assert PartText(text, 0) == text;
  }

  function Apostrophes(n: nat): (s: string)
    ensures |s| == n && forall i | 0 <= i < n :: s[i] == '\''
  {
    if n == 0 then "" else "'" + Apostrophes(n - 1)
  }

  lemma {:induction false} ApostrophesGrow(n: nat)
    ensures |Escaped(Apostrophes(n))| == 3 * n
  {
    if n > 0 {
      assert Apostrophes(n)[1..] == Apostrophes(n - 1);
      ApostrophesGrow(n - 1);
    }
  }

  /** The frames queued for a message are those of its parts, in order. */
  lemma {:induction false} QueuedFrame(o: Outgoing, count: nat, i: nat)
    requires 1 <= i <= count <= Total(o)
    ensures |SendFrames(o.keys, o.id, o.text, count)| == count
    ensures SendFrames(o.keys, o.id, o.text, count)[i - 1] == DList.Item(FrameOfPart(o, i))
  {
    if count > 1 { QueuedFrame(o, count - 1, if i == count then 1 else i); }
  }

  // ------------------------------------------------------------------------ arrivals

  /** What has been received and handed on after the parts `arr`. */
  function Deliver(arr: seq<Part>): Store {
    if arr == [] then Store([], [])
    else
      var s := Deliver(arr[..|arr| - 1]);
      var after := Arrival(s.parts, arr[|arr| - 1]);
      Store(after.parts, s.log + after.log)
  }

  /** What the arrival of part `k` hands on. */
  function LogAt(arr: seq<Part>, k: nat): seq<Joined>
    requires k < |arr|
  {
    Arrival(Deliver(arr[..k]).parts, arr[k]).log
  }

  lemma NoneWaiting(arr: seq<Part>, p: Part)
    requires Extends(arr, p) && p.total == 1
    ensures DList.Without(Waiting(arr, |arr|), p.id) == Waiting(arr, |arr|)
  {
    var w := Waiting(arr, |arr|);
    ExtendsFacts(arr, p);
    forall k | 0 <= k < |w| ensures w[k].id != p.id {
      var j := WaitingIs(arr, |arr|, k);
      assert arr[j].id == p.id ==> Arrived(arr, p.id, 1);
    }
    DList.AbsentUnchanged(w, p.id);
  }

  lemma SingleMessage(arr: seq<Part>, p: Part)
    requires Extends(arr, p) && p.total == 1
    ensures Complete(arr + [p], p) && Message(arr + [p], p.id, 1) == p.payload
  {
    var b := arr + [p];
    ExtendsFacts(arr, p);
    ArrivedNext(arr, p, p.id, 1);
    assert b[|arr|] == p;
    PayloadIs(b, |arr|);
    assert Message(b, p.id, 1) == Message(b, p.id, 0) + Payload(b, p.id, 1);
  }

  /** A message of one part passes the store by, to the same effect. */
  lemma ArrivalIsReceive(arr: seq<Part>, p: Part)
    requires Extends(arr, p)
    ensures Arrival(Waiting(arr, |arr|), p) == Receive(Store(Waiting(arr, |arr|), []), p)
  {
    ExtendsFacts(arr, p);
    if p.total == 1 {
      NoneWaiting(arr, p);
      SingleMessage(arr, p);
      WaitingAfter(arr, p);
      ReceiveIsRight(arr, p, []);
    }
  }

  /** One arrival: what waits afterwards, and what is handed on. */
  lemma ArrivalIsRight(arr: seq<Part>, p: Part)
    requires Extends(arr, p)
    ensures var b := arr + [p];
      Arrival(Waiting(arr, |arr|), p)
      == Store(Waiting(b, |b|), if Complete(b, p) then [Joined(p.channel, Message(b, p.id, p.total))] else [])
  {
    ArrivalIsReceive(arr, p);
    ReceiveIsRight(arr, p, []);
  }

  /** The run of arrivals is exact. */
  lemma {:induction false} DeliverIsRight(arr: seq<Part>)
    requires Consistent(arr)
    ensures Deliver(arr) == Store(Waiting(arr, |arr|), Handed(arr))
  {
    if arr != [] {
      var before, p := arr[..|arr| - 1], arr[|arr| - 1];
      assert arr == before + [p];
      DeliverIsRight(before);
      ArrivalIsRight(before, p);
    }
  }

  lemma ConsistentPrefix(arr: seq<Part>, n: nat)
    requires Consistent(arr) && n <= |arr|
    ensures Consistent(arr[..n])
  {
    var b := arr[..n];
    assert forall i | 0 <= i < |b| :: b[i] == arr[i];
  }

  /** Part `k` hands on its message when it completes it, and nothing otherwise. */
  lemma LogAtIs(arr: seq<Part>, k: nat)
    requires Consistent(arr) && k < |arr|
    ensures LogAt(arr, k)
         == if Completes(arr, k) then [Joined(arr[k].channel, Message(arr[..k + 1], arr[k].id, arr[k].total))] else []
  {
    var before, p := arr[..k], arr[k];
    assert arr[..k + 1] == before + [p];
    ConsistentPrefix(arr, k + 1);
    assert Extends(before, p);
    ExtendsFacts(before, p);
    DeliverIsRight(before);
    ArrivalIsRight(before, p);
  }

  // ---------------------------------------------------------------------- end to end

  /** The parts of the messages, with distinct ids, each part at most once, in any order. */
  ghost predicate Arrivals(msgs: seq<Outgoing>, arr: seq<Part>) {
    && (forall j | 0 <= j < |msgs| :: Sendable(msgs[j]))
    && (forall i, j | 0 <= i < j < |msgs| :: msgs[i].id != msgs[j].id)
    && (forall k | 0 <= k < |arr| :: IsPart(msgs, arr[k]))
    && (forall i, k | 0 <= i < k < |arr| :: arr[i] != arr[k])
  }

  ghost predicate IsPart(msgs: seq<Outgoing>, p: Part) {
    exists j | 0 <= j < |msgs| :: IsPartOf(msgs[j], p)
  }

  ghost predicate IsPartOf(o: Outgoing, p: Part) {
    1 <= p.num <= Total(o) && p == PartOf(o, p.num)
  }

  lemma ArrivalsFit(msgs: seq<Outgoing>, arr: seq<Part>)
    requires Arrivals(msgs, arr)
    ensures Consistent(arr)
  {
    forall k | 0 <= k < |arr| ensures 1 <= arr[k].num <= arr[k].total {
      assert IsPart(msgs, arr[k]);
    }
    forall i, k | 0 <= i < k < |arr| && arr[i].id == arr[k].id
      ensures arr[i].total == arr[k].total && arr[i].channel == arr[k].channel && arr[i].num != arr[k].num
    {
      SameSender(msgs, arr[i], arr[k]);
    }
  }

  lemma SameSender(msgs: seq<Outgoing>, p: Part, q: Part)
    requires IsPart(msgs, p) && IsPart(msgs, q) && p.id == q.id
    requires forall i, j | 0 <= i < j < |msgs| :: msgs[i].id != msgs[j].id
    ensures p.total == q.total && p.channel == q.channel && (p.num == q.num ==> p == q)
  {
    var i :| 0 <= i < |msgs| && IsPartOf(msgs[i], p);
    var j :| 0 <= j < |msgs| && IsPartOf(msgs[j], q);
    assert i == j;
  }

  /** All parts of a message are among the arrivals. */
  ghost predicate AllArrive(arr: seq<Part>, o: Outgoing) {
    forall i | 1 <= i <= Total(o) :: Arrived(arr, o.id, i)
  }

  lemma PayloadOf(msgs: seq<Outgoing>, arr: seq<Part>, j: nat, i: nat)
    requires Arrivals(msgs, arr) && j < |msgs| && 1 <= i <= Total(msgs[j]) && Arrived(arr, msgs[j].id, i)
    ensures Payload(arr, msgs[j].id, i) == Wire(PartText(msgs[j].text, i - 1))
  {
    ArrivalsFit(msgs, arr);
    var k :| 0 <= k < |arr| && arr[k].id == msgs[j].id && arr[k].num == i;
    PayloadIs(arr, k);
    IsFrom(msgs, arr[k], j);
  }

  lemma IsFrom(msgs: seq<Outgoing>, p: Part, j: nat)
    requires IsPart(msgs, p) && j < |msgs| && p.id == msgs[j].id
    requires forall i, j | 0 <= i < j < |msgs| :: msgs[i].id != msgs[j].id
    ensures IsPartOf(msgs[j], p)
  {
    var i :| 0 <= i < |msgs| && IsPartOf(msgs[i], p);
    assert i == j;
  }

  /** Where the first `n` parts end. */
  function PrefixEnd(len: nat, n: nat): nat { if n == 0 then 0 else PartEnd(len, n - 1) }

  lemma PrefixStep(m: string, n: nat)
    requires 1 <= n <= PartCount(|m|)
    ensures PrefixEnd(|m|, n - 1) <= |m| && PrefixEnd(|m|, n) <= |m|
    ensures m[..PrefixEnd(|m|, n)] == m[..PrefixEnd(|m|, n - 1)] + PartText(m, n - 1)
  {
    PartsCover(|m|, n - 1);
    if n > 1 { PartsCover(|m|, n - 2); }
    assert PrefixEnd(|m|, n - 1) == (n - 1) * MAX_PART;
  }

  /** The wire forms of the first `n` parts. */
  function WireParts(m: string, n: nat): string
    requires n <= PartCount(|m|)
  {
    if n == 0 then "" else WireParts(m, n - 1) + Wire(PartText(m, n - 1))
  }

  lemma {:induction false} PartsAreWire(m: string, n: nat)
    requires n <= PartCount(|m|)
    ensures PrefixEnd(|m|, n) <= |m| && WireParts(m, n) == Wire(m[..PrefixEnd(|m|, n)])
  {
    if n > 0 {
      PartsAreWire(m, n - 1);
      PrefixStep(m, n);
      WireConcat(m[..PrefixEnd(|m|, n - 1)], PartText(m, n - 1));
    }
  }

  lemma {:induction false} PayloadsJoin(arr: seq<Part>, id: string, m: string, n: nat)
    requires n <= PartCount(|m|)
    requires forall i | 1 <= i <= n :: Payload(arr, id, i) == Wire(PartText(m, i - 1))
    ensures Message(arr, id, n) == WireParts(m, n)
  {
    if n > 0 { PayloadsJoin(arr, id, m, n - 1); }
  }

  /** The joined parts are the wire form of the whole message. */
  lemma JoinedIsWire(msgs: seq<Outgoing>, arr: seq<Part>, j: nat)
    requires Arrivals(msgs, arr) && j < |msgs| && AllArrive(arr, msgs[j])
    ensures Message(arr, msgs[j].id, Total(msgs[j])) == Wire(msgs[j].text)
  {
    var o := msgs[j];
    forall i | 1 <= i <= Total(o) ensures Payload(arr, o.id, i) == Wire(PartText(o.text, i - 1)) {
      assert Arrived(arr, o.id, i);
      PayloadOf(msgs, arr, j, i);
    }
    PayloadsJoin(arr, o.id, o.text, Total(o));
    PartsAreWire(o.text, Total(o));
    PartsCover(|o.text|, 0);
    PartsCover(|o.text|, Total(o) - 1);
    assert o.text[..|o.text|] == o.text;
  }

  /**
   End to end: among any arrivals, in any order, a message all of whose parts arrive is
   handed on once, at the last of them, in its wire form.
   */
  lemma MessageDelivered(msgs: seq<Outgoing>, arr: seq<Part>, j: nat) returns (k: nat)
    requires Arrivals(msgs, arr) && j < |msgs| && AllArrive(arr, msgs[j])
    ensures k < |arr| && arr[k].id == msgs[j].id
    ensures forall i | k < i < |arr| :: arr[i].id != msgs[j].id
    ensures LogAt(arr, k) == [Joined(msgs[j].keys.channel, Wire(msgs[j].text))]
    ensures forall i | 0 <= i < |arr| && i != k && arr[i].id == msgs[j].id :: LogAt(arr, i) == []
  {
    ArrivalsFit(msgs, arr);
    k := LastPart(msgs, arr, j);
    LogAtIs(arr, k);
    CompletedText(msgs, arr, j, k);
    forall i | 0 <= i < |arr| && i != k && arr[i].id == msgs[j].id ensures LogAt(arr, i) == [] {
      LogAtIs(arr, i);
      if Completes(arr, i) { HandedOnce(arr, i, k); }
    }
  }

  lemma LastPart(msgs: seq<Outgoing>, arr: seq<Part>, j: nat) returns (k: nat)
    requires Arrivals(msgs, arr) && Consistent(arr) && j < |msgs| && AllArrive(arr, msgs[j])
    ensures k < |arr| && arr[k].id == msgs[j].id && Completes(arr, k)
    ensures forall i | k < i < |arr| :: arr[i].id != msgs[j].id
  {
    var o := msgs[j];
    PartsCover(|o.text|, 0);
    assert Arrived(arr, o.id, 1);
    var i :| 0 <= i < |arr| && arr[i].id == o.id && arr[i].num == 1;
    IsFrom(msgs, arr[i], j);
    assert arr[..|arr|] == arr;
    k := HandedAtLast(arr, arr[i], |arr|);
  }

  lemma CompletedText(msgs: seq<Outgoing>, arr: seq<Part>, j: nat, k: nat)
    requires Arrivals(msgs, arr) && j < |msgs| && k < |arr| && arr[k].id == msgs[j].id && Completes(arr, k)
    ensures arr[k].channel == msgs[j].keys.channel
    ensures Message(arr[..k + 1], arr[k].id, arr[k].total) == Wire(msgs[j].text)
  {
    var o, b := msgs[j], arr[..k + 1];
    IsFrom(msgs, arr[k], j);
    assert Arrivals(msgs, b) by { assert forall i | 0 <= i < |b| :: b[i] == arr[i]; }
    assert AllArrive(b, o);
    JoinedIsWire(msgs, b, j);
  }

  /**
   What the callback gets: the channel, and exactly the bytes of the message if and only
   if the message contains no lookalike of a token.
   */
  lemma CallbackGets(channels: seq<DList.Entry>, o: Outgoing)
    requires Sendable(o)
    ensures var k := DList.FirstMatch(channels, DList.ById(o.keys.channel));
      var fired := FireAll(channels, [Joined(o.keys.channel, Wire(o.text))]);
      k < |channels| && channels[k].callback.Some? ==>
        fired.Some? && fired.value.callback == channels[k].callback.value && fired.value.channel == o.keys.channel
        && (fired.value.text == o.text <==> Clean(o.text))
  {
    ArrivesExactly(o.text);
  }
}
