/**
 Sending a message: parts of at most 800 bytes, each escaped, given a header and queued;
 and the server between the sender and the receivers.
 */
module Sender {
  import opened Basics
  import opened SlreProgram
  import opened Captures
  import opened Frames
  import opened WireEscape
  import opened Json
  import opened Decimals
  import opened Commands
  import DList

  const MAX_PART := 800

  function PartCount(len: nat): nat {
    len / MAX_PART + if len % MAX_PART > 0 then 1 else 0
  }

  /** The end of part `i`, counted from 0. */
  function PartEnd(len: nat, i: nat): nat {
    if (i + 1) * MAX_PART <= len then (i + 1) * MAX_PART else len
  }

  function PartText(m: string, i: nat): string
    requires i < PartCount(|m|)
  {
    m[i * MAX_PART..PartEnd(|m|, i)]
  }

  /** Parts up to `n` make up a prefix, and all parts the message. */
  lemma PartsCover(len: nat, i: nat)
    requires i < PartCount(len)
    ensures i * 800 < PartEnd(len, i) <= len && PartEnd(len, i) - i * 800 <= 800
    ensures i + 1 < PartCount(len) ==> PartEnd(len, i) == (i + 1) * 800
    ensures i + 1 == PartCount(len) ==> PartEnd(len, i) == len
  {
  }

  /** The keys and names that go into a command. */
  datatype Keys = Keys(appKey: string, token: string, channel: string, hash: string)

  function KeyText(k: Keys): string {
    "send" + ";" + k.appKey + ";" + k.token + ";" + k.channel + ";" + k.hash + ";"
  }

  /** `"send;key;token;channel;hash;id_i-n_text"`, the quotes included. */
  function SendFrame(k: Keys, id: string, i: nat, n: nat, text: string): string {
    "\"" + KeyText(k) + HeaderOf(id, Decimal(i), Decimal(n), text) + "\""
  }

  /** The first `count` frames of a message. */
  function SendFrames(k: Keys, id: string, m: string, count: nat): seq<DList.Entry>
    requires count <= PartCount(|m|)
  {
    if count == 0 then []
    else SendFrames(k, id, m, count - 1)
         + [DList.Item(SendFrame(k, id, count, PartCount(|m|), Escaped(PartText(m, count - 1))))]
  }

  /** `snprintf`: at most `size - 1` bytes. */
  function Snprintf(size: nat, text: string): string
    requires size > 0
  {
    if |text| < size then text else text[..size - 1]
  }

  /** The size the sender reserves is just enough: nothing is cut off. */
  lemma FrameFits(k: Keys, id: string, i: nat, n: nat, text: string)
    ensures var len := 15 + |k.appKey| + |k.token| + |k.channel| + |k.hash|
                          + |id| + |Decimal(n)| + |Decimal(i)| + |text|;
      |SendFrame(k, id, i, n, text)| == len - 1
          && Snprintf(len, SendFrame(k, id, i, n, text)) == SendFrame(k, id, i, n, text)
  {
  }

  method WriteFrame(k: Keys, id: string, i: nat, n: nat, text: string) returns (frame: string)
    ensures frame == SendFrame(k, id, i, n, text)
  {
    var len := 15 + |k.appKey| + |k.token| + |k.channel| + |k.hash| + |id| + |Decimal(n)| + |Decimal(i)| + |text|;
    FrameFits(k, id, i, n, text);
    frame := Snprintf(len, SendFrame(k, id, i, n, text));
  }

  /** Cuts out, escapes and frames part `i`. */
  method MakeFrame(k: Keys, id: string, m: string, i: nat, parts: nat) returns (frame: string)
    requires i < parts == PartCount(|m|)
    ensures frame == SendFrame(k, id, i + 1, parts, Escaped(PartText(m, i)))
  {
    PartsCover(|m|, i);
    var messageSize := |m| - i * MAX_PART;
    if messageSize > MAX_PART { messageSize := MAX_PART; }
    var messagePart := m[i * MAX_PART..i * MAX_PART + messageSize];
    assert messagePart == PartText(m, i);
    var messageR := EscapeSequencesBefore(messagePart);
    frame := WriteFrame(k, id, i + 1, parts, messageR);
  }

  /** `_ortc_send`; the permission of the channel and the random id are given. */
  method Send(messagesToSend: DList.List, k: Keys, messageId: string, message: string)
    requires messagesToSend.Valid()
    modifies messagesToSend, messagesToSend.repr
    ensures messagesToSend.Valid() && forall n | n in messagesToSend.repr :: n in old(messagesToSend.repr) || fresh(n)
    ensures messagesToSend.view == old(messagesToSend.view) + SendFrames(k, messageId, message, PartCount(|message|))
  {
    ghost var before := messagesToSend.view;
    var parts := |message| / MAX_PART;
    if |message| % MAX_PART > 0 { parts := parts + 1; }
    var i := 0;
    assert before + [] == before;
    while i < parts
      invariant 0 <= i <= parts == PartCount(|message|)
      invariant messagesToSend.Valid()
      invariant forall n | n in messagesToSend.repr :: n in old(messagesToSend.repr) || fresh(n)
      invariant messagesToSend.view == before + SendFrames(k, messageId, message, i)
    {
      QueuePart(messagesToSend, k, messageId, message, i, parts, before);
      i := i + 1;
    }
  }

  /** One turn of the loop: the frame of part `i` is queued behind those before it. */
  method QueuePart(messagesToSend: DList.List, k: Keys, id: string, message: string, i: nat, parts: nat,
                   ghost before: seq<DList.Entry>)
    requires messagesToSend.Valid() && i < parts == PartCount(|message|)
    requires messagesToSend.view == before + SendFrames(k, id, message, i)
    modifies messagesToSend, messagesToSend.repr
    ensures messagesToSend.Valid() && forall n | n in messagesToSend.repr :: n in old(messagesToSend.repr) || fresh(n)
    ensures messagesToSend.view == before + SendFrames(k, id, message, i + 1)
  {
    var m := MakeFrame(k, id, message, i, parts);
    Regroup(before, SendFrames(k, id, message, i), [DList.Item(m)]);
    messagesToSend.Insert(DList.Item(m));
  }

  // ------------------------------------------------------------------------- the server

  /** A byte that JSON strings leave alone and that is no separator of the command. */
  predicate IsPlain(c: char) { c as int >= 32 && c != '"' && c != '\\' }

  ghost predicate Plain(s: string) { forall i | 0 <= i < |s| :: IsPlain(s[i]) }

  ghost predicate PlainKey(s: string) { Plain(s) && OneField(s) }

  ghost predicate PlainKeys(k: Keys) {
    PlainKey(k.appKey) && PlainKey(k.token) && PlainKey(k.channel) && PlainKey(k.hash)
  }

  datatype Served = Served(channel: string, text: string) | Refused

  /** The server reads the string a client has sent and takes the command apart. */
  function ServerReads(frame: string): Served {
    if |frame| < 2 || frame[0] != '"' || frame[|frame| - 1] != '"' then Refused
    else
      match Decode(frame[1..|frame| - 1])
      case Malformed => Refused
      case Decoded(d) =>
        var (command, r0) := CutField(d);
        var (appKey, r1) := CutField(r0);
        var (token, r2) := CutField(r1);
        var (channel, r3) := CutField(r2);
        var (hash, text) := CutField(r3);
        if command == "send" then Served(channel, text) else Refused
  }

  /** The message as an object in a string in an array: `a["{\"ch\":\"...\",\"m\":\"...\"}"]`. */
  function ServerWrites(channel: string, text: string): string {
    "a[\"" + Encode("{\"ch\":\"" + Encode(channel) + "\",\"m\":\"" + Encode(text) + "\"}") + "\"]"
  }

  lemma {:induction false} DecodePlain(s: string, t: string)
    requires Plain(s)
    ensures Decode(s + t) == if Decode(t).Decoded? then Decoded(s + Decode(t).text) else Malformed
  {
    if s == "" {
      assert s + t == t;
      if Decode(t).Decoded? { assert s + Decode(t).text == Decode(t).text; }
    } else {
      DecodePlain(s[1..], t);
      DecodeNext([s[0]], s[0], s[1..] + t);
      assert [s[0]] + (s[1..] + t) == s + t;
      if Decode(t).Decoded? { assert [s[0]] + (s[1..] + Decode(t).text) == s + Decode(t).text; }
    }
  }

  lemma {:induction false} EncodePlain(s: string)
    requires Plain(s)
    ensures Encode(s) == s
  {
    if s != "" { EncodePlain(s[1..]); }
  }

  /** The five cuts. */
  lemma CutsApart(k: Keys, text: string)
    requires PlainKeys(k)
    ensures var r0 := k.appKey + (";" + (k.token + (";" + (k.channel + (";" + (k.hash + (";" + text)))))));
      var r1 := k.token + (";" + (k.channel + (";" + (k.hash + (";" + text)))));
      var r2 := k.channel + (";" + (k.hash + (";" + text)));
      var r3 := k.hash + (";" + text);
      && CutField("send" + (";" + r0)) == ("send", r0) && CutField(r0) == (k.appKey, r1)
      && CutField(r1) == (k.token, r2) && CutField(r2) == (k.channel, r3) && CutField(r3) == (k.hash, text)
      && KeyText(k) + text == "send" + (";" + r0)
  {
    var r3 := k.hash + (";" + text);
    var r2 := k.channel + (";" + r3);
    var r1 := k.token + (";" + r2);
    var r0 := k.appKey + (";" + r1);
    CutAt(k.hash, text);
    CutAt(k.channel, r3);
    CutAt(k.token, r2);
    CutAt(k.appKey, r1);
    CutAt("send", r0);
    KeysThen(k, text);
  }

  lemma KeysThen(k: Keys, text: string)
    ensures KeyText(k) + text
         == "send" + (";" + (k.appKey + (";" + (k.token + (";" + (k.channel + (";" + (k.hash + (";" + text)))))))))
  {
  }

  /** The contents of the string that is sent. */
  lemma FrameContents(k: Keys, id: string, i: nat, n: nat, text: string)
    ensures var f := SendFrame(k, id, i, n, text);
      |f| >= 2 && f[0] == '"' && f[|f| - 1] == '"'
          && f[1..|f| - 1] == KeyText(k) + HeaderOf(id, Decimal(i), Decimal(n), text)
  {
    QuotesAround(KeyText(k), HeaderOf(id, Decimal(i), Decimal(n), text));
  }

  lemma QuotesAround(u: string, v: string)
    ensures var f := "\"" + u + v + "\""; |f| >= 2 && f[0] == '"' && f[|f| - 1] == '"' && f[1..|f| - 1] == u + v
  {
  }

  lemma HeaderSplit(id: string, count: string, total: string, text: string)
    ensures HeaderOf(id, count, total, text) == (id + "_" + count + "-" + total + "_") + text
  {
  }

  lemma KeysArePlain(k: Keys)
    requires PlainKeys(k)
    ensures Plain(KeyText(k))
  {
  }

  lemma HeadIsPlain(id: string, i: nat, n: nat)
    requires Plain(id)
    ensures Plain(id + "_" + Decimal(i) + "-" + Decimal(n) + "_")
  {
  }

  /** The server reads what the sender wrote: the channel, and the header with the text as read. */
  lemma ServerReadsFrame(k: Keys, id: string, i: nat, n: nat, text: string)
    requires PlainKeys(k) && Plain(id) && OnlySeven(text)
    ensures ServerReads(SendFrame(k, id, i, n, Escaped(text)))
         == Served(k.channel, HeaderOf(id, Decimal(i), Decimal(n), AsRead(text)))
  {
    var head := id + "_" + Decimal(i) + "-" + Decimal(n) + "_";
    FrameContents(k, id, i, n, Escaped(text));
    HeaderSplit(id, Decimal(i), Decimal(n), Escaped(text));
    HeaderSplit(id, Decimal(i), Decimal(n), AsRead(text));
    KeysArePlain(k);
    HeadIsPlain(id, i, n);
    EscapedIsLegal(text);
    DecodePlain(head, Escaped(text));
    DecodePlain(KeyText(k), head + Escaped(text));
    CutsApart(k, head + AsRead(text));
  }

  // -------------------------------------------------------------- what the server writes

  /** Encoding `{"ch":"`, `","m":"` and `"}`. */
  lemma EncodeStart()
    ensures Encode("{\"ch\":\"") == "{\\\"ch\\\":\\\""
  {
    EncodeQuote("{", "ch\":\"");
    assert "{" + "\"" + "ch\":\"" == "{\"ch\":\"";
    EncodeQuote("ch", ":\"");
    assert "ch" + "\"" + ":\"" == "ch\":\"";
    EncodeColon();
  }

  lemma EncodeColon()
    ensures Encode(":\"") == ":\\\""
  {
    EncodeQuote(":", "");
    assert Encode("") == "" && ":" + "\"" + "" == ":\"";
  }

  lemma EncodeMiddle()
    ensures Encode("\",\"m\":\"") == MIDDLE
  {
    EncodeQuote("", ",\"m\":\"");
    assert "" + "\"" + ",\"m\":\"" == "\",\"m\":\"";
    EncodeMiddleName();
  }

  lemma EncodeMiddleName()
    ensures "\\\"" + Encode(",\"m\":\"") == MIDDLE
  {
    EncodeQuote(",", "m\":\"");
    assert "," + "\"" + "m\":\"" == ",\"m\":\"";
    EncodeQuote("m", ":\"");
    assert "m" + "\"" + ":\"" == "m\":\"";
    EncodeColon();
  }

  lemma EncodeEnd()
    ensures Encode("\"}") == "\\\"}"
  {
    EncodeQuote("", "}");
    EncodePlain("}");
    assert "" + "\"" + "}" == "\"}";
  }

  lemma EncodeQuote(s: string, t: string)
    requires Plain(s)
    ensures Encode(s + "\"" + t) == s + "\\\"" + Encode(t)
  {
    EncodeConcat(s + "\"", t);
    EncodeConcat(s, "\"");
    EncodePlain(s);
    EncodeOne('"');
  }

  lemma ServerWritesFrame(channel: string, id: string, i: nat, n: nat, text: string)
    requires Plain(channel) && Plain(id) && OnlySeven(text)
    ensures ServerWrites(channel, HeaderOf(id, Decimal(i), Decimal(n), AsRead(text)))
         == FrameOf(channel, HeaderOf(id, Decimal(i), Decimal(n), Wire(text)))
  {
    var head := id + "_" + Decimal(i) + "-" + Decimal(n) + "_";
    HeaderSplit(id, Decimal(i), Decimal(n), AsRead(text));
    HeaderSplit(id, Decimal(i), Decimal(n), Wire(text));
    HeadIsPlain(id, i, n);
    EncodePlain(head);
    EncodeConcat(head, AsRead(text));
    EncodeConcat(head, Encode(AsRead(text)));
    EncodedTwice(text);
    EncodePlain(channel);
    WrittenFrame(channel, head + Encode(AsRead(text)), head + Wire(text));
  }

  lemma WrittenFrame(channel: string, once: string, twice: string)
    requires Encode(channel) == channel && Encode(once) == twice
    ensures "a[\"" + Encode("{\"ch\":\"" + channel + "\",\"m\":\"" + once + "\"}") + "\"]" == FrameOf(channel, twice)
  {
    EncodeStart();
    EncodeMiddle();
    EncodeEnd();
    var a, b := "{\"ch\":\"", "\",\"m\":\"";
    EncodeFive(a, channel, b, once, "\"}");
    FrameJoins(channel, twice);
  }

  lemma EncodeFive(a: string, b: string, c: string, d: string, e: string)
    ensures Encode(a + b + c + d + e) == Encode(a) + Encode(b) + Encode(c) + Encode(d) + Encode(e)
  {
    EncodeConcat(a + b + c + d, e);
    EncodeConcat(a + b + c, d);
    EncodeConcat(a + b, c);
    EncodeConcat(a, b);
  }

  lemma FrameJoins(channel: string, text: string)
    ensures "a[\"" + ("{\\\"ch\\\":\\\"" + channel + MIDDLE + text + "\\\"}") + "\"]" == FrameOf(channel, text)
  {
    assert "a[\"" + "{\\\"ch\\\":\\\"" == "a[\"{\\\"ch\\\":\\\"";
    assert "\\\"}" + "\"]" == END_OF_FRAME;
  }
}
