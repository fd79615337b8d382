/**
 The two outgoing queues: commands before messages, messages only when connected, at most
 2000 writes between two resets of the throttle, and items of at most 1800 bytes.
 */
module Outbound {
  import opened Basics
  import opened DList

  const MAX_WRITES := 2000
  const MAX_PAYLOAD := 1800

  datatype Kind = Commands | Messages

  /** `Give` puts an item into a queue, `Clear` is the clearing of both queues on disconnecting. */
  datatype Input = Give(kind: Kind, text: string) | Writeable(connected: bool) | Reset | Clear

  /** What is written by a step; an item is unfit when the buffer has no room for it. */
  datatype Write = Nothing | Wrote(kind: Kind, text: string) | Unfit(kind: Kind, text: string)

  datatype Queues = Queues(commands: seq<Entry>, messages: seq<Entry>, throttleCounter: nat)

  predicate Fits(text: string) { |text| <= MAX_PAYLOAD }

  /** An item that is copied into the buffer and written. */
  function Take(kind: Kind, text: string): Write {
    if Fits(text) then Wrote(kind, text) else Unfit(kind, text)
  }

  /** What a writeable socket is given. */
  function Writes(q: Queues, connected: bool): Write {
    if q.throttleCounter >= MAX_WRITES then Nothing
    else if q.commands != [] then Take(Commands, q.commands[0].id)
    else if connected && q.messages != [] then Take(Messages, q.messages[0].id)
    else Nothing
  }

  function WriteOf(q: Queues, i: Input): Write {
    if i.Writeable? then Writes(q, i.connected) else Nothing
  }

  function Next(q: Queues, i: Input): Queues {
    match i
    case Give(Commands, text) => q.(commands := q.commands + [Item(text)])
    case Give(Messages, text) => q.(messages := q.messages + [Item(text)])
    case Reset => q.(throttleCounter := 0)
    case Clear => Queues([], [], q.throttleCounter)
    case Writeable(connected) =>
      var w := Writes(q, connected);
      if w.Nothing? then q
      else if w.kind == Commands then Queues(q.commands[1..], q.messages, q.throttleCounter + 1)
      else Queues(q.commands, q.messages[1..], q.throttleCounter + 1)
  }

  class Context {
    const ortcCommands: List
    const messagesToSend: List
    var throttleCounter: nat
    ghost var inputs: seq<Input>
    ghost var written: seq<Write>

    ghost function Contents(): Queues
      reads this, ortcCommands, messagesToSend
    {
      Queues(ortcCommands.view, messagesToSend.view, throttleCounter)
    }

    ghost predicate Sound()
      reads this, ortcCommands, ortcCommands.nodes, messagesToSend, messagesToSend.nodes
    {
      && ortcCommands != messagesToSend && ortcCommands.repr !! messagesToSend.repr
      && ortcCommands.Valid() && messagesToSend.Valid()
    }

    /** The queues are where the run of the inputs leads, and the writes are its writes. */
    ghost predicate Valid()
      reads this, ortcCommands, ortcCommands.nodes, messagesToSend, messagesToSend.nodes
    {
      Sound() == true && Contents() == After(inputs) && written == Written(inputs)
    }

    constructor ()
      ensures Valid() && inputs == [] && fresh(ortcCommands) && fresh(messagesToSend)
    {
      ortcCommands := new List();
      messagesToSend := new List();
      throttleCounter := 0;
      inputs, written := [], [];
    }

    method SendCommand(text: string)
      requires Valid()
      modifies this, ortcCommands, ortcCommands.repr
      ensures Valid() && inputs == old(inputs) + [Give(Commands, text)]
    {
      OneMore(inputs, Give(Commands, text));
      inputs, written := inputs + [Give(Commands, text)], written + [Nothing];
      PutCommand(text);
    }

    method PutCommand(text: string)
      requires Sound()
      modifies ortcCommands, ortcCommands.repr
      ensures Sound() && Contents() == Next(old(Contents()), Give(Commands, text))
      ensures forall n | n in ortcCommands.repr :: n in old(ortcCommands.repr) || fresh(n)
    {
      PutItem(ortcCommands, messagesToSend, text);
    }

    method SendMessage(text: string)
      requires Valid()
      modifies this, messagesToSend, messagesToSend.repr
      ensures Valid() && inputs == old(inputs) + [Give(Messages, text)]
    {
      OneMore(inputs, Give(Messages, text));
      inputs, written := inputs + [Give(Messages, text)], written + [Nothing];
      PutMessage(text);
    }

    method PutMessage(text: string)
      requires Sound()
      modifies messagesToSend, messagesToSend.repr
      ensures Sound() && Contents() == Next(old(Contents()), Give(Messages, text))
      ensures forall n | n in messagesToSend.repr :: n in old(messagesToSend.repr) || fresh(n)
    {
      PutItem(messagesToSend, ortcCommands, text);
    }

    /** A second has passed in the throttle loop. */
    method ResetThrottle()
      requires Valid()
      modifies this
      ensures Valid() && inputs == old(inputs) + [Reset]
    {
      OneMore(inputs, Reset);
      inputs, written := inputs + [Reset], written + [Nothing];
      throttleCounter := 0;
    }

    /** The clearing of both queues in `_ortc_disconnecting_worker`. */
    method ClearQueues()
      requires Valid()
      modifies this, ortcCommands, messagesToSend
      ensures Valid() && inputs == old(inputs) + [Clear]
    {
      OneMore(inputs, Clear);
      inputs, written := inputs + [Clear], written + [Nothing];
      EmptyBoth();
    }

    method EmptyBoth()
      requires Sound()
      modifies ortcCommands, messagesToSend
      ensures Sound() && Contents() == Queues([], [], throttleCounter)
    {
      messagesToSend.Clear();
      ortcCommands.Clear();
    }

    /** The socket can be written to; `again` asks to be called again. */
    method OnWriteable(connected: bool) returns (w: Write, again: bool)
      requires Valid()
      modifies this, ortcCommands, messagesToSend
      ensures Valid() && inputs == old(inputs) + [Writeable(connected)] && written == old(written) + [w]
      ensures again == (old(throttleCounter) < MAX_WRITES
                        && (ortcCommands.view != [] || (messagesToSend.view != [] && throttleCounter < MAX_WRITES)))
    {
      OneMore(inputs, Writeable(connected));
      w, again := Nothing, false;
      inputs, written := inputs + [Writeable(connected)], written + [Writes(Contents(), connected)];
      if throttleCounter >= MAX_WRITES { return; }
      w := WriteOne(connected);
      again := (messagesToSend.count > 0 && throttleCounter < MAX_WRITES) || ortcCommands.count > 0;
    }

    method WriteOne(connected: bool) returns (w: Write)
      requires Sound() && throttleCounter < MAX_WRITES
      modifies this`throttleCounter, ortcCommands, messagesToSend
      ensures Sound() && w == Writes(old(Contents()), connected)
      ensures Contents() == Next(old(Contents()), Writeable(connected))
    {
      w := Nothing;
      if ortcCommands.count > 0 {
        w := TakeItem(ortcCommands, Commands);
      } else if connected && throttleCounter < MAX_WRITES {
        w := TakeItem(messagesToSend, Messages);
      }
    }

    /** Takes the first item off, copies it into the buffer and writes it. */
    method TakeItem(queue: List, kind: Kind) returns (w: Write)
      requires queue.Valid()
      modifies this`throttleCounter, queue
      ensures queue.Valid() && queue.repr == old(queue.repr)
      ensures if old(queue.view) == [] then w == Nothing && queue.view == [] && throttleCounter == old(throttleCounter)
              else w == Take(kind, old(queue.view[0].id)) && queue.view == old(queue.view[1..])
                   && throttleCounter == old(throttleCounter) + 1
    {
      var t := queue.TakeFirst();
      w := Nothing;
      if t != null {
        w := if |t.id| <= MAX_PAYLOAD then Wrote(kind, t.id) else Unfit(kind, t.id);
        throttleCounter := throttleCounter + 1;
      }
    }
  }

  // ------------------------------------------------------------------------------ runs

  function After(inputs: seq<Input>): Queues {
    if inputs == [] then Queues([], [], 0) else Next(After(inputs[..|inputs| - 1]), inputs[|inputs| - 1])
  }

  function Written(inputs: seq<Input>): seq<Write> {
    if inputs == [] then []
    else Written(inputs[..|inputs| - 1]) + [WriteOf(After(inputs[..|inputs| - 1]), inputs[|inputs| - 1])]
  }

  lemma OneMore(inputs: seq<Input>, i: Input)
    ensures After(inputs + [i]) == Next(After(inputs), i)
    ensures Written(inputs + [i]) == Written(inputs) + [WriteOf(After(inputs), i)]
  {
    assert (inputs + [i])[..|inputs|] == inputs;
  }

  function QueueOf(k: Kind, q: Queues): seq<Entry> { if k == Commands then q.commands else q.messages }

  /** The items put into a queue since it was cleared last, in order. */
  function Given(k: Kind, inputs: seq<Input>): seq<string> {
    if inputs == [] then []
    else
      var before, i := Given(k, inputs[..|inputs| - 1]), inputs[|inputs| - 1];
      if i.Clear? then [] else before + if i.Give? && i.kind == k then [i.text] else []
  }

  /** The items taken off a queue since it was cleared last, in order. */
  function Taken(k: Kind, inputs: seq<Input>): seq<string> {
    if inputs == [] then []
    else
      var before, i := Taken(k, inputs[..|inputs| - 1]), inputs[|inputs| - 1];
      var w := WriteOf(After(inputs[..|inputs| - 1]), i);
      if i.Clear? then [] else before + if !w.Nothing? && w.kind == k then [w.text] else []
  }

  /** The items of these that were written. */
  function Sent(k: Kind, inputs: seq<Input>): seq<string> {
    if inputs == [] then []
    else
      var before, i := Sent(k, inputs[..|inputs| - 1]), inputs[|inputs| - 1];
      var w := WriteOf(After(inputs[..|inputs| - 1]), i);
      if i.Clear? then [] else before + if w.Wrote? && w.kind == k then [w.text] else []
  }

  function Texts(v: seq<Entry>): (r: seq<string>)
    ensures |r| == |v| && forall k | 0 <= k < |v| :: r[k] == v[k].id
  {
    seq(|v|, k requires 0 <= k < |v| => v[k].id)
  }

  lemma TextsMove(v: seq<Entry>, text: string)
    ensures Texts(v + [Item(text)]) == Texts(v) + [text]
    ensures v != [] ==> Texts(v) == [v[0].id] + Texts(v[1..])
  {
  }

  /** Nothing is doubled or reordered: what was taken and what waits is what was given. */
  lemma {:induction false} TakenInOrder(k: Kind, inputs: seq<Input>)
    ensures Taken(k, inputs) + Texts(QueueOf(k, After(inputs))) == Given(k, inputs)
  {
    if inputs != [] {
      var before, i := inputs[..|inputs| - 1], inputs[|inputs| - 1];
      TakenInOrder(k, before);
      TakenNext(k, After(before), i, Taken(k, before), Given(k, before));
    }
  }

  lemma TakenNext(k: Kind, q: Queues, i: Input, taken: seq<string>, given: seq<string>)
    requires taken + Texts(QueueOf(k, q)) == given
    ensures var w := WriteOf(q, i);
      var taken' := if i.Clear? then [] else taken + if !w.Nothing? && w.kind == k then [w.text] else [];
      var given' := if i.Clear? then [] else given + if i.Give? && i.kind == k then [i.text] else [];
      taken' + Texts(QueueOf(k, Next(q, i))) == given'
  {
    var v, w := QueueOf(k, q), WriteOf(q, i);
    assert taken + [] == taken && given + [] == given;
    if i.Give? && i.kind == k {
      TextsMove(v, i.text);
      Regroup(taken, Texts(v), [i.text]);
    } else if !w.Nothing? && w.kind == k {
      TextsMove(v, "");
      Regroup(taken, [w.text], Texts(v[1..]));
    }
  }

  ghost predicate AllFit(texts: seq<string>) { forall k | 0 <= k < |texts| :: |texts[k]| <= 1800 }

  /** What was written is what was taken if and only if all of it fits; otherwise there is less of it. */
  lemma {:induction false} SentIfFit(k: Kind, inputs: seq<Input>)
    ensures |Sent(k, inputs)| <= |Taken(k, inputs)|
    ensures AllFit(Taken(k, inputs)) ==> Sent(k, inputs) == Taken(k, inputs)
    ensures !AllFit(Taken(k, inputs)) ==> |Sent(k, inputs)| < |Taken(k, inputs)|
  {
    if inputs != [] {
      var before, i := inputs[..|inputs| - 1], inputs[|inputs| - 1];
      SentIfFit(k, before);
      var t, w := Taken(k, before), WriteOf(After(before), i);
      if !i.Clear? && !w.Nothing? && w.kind == k {
        FitsNext(t, w.text);
      } else if !i.Clear? {
        assert t + [] == t && Sent(k, before) + [] == Sent(k, before);
      }
    }
  }

  lemma FitsNext(t: seq<string>, text: string)
    ensures AllFit(t + [text]) <==> AllFit(t) && Fits(text)
  {
    var u := t + [text];
    assert forall k | 0 <= k < |t| :: u[k] == t[k];
    assert u[|t|] == text;
  }

  /**
   Nothing is lost: what was written and what waits is what was given since the last
   clearing, if and only if the items taken off so far fit the buffer.
   */
  lemma Conserved(k: Kind, inputs: seq<Input>)
    ensures var waiting, given := Texts(QueueOf(k, After(inputs))), Given(k, inputs);
      && |waiting| <= |given|
      && (Sent(k, inputs) + waiting == given <==> AllFit(given[..|given| - |waiting|]))
  {
    TakenInOrder(k, inputs);
    SentIfFit(k, inputs);
    var waiting, given := Texts(QueueOf(k, After(inputs))), Given(k, inputs);
    assert given[..|given| - |waiting|] == Taken(k, inputs);
  }

  /** A message is taken only when all commands given so far have been taken and the state is CONNECTED. */
  lemma CommandsFirst(inputs: seq<Input>, i: Input)
    requires !WriteOf(After(inputs), i).Nothing? && WriteOf(After(inputs), i).kind == Messages
    ensures i.Writeable? && i.connected
    ensures Taken(Commands, inputs) == Given(Commands, inputs)
  {
    TakenInOrder(Commands, inputs);
    assert Texts(After(inputs).commands) == [];
    assert Taken(Commands, inputs) + [] == Taken(Commands, inputs);
  }

  function WritesSinceReset(inputs: seq<Input>): nat {
    if inputs == [] then 0
    else
      var before, i := inputs[..|inputs| - 1], inputs[|inputs| - 1];
      if i.Reset? then 0 else WritesSinceReset(before) + if WriteOf(After(before), i).Nothing? then 0 else 1
  }

  /** At most 2000 writes between resets. */
  lemma {:induction false} Throttled(inputs: seq<Input>)
    ensures WritesSinceReset(inputs) == After(inputs).throttleCounter <= 2000
  {
    if inputs != [] { Throttled(inputs[..|inputs| - 1]); }
  }

  /** While there are fewer, the head of a nonempty queue is taken. */
  lemma NotStuck(k: Kind, inputs: seq<Input>)
    requires WritesSinceReset(inputs) < 2000 && Taken(k, inputs) != Given(k, inputs)
    ensures !WriteOf(After(inputs), Writeable(true)).Nothing?
  {
    Throttled(inputs);
    TakenInOrder(k, inputs);
    assert QueueOf(k, After(inputs)) == [] ==> Texts(QueueOf(k, After(inputs))) == [];
    assert Taken(k, inputs) + [] == Taken(k, inputs);
  }
}
