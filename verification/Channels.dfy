/**
 Channels: the permission of a channel, subscribing and unsubscribing, and the filter
 that runs after a reconnection and deletes while it walks.
 */
module Channels {
  import opened Basics
  import opened Commands
  import opened DList

  /** What identifies the client in commands. */
  datatype Client = Client(appKey: string, authToken: string)

  // ------------------------------------------------------------------- permissions

  /** The hash stored for the first entry that covers the channel, or nothing. */
  function PermissionOf(permissions: seq<Entry>, channel: string): string {
    var k := FirstMatch(permissions, ForChannel(channel));
    if k < |permissions| && permissions[k].val1.Some? then permissions[k].val1.value else ""
  }

  /** The permission of the first entry that covers the channel, wildcards included; none when no entry does. */
  lemma PermissionIs(u: seq<Entry>, e: Entry, w: seq<Entry>, channel: string)
    requires forall i | 0 <= i < |u| :: !Covers(u[i].id, channel)
    ensures Covers(e.id, channel) && e.val1.Some? ==> PermissionOf(u + [e] + w, channel) == e.val1.value
    ensures PermissionOf(u, channel) == ""
  {
    FirstMatchIs(u, ForChannel(channel), |u|);
    if Covers(e.id, channel) { FirstFound(u, e, w, ForChannel(channel)); }
  }

  /** A hash stored under `p*` is the permission of every channel that begins with `p`. */
  lemma WildPermission(u: seq<Entry>, p: string, hash: string, w: seq<Entry>, rest: string)
    requires |p| > 1 && p[|p| - 1] == ':' && forall i | 0 <= i < |u| :: !Covers(u[i].id, p + rest)
    ensures PermissionOf(u + [Entry(p + "*", Some(hash), None, 0, None)] + w, p + rest) == hash
  {
    CoversWhat(p, p + rest);
    PermissionIs(u, Entry(p + "*", Some(hash), None, 0, None), w, p + rest);
  }

  method GetChannelPermission(permissions: List, channel: string) returns (hash: string)
    requires permissions.Valid()
    ensures hash == PermissionOf(permissions.view, channel)
  {
    var ch := permissions.SearchWild(channel);
    hash := "";
    if ch != null {
      assert ch.Contents() == permissions.view[FirstMatch(permissions.view, ForChannel(channel))];
      if ch.val1.Some? { hash := ch.val1.value; }
    }
  }

  // --------------------------------------------------------------------- subscribing

  function SubscribeCommand(c: Client, channel: string, hash: string): string {
    "\"subscribe;" + c.appKey + ";" + c.authToken + ";" + channel + ";" + hash + "\""
  }

  /** The command for a channel, with its permission. */
  function SubscribeEntry(c: Client, permissions: seq<Entry>, channel: string): Entry {
    Item(SubscribeCommand(c, channel, PermissionOf(permissions, channel)))
  }

  /** The size reserved for the command is enough, so that `snprintf` cuts nothing off. */
  lemma SubscribeFits(c: Client, channel: string, hash: string)
    ensures |SubscribeCommand(c, channel, hash)| < 16 + |c.appKey| + |c.authToken| + |channel| + |hash|
  {
  }

  /** What the server finds in the command, whatever the names, if none of them holds a semicolon. */
  lemma SubscribeFields(c: Client, channel: string, hash: string)
    requires OneField(c.appKey) && OneField(c.authToken) && OneField(channel) && OneField(hash)
    ensures IsCommand(SubscribeCommand(c, channel, hash), ["subscribe", c.appKey, c.authToken, channel, hash])
  {
    FiveFields("subscribe", c.appKey, c.authToken, channel, hash);
    SubscribeText(c, channel, hash);
    InQuotes("subscribe" + (";" + (c.appKey + (";" + (c.authToken + (";" + (channel + (";" + hash))))))));
  }

  lemma SubscribeText(c: Client, channel: string, hash: string)
    ensures SubscribeCommand(c, channel, hash)
         == "\"" + ("subscribe" + (";" + (c.appKey + (";" + (c.authToken + (";" + (channel + (";" + hash)))))))) + "\""
  {
  }

  /** The lists of a context do not share nodes. */
  ghost predicate Apart(a: List, b: List, c: List)
    reads a, b, c
  {
    && a != b && b != c && a != c
    && a.repr !! b.repr && b.repr !! c.repr && a.repr !! c.repr
  }

  ghost predicate Sound(channels: List, permissions: List, ortcCommands: List)
    reads channels, channels.nodes, permissions, permissions.nodes, ortcCommands, ortcCommands.nodes
  {
    channels.Valid() && permissions.Valid() && ortcCommands.Valid() && Apart(channels, permissions, ortcCommands)
  }

  /** `_ortc_subscribe`: remembers the channel if wanted, and queues the command. */
  method Subscribe(c: Client, channels: List, permissions: List, ortcCommands: List, channel: string,
                   subscribeOnReconnected: int, toBeSaved: bool, onMessage: Option<nat>)
    requires Sound(channels, permissions, ortcCommands)
    modifies channels, channels.repr, ortcCommands, ortcCommands.repr
    ensures Sound(channels, permissions, ortcCommands) && permissions.view == old(permissions.view)
    ensures (forall n | n in channels.repr :: n in old(channels.repr) || fresh(n))
    ensures (forall n | n in ortcCommands.repr :: n in old(ortcCommands.repr) || fresh(n))
    ensures ortcCommands.view == old(ortcCommands.view) + [SubscribeEntry(c, permissions.view, channel)]
    ensures channels.view
         == old(channels.view) + if toBeSaved then [Subscribed(channel, subscribeOnReconnected, onMessage)] else []
    ensures !toBeSaved ==> channels.nodes == old(channels.nodes) && channels.repr == old(channels.repr)
  {
    if toBeSaved {
      channels.Insert(Subscribed(channel, subscribeOnReconnected, onMessage));
    }
    QueueSubscribe(c, permissions, ortcCommands, channel);
  }

  /** The entry of a channel; 1 means that it is subscribed again after a reconnection. */
  function Subscribed(channel: string, subscribeOnReconnected: int, onMessage: Option<nat>): Entry {
    Entry(channel, None, None, if subscribeOnReconnected > 0 then 1 else 0, onMessage)
  }

  method QueueSubscribe(c: Client, permissions: List, ortcCommands: List, channel: string)
    requires permissions.Valid() && ortcCommands.Valid() && permissions != ortcCommands
    requires permissions.repr !! ortcCommands.repr
    modifies ortcCommands, ortcCommands.repr
    ensures permissions.Valid() && ortcCommands.Valid() && permissions.view == old(permissions.view)
    ensures (forall n | n in ortcCommands.repr :: n in old(ortcCommands.repr) || fresh(n))
    ensures ortcCommands.view == old(ortcCommands.view) + [SubscribeEntry(c, permissions.view, channel)]
  {
    var hash := GetChannelPermission(permissions, channel);
    SubscribeFits(c, channel, hash);
    PutItem(ortcCommands, permissions, SubscribeCommand(c, channel, hash));
  }

  function UnsubscribeCommand(c: Client, channel: string): string {
    "\"unsubscribe;" + c.appKey + ";" + channel + "\""
  }

  lemma UnsubscribeFits(c: Client, channel: string)
    ensures |UnsubscribeCommand(c, channel)| < 16 + |c.appKey| + |channel|
  {
  }

  lemma UnsubscribeFields(c: Client, channel: string)
    requires OneField(c.appKey) && OneField(channel)
    ensures IsCommand(UnsubscribeCommand(c, channel), ["unsubscribe", c.appKey, channel])
  {
    ThreeFields("unsubscribe", c.appKey, channel);
    UnsubscribeText(c, channel);
    InQuotes("unsubscribe" + (";" + (c.appKey + (";" + channel))));
  }

  lemma UnsubscribeText(c: Client, channel: string)
    ensures UnsubscribeCommand(c, channel) == "\"" + ("unsubscribe" + (";" + (c.appKey + (";" + channel)))) + "\""
  {
  }

  /** The entry found for a channel gets a new number. */
  function Renumbered(v: seq<Entry>, channel: string, num: int -> int): seq<Entry> {
    var k := FirstMatch(v, ById(channel));
    if k < |v| then v[k := v[k].(num := num(v[k].num))] else v
  }

  /** `_ortc_unsubscribe`: marks the channel as being unsubscribed, and queues the command. */
  method Unsubscribe(c: Client, channels: List, ortcCommands: List, channel: string)
    requires channels.Valid() && ortcCommands.Valid() && channels != ortcCommands && channels.repr !! ortcCommands.repr
    modifies channels, channels.repr, ortcCommands, ortcCommands.repr
    ensures channels.Valid() && ortcCommands.Valid()
    ensures (forall n | n in ortcCommands.repr :: n in old(ortcCommands.repr) || fresh(n))
    ensures channels.view == Renumbered(old(channels.view), channel, _ => -1)
    ensures ortcCommands.view == old(ortcCommands.view) + [Item(UnsubscribeCommand(c, channel))]
  {
    MarkUnsubscribing(channels, channel);
    UnsubscribeFits(c, channel);
    PutItem(ortcCommands, channels, UnsubscribeCommand(c, channel));
  }

  method MarkUnsubscribing(channels: List, channel: string)
    requires channels.Valid()
    modifies channels, channels.repr
    ensures channels.Valid() && channels.repr == old(channels.repr)
    ensures channels.view == Renumbered(old(channels.view), channel, _ => -1)
  {
    var ch := channels.Search(channel);
    if ch != null { channels.SetNum(ch, -1, FirstMatch(channels.view, ById(channel))); }
  }

  /** The server has confirmed the subscription: 2 is added. */
  method OnSubscribed(channels: List, channel: string)
    requires channels.Valid()
    modifies channels, channels.repr
    ensures channels.Valid() && channels.repr == old(channels.repr)
    ensures channels.view == Renumbered(old(channels.view), channel, n => n + 2)
  {
    var ch := channels.Search(channel);
    if ch != null {
      assert ch.Contents() == channels.view[FirstMatch(channels.view, ById(channel))];
      channels.SetNum(ch, ch.num + 2, FirstMatch(channels.view, ById(channel)));
    }
  }

  /** `_ortc_is_subscribing`: neither confirmed nor being unsubscribed. */
  method IsSubscribing(channels: List, channel: string) returns (r: bool)
    requires channels.Valid()
    ensures var k := FirstMatch(channels.view, ById(channel));
      r <==> k < |channels.view| && (channels.view[k].num == 0 || channels.view[k].num == 1)
  {
    var t := channels.Search(channel);
    r := false;
    if t != null {
      assert t.Contents() == channels.view[FirstMatch(channels.view, ById(channel))];
      r := t.num == 0 || t.num == 1;
    }
  }

  /**
   A channel that was subscribed and confirmed once survives the filter exactly when it
   was to be subscribed again; one that is being unsubscribed does not, even when a
   confirmation comes in between.
   */
  lemma Survivors(v: seq<Entry>, channel: string, again: int, onMessage: Option<nat>)
    requires var k := FirstMatch(v, ById(channel)); k < |v| && v[k] == Subscribed(channel, again, onMessage)
    ensures var k, w := FirstMatch(v, ById(channel)), Renumbered(v, channel, _ => -1);
      && !Kept(v[k]) && Kept(Renumbered(v, channel, n => n + 2)[k]) == (again > 0)
      && !Kept(w[k]) && !Kept(Renumbered(w, channel, n => n + 2)[k])
  {
    RenumberedFound(v, channel, _ => -1);
  }

  /** Confirming or unsubscribing touches the first entry of the channel, and nothing but its number. */
  lemma RenumberedIs(u: seq<Entry>, e: Entry, w: seq<Entry>, num: int -> int)
    requires forall i | 0 <= i < |u| :: u[i].id != e.id
    ensures Renumbered(u + [e] + w, e.id, num) == u + [Entry(e.id, e.val1, e.val2, num(e.num), e.callback)] + w
  {
    FirstFound(u, e, w, ById(e.id));
  }

  /** The entry found before is found again, and it is the only one changed. */
  lemma RenumberedFound(v: seq<Entry>, channel: string, num: int -> int)
    ensures var k, w := FirstMatch(v, ById(channel)), Renumbered(v, channel, num);
      |w| == |v| && FirstMatch(w, ById(channel)) == k && forall i | 0 <= i < |v| && i != k :: w[i] == v[i]
  {
    FirstMatchIs(Renumbered(v, channel, num), ById(channel), FirstMatch(v, ById(channel)));
  }

  // --------------------------------------------------------------- after reconnecting

  /** Subscribed before (2 was added), and wanted again (1). */
  predicate Kept(e: Entry) { e.num >= 3 }

  function KeptOf(v: seq<Entry>): seq<Entry> {
    if v == [] then [] else (if Kept(v[0]) then [v[0]] else []) + KeptOf(v[1..])
  }

  function CommandsFor(c: Client, permissions: seq<Entry>, v: seq<Entry>): seq<Entry> {
    if v == [] then [] else CommandsFor(c, permissions, v[..|v| - 1]) + [SubscribeEntry(c, permissions, v[|v| - 1].id)]
  }

  /** What the filter keeps, entry by entry: those with a number of 3 or more. */
  lemma {:induction false} KeptConcat(u: seq<Entry>, e: Entry, v: seq<Entry>)
    ensures KeptOf(u + [e] + v) == KeptOf(u) + (if e.num >= 3 then [e] else []) + KeptOf(v)
  {
    if u == [] {
      assert u + [e] + v == [e] + v && ([e] + v)[1..] == v;
    } else {
      KeptConcat(u[1..], e, v);
      assert (u + [e] + v)[1..] == u[1..] + [e] + v;
      var h, k := if Kept(u[0]) then [u[0]] else [], if e.num >= 3 then [e] else [];
      assert h + (KeptOf(u[1..]) + k + KeptOf(v)) == h + KeptOf(u[1..]) + k + KeptOf(v);
    }
  }

  /** One command for each entry, in order. */
  lemma {:induction false} CommandAt(c: Client, permissions: seq<Entry>, v: seq<Entry>, i: nat)
    requires i < |v|
    ensures |CommandsFor(c, permissions, v)| == |v|
    ensures CommandsFor(c, permissions, v)[i] == SubscribeEntry(c, permissions, v[i].id)
  {
    var n := |v| - 1;
    var u := v[..n];
    assert CommandsFor(c, permissions, v) == CommandsFor(c, permissions, u) + [SubscribeEntry(c, permissions, v[n].id)];
    if n > 0 {
      CommandAt(c, permissions, u, if i < n then i else 0);
      assert i < n ==> u[i] == v[i];
    }
  }

  lemma {:induction false} KeptNext(v: seq<Entry>, j: nat)
    requires j < |v|
    ensures KeptOf(v[..j + 1]) == KeptOf(v[..j]) + if Kept(v[j]) then [v[j]] else []
  {
    if j == 0 {
      assert v[..1] == [v[0]] && v[..0] == [];
    } else {
      KeptNext(v[1..], j - 1);
      assert v[..j + 1][1..] == v[1..][..j] && v[..j][1..] == v[1..][..j - 1];
      Regroup(if Kept(v[0]) then [v[0]] else [], KeptOf(v[1..][..j - 1]), if Kept(v[j]) then [v[j]] else []);
    }
  }

  /** The list when `j` entries have been looked at: the kept ones, and the rest. */
  ghost predicate Filtered(v: seq<Entry>, j: nat, now: seq<Entry>, k: nat) {
    j <= |v| && k == |KeptOf(v[..j])| && now == KeptOf(v[..j]) + v[j..]
  }

  lemma {:induction false} KeptAreThere(v: seq<Entry>, i: nat)
    requires i < |KeptOf(v)|
    ensures exists k | 0 <= k < |v| :: KeptOf(v)[i] == v[k]
  {
    var head := if Kept(v[0]) then [v[0]] else [];
    if i < |head| {
    } else {
      KeptAreThere(v[1..], i - |head|);
      var k :| 0 <= k < |v[1..]| && KeptOf(v[1..])[i - |head|] == v[1..][k];
      assert v[k + 1] == KeptOf(v)[i];
    }
  }

  lemma {:induction false} KeptDistinct(v: seq<Entry>)
    requires DistinctIds(v)
    ensures DistinctIds(KeptOf(v))
  {
    if v != [] {
      KeptDistinct(v[1..]);
      var w := KeptOf(v[1..]);
      forall i | 0 <= i < |w| ensures w[i].id != v[0].id {
        KeptAreThere(v[1..], i);
        var k :| 0 <= k < |v[1..]| && w[i] == v[1..][k];
        assert v[1..][k] == v[k + 1];
      }
    }
  }

  /** The list in between has distinct ids, and the entry looked at is found by its id. */
  lemma FilteredDistinct(v: seq<Entry>, j: nat, now: seq<Entry>, k: nat)
    requires DistinctIds(v) && Filtered(v, j, now, k) && j < |v|
    ensures DistinctIds(now) && k < |now| && now[k] == v[j] && FirstMatch(now, ById(v[j].id)) == k
  {
    var kept := KeptOf(v[..j]);
    KeptDistinct(v[..j]);
    forall i, m | 0 <= i < |kept| && j <= m < |v| ensures kept[i].id != v[m].id {
      KeptAreThere(v[..j], i);
    }
    FirstMatchIs(now, ById(v[j].id), k);
  }

  lemma FilterStep(v: seq<Entry>, j: nat, now: seq<Entry>, k: nat)
    requires Filtered(v, j, now, k) && j < |v|
    ensures Kept(v[j]) ==> Filtered(v, j + 1, now, k + 1)
    ensures !Kept(v[j]) ==> Filtered(v, j + 1, now[..k] + now[k + 1..], k)
  {
    KeptNext(v, j);
    assert v[j..] == [v[j]] + v[j + 1..];
    if Kept(v[j]) {
      Regroup(KeptOf(v[..j]), [v[j]], v[j + 1..]);
    } else {
      assert now[k + 1..] == v[j + 1..];
      assert KeptOf(v[..j + 1]) == KeptOf(v[..j]);
    }
  }

  /** Deleting the entry looked at moves the next node to its position. */
  method DropChannel(channels: List, permissions: List, ortcCommands: List, t: Node, ghost k: nat) returns (ptr: Node?)
    requires Sound(channels, permissions, ortcCommands) == true && DistinctIds(channels.view) && k < |channels.nodes|
    requires t == channels.nodes[k]
    modifies channels, channels.repr
    ensures Sound(channels, permissions, ortcCommands) == true && permissions.view == old(permissions.view)
    ensures channels.repr == old(channels.repr) && ortcCommands.view == old(ortcCommands.view)
    ensures channels.nodes == old(channels.nodes[..k] + channels.nodes[k + 1..])
    ensures channels.view == old(channels.view[..k] + channels.view[k + 1..])
    ensures k <= |channels.nodes| && ptr == At(channels.nodes, k)
  {
    DropFacts(channels.view, k);
    ptr := t.next;
    channels.Delete(t.id);
  }

  lemma DropFacts(v: seq<Entry>, k: nat)
    requires DistinctIds(v) && k < |v|
    ensures Deletable(v, v[k].id) && FirstMatch(v, ById(v[k].id)) == k && AfterDelete(v, v[k].id) == v[..k] + v[k + 1..]
  {
    DeleteDistinct(v, v[k].id);
    FirstMatchIs(v, ById(v[k].id), k);
  }

  /** The channels when `j` entries have been looked at, and the commands queued so far. */
  ghost predicate Walked(c: Client, permissions: seq<Entry>, v: seq<Entry>, j: nat, k: nat, now: seq<Entry>,
                         queued: seq<Entry>)
  {
    Filtered(v, j, now, k) && queued == CommandsFor(c, permissions, KeptOf(v[..j]))
  }

  lemma WalkStep(c: Client, permissions: seq<Entry>, v: seq<Entry>, j: nat, k: nat, now: seq<Entry>, queued: seq<Entry>)
    requires Walked(c, permissions, v, j, k, now, queued) && j < |v|
    ensures Kept(v[j]) ==> Walked(c, permissions, v, j + 1, k + 1, now,
        queued + [SubscribeEntry(c, permissions, v[j].id)])
    ensures !Kept(v[j]) ==> Walked(c, permissions, v, j + 1, k, now[..k] + now[k + 1..], queued)
  {
    FilterStep(v, j, now, k);
    KeptNext(v, j);
    CommandsNext(c, permissions, KeptOf(v[..j]), v[j]);
    assert KeptOf(v[..j]) + [] == KeptOf(v[..j]);
  }

  lemma CommandsNext(c: Client, permissions: seq<Entry>, w: seq<Entry>, e: Entry)
    ensures CommandsFor(c, permissions, w + [e])
        == CommandsFor(c, permissions, w) + [SubscribeEntry(c, permissions, e.id)]
  {
    assert (w + [e])[..|w|] == w;
  }

  /** Subscribing to a kept channel again does not touch the list. */
  method Renew(c: Client, channels: List, permissions: List, ortcCommands: List, t: Node, ghost k: nat)
    returns (ptr: Node?)
    requires Sound(channels, permissions, ortcCommands) == true && k < |channels.nodes| && t == channels.nodes[k]
    modifies channels, channels.repr, ortcCommands, ortcCommands.repr
    ensures Sound(channels, permissions, ortcCommands) == true && permissions.view == old(permissions.view)
    ensures channels.repr == old(channels.repr)
    ensures (forall n | n in ortcCommands.repr :: n in old(ortcCommands.repr) || fresh(n))
    ensures channels.nodes == old(channels.nodes) && channels.view == old(channels.view)
    ensures ptr == At(channels.nodes, k + 1)
    ensures ortcCommands.view == old(ortcCommands.view) + [SubscribeEntry(c, permissions.view, channels.view[k].id)]
  {
    Subscribe(c, channels, permissions, ortcCommands, t.id, 1, false, t.callback);
    ptr := t.next;
  }

  /** One turn of the walk, at the node at position `k`. */
  method WalkTurn(c: Client, channels: List, permissions: List, ortcCommands: List, t: Node, ghost v: seq<Entry>,
                  ghost j: nat, ghost k: nat)
    returns (ptr: Node?, ghost k': nat, ghost command: seq<Entry>)
    requires Sound(channels, permissions, ortcCommands) == true && DistinctIds(v) && Filtered(v, j, channels.view, k)
    requires j < |v|
    requires k < |channels.nodes| && t == channels.nodes[k]
    modifies channels, channels.repr, ortcCommands, ortcCommands.repr
    ensures Sound(channels, permissions, ortcCommands) == true && permissions.view == old(permissions.view)
    ensures channels.repr == old(channels.repr)
    ensures (forall n | n in ortcCommands.repr :: n in old(ortcCommands.repr) || fresh(n))
    ensures k' <= |channels.nodes| && ptr == At(channels.nodes, k')
    ensures ortcCommands.view == old(ortcCommands.view) + command
    ensures if Kept(v[j]) then k' == k + 1 && channels.view == old(channels.view)
        && command == [SubscribeEntry(c, permissions.view, v[j].id)]
            else k' == k && channels.view == old(channels.view[..k] + channels.view[k + 1..]) && command == []
  {
    FilteredDistinct(v, j, channels.view, k);
    assert t.Contents() == v[j];
    if t.num < 3 {
      ptr := DropChannel(channels, permissions, ortcCommands, t, k);
      k', command := k, [];
      assert ortcCommands.view + [] == ortcCommands.view;
    } else {
      ptr := Renew(c, channels, permissions, ortcCommands, t, k);
      k', command := k + 1, [SubscribeEntry(c, permissions.view, t.id)];
    }
  }

  /** The same, with the account of the walk. */
  method WalkOn(c: Client, channels: List, permissions: List, ortcCommands: List, t: Node,
                ghost v: seq<Entry>, ghost j: nat, ghost k: nat, ghost before: seq<Entry>, ghost queued: seq<Entry>)
    returns (ptr: Node?, ghost k': nat, ghost queued': seq<Entry>)
    requires Sound(channels, permissions, ortcCommands) == true && DistinctIds(v)
    requires Walked(c, permissions.view, v, j, k, channels.view, queued) && ortcCommands.view == before + queued
    requires k < |channels.nodes| && t == channels.nodes[k]
    modifies channels, channels.repr, ortcCommands, ortcCommands.repr
    ensures Sound(channels, permissions, ortcCommands) == true && permissions.view == old(permissions.view)
    ensures channels.repr == old(channels.repr)
    ensures (forall n | n in ortcCommands.repr :: n in old(ortcCommands.repr) || fresh(n))
    ensures k' <= |channels.nodes| && ptr == At(channels.nodes, k')
    ensures Walked(c, permissions.view, v, j + 1, k', channels.view, queued') && ortcCommands.view == before + queued'
    ensures j < |v|
  {
    NotAtEnd(c, permissions.view, v, j, k, channels.view, queued);
    WalkStep(c, permissions.view, v, j, k, channels.view, queued);
    ghost var command: seq<Entry>;
    ptr, k', command := WalkTurn(c, channels, permissions, ortcCommands, t, v, j, k);
    queued' := queued + command;
    Regroup(before, queued, command);
    assert queued + [] == queued;
  }

  /** The walk over the whole list, from `ptr` on. */
  method Walk(c: Client, channels: List, permissions: List, ortcCommands: List, first: Node?, ghost v: seq<Entry>,
              ghost before: seq<Entry>)
    returns (ghost k: nat, ghost j: nat, ghost queued: seq<Entry>)
    requires Sound(channels, permissions, ortcCommands) == true && DistinctIds(v)
    requires Walked(c, permissions.view, v, 0, 0, channels.view, []) && ortcCommands.view == before
    requires first == channels.first
    modifies channels, channels.repr, ortcCommands, ortcCommands.repr
    ensures Sound(channels, permissions, ortcCommands) == true && permissions.view == old(permissions.view)
    ensures Walked(c, permissions.view, v, j, k, channels.view, queued) && ortcCommands.view == before + queued
    ensures k == |channels.view|
  {
    var ptr := first;
    j, k, queued := 0, 0, [];
    assert before + queued == before;
    while ptr != null
      invariant Sound(channels, permissions, ortcCommands) == true && permissions.view == old(permissions.view)
      invariant channels.repr == old(channels.repr)
      invariant (forall n | n in ortcCommands.repr :: n in old(ortcCommands.repr) || fresh(n))
      invariant Walked(c, permissions.view, v, j, k, channels.view, queued) && ortcCommands.view == before + queued
      invariant k <= |channels.nodes| && ptr == At(channels.nodes, k)
      decreases |v| - j
    {
      ptr, k, queued := WalkOn(c, channels, permissions, ortcCommands, ptr, v, j, k, before, queued);
      j := j + 1;
    }
  }

  /**
   `_ortc_subscribeOnReconnected`: deletes the channels that are not to be subscribed
   again while walking over the list, and queues one command for each of the others.
   */
  method SubscribeOnReconnected(c: Client, channels: List, permissions: List, ortcCommands: List)
    requires Sound(channels, permissions, ortcCommands) && DistinctIds(channels.view)
    modifies channels, channels.repr, ortcCommands, ortcCommands.repr
    ensures Sound(channels, permissions, ortcCommands) && permissions.view == old(permissions.view)
    ensures channels.view == KeptOf(old(channels.view))
    ensures ortcCommands.view == old(ortcCommands.view) + CommandsFor(c, permissions.view, KeptOf(old(channels.view)))
  {
    ghost var v, before := channels.view, ortcCommands.view;
    assert v[..0] == [] && v[0..] == v;
    ghost var k: nat, j: nat, queued: seq<Entry>;
    k, j, queued := Walk(c, channels, permissions, ortcCommands, channels.first, v, before);
    WalkEnds(c, permissions.view, v, j, k, channels.view, queued);
  }

  lemma NotAtEnd(c: Client, permissions: seq<Entry>, v: seq<Entry>, j: nat, k: nat, now: seq<Entry>, queued: seq<Entry>)
    requires Walked(c, permissions, v, j, k, now, queued)
    ensures k < |now| ==> j < |v|
  {
  }

  lemma WalkEnds(c: Client, permissions: seq<Entry>, v: seq<Entry>, j: nat, k: nat, now: seq<Entry>, queued: seq<Entry>)
    requires Walked(c, permissions, v, j, k, now, queued) && k == |now|
    ensures now == KeptOf(v) && queued == CommandsFor(c, permissions, KeptOf(v))
  {
    assert v[..j] == v && v[j..] == [];
  }
}
