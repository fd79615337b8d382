/**
 The singly linked list with a tail pointer that holds queues, parts of messages,
 permissions and channels. Its methods are sequence operations on the entries.
 */
module DList {
  import opened Basics

  /** What a node stores; the callback is a function pointer, known by its identity. */
  datatype Entry = Entry(id: string, val1: Option<string>, val2: Option<string>, num: int, callback: Option<nat>)

  class Node {
    const id: string
    const val1: Option<string>
    const val2: Option<string>
    var num: int
    const callback: Option<nat>
    var next: Node?

    constructor (e: Entry)
      ensures Contents() == e && next == null
    {
      id, val1, val2, num, callback, next := e.id, e.val1, e.val2, e.num, e.callback, null;
    }

    function Contents(): Entry
      reads this
    {
      Entry(id, val1, val2, num, callback)
    }
  }

  // ------------------------------------------------------------- lists of entries

  /** What a queue holds: a text and nothing else. */
  function Item(text: string): Entry { Entry(text, None, None, 0, None) }

  /** What a search looks for: an id, an id with a number, or the permission of a channel. */
  datatype Query = ById(id: string) | ByIdAndNum(id: string, num: int) | ForChannel(channel: string)

  /** A pattern that ends in ":*" covers every channel that begins with what stands before the '*'. */
  predicate IsWild(pattern: string) {
    |pattern| > 2 && pattern[|pattern| - 1] == '*' && pattern[|pattern| - 2] == ':'
  }

  predicate Covers(pattern: string, channel: string) {
    channel == pattern || (IsWild(pattern) && pattern[..|pattern| - 1] <= channel)
  }

  /** An id of at least three bytes that ends in ":*" covers the channels with its prefix, any other only itself. */
  lemma CoversWhat(p: string, channel: string)
    ensures |p| > 1 && p[|p| - 1] == ':' ==> (Covers(p + "*", channel) <==> p <= channel)
    ensures |p| < 3 || p[|p| - 1] != '*' || p[|p| - 2] != ':' ==> (Covers(p, channel) <==> p == channel)
  {
    var w := p + "*";
    assert w[|w| - 1] == '*' && w[..|w| - 1] == p;
    if |p| > 1 && p[|p| - 1] == ':' { assert w[|w| - 2] == ':'; }
  }

  predicate Selects(q: Query, e: Entry) {
    match q
    case ById(id) => e.id == id
    case ByIdAndNum(id, num) => e.id == id && e.num == num
    case ForChannel(channel) => Covers(e.id, channel)
  }

  /** The position of the first entry selected, or the length. */
  function FirstMatch(v: seq<Entry>, q: Query): (k: nat)
    ensures k <= |v|
    ensures forall i | 0 <= i < k :: !Selects(q, v[i])
    ensures k < |v| ==> Selects(q, v[k])
  {
    if v == [] then 0 else if Selects(q, v[0]) then 0 else 1 + FirstMatch(v[1..], q)
  }

  lemma {:induction false} FirstMatchIs(v: seq<Entry>, q: Query, k: nat)
    requires k <= |v| && (forall i | 0 <= i < k :: !Selects(q, v[i])) && (k < |v| ==> Selects(q, v[k]))
    ensures FirstMatch(v, q) == k
  {
    if k > 0 { FirstMatchIs(v[1..], q, k - 1); }
  }

  lemma FirstFound(u: seq<Entry>, e: Entry, w: seq<Entry>, q: Query)
    requires Selects(q, e) && forall i | 0 <= i < |u| :: !Selects(q, u[i])
    ensures var v := u + [e] + w; FirstMatch(v, q) == |u| < |v| && v[|u|] == e
  {
    var v := u + [e] + w;
    assert v[|u|] == e && forall i | 0 <= i < |u| :: v[i] == u[i];
    FirstMatchIs(v, q, |u|);
  }

  /** All entries but those with the id. */
  function Without(v: seq<Entry>, id: string): seq<Entry> {
    if v == [] then []
    else (if v[0].id == id then [] else [v[0]]) + Without(v[1..], id)
  }

  lemma {:induction false} WithoutConcat(u: seq<Entry>, v: seq<Entry>, id: string)
    ensures Without(u + v, id) == Without(u, id) + Without(v, id)
  {
    if u == [] {
      assert u + v == v;
    } else {
      WithoutConcat(u[1..], v, id);
      assert (u + v)[1..] == u[1..] + v;
      Regroup(if u[0].id == id then [] else [u[0]], Without(u[1..], id), Without(v, id));
    }
  }

  /** The next entry is dropped or kept. */
  lemma WithoutNext(v: seq<Entry>, j: nat, id: string)
    requires j < |v|
    ensures Without(v[..j + 1], id) == Without(v[..j], id) + if v[j].id == id then [] else [v[j]]
  {
    assert v[..j + 1] == v[..j] + [v[j]];
    WithoutConcat(v[..j], [v[j]], id);
  }

  ghost predicate DistinctIds(v: seq<Entry>) {
    forall i, j | 0 <= i < j < |v| :: v[i].id != v[j].id
  }

  /** Deletion by id: only the head when the head has the id, otherwise all entries with it. */
  function AfterDelete(v: seq<Entry>, id: string): seq<Entry> {
    if v != [] && v[0].id == id then v[1..] else Without(v, id)
  }

  /** No two neighbours both have the id, unless the head has it. */
  ghost predicate Deletable(v: seq<Entry>, id: string) {
    v != [] && v[0].id != id ==> forall i | 0 <= i < |v| - 1 :: v[i].id == id ==> v[i + 1].id != id
  }

  /** Among the first `j` entries no two neighbours have the id. */
  ghost predicate Spaced(v: seq<Entry>, id: string, j: nat) {
    forall i | 1 <= i < j <= |v| :: v[i].id == id ==> v[i - 1].id != id
  }

  lemma SpacedNext(v: seq<Entry>, id: string, j: nat)
    requires 1 <= j < |v| && v[0].id != id && Spaced(v, id, j)
    ensures if v[j].id == id && v[j - 1].id == id then !Deletable(v, id) else Spaced(v, id, j + 1)
  {
    if v[j].id == id && v[j - 1].id == id {
      var i := j - 1;
      assert v[i].id == id && v[i + 1].id == id;
    }
  }

  lemma SpacedIsDeletable(v: seq<Entry>, id: string)
    requires v != [] && v[0].id != id && Spaced(v, id, |v|)
    ensures Deletable(v, id)
  {
    forall i | 0 <= i < |v| - 1 ensures v[i].id == id ==> v[i + 1].id != id {
      var m := i + 1;
      assert v[m].id == id ==> v[m - 1].id != id;
    }
  }

  lemma DistinctIsDeletable(v: seq<Entry>, id: string)
    ensures DistinctIds(v) ==> Deletable(v, id)
  {
  }

  lemma OnlyMatch(v: seq<Entry>, id: string, j: nat)
    requires j < |v|
    ensures DistinctIds(v) ==> (v[j].id == id <==> j == FirstMatch(v, ById(id)))
  {
    var k := FirstMatch(v, ById(id));
    assert k < |v| ==> v[k].id == id;
  }

  lemma {:induction false} AbsentUnchanged(v: seq<Entry>, id: string)
    requires forall i | 0 <= i < |v| :: v[i].id != id
    ensures Without(v, id) == v
  {
    if v != [] { AbsentUnchanged(v[1..], id); }
  }

  /** An id that one entry has: exactly this entry goes. */
  lemma DeleteOnly(u: seq<Entry>, e: Entry, w: seq<Entry>)
    requires forall i | 0 <= i < |u| :: u[i].id != e.id
    ensures (forall i | 0 <= i < |w| :: w[i].id != e.id) ==>
      Deletable(u + [e] + w, e.id) && AfterDelete(u + [e] + w, e.id) == u + w
  {
    var v := u + [e] + w;
    if forall i | 0 <= i < |w| :: w[i].id != e.id {
      forall i | 0 <= i < |v| - 1 && v[i].id == e.id ensures v[i + 1].id != e.id { assert i == |u|; }
      WithoutConcat(u + [e], w, e.id);
      WithoutConcat(u, [e], e.id);
      AbsentUnchanged(u, e.id);
      AbsentUnchanged(w, e.id);
      if u == [] { assert v[1..] == w && u + w == w; }
    }
  }

  /** With distinct ids deletion removes exactly the entry with the id, and keeps the order. */
  lemma DeleteDistinct(v: seq<Entry>, id: string)
    requires DistinctIds(v)
    ensures Deletable(v, id) && AfterDelete(v, id) == Without(v, id)
    ensures var k := FirstMatch(v, ById(id));
      Without(v, id) == if k < |v| then v[..k] + v[k + 1..] else v
  {
    var k := FirstMatch(v, ById(id));
    if k < |v| {
      OnlyOne(v, k, id);
    } else {
      AbsentUnchanged(v, id);
    }
    assert v != [] && v[0].id == id ==> k == 0 && v[..0] + v[1..] == v[1..];
  }

  lemma OnlyOne(v: seq<Entry>, k: nat, id: string)
    requires k < |v| && v[k].id == id && forall i | 0 <= i < |v| && i != k :: v[i].id != id
    ensures Without(v, id) == v[..k] + v[k + 1..]
  {
    var u, w := v[..k], v[k + 1..];
    AbsentUnchanged(u, id);
    AbsentUnchanged(w, id);
    WithoutNext(v, k, id);
    assert u + [] == u;
    assert v == v[..k + 1] + w;
    WithoutConcat(v[..k + 1], w, id);
  }

  // ---------------------------------------------------------------------- the list

  /** The node at position `k`, or the end of the list. */
  ghost function At(ns: seq<Node>, k: nat): Node? {
    if k < |ns| then ns[k] else null
  }

  ghost predicate Distinct(ns: seq<Node>) {
    ns == [] || ((forall j | 1 <= j < |ns| :: ns[j] != ns[0]) && Distinct(ns[1..]))
  }

  lemma {:induction false} DistinctPairs(ns: seq<Node>)
    ensures Distinct(ns) <==> forall i, j | 0 <= i < j < |ns| :: ns[i] != ns[j]
  {
    if ns != [] {
      DistinctPairs(ns[1..]);
      if Distinct(ns) {
        forall i, j | 0 <= i < j < |ns| ensures ns[i] != ns[j] {
          if i > 0 { assert ns[1..][i - 1] == ns[i] && ns[1..][j - 1] == ns[j]; }
        }
      }
    }
  }

  lemma NoOther(ns: seq<Node>, k: nat)
    requires Distinct(ns) && k < |ns|
    ensures forall i | 0 <= i < |ns| && i != k :: ns[i] != ns[k]
  {
    DistinctPairs(ns);
  }

  ghost predicate Linked(ns: seq<Node>)
    reads ns
  {
    Distinct(ns) && forall i | 0 <= i < |ns| :: ns[i].next == At(ns, i + 1)
  }

  ghost predicate Holds(ns: seq<Node>, v: seq<Entry>)
    reads ns
  {
    |ns| == |v| && forall i | 0 <= i < |ns| :: ns[i].Contents() == v[i]
  }

  ghost predicate Owned(ns: seq<Node>, repr: set<Node>) {
    forall i | 0 <= i < |ns| :: ns[i] in repr
  }

  /** The nodes without the one at position `k`, if there is one. */
  ghost function Cut(ns: seq<Node>, k: nat): seq<Node> {
    if k < |ns| then ns[..k] + ns[k + 1..] else ns
  }

  /** The links after the last node has been made to point at `n`. */
  lemma Appended(ns: seq<Node>, n: Node, v: seq<Entry>, repr: set<Node>)
    requires Distinct(ns) && Holds(ns, v) && Owned(ns, repr) && n !in repr && n.next == null
    requires forall i | 0 <= i < |ns| :: ns[i].next == At(ns + [n], i + 1)
    ensures Linked(ns + [n]) && Holds(ns + [n], v + [n.Contents()]) && Owned(ns + [n], repr + {n})
  {
    var ms := ns + [n];
    DistinctPairs(ns);
    DistinctPairs(ms);
    forall i | 0 <= i < |ms| ensures ms[i].next == At(ms, i + 1) {
      assert i < |ns| ==> ms[i] == ns[i];
    }
  }

  lemma DistinctCut(ns: seq<Node>, k: nat, ms: seq<Node>)
    requires Distinct(ns) && k < |ns| && ms == ns[..k] + ns[k + 1..]
    ensures Distinct(ms)
  {
    DistinctPairs(ns);
    DistinctPairs(ms);
  }

  lemma HoldsCut(ns: seq<Node>, k: nat, ms: seq<Node>, v: seq<Entry>, w: seq<Entry>, repr: set<Node>)
    requires Holds(ns, v) && Owned(ns, repr) && k < |ns| && ms == ns[..k] + ns[k + 1..] && w == v[..k] + v[k + 1..]
    ensures Holds(ms, w) && Owned(ms, repr)
  {
    forall i | 0 <= i < |ms| ensures ms[i].Contents() == w[i] && ms[i] in repr {
      assert ms[i] == (if i < k then ns[i] else ns[i + 1]) && w[i] == if i < k then v[i] else v[i + 1];
    }
  }

  lemma LinksCut(ns: seq<Node>, k: nat, ms: seq<Node>)
    requires 0 < k < |ns| && ns[k - 1].next == At(ns, k + 1) && ms == ns[..k] + ns[k + 1..]
    requires forall i | 0 <= i < |ns| && i != k - 1 :: ns[i].next == At(ns, i + 1)
    ensures (forall i | 0 <= i < |ms| :: ms[i].next == At(ms, i + 1)) && ns[k].next == At(ms, k)
    ensures ms[0] == ns[0] && ms[|ms| - 1] == if k == |ns| - 1 then ns[k - 1] else ns[|ns| - 1]
  {
    forall i | 0 <= i < |ms| ensures ms[i].next == At(ms, i + 1) {
      assert ms[i] == if i < k then ns[i] else ns[i + 1];
    }
  }

  /** The chain after the node in front of position `k` has been made to point behind it. */
  lemma LinkedCut(ns: seq<Node>, k: nat, ms: seq<Node>, v: seq<Entry>, w: seq<Entry>, repr: set<Node>)
    requires Distinct(ns) && Holds(ns, v) && Owned(ns, repr) && 0 < k < |ns|
    requires ms == ns[..k] + ns[k + 1..] && w == v[..k] + v[k + 1..] && ns[k - 1].next == At(ns, k + 1)
    requires forall i | 0 <= i < |ns| && ns[i] != ns[k - 1] :: ns[i].next == At(ns, i + 1)
    ensures Linked(ms) && Holds(ms, w) && Owned(ms, repr) && ns[k].next == At(ms, k)
    ensures ms[0] == ns[0] && ms[|ms| - 1] == if k == |ns| - 1 then ns[k - 1] else ns[|ns| - 1]
  {
    NoOther(ns, k - 1);
    LinksCut(ns, k, ms);
    DistinctCut(ns, k, ms);
    HoldsCut(ns, k, ms, v, w, repr);
  }

  ghost predicate NotIn(ns: seq<Node>, n: Node) {
    forall i | 0 <= i < |ns| :: ns[i] != n
  }

  lemma CutOut(ns: seq<Node>, k: nat)
    requires Distinct(ns) && k < |ns|
    ensures NotIn(ns[..k] + ns[k + 1..], ns[k])
  {
    NoOther(ns, k);
  }

  /** Changes one link of a chain and no other. */
  method Relink(prev: Node, target: Node?, ghost ns: seq<Node>, ghost v: seq<Entry>)
    requires Linked(ns) && Holds(ns, v)
    modifies prev`next
    ensures prev.next == target && Holds(ns, v)
    ensures forall i | 0 <= i < |ns| && ns[i] != prev :: ns[i].next == At(ns, i + 1)
  {
    prev.next := target;
  }

  /** Changes one number in a chain and nothing else. */
  method Renumber(n: Node, num: int, ghost ns: seq<Node>, ghost v: seq<Entry>, ghost k: nat)
    requires Linked(ns) && Holds(ns, v) && k < |ns| && n == ns[k]
    modifies n`num
    ensures Linked(ns) && Holds(ns, v[k := v[k].(num := num)])
  {
    NoOther(ns, k);
    n.num := num;
  }

  class List {
    var first: Node?
    var last: Node?
    var count: int
    ghost var nodes: seq<Node>
    /** What the nodes hold, in order: the list as a value. */
    ghost var view: seq<Entry>
    /** All nodes ever inserted. */
    ghost var repr: set<Node>

    /** The chain from `first` is acyclic and holds `view`. */
    ghost predicate Chained()
      reads this, nodes
    {
      Holds(nodes, view) && Owned(nodes, repr) && Linked(nodes) && first == At(nodes, 0)
    }

    /** The chain from `first` ends in `last`, and has `count` nodes. */
    ghost predicate Valid()
      reads this, nodes
    {
      Chained() && count == |nodes| && last == if nodes == [] then null else nodes[|nodes| - 1]
    }

    constructor ()
      ensures Valid() && nodes == [] && view == [] && repr == {}
    {
      first, last, count, nodes, view, repr := null, null, 0, [], [], {};
    }

    method Insert(e: Entry)
      requires Valid()
      modifies this, repr
      ensures Valid() && view == old(view) + [e] && fresh(repr - old(repr)) && old(repr) <= repr
    {
      var n := new Node(e);
      Append(n);
    }

    method Append(n: Node)
      requires Valid() && n !in repr && n.next == null
      modifies this, repr
      ensures Valid() && nodes == old(nodes) + [n] && view == old(view) + [n.Contents()] && repr == old(repr) + {n}
      ensures n.Contents() == old(n.Contents())
    {
      ghost var ns, v := nodes, view;
      if ns != [] { NoOther(ns, |ns| - 1); }
      count := count + 1;
      nodes, view, repr := ns + [n], v + [n.Contents()], repr + {n};
      if first == null { first := n; }
      var end := last;
      last := n;
      if end != null { end.next := n; }
      Appended(ns, n, v, old(repr));
    }

    method TakeFirst() returns (t: Node?)
      requires Valid()
      modifies this
      ensures Valid() && t == old(first) && repr == old(repr)
      ensures t == null ==> old(nodes) == [] == nodes
      ensures t != null ==> old(nodes) != [] && t == old(nodes)[0] && nodes == old(nodes)[1..]
      ensures view == if old(view) == [] then [] else old(view)[1..]
    {
      if first == null { return null; }
      t := first;
      first := first.next;
      if last == t { last := null; }
      count := count - 1;
      nodes, view := nodes[1..], view[1..];
    }

    method Clear()
      requires Valid()
      modifies this
      ensures Valid() && nodes == [] && view == [] && repr == old(repr)
    {
      var ptr := first;
      ghost var k := 0;
      while ptr != null
        invariant k <= |nodes| && ptr == At(nodes, k)
        decreases |nodes| - k
      {
        ptr := ptr.next;
        k := k + 1;
      }
      first, last, count, nodes, view := null, null, 0, [], [];
    }

    method Search(id: string) returns (t: Node?)
      requires Valid()
      ensures t == At(nodes, FirstMatch(view, ById(id)))
    {
      t := first;
      ghost var k := 0;
      while t != null
        invariant k <= |nodes| && t == At(nodes, k)
        invariant forall i | 0 <= i < k :: !Selects(ById(id), view[i])
        decreases |nodes| - k
      {
        if id == t.id { break; }
        t := t.next;
        k := k + 1;
      }
      FirstMatchIs(view, ById(id), k);
    }

    method SearchEx(id: string, num: int) returns (t: Node?)
      requires Valid()
      ensures t == At(nodes, FirstMatch(view, ByIdAndNum(id, num)))
    {
      t := first;
      ghost var k := 0;
      while t != null
        invariant k <= |nodes| && t == At(nodes, k)
        invariant forall i | 0 <= i < k :: !Selects(ByIdAndNum(id, num), view[i])
        decreases |nodes| - k
      {
        if id == t.id && num == t.num { break; }
        t := t.next;
        k := k + 1;
      }
      FirstMatchIs(view, ByIdAndNum(id, num), k);
    }

    /** The first node whose id is the channel or a wildcard that covers it. */
    method SearchWild(channel: string) returns (t: Node?)
      requires Valid()
      ensures t == At(nodes, FirstMatch(view, ForChannel(channel)))
    {
      t := first;
      ghost var k := 0;
      while t != null
        invariant k <= |nodes| && t == At(nodes, k)
        invariant forall i | 0 <= i < k :: !Selects(ForChannel(channel), view[i])
        decreases |nodes| - k
      {
        var offset := |t.id|;
        if offset > 2 && t.id[offset - 1] == '*' && t.id[offset - 2] == ':' {
          if offset - 1 <= |channel| && channel[..offset - 1] == t.id[..offset - 1] { break; }
        }
        if channel == t.id { break; }
        t := t.next;
        k := k + 1;
      }
      FirstMatchIs(view, ForChannel(channel), k);
    }

    /** Changes the number of a node that a search has found. */
    method SetNum(n: Node, num: int, ghost k: nat)
      requires Valid() && k < |nodes| && n == nodes[k]
      modifies n`num, this`view
      ensures Valid() && nodes == old(nodes) && view == old(view)[k := old(view)[k].(num := num)]
    {
      ghost var v := view;
      view := v[k := v[k].(num := num)];
      Renumber(n, num, nodes, v, k);
    }

    /** Takes the node `ptr` out of the chain if `prev` is the node in front of it, and counts it as deleted anyway. */
    method Unlink(prev: Node, ptr: Node, ghost k: nat)
      requires Chained() && 0 < k < |nodes| && ptr == nodes[k] && (prev == nodes[k - 1] || NotIn(nodes, prev))
      modifies this, prev`next
      ensures Chained() == true && repr == old(repr) && count == old(count) - 1
      ensures if prev == old(nodes)[k - 1]
              then nodes == old(nodes[..k] + nodes[k + 1..]) && view == old(view[..k] + view[k + 1..])
                  && ptr.next == At(nodes, k)
              else nodes == old(nodes) && view == old(view) && ptr.next == At(nodes, k + 1)
      ensures old(Valid()) && prev == old(nodes)[k - 1] ==> Valid()
    {
      NoOther(nodes, |nodes| - 1);
      if last == ptr { last := prev; }
      count := count - 1;
      Bypass(prev, ptr, k);
    }

    /** The chain without `ptr`, if `prev` is the node in front of it. */
    method Bypass(prev: Node, ptr: Node, ghost k: nat)
      requires Chained() && 0 < k < |nodes| && ptr == nodes[k] && (prev == nodes[k - 1] || NotIn(nodes, prev))
      modifies `nodes, `view, prev`next
      ensures Chained() == true && nodes != []
      ensures nodes[|nodes| - 1]
           == if k == old(|nodes|) - 1 && prev == old(nodes)[k - 1] then prev else old(nodes[|nodes| - 1])
      ensures if prev == old(nodes)[k - 1]
              then nodes == old(nodes[..k] + nodes[k + 1..]) && view == old(view[..k] + view[k + 1..])
                  && ptr.next == At(nodes, k)
              else nodes == old(nodes) && view == old(view) && ptr.next == At(nodes, k + 1)
    {
      ghost var ns, v := nodes, view;
      ghost var hit := prev == ns[k - 1];
      ghost var ms, w := if hit then ns[..k] + ns[k + 1..] else ns, if hit then v[..k] + v[k + 1..] else v;
      nodes, view := ms, w;
      Relink(prev, ptr.next, ns, v);
      if hit { LinkedCut(ns, k, ms, v, w, repr); }
    }

    /**
     Deletes by id. `ptr` moves on from a node taken out, and that node then serves as
     `prev`. When the next node is to be deleted too, it is therefore counted as deleted
     and stays in the chain.
     */
    method Delete(id: string)
      requires Valid()
      modifies this, repr
      ensures Chained() && repr == old(repr)
      ensures if Deletable(old(view), id) then Valid() && view == AfterDelete(old(view), id) else count < |nodes|
      ensures DistinctIds(old(view)) ==> nodes == Cut(old(nodes), FirstMatch(old(view), ById(id)))
    {
      if count == 0 { return; }
      if first.id == id {
        var t := TakeFirst();
      } else {
        DeleteBehind(first, id);
      }
    }

    /** The loop body of `Delete`, at the node at position `k`. */
    method DeleteOrPass(prev: Node, ptr: Node, id: string, ghost k: nat) returns (following: Node?, ghost k': nat)
      requires Chained() && 0 < k < |nodes| && ptr == nodes[k] && prev in repr
      requires (prev == nodes[k - 1] || NotIn(nodes, prev))
      modifies this, repr
      ensures Chained() && repr == old(repr) && k' <= |nodes| && following == At(nodes, k')
      ensures if ptr.id == id && prev == old(nodes)[k - 1]
              then k' == k && view == old(view[..k] + view[k + 1..]) && nodes == old(nodes[..k] + nodes[k + 1..])
                  && NotIn(nodes, ptr)
              else k' == k + 1 && view == old(view) && nodes == old(nodes)
      ensures count == old(count) - if ptr.id == id then 1 else 0
      ensures old(Valid()) && (ptr.id == id ==> prev == old(nodes)[k - 1]) ==> Valid()
    {
      k' := k + 1;
      if id == ptr.id {
        CutOut(nodes, k);
        if prev == nodes[k - 1] { k' := k; }
        Unlink(prev, ptr, k);
      }
      following := ptr.next;
    }

    /**
     Where the loop of `Delete` stands after `j` of the entries `v`. While all goes well,
     `prev` is in the chain exactly when it has not been deleted.
     */
    ghost predicate Walking(prev: Node, ptr: Node?, id: string, ns: seq<Node>, v: seq<Entry>, j: nat, k: nat,
                            well: bool)
      reads this, nodes
    {
      && Chained() && 1 <= k <= |nodes| && ptr == At(nodes, k) && 1 <= j <= |v| && |nodes| - k == |v| - j
      && v[0].id != id && prev in repr && (prev == nodes[k - 1] || NotIn(nodes, prev))
      && if well then Valid() && Scanned(ns, v, id, j, k, nodes, view) && Spaced(v, id, j)
          && (prev == nodes[k - 1] <==> v[j - 1].id != id)
         else count < |nodes| && !Deletable(v, id)
    }

    method DeleteTurn(prev: Node, ptr: Node, id: string, ghost ns: seq<Node>, ghost v: seq<Entry>, ghost j: nat,
                      ghost k: nat, ghost well: bool)
      returns (following: Node?, ghost k': nat, ghost well': bool)
      requires Walking(prev, ptr, id, ns, v, j, k, well)
      modifies this, repr
      ensures repr == old(repr) && j < |v| && Walking(ptr, following, id, ns, v, j + 1, k', well')
    {
      if well {
        ScanStep(ns, v, id, j, k, nodes, view);
        SpacedNext(v, id, j);
      }
      assert ptr in repr;
      well' := well && (ptr.id == id ==> prev == nodes[k - 1]);
      following, k' := DeleteOrPass(prev, ptr, id, k);
    }

    method DeleteBehind(head: Node, id: string)
      requires Valid() && head == first && head.id != id
      modifies this, repr
      ensures Chained() && repr == old(repr)
      ensures if Deletable(old(view), id) then Valid() && view == Without(old(view), id) else count < |nodes|
      ensures DistinctIds(old(view)) ==> nodes == Cut(old(nodes), FirstMatch(old(view), ById(id)))
    {
      var prev: Node := head;
      var ptr := head.next;
      ghost var ns, v, j, k, well := nodes, view, 1, 1, true;
      ScanBegin(ns, v, id);
      while ptr != null
        invariant repr == old(repr) && Walking(prev, ptr, id, ns, v, j, k, well) == true
        decreases |v| - j
      {
        var following;
        ghost var k', well';
        following, k', well' := DeleteTurn(prev, ptr, id, ns, v, j, k, well);
        prev := ptr;
        ptr := following;
        j, k, well := j + 1, k', well';
      }
      WalkEnds(prev, id, ns, v, j, k, well);
    }

    lemma WalkEnds(prev: Node, id: string, ns: seq<Node>, v: seq<Entry>, j: nat, k: nat, well: bool)
      requires Walking(prev, null, id, ns, v, j, k, well)
      ensures Chained() && if Deletable(v, id) then Valid() && view == Without(v, id) else count < |nodes|
      ensures DistinctIds(v) ==> nodes == Cut(ns, FirstMatch(v, ById(id)))
    {
      if well {
        ScanEnd(ns, v, id, j, k, nodes, view);
        SpacedIsDeletable(v, id);
      }
      DistinctIsDeletable(v, id);
    }

    /** Deletes the first node with the id and the number; the list must not be empty. */
    method DeleteEx(id: string, num: int)
      requires Valid() && nodes != []
      modifies this, repr
      ensures Valid() && view == WithoutFirst(old(view), ByIdAndNum(id, num))
      ensures repr == old(repr)
    {
      if first.id == id && first.num == num {
        var t := TakeFirst();
      } else {
        var prev: Node := first;
        var ptr := first.next;
        ghost var k := 1;
        while ptr != null && !(id == ptr.id && num == ptr.num)
          modifies {}
          invariant 1 <= k <= |nodes| && ptr == At(nodes, k) && prev == nodes[k - 1]
          invariant forall i | 0 <= i < k :: !Selects(ByIdAndNum(id, num), view[i])
          decreases |nodes| - k
        {
          prev := ptr;
          ptr := ptr.next;
          k := k + 1;
        }
        FirstMatchIs(view, ByIdAndNum(id, num), k);
        if ptr != null {
          Unlink(prev, ptr, k);
        }
      }
    }
  }

  /** Appends an item to one of two queues that share no nodes. */
  method PutItem(queue: List, other: List, text: string)
    requires queue.Valid() && other.Valid() && queue != other && queue.repr !! other.repr
    modifies queue, queue.repr
    ensures queue.Valid() && other.Valid() && queue.repr !! other.repr
    ensures forall n | n in queue.repr :: n in old(queue.repr) || fresh(n)
    ensures queue.view == old(queue.view) + [Item(text)] && other.view == old(other.view)
  {
    queue.Insert(Item(text));
  }

  /** All entries but the first one selected. */
  function WithoutFirst(v: seq<Entry>, q: Query): seq<Entry> {
    var k := FirstMatch(v, q);
    if k < |v| then v[..k] + v[k + 1..] else v
  }

  /**
   After `j` entries of `v`: those with the id are gone, `k` are left, and the others
   follow. With distinct ids at most one node is gone.
   */
  ghost predicate Scanned(ns: seq<Node>, v: seq<Entry>, id: string, j: nat, k: nat, nodes: seq<Node>, now: seq<Entry>) {
    && |ns| == |v| && 1 <= j <= |v| && k >= 1
    && |nodes| == |now| && k == |Without(v[..j], id)| && now == Without(v[..j], id) + v[j..]
    && (DistinctIds(v) ==> nodes == if FirstMatch(v, ById(id)) < j then Cut(ns, FirstMatch(v, ById(id))) else ns)
  }

  lemma ScanBegin(ns: seq<Node>, v: seq<Entry>, id: string)
    requires |ns| == |v| && v != [] && v[0].id != id
    ensures Scanned(ns, v, id, 1, 1, ns, v)
  {
    assert v[..1] == [v[0]] && Without([v[0]], id) == [v[0]];
    assert FirstMatch(v, ById(id)) > 0;
  }

  lemma ScanStep(ns: seq<Node>, v: seq<Entry>, id: string, j: nat, k: nat, nodes: seq<Node>, now: seq<Entry>)
    requires Scanned(ns, v, id, j, k, nodes, now) && j < |v|
    ensures k < |now| && now[k] == v[j]
    ensures if v[j].id == id then Scanned(ns, v, id, j + 1, k, nodes[..k] + nodes[k + 1..], now[..k] + now[k + 1..])
            else Scanned(ns, v, id, j + 1, k + 1, nodes, now)
  {
    WithoutNext(v, j, id);
    OnlyMatch(v, id, j);
    assert v[j..] == [v[j]] + v[j + 1..];
    if v[j].id == id {
      assert now[k + 1..] == v[j + 1..];
      assert Without(v[..j + 1], id) == Without(v[..j], id);
    } else {
      Regroup(Without(v[..j], id), [v[j]], v[j + 1..]);
    }
  }

  lemma ScanEnd(ns: seq<Node>, v: seq<Entry>, id: string, j: nat, k: nat, nodes: seq<Node>, now: seq<Entry>)
    requires Scanned(ns, v, id, j, k, nodes, now) && k == |now|
    ensures now == Without(v, id)
    ensures DistinctIds(v) ==> nodes == Cut(ns, FirstMatch(v, ById(id)))
  {
    assert v[j..] == [] && v[..j] == v;
  }
}
