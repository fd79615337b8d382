/**
 Runs of the store of message parts: parts of any number of messages arrive interleaved
 in any order, and every message is handed on once, when its last part arrives.
 */
module PartRuns {
  import opened Basics
  import opened DList
  import opened Reassembly

  // ------------------------------------------------------------------------ what happens

  datatype Store = Store(parts: seq<Entry>, log: seq<Joined>)

  /** The arrival of a part, as the receiver treats it. */
  function Receive(s: Store, p: Part): Store {
    var v := s.parts + [Stored(p)];
    if AllThere(v, p.id, p.total)
    then Store(WithoutParts(v, p.id, p.total),
        s.log + [Joined(TextOf(FirstPart(v, p.id)), JoinedText(v, p.id, p.total))])
    else Store(v, s.log)
  }

  predicate AllThere(v: seq<Entry>, id: string, total: nat) {
    total >= 1 && forall i | 1 <= i <= total :: Has(v, id, i)
  }

  function FirstPart(v: seq<Entry>, id: string): Option<string> {
    if Has(v, id, 1) then Find(v, id, 1).val1 else None
  }

  function Run(arr: seq<Part>): Store {
    if arr == [] then Store([], []) else Receive(Run(arr[..|arr| - 1]), arr[|arr| - 1])
  }

  // ----------------------------------------------------------------- what should happen

  ghost predicate Arrived(arr: seq<Part>, id: string, num: int) {
    exists k | 0 <= k < |arr| :: arr[k].id == id && arr[k].num == num
  }

  /**
   The parts are those of messages with distinct ids: same id, same channel and number
   of parts; each part arrives once.
   */
  ghost predicate Consistent(arr: seq<Part>) {
    && (forall k | 0 <= k < |arr| :: 1 <= arr[k].num <= arr[k].total)
    && (forall j, k | 0 <= j < k < |arr| && arr[j].id == arr[k].id ::
          arr[j].total == arr[k].total && arr[j].channel == arr[k].channel && arr[j].num != arr[k].num)
  }

  /** All parts of the message of `p` have arrived. */
  ghost predicate Complete(arr: seq<Part>, p: Part) {
    forall i | 1 <= i <= p.total :: Arrived(arr, p.id, i)
  }

  ghost function Payload(arr: seq<Part>, id: string, num: int): string {
    if Arrived(arr, id, num)
    then var k :| 0 <= k < |arr| && arr[k].id == id && arr[k].num == num; arr[k].payload
    else ""
  }

  ghost function Message(arr: seq<Part>, id: string, n: nat): string {
    if n == 0 then "" else Message(arr, id, n - 1) + Payload(arr, id, n)
  }

  /** The parts among the first `n` whose message is not complete. */
  ghost function Waiting(arr: seq<Part>, n: nat): seq<Entry>
    requires n <= |arr|
  {
    if n == 0 then [] else Waiting(arr, n - 1) + EntryWaiting(arr, arr[n - 1])
  }

  ghost function EntryWaiting(arr: seq<Part>, q: Part): seq<Entry> { if Complete(arr, q) then [] else [Stored(q)] }

  /** One message for every part that completes one. */
  ghost function Handed(arr: seq<Part>): seq<Joined> {
    if arr == [] then []
    else
      var p := arr[|arr| - 1];
      Handed(arr[..|arr| - 1]) + if Complete(arr, p) then [Joined(p.channel, Message(arr, p.id, p.total))] else []
  }

  // --------------------------------------------------------------------- list lemmas

  /** The entry is in the list. */
  ghost predicate In(v: seq<Entry>, e: Entry) {
    exists k | 0 <= k < |v| :: v[k] == e
  }

  /** No two entries have the same id and number. */
  ghost predicate Unique(v: seq<Entry>) {
    forall j, k | 0 <= j < k < |v| :: v[j].id == v[k].id ==> v[j].num != v[k].num
  }

  lemma HasEntry(v: seq<Entry>, e: Entry)
    requires In(v, e)
    ensures Has(v, e.id, e.num)
    ensures Unique(v) ==> Find(v, e.id, e.num) == e
  {
    var k :| 0 <= k < |v| && v[k] == e;
    assert Selects(ByIdAndNum(e.id, e.num), v[k]);
    assert FirstMatch(v, ByIdAndNum(e.id, e.num)) <= k;
  }

  function WithoutUpTo(v: seq<Entry>, id: string, n: int): seq<Entry> {
    if v == [] then []
    else (if v[0].id == id && 1 <= v[0].num <= n then [] else [v[0]]) + WithoutUpTo(v[1..], id, n)
  }

  lemma FirstIsHead(x: Entry, w: seq<Entry>, q: Query)
    ensures Selects(q, x) ==> WithoutFirst([x] + w, q) == w
    ensures !Selects(q, x) ==> WithoutFirst([x] + w, q) == [x] + WithoutFirst(w, q)
  {
    var v, k := [x] + w, FirstMatch(w, q);
    FirstMatchCons(x, w, q);
    if Selects(q, x) {
      assert v[..0] + v[1..] == w;
    } else if k < |w| {
      assert v[..1 + k] == [x] + w[..k] && v[2 + k..] == w[k + 1..];
      Regroup([x], w[..k], w[k + 1..]);
    }
  }

  lemma FirstMatchCons(x: Entry, w: seq<Entry>, q: Query)
    ensures FirstMatch([x] + w, q) == if Selects(q, x) then 0 else 1 + FirstMatch(w, q)
  {
    assert ([x] + w)[1..] == w;
  }

  /** Taking out the only entry selected. */
  lemma {:induction false} TakeOut(v: seq<Entry>, id: string, n: nat)
    requires Unique(v) && n >= 1
    ensures WithoutFirst(WithoutUpTo(v, id, n - 1), ByIdAndNum(id, n)) == WithoutUpTo(v, id, n)
  {
    if v != [] {
      UniqueTail(v);
      TakeOut(v[1..], id, n);
      TakeStep(v[0], v[1..], id, n);
      assert v == [v[0]] + v[1..];
    }
  }

  lemma TakeStep(x: Entry, t: seq<Entry>, id: string, n: nat)
    requires n >= 1 && WithoutFirst(WithoutUpTo(t, id, n - 1), ByIdAndNum(id, n)) == WithoutUpTo(t, id, n)
    requires forall k | 0 <= k < |t| :: t[k].id == x.id ==> t[k].num != x.num
    ensures WithoutFirst(WithoutUpTo([x] + t, id, n - 1), ByIdAndNum(id, n)) == WithoutUpTo([x] + t, id, n)
  {
    HeadOut(x, t, id, n - 1);
    HeadOut(x, t, id, n);
    if Selects(ByIdAndNum(id, n), x) { NoneLeft(t, id, n); }
    TakeHead(x, WithoutUpTo(t, id, n - 1), WithoutUpTo(t, id, n), id, n);
  }

  lemma UniqueTail(v: seq<Entry>)
    requires v != [] && Unique(v)
    ensures Unique(v[1..]) && forall k | 0 <= k < |v[1..]| :: v[1..][k].id == v[0].id ==> v[1..][k].num != v[0].num
  {
  }

  lemma TakeHead(x: Entry, w: seq<Entry>, u: seq<Entry>, id: string, n: nat)
    requires n >= 1 && WithoutFirst(w, ByIdAndNum(id, n)) == u && (Selects(ByIdAndNum(id, n), x) ==> w == u)
    ensures !(x.id == id && 1 <= x.num <= n - 1) ==>
      WithoutFirst([x] + w, ByIdAndNum(id, n)) == if x.id == id && 1 <= x.num <= n then u else [x] + u
  {
    FirstIsHead(x, w, ByIdAndNum(id, n));
  }

  lemma HeadOut(x: Entry, t: seq<Entry>, id: string, n: int)
    ensures WithoutUpTo([x] + t, id, n)
         == if x.id == id && 1 <= x.num <= n then WithoutUpTo(t, id, n) else [x] + WithoutUpTo(t, id, n)
  {
    assert ([x] + t)[1..] == t;
  }

  lemma {:induction false} NoneLeft(v: seq<Entry>, id: string, n: nat)
    requires n >= 1 && forall k | 0 <= k < |v| :: v[k].id == id ==> v[k].num != n
    ensures WithoutUpTo(v, id, n - 1) == WithoutUpTo(v, id, n)
  {
    if v != [] { NoneLeft(v[1..], id, n); }
  }

  lemma {:induction false} NothingOut(v: seq<Entry>, id: string)
    ensures WithoutUpTo(v, id, 0) == v
  {
    if v != [] { NothingOut(v[1..], id); }
  }

  lemma {:induction false} PartsOut(v: seq<Entry>, id: string, n: nat)
    requires Unique(v)
    ensures WithoutParts(v, id, n) == WithoutUpTo(v, id, n)
  {
    if n == 0 {
      NothingOut(v, id);
    } else {
      PartsOut(v, id, n - 1);
      TakeOut(v, id, n);
    }
  }

  /** When all numbers are in range, all entries with the id go and the others stay in order. */
  lemma {:induction false} AllOut(v: seq<Entry>, id: string, n: nat)
    requires forall k | 0 <= k < |v| :: v[k].id == id ==> 1 <= v[k].num <= n
    ensures WithoutUpTo(v, id, n) == Without(v, id)
  {
    if v != [] { AllOut(v[1..], id, n); }
  }

  // ----------------------------------------------------------------------- arrivals

  lemma ArrivedNext(arr: seq<Part>, p: Part, id: string, num: int)
    ensures Arrived(arr + [p], id, num) <==> Arrived(arr, id, num) || (p.id == id && p.num == num)
  {
    var b := arr + [p];
    if Arrived(arr, id, num) {
      var k :| 0 <= k < |arr| && arr[k].id == id && arr[k].num == num;
      assert b[k] == arr[k];
    }
    if p.id == id && p.num == num { assert b[|arr|] == p; }
    if Arrived(b, id, num) {
      var k :| 0 <= k < |b| && b[k].id == id && b[k].num == num;
      assert k < |arr| ==> b[k] == arr[k];
    }
  }

  /** A part of an incomplete message that arrives leaves the other messages as they are. */
  lemma CompleteNext(arr: seq<Part>, p: Part, q: Part)
    ensures q.id != p.id ==> (Complete(arr + [p], q) <==> Complete(arr, q))
  {
    forall i ensures Arrived(arr + [p], q.id, i) <==> Arrived(arr, q.id, i) || (p.id == q.id && p.num == i) {
      ArrivedNext(arr, p, q.id, i);
    }
  }

  lemma SameMessage(arr: seq<Part>, p: Part, q: Part)
    requires p.id == q.id && p.total == q.total
    ensures Complete(arr, p) <==> Complete(arr, q)
  {
  }

  ghost predicate Extends(arr: seq<Part>, p: Part) {
    Consistent(arr + [p])
  }

  lemma ExtendsFacts(arr: seq<Part>, p: Part)
    requires Extends(arr, p)
    ensures Consistent(arr) && 1 <= p.num <= p.total && !Arrived(arr, p.id, p.num) && !Complete(arr, p)
    ensures forall k | 0 <= k < |arr| && arr[k].id == p.id :: arr[k].total == p.total && arr[k].channel == p.channel
  {
    var b := arr + [p];
    assert b[|arr|] == p && forall k | 0 <= k < |arr| :: b[k] == arr[k];
    assert !Arrived(arr, p.id, p.num);
  }

  lemma PayloadIs(arr: seq<Part>, k: nat)
    requires Consistent(arr) && k < |arr|
    ensures Arrived(arr, arr[k].id, arr[k].num) && Payload(arr, arr[k].id, arr[k].num) == arr[k].payload
  {
    assert arr[k].id == arr[k].id && arr[k].num == arr[k].num;
    assert Arrived(arr, arr[k].id, arr[k].num);
  }

  // --------------------------------------------------------------------- the store

  /** Every entry waiting is a part that has arrived and whose message is incomplete, in order of arrival. */
  lemma {:induction false} WaitingIs(arr: seq<Part>, n: nat, k: nat) returns (j: nat)
    requires n <= |arr| && k < |Waiting(arr, n)|
    ensures j < n && Waiting(arr, n)[k] == Stored(arr[j]) && !Complete(arr, arr[j])
  {
    var w := Waiting(arr, n - 1);
    if k < |w| { j := WaitingIs(arr, n - 1, k); } else { j := n - 1; }
  }

  lemma {:induction false} WaitingHas(arr: seq<Part>, n: nat, j: nat)
    requires j < n <= |arr| && !Complete(arr, arr[j])
    ensures In(Waiting(arr, n), Stored(arr[j]))
  {
    var w := Waiting(arr, n - 1);
    if j == n - 1 {
      assert Waiting(arr, n)[|w|] == Stored(arr[j]);
    } else {
      WaitingHas(arr, n - 1, j);
      var k :| 0 <= k < |w| && w[k] == Stored(arr[j]);
      assert Waiting(arr, n)[k] == w[k];
    }
  }

  lemma {:induction false} WaitingUnique(arr: seq<Part>, n: nat)
    requires n <= |arr| && Consistent(arr)
    ensures Unique(Waiting(arr, n))
  {
    if n > 0 {
      WaitingUnique(arr, n - 1);
      var w := Waiting(arr, n - 1);
      forall k | 0 <= k < |w| && w[k].id == arr[n - 1].id ensures w[k].num != arr[n - 1].num {
        var j := WaitingIs(arr, n - 1, k);
      }
    }
  }

  /** With the part that arrives: the entries of its message are in range, distinct, and those that have arrived. */
  lemma StoreFacts(arr: seq<Part>, p: Part)
    requires Extends(arr, p)
    ensures var v := Waiting(arr, |arr|) + [Stored(p)];
      Unique(v) && forall k | 0 <= k < |v| && v[k].id == p.id :: 1 <= v[k].num <= p.total
  {
    ExtendsFacts(arr, p);
    WaitingUnique(arr, |arr|);
    var w := Waiting(arr, |arr|);
    forall k | 0 <= k < |w| && w[k].id == p.id ensures 1 <= w[k].num <= p.total && w[k].num != p.num {
      var j := WaitingIs(arr, |arr|, k);
      assert arr[j].num == p.num ==> Arrived(arr, p.id, p.num);
    }
  }

  /** What a search finds in the store for a part that has arrived. */
  lemma FindsArrived(arr: seq<Part>, p: Part, i: int)
    requires Extends(arr, p)
    ensures var v := Waiting(arr, |arr|) + [Stored(p)];
      && (Has(v, p.id, i) <==> Arrived(arr + [p], p.id, i))
      && (Has(v, p.id, i) ==> Find(v, p.id, i).val1 == Some(p.channel)
                              && StoredText(v, p.id, i) == Payload(arr + [p], p.id, i))
  {
    var w := Waiting(arr, |arr|);
    var v, b := w + [Stored(p)], arr + [p];
    ExtendsFacts(arr, p);
    StoreFacts(arr, p);
    ArrivedNext(arr, p, p.id, i);
    if i == p.num {
      assert v[|w|] == Stored(p) && b[|arr|] == p;
      HasEntry(v, Stored(p));
      PayloadIs(b, |arr|);
    } else if Arrived(arr, p.id, i) {
      var j :| 0 <= j < |arr| && arr[j].id == p.id && arr[j].num == i;
      SameMessage(arr, p, arr[j]);
      WaitingHas(arr, |arr|, j);
      var k :| 0 <= k < |w| && w[k] == Stored(arr[j]);
      assert v[k] == Stored(arr[j]) && b[j] == arr[j];
      HasEntry(v, Stored(arr[j]));
      PayloadIs(b, j);
    } else {
      forall k | 0 <= k < |v| ensures !Selects(ByIdAndNum(p.id, i), v[k]) {
        if k < |w| {
          var j := WaitingIs(arr, |arr|, k);
          assert arr[j].id == p.id && arr[j].num == i ==> Arrived(arr, p.id, i);
        }
      }
    }
  }

  lemma {:induction false} JoinsMessage(arr: seq<Part>, p: Part, n: nat)
    requires Extends(arr, p) && n <= p.total && Complete(arr + [p], p)
    ensures JoinedText(Waiting(arr, |arr|) + [Stored(p)], p.id, n) == Message(arr + [p], p.id, n)
  {
    if n > 0 {
      JoinsMessage(arr, p, n - 1);
      FindsArrived(arr, p, n);
      assert Arrived(arr + [p], p.id, n);
    }
  }

  /** Whether a part that has arrived waits after another arrival. */
  lemma EntryNext(arr: seq<Part>, p: Part, k: nat)
    requires k < |arr| && Extends(arr, p)
    ensures var e := EntryWaiting(arr, arr[k]);
      EntryWaiting(arr + [p], arr[k]) == if Complete(arr + [p], p) then Without(e, p.id) else e
  {
    ExtendsFacts(arr, p);
    CompleteNext(arr, p, arr[k]);
    if arr[k].id == p.id {
      SameMessage(arr, p, arr[k]);
      SameMessage(arr + [p], p, arr[k]);
    }
  }

  /** The parts that wait after an arrival. */
  lemma {:induction false} WaitingNext(arr: seq<Part>, p: Part, n: nat)
    requires n <= |arr| && Extends(arr, p)
    ensures Waiting(arr + [p], n) == if Complete(arr + [p], p) then Without(Waiting(arr, n), p.id) else Waiting(arr, n)
  {
    if n > 0 {
      WaitingNext(arr, p, n - 1);
      assert (arr + [p])[n - 1] == arr[n - 1];
      EntryNext(arr, p, n - 1);
      WithoutConcat(Waiting(arr, n - 1), EntryWaiting(arr, arr[n - 1]), p.id);
    }
  }

  // ------------------------------------------------------------------------- the run

  lemma ThereWhenComplete(arr: seq<Part>, p: Part)
    requires Extends(arr, p)
    ensures AllThere(Waiting(arr, |arr|) + [Stored(p)], p.id, p.total) <==> Complete(arr + [p], p)
  {
    var v, b := Waiting(arr, |arr|) + [Stored(p)], arr + [p];
    ExtendsFacts(arr, p);
    forall i | 1 <= i <= p.total ensures Has(v, p.id, i) <==> Arrived(b, p.id, i) { FindsArrived(arr, p, i); }
  }

  /** What waits after an arrival. */
  lemma WaitingAfter(arr: seq<Part>, p: Part)
    requires Extends(arr, p)
    ensures Waiting(arr + [p], |arr| + 1)
         == if Complete(arr + [p], p) then Without(Waiting(arr, |arr|), p.id) else Waiting(arr, |arr|) + [Stored(p)]
  {
    WaitingNext(arr, p, |arr|);
    assert (arr + [p])[|arr|] == p;
  }

  /** The message handed on. */
  lemma HandsOn(arr: seq<Part>, p: Part)
    requires Extends(arr, p) && Complete(arr + [p], p)
    ensures var v := Waiting(arr, |arr|) + [Stored(p)];
      TextOf(FirstPart(v, p.id)) == p.channel && JoinedText(v, p.id, p.total) == Message(arr + [p], p.id, p.total)
  {
    ExtendsFacts(arr, p);
    assert Arrived(arr + [p], p.id, 1);
    FindsArrived(arr, p, 1);
    JoinsMessage(arr, p, p.total);
  }

  /** One arrival keeps the store exact. */
  lemma ReceiveIsRight(arr: seq<Part>, p: Part, log: seq<Joined>)
    requires Extends(arr, p)
    ensures var b := arr + [p];
      Receive(Store(Waiting(arr, |arr|), log), p)
      == Store(Waiting(b, |b|), log + if Complete(b, p) then [Joined(p.channel, Message(b, p.id, p.total))] else [])
  {
    ThereWhenComplete(arr, p);
    WaitingAfter(arr, p);
    if Complete(arr + [p], p) {
      HandsOn(arr, p);
      AllPartsOut(arr, p, Waiting(arr, |arr|));
    }
  }

  /** The parts of the message that has become complete leave the list. */
  lemma AllPartsOut(arr: seq<Part>, p: Part, w: seq<Entry>)
    requires Extends(arr, p) && w == Waiting(arr, |arr|)
    ensures WithoutParts(w + [Stored(p)], p.id, p.total) == Without(w, p.id)
  {
    var v := w + [Stored(p)];
    ExtendsFacts(arr, p);
    StoreFacts(arr, p);
    PartsOut(v, p.id, p.total);
    AllOut(v, p.id, p.total);
    WithoutConcat(w, [Stored(p)], p.id);
    assert Without(v, p.id) == Without(w, p.id) + Without([Stored(p)], p.id);
  }

  /**
   Over a whole run, whatever the order of arrival and the interleaving: the store holds
   exactly the parts of incomplete messages in order of arrival, and a message is handed
   on exactly when a part completes it, as its texts in the order of their numbers.
   */
  lemma {:induction false} RunIsRight(arr: seq<Part>)
    requires Consistent(arr)
    ensures Run(arr) == Store(Waiting(arr, |arr|), Handed(arr))
  {
    if arr != [] {
      var before, p := arr[..|arr| - 1], arr[|arr| - 1];
      assert arr == before + [p];
      RunIsRight(before);
      ReceiveIsRight(before, p, Handed(before));
    }
  }

  /** The part at position `k` completes its message. */
  ghost predicate Completes(arr: seq<Part>, k: nat) {
    k < |arr| && Complete(arr[..k + 1], arr[k])
  }

  /** No message is handed on twice. */
  lemma HandedOnce(arr: seq<Part>, j: nat, k: nat)
    requires Consistent(arr) && Completes(arr, j) && Completes(arr, k) && arr[j].id == arr[k].id
    ensures j == k
  {
    if j < k { NotAgain(arr, j, k); }
    if k < j { NotAgain(arr, k, j); }
  }

  lemma NotAgain(arr: seq<Part>, j: nat, k: nat)
    requires Consistent(arr) && j < k < |arr| && arr[j].id == arr[k].id
    ensures !Completes(arr, j)
  {
    var p := arr[k];
    assert 1 <= p.num <= arr[j].total;
    var early := arr[..j + 1];
    forall i | 0 <= i < |early| && early[i].id == p.id ensures early[i].num != p.num {
      assert early[i] == arr[i];
    }
    assert !Arrived(early, p.id, p.num);
  }

  /** A message all of whose parts arrive is handed on, at the last of them. */
  lemma {:induction false} HandedAtLast(arr: seq<Part>, p: Part, n: nat) returns (k: nat)
    requires Consistent(arr) && n <= |arr| && Complete(arr[..n], p) && p.total >= 1
    requires exists j | 0 <= j < n :: arr[j].id == p.id && arr[j].total == p.total
    ensures k < n && arr[k].id == p.id && Completes(arr, k)
    ensures forall j | k < j < |arr| :: arr[j].id != p.id
  {
    var j :| 0 <= j < n && arr[j].id == p.id && arr[j].total == p.total;
    var q := arr[n - 1];
    if q.id == p.id {
      assert q.total == p.total;
      SameMessage(arr[..n], p, q);
      k := n - 1;
      forall i | k < i < |arr| ensures arr[i].id != p.id { if arr[i].id == p.id { NotAgain(arr, k, i); } }
    } else {
      assert arr[..n] == arr[..n - 1] + [q];
      CompleteNext(arr[..n - 1], q, p);
      k := HandedAtLast(arr, p, n - 1);
    }
  }
}
