/**
 The receiver's store of message parts: when the last part of a message has arrived its
 parts are joined in order and taken out, whatever else is in the store.
 */
module Reassembly {
  import opened Basics
  import opened DList

  datatype Part = Part(id: string, channel: string, num: nat, total: nat, payload: string)

  function Stored(p: Part): Entry {
    Entry(p.id, Some(p.channel), Some(p.payload), p.num, None)
  }

  /** A message handed on: its channel and its joined text. */
  datatype Joined = Joined(channel: string, text: string)

  function TextOf(o: Option<string>): string {
    match o
    case Some(s) => s
    case None => ""
  }

  predicate Has(v: seq<Entry>, id: string, num: int) {
    FirstMatch(v, ByIdAndNum(id, num)) < |v|
  }

  function Find(v: seq<Entry>, id: string, num: int): Entry
    requires Has(v, id, num)
  {
    v[FirstMatch(v, ByIdAndNum(id, num))]
  }

  ghost predicate HasAll(v: seq<Entry>, id: string, total: int) {
    forall i | 1 <= i <= total :: Has(v, id, i)
  }

  function StoredText(v: seq<Entry>, id: string, num: int): string {
    if Has(v, id, num) then TextOf(Find(v, id, num).val2) else ""
  }

  /** The texts of parts 1 to `n` one behind the other. */
  function JoinedText(v: seq<Entry>, id: string, n: nat): string {
    if n == 0 then "" else JoinedText(v, id, n - 1) + StoredText(v, id, n)
  }

  function WithoutParts(v: seq<Entry>, id: string, n: nat): seq<Entry> {
    if n == 0 then v else WithoutFirst(WithoutParts(v, id, n - 1), ByIdAndNum(id, n))
  }

  /** Taking out one entry does not lose another one looked for. */
  lemma OthersStay(v: seq<Entry>, id: string, n: int, m: int)
    requires n != m && Has(v, id, m)
    ensures Has(WithoutFirst(v, ByIdAndNum(id, n)), id, m)
    ensures Find(WithoutFirst(v, ByIdAndNum(id, n)), id, m) == Find(v, id, m)
  {
    var q, r := ByIdAndNum(id, n), ByIdAndNum(id, m);
    var k, j := FirstMatch(v, q), FirstMatch(v, r);
    var w := WithoutFirst(v, q);
    if k < |v| {
      var i := if j < k then j else j - 1;
      assert w[i] == v[j];
      FirstMatchIs(w, r, i);
    }
  }

  lemma {:induction false} LaterPartsStay(v: seq<Entry>, id: string, n: nat, m: int)
    requires n < m && Has(v, id, m)
    ensures Has(WithoutParts(v, id, n), id, m) && Find(WithoutParts(v, id, n), id, m) == Find(v, id, m)
  {
    if n > 0 {
      LaterPartsStay(v, id, n - 1, m);
      OthersStay(WithoutParts(v, id, n - 1), id, n, m);
    }
  }

  // ---------------------------------------------------------------------------- sizes

  /** The bytes of all texts in the list. */
  function TextSize(v: seq<Entry>): nat {
    if v == [] then 0 else |TextOf(v[0].val2)| + TextSize(v[1..])
  }

  lemma {:induction false} TextSizeConcat(u: seq<Entry>, v: seq<Entry>)
    ensures TextSize(u + v) == TextSize(u) + TextSize(v)
  {
    if u == [] {
      assert u + v == v;
    } else {
      TextSizeConcat(u[1..], v);
      assert (u + v)[1..] == u[1..] + v;
    }
  }

  lemma TextSizeWithout(v: seq<Entry>, k: nat)
    requires k < |v|
    ensures TextSize(v) == TextSize(v[..k] + v[k + 1..]) + |TextOf(v[k].val2)|
  {
    assert v == v[..k] + ([v[k]] + v[k + 1..]);
    TextSizeConcat(v[..k], [v[k]] + v[k + 1..]);
    TextSizeConcat([v[k]], v[k + 1..]);
    TextSizeConcat(v[..k], v[k + 1..]);
  }

  /** The joined text is no longer than what is stored. */
  lemma {:induction false} JoinedSize(v: seq<Entry>, id: string, n: nat)
    requires HasAll(v, id, n)
    ensures |JoinedText(v, id, n)| + TextSize(WithoutParts(v, id, n)) == TextSize(v)
  {
    if n > 0 {
      JoinedSize(v, id, n - 1);
      assert Has(v, id, n);
      OneJoined(v, id, n);
    }
  }

  lemma OneJoined(v: seq<Entry>, id: string, n: nat)
    requires n >= 1 && Has(v, id, n)
    ensures |StoredText(v, id, n)| + TextSize(WithoutParts(v, id, n)) == TextSize(WithoutParts(v, id, n - 1))
  {
    LaterPartsStay(v, id, n - 1, n);
    TakenSize(WithoutParts(v, id, n - 1), id, n);
  }

  lemma TakenSize(w: seq<Entry>, id: string, n: int)
    requires Has(w, id, n)
    ensures TextSize(w) == TextSize(WithoutFirst(w, ByIdAndNum(id, n))) + |TextOf(Find(w, id, n).val2)|
  {
    TextSizeWithout(w, FirstMatch(w, ByIdAndNum(id, n)));
  }

  /** The first loop has found part `i` and put its node into the array. */
  ghost predicate Collected(a: seq<Node?>, v: seq<Entry>, id: string, i: int) {
    && 1 <= i <= |a| && a[i - 1] != null && Has(v, id, i)
    && a[i - 1].val1 == Find(v, id, i).val1 && a[i - 1].val2 == Find(v, id, i).val2
  }

  lemma CollectedNext(a: seq<Node?>, b: seq<Node?>, t: Node, v: seq<Entry>, id: string, i: int)
    requires 1 <= i <= |a| && b == a[i - 1 := t] && Has(v, id, i) && t.val1 == Find(v, id, i).val1
    requires t.val2 == Find(v, id, i).val2
    requires forall j | 1 <= j < i :: Collected(a, v, id, j)
    ensures forall j | 1 <= j <= i :: Collected(b, v, id, j)
  {
    forall j | 1 <= j <= i ensures Collected(b, v, id, j) {
      assert j < i ==> Collected(a, v, id, j);
    }
  }

  method CollectParts(multiparts: List, id: string, total: nat) returns (a: array<Node?>, all: bool)
    requires multiparts.Valid()
    ensures fresh(a) && a.Length == total
    ensures all <==> HasAll(multiparts.view, id, total)
    ensures all ==> forall i | 1 <= i <= total :: Collected(a[..], multiparts.view, id, i)
  {
    a := new Node?[total](_ => null);
    var i := 1;
    while i <= total
      invariant 1 <= i <= total + 1
      invariant forall j | 1 <= j < i :: Collected(a[..], multiparts.view, id, j)
    {
      var t := multiparts.SearchEx(id, i);
      assert t == null <==> !Has(multiparts.view, id, i);
      assert t != null ==> t.Contents() == Find(multiparts.view, id, i);
      if t == null { return a, false; }
      ghost var before := a[..];
      a[i - 1] := t;
      assert a[..] == before[i - 1 := t];
      CollectedNext(before, a[..], t, multiparts.view, id, i);
      i := i + 1;
    }
    all := true;
    forall j | 1 <= j <= total ensures Has(multiparts.view, id, j) { assert Collected(a[..], multiparts.view, id, j); }
  }

  /** Deletes part `n`, the parts before it having been deleted. */
  method DeletePart(multiparts: List, id: string, n: nat, ghost v: seq<Entry>)
    requires multiparts.Valid() && n >= 1 && multiparts.view == WithoutParts(v, id, n - 1) && Has(v, id, n)
    modifies multiparts, multiparts.repr
    ensures multiparts.Valid() && multiparts.repr == old(multiparts.repr) && multiparts.view == WithoutParts(v, id, n)
  {
    LaterPartsStay(v, id, n - 1, n);
    multiparts.DeleteEx(id, n);
  }

  /** Copies the texts one behind the other and deletes the parts. */
  method JoinParts(multiparts: List, nodes: seq<Node?>, id: string, total: nat) returns (text: string)
    requires multiparts.Valid() && |nodes| == total
    requires forall i | 1 <= i <= total :: Collected(nodes, multiparts.view, id, i)
    modifies multiparts, multiparts.repr
    ensures multiparts.Valid() && multiparts.repr == old(multiparts.repr)
    ensures text == JoinedText(old(multiparts.view), id, total)
    ensures multiparts.view == WithoutParts(old(multiparts.view), id, total)
  {
    ghost var v := multiparts.view;
    text := "";
    var i := 0;
    while i < total
      invariant 0 <= i <= total && multiparts.Valid() && multiparts.repr == old(multiparts.repr)
      invariant text == JoinedText(v, id, i) && multiparts.view == WithoutParts(v, id, i)
    {
      assert Collected(nodes, v, id, i + 1);
      text := text + TextOf(nodes[i].val2);
      DeletePart(multiparts, id, i + 1, v);
      i := i + 1;
    }
  }

  /** `_ortc_check_if_got_all_parts`: delivers and deletes the parts of a message when all are there. */
  method CheckIfGotAllParts(multiparts: List, id: string, total: nat) returns (r: Option<Joined>)
    requires multiparts.Valid() && total >= 1
    modifies multiparts, multiparts.repr
    ensures multiparts.Valid() && multiparts.repr == old(multiparts.repr)
    ensures if old(HasAll(multiparts.view, id, total))
            then r == Some(Joined(old(TextOf(Find(multiparts.view, id, 1).val1)),
                old(JoinedText(multiparts.view, id, total))))
                 && multiparts.view == old(WithoutParts(multiparts.view, id, total))
            else r == None && multiparts.view == old(multiparts.view)
  {
    var aNodes, all := CollectParts(multiparts, id, total);
    if !all { return None; }
    assert Collected(aNodes[..], multiparts.view, id, 1) && aNodes[0] == aNodes[..][0];
    var channel := TextOf(aNodes[0].val1);
    var text := JoinParts(multiparts, aNodes[..], id, total);
    r := Some(Joined(channel, text));
  }
}
