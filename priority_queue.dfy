/** The two `BinaryHeap<OrderIndex>` queues of the order book, seen through
    the operations the book uses: `push`, `pop` and `retain`
    (src/order.rs:81-82, 101-102, 108-109, 114, 117).

    A queue is a sequence of entries; its arrangement in storage carries no
    meaning, only its multiset of entries does. `pop` hands out an entry that
    is maximal under `Cmp`. */
module PriorityQueue {
  import opened OrderIndexing

  /** Every entry of `q` belongs to side `s`: each queue of the book holds
      the entries of one side only. */
  predicate OneSide(q: seq<OrderIndex>, s: Side) {
    forall e :: e in q ==> e.side == s
  }

  /** `x` is popped no later than any entry of `q`. */
  predicate IsBest(x: OrderIndex, q: seq<OrderIndex>) {
    forall e :: e in q ==> AtLeast(x, e)
  }

  /** No entry of `q` carries `id`. */
  predicate NoEntryWith(q: seq<OrderIndex>, id: i64) {
    forall e :: e in q ==> e.id != id
  }

  /** If `x` is popped no later than the best entry `y` of `q`, it is the
      best of `q` too. */
  lemma BestByTransitivity(x: OrderIndex, y: OrderIndex, q: seq<OrderIndex>, s: Side)
    requires OneSide(q, s) && x.side == s && y.side == s
    requires AtLeast(x, y) && IsBest(y, q)
    ensures IsBest(x, q)
  {
    forall e | e in q
      ensures AtLeast(x, e)
    {
      AtLeastTotalPreorder(x, y, e);
    }
  }

  /** Position of the entry `pop` hands out: a maximal one (the first of
      them, where several tie). */
  function BestIndex(q: seq<OrderIndex>, s: Side): (i: nat)
    requires q != [] && OneSide(q, s)
    ensures i < |q| && IsBest(q[i], q)
  {
    if |q| == 1 then 0
    else
      var k := 1 + BestIndex(q[1..], s);
      assert q[k] in q && q[0] in q;
      AtLeastTotalPreorder(q[0], q[k], q[k]);
      if Cmp(q[k], q[0]) == Greater then
        assert q == [q[0]] + q[1..];
        k
      else
        BestByTransitivity(q[0], q[k], q[1..], s);
        assert q == [q[0]] + q[1..];
        0
  }

  /** `q` without its entry at position `i`. */
  function RemoveAt(q: seq<OrderIndex>, i: nat): (r: seq<OrderIndex>)
    requires i < |q|
    ensures multiset(r) == multiset(q) - multiset{q[i]}
  {
    assert q == q[..i] + [q[i]] + q[i + 1..];
    q[..i] + q[i + 1..]
  }

  /** Removing entries keeps a queue to one side. */
  lemma OneSideOfSubQueue(q: seq<OrderIndex>, r: seq<OrderIndex>, s: Side)
    requires OneSide(q, s) && multiset(r) <= multiset(q)
    ensures OneSide(r, s)
  {
    forall e | e in r
      ensures e.side == s
    {
      assert e in multiset(r);
    }
  }

  /** `BinaryHeap::pop`: `None` on an empty queue, otherwise a maximal
      entry together with the queue that remains. */
  function Pop(q: seq<OrderIndex>, s: Side): (r: (Option<OrderIndex>, seq<OrderIndex>))
    requires OneSide(q, s)
    ensures r.0 == None <==> q == []
    ensures q == [] ==> r.1 == []
    ensures r.0.Some? ==>
              r.0.value in q && IsBest(r.0.value, q) && multiset(r.1) == multiset(q) - multiset{r.0.value}
    ensures OneSide(r.1, s)
  {
    if q == [] then (None, [])
    else
      var i := BestIndex(q, s);
      var rest := RemoveAt(q, i);
      OneSideOfSubQueue(q, rest, s);
      (Some(q[i]), rest)
  }

  /** A queue of one entry pops that entry and is then empty. */
  lemma PopOne(a: OrderIndex, s: Side)
    requires a.side == s
    ensures Pop([a], s) == (Some(a), [])
  {
    assert BestIndex([a], s) == 0;
  }

  /** A queue of two entries, one ranking strictly above the other, pops
      that one first, wherever it sits, and keeps the other. */
  lemma PopTwo(a: OrderIndex, b: OrderIndex, s: Side)
    requires a.side == s && b.side == s && Cmp(a, b) == Greater
    ensures Pop([a, b], s) == (Some(a), [b])
    ensures Pop([b, a], s) == (Some(a), [b])
  {
    CmpAntisymmetric(a, b);
    BestOfTwo(a, b, s);
    assert [a, b][..0] + [a, b][1..] == [b];
    assert [b, a][..1] + [b, a][2..] == [b];
  }

  lemma BestOfTwo(a: OrderIndex, b: OrderIndex, s: Side)
    requires a.side == s && b.side == s && Cmp(a, b) == Greater && Cmp(b, a) == Less
    ensures BestIndex([a, b], s) == 0 && BestIndex([b, a], s) == 1
  {
    assert [a, b][1..] == [b] && [b, a][1..] == [a];
    assert BestIndex([b], s) == 0 && BestIndex([a], s) == 0;
  }

  /** `BinaryHeap::retain(|index| index.id != id)`. What it keeps is
      stated by `WithoutIdCounts` and `WithoutIdMembers`. */
  function WithoutId(q: seq<OrderIndex>, id: i64): seq<OrderIndex> {
    if q == [] then []
    else (if q[0].id == id then [] else [q[0]]) + WithoutId(q[1..], id)
  }

  /** `retain` drops the entries with `id` and keeps every other entry with
      its multiplicity. */
  lemma {:induction false} WithoutIdCounts(q: seq<OrderIndex>, id: i64)
    ensures forall e :: multiset(WithoutId(q, id))[e] == if e.id == id then 0 else multiset(q)[e]
  {
    if q != [] {
      WithoutIdCounts(q[1..], id);
      assert q == [q[0]] + q[1..];
    }
  }

  /** After `retain`, an entry is queued exactly when it was queued before
      and does not carry `id`. */
  lemma WithoutIdMembers(q: seq<OrderIndex>, id: i64)
    ensures NoEntryWith(WithoutId(q, id), id)
    ensures forall e :: e in WithoutId(q, id) <==> e in q && e.id != id
  {
    var r := WithoutId(q, id);
    WithoutIdCounts(q, id);
    forall e
      ensures e in r <==> e in q && e.id != id
    {
      assert e in r <==> e in multiset(r);
      assert e in q <==> e in multiset(q);
    }
  }

  /** `retain` with an id no entry carries leaves the queue as it was. */
  lemma {:induction false} WithoutAbsentId(q: seq<OrderIndex>, id: i64)
    requires NoEntryWith(q, id)
    ensures WithoutId(q, id) == q
  {
    if q != [] {
      assert q[0] in q;
      WithoutAbsentId(q[1..], id);
      assert q == [q[0]] + q[1..];
    }
  }

  /** The entries of `q` in the order successive pops hand them out. */
  function Drain(q: seq<OrderIndex>, s: Side): (d: seq<OrderIndex>)
    requires OneSide(q, s)
    decreases |q|
  {
    if q == [] then []
    else
      var p := Pop(q, s);
      assert |p.1| == |multiset(p.1)| == |q| - 1;
      [p.0.value] + Drain(p.1, s)
  }

  /** Draining hands out every entry exactly once. */
  lemma {:induction false} DrainIsPermutation(q: seq<OrderIndex>, s: Side)
    requires OneSide(q, s)
    ensures multiset(Drain(q, s)) == multiset(q)
    decreases |q|
  {
    if q != [] {
      var p := Pop(q, s);
      assert |p.1| == |multiset(p.1)| == |q| - 1;
      DrainIsPermutation(p.1, s);
    }
  }

  /** The entry a pop hands out outranks or ties every entry that later
      pops hand out. */
  lemma PoppedOutranksRest(q: seq<OrderIndex>, s: Side)
    requires OneSide(q, s) && q != []
    ensures forall x :: x in Drain(Pop(q, s).1, s) ==> AtLeast(Pop(q, s).0.value, x)
  {
    var p := Pop(q, s);
    assert |p.1| == |multiset(p.1)| == |q| - 1;
    DrainIsPermutation(p.1, s);
    forall x | x in Drain(p.1, s)
      ensures AtLeast(p.0.value, x)
    {
      assert x in multiset(Drain(p.1, s));
      assert x in multiset(q);
    }
  }

  /** `d` is in price-time priority order: no entry comes before one that
      outranks it. */
  predicate PriorityOrdered(d: seq<OrderIndex>) {
    forall j, k :: 0 <= j < k < |d| ==> AtLeast(d[j], d[k])
  }

  /** An entry that outranks or ties every entry of an ordered sequence can
      go in front of it. */
  lemma OrderedCons(x: OrderIndex, rest: seq<OrderIndex>)
    requires PriorityOrdered(rest)
    requires forall y :: y in rest ==> AtLeast(x, y)
    ensures PriorityOrdered([x] + rest)
  {
    var d := [x] + rest;
    forall j, k | 0 <= j < k < |d|
      ensures AtLeast(d[j], d[k])
    {
      if j == 0 {
        assert d[k] == rest[k - 1];
      } else {
        assert d[j] == rest[j - 1] && d[k] == rest[k - 1];
      }
    }
  }

  /** Draining hands entries out in price-time priority. */
  lemma {:induction false} DrainIsSorted(q: seq<OrderIndex>, s: Side)
    requires OneSide(q, s)
    ensures PriorityOrdered(Drain(q, s))
    decreases |q|
  {
    if q != [] {
      var p := Pop(q, s);
      assert |p.1| == |multiset(p.1)| == |q| - 1;
      DrainIsSorted(p.1, s);
      PoppedOutranksRest(q, s);
      OrderedCons(p.0.value, Drain(p.1, s));
    }
  }

  /** Successive pops of an ask queue: prices never fall, and at equal
      prices timestamps never fall (cheapest first, then earliest first). */
  lemma AskDrainOrder(q: seq<OrderIndex>)
    requires OneSide(q, Ask)
    ensures forall j, k :: 0 <= j < k < |Drain(q, Ask)| ==>
              var a, b := Drain(q, Ask)[j], Drain(q, Ask)[k];
              a.price < b.price || (a.price == b.price && a.timestamp <= b.timestamp)
  {
    var d := Drain(q, Ask);
    DrainIsSorted(q, Ask);
    DrainIsPermutation(q, Ask);
    forall j, k | 0 <= j < k < |d|
      ensures d[j].price < d[k].price || (d[j].price == d[k].price && d[j].timestamp <= d[k].timestamp)
    {
      assert d[j] in multiset(q) && d[k] in multiset(q);
      assert AtLeast(d[j], d[k]);
    }
  }

  /** Successive pops of a bid queue: prices never rise, and at equal
      prices timestamps never fall (dearest first, then earliest first). */
  lemma BidDrainOrder(q: seq<OrderIndex>)
    requires OneSide(q, Bid)
    ensures forall j, k :: 0 <= j < k < |Drain(q, Bid)| ==>
              var a, b := Drain(q, Bid)[j], Drain(q, Bid)[k];
              a.price > b.price || (a.price == b.price && a.timestamp <= b.timestamp)
  {
    var d := Drain(q, Bid);
    DrainIsSorted(q, Bid);
    DrainIsPermutation(q, Bid);
    forall j, k | 0 <= j < k < |d|
      ensures d[j].price > d[k].price || (d[j].price == d[k].price && d[j].timestamp <= d[k].timestamp)
    {
      assert d[j] in multiset(q) && d[k] in multiset(q);
      assert AtLeast(d[j], d[k]);
    }
  }

  /** `retain` works entry by entry, so it distributes over concatenation. */
  lemma {:induction false} WithoutIdAppend(a: seq<OrderIndex>, b: seq<OrderIndex>, id: i64)
    ensures WithoutId(a + b, id) == WithoutId(a, id) + WithoutId(b, id)
  {
    if a == [] {
      assert a + b == b;
    } else {
      assert (a + b)[0] == a[0];
      assert (a + b)[1..] == a[1..] + b;
      WithoutIdAppend(a[1..], b, id);
    }
  }

  /** Pushing an entry whose id the queue does not hold, then retaining the
      entries without that id, gives back the queue as it was. */
  lemma RetainUndoesPush(q: seq<OrderIndex>, e: OrderIndex)
    requires NoEntryWith(q, e.id)
    ensures WithoutId(q + [e], e.id) == q
  {
    WithoutIdAppend(q, [e], e.id);
    WithoutAbsentId(q, e.id);
    assert WithoutId([e], e.id) == [] + WithoutId([], e.id);
  }
}
