/** The order book of one sticker (`StickerOrderBook`) and the registry of
    books (`OrderBook`), src/order.rs:56-118. */
module OrderBooks {
  import opened OrderIndexing
  import opened PriorityQueue

  /** `Order`: the full data of an order, kept in the book's map. The
      string fields are carried along unchanged and never inspected. */
  datatype Order = Order(
    id: i64,
    stickerId: string,
    creatorUserId: string,
    fulfillerUserId: Option<string>,
    isFulfilled: bool,
    price: i64,
    side: Side,
    createdAt: Timestamp)

  /** The queue entry `add_order` builds for an order. */
  function IndexOf(order: Order): (e: OrderIndex)
    ensures e.id == order.id && e.price == order.price
    ensures e.timestamp == order.createdAt && e.side == order.side
  {
    OrderIndex(order.id, order.price, order.createdAt, order.side)
  }

  /** Registry of the books, one per sticker id. */
  class OrderBook {
    var stickerOrderMap: map<string, StickerOrderBook>

    /** `OrderBook::new`: no books yet. */
    constructor ()
      ensures stickerOrderMap == map[]
    {
      stickerOrderMap := map[];
    }
  }

  class StickerOrderBook {
    var orderMap: map<i64, Order>
    var askQueue: seq<OrderIndex>
    var bidQueue: seq<OrderIndex>

    /** What every operation keeps: each queue holds entries of its own
        side, every order is filed under its own id, and every queued id has
        an order in the map. The map may hold orders no longer queued (a
        popped order stays in the map), and after a repeated id the queue
        may hold an entry whose price or side differs from the mapped order. */
    ghost predicate Valid()
      reads this
    {
      && OneSide(bidQueue, Bid)
      && OneSide(askQueue, Ask)
      && (forall id :: id in orderMap ==> orderMap[id].id == id)
      && (forall e :: e in bidQueue ==> e.id in orderMap)
      && (forall e :: e in askQueue ==> e.id in orderMap)
    }

    /** `StickerOrderBook::new`: an empty map and two empty queues. */
    constructor ()
      ensures Valid()
      ensures orderMap == map[] && askQueue == [] && bidQueue == []
    {
      orderMap := map[];
      askQueue := [];
      bidQueue := [];
    }

    /** `add_order`: one entry for the order is pushed onto the queue of its
        side, the other queue is untouched, and the order is filed under its
        id. A repeated id overwrites the mapped order and leaves the earlier
        entry queued beside the new one. */
    method AddOrder(order: Order)
      requires Valid()
      modifies this
      ensures Valid()
      ensures order.side == Bid ==> bidQueue == old(bidQueue) + [IndexOf(order)] && askQueue == old(askQueue)
      ensures order.side == Ask ==> askQueue == old(askQueue) + [IndexOf(order)] && bidQueue == old(bidQueue)
      ensures orderMap == old(orderMap)[order.id := order]
    {
      var newOrderIndex := IndexOf(order);
      match order.side {
        case Bid => bidQueue := bidQueue + [newOrderIndex];
        case Ask => askQueue := askQueue + [newOrderIndex];
      }
      orderMap := orderMap[order.id := order];
    }

    /** `remove_order`: every entry with the id leaves both queues, every
        other entry stays with its multiplicity, and the id leaves the map.
        An id the book does not hold changes nothing. */
    method RemoveOrder(orderId: i64)
      requires Valid()
      modifies this
      ensures Valid()
      ensures bidQueue == WithoutId(old(bidQueue), orderId)
      ensures askQueue == WithoutId(old(askQueue), orderId)
      ensures orderMap == old(orderMap) - {orderId}
      ensures NoEntryWith(bidQueue, orderId) && NoEntryWith(askQueue, orderId) && orderId !in orderMap
      ensures forall e: OrderIndex :: e.id != orderId ==>
                multiset(bidQueue)[e] == multiset(old(bidQueue))[e]
                && multiset(askQueue)[e] == multiset(old(askQueue))[e]
      ensures orderId !in old(orderMap) ==>
                bidQueue == old(bidQueue) && askQueue == old(askQueue) && orderMap == old(orderMap)
    {
      WithoutIdCounts(bidQueue, orderId);
      WithoutIdCounts(askQueue, orderId);
      WithoutIdMembers(bidQueue, orderId);
      WithoutIdMembers(askQueue, orderId);
      if orderId !in orderMap {
        assert NoEntryWith(bidQueue, orderId) && NoEntryWith(askQueue, orderId);
        WithoutAbsentId(bidQueue, orderId);
        WithoutAbsentId(askQueue, orderId);
        RemoveAbsent(orderMap, orderId);
      }
      bidQueue := WithoutId(bidQueue, orderId);
      askQueue := WithoutId(askQueue, orderId);
      orderMap := orderMap - {orderId};
    }

    /** `next_bid_order`: `None` exactly when no bid is queued; otherwise a
        bid entry that no other queued bid outranks leaves the bid queue and
        is returned. The ask queue and the map are untouched. */
    method NextBidOrder() returns (r: Option<OrderIndex>)
      requires Valid()
      modifies this
      ensures Valid()
      ensures (r, bidQueue) == Pop(old(bidQueue), Bid)
      ensures r == None <==> old(bidQueue) == []
      ensures r.Some? ==>
                r.value in old(bidQueue) && IsBest(r.value, old(bidQueue))
                && multiset(bidQueue) == multiset(old(bidQueue)) - multiset{r.value}
      ensures old(bidQueue) != [] ==> Drain(bidQueue, Bid) == Drain(old(bidQueue), Bid)[1..]
      ensures askQueue == old(askQueue) && orderMap == old(orderMap)
    {
      var popped := Pop(bidQueue, Bid);
      r, bidQueue := popped.0, popped.1;
      forall e | e in bidQueue
        ensures e.id in orderMap
      {
        assert e in multiset(bidQueue);
      }
    }

    /** `next_ask_order`: the same as `next_bid_order`, on the ask queue. */
    method NextAskOrder() returns (r: Option<OrderIndex>)
      requires Valid()
      modifies this
      ensures Valid()
      ensures (r, askQueue) == Pop(old(askQueue), Ask)
      ensures r == None <==> old(askQueue) == []
      ensures r.Some? ==>
                r.value in old(askQueue) && IsBest(r.value, old(askQueue))
                && multiset(askQueue) == multiset(old(askQueue)) - multiset{r.value}
      ensures old(askQueue) != [] ==> Drain(askQueue, Ask) == Drain(old(askQueue), Ask)[1..]
      ensures bidQueue == old(bidQueue) && orderMap == old(orderMap)
    {
      var popped := Pop(askQueue, Ask);
      r, askQueue := popped.0, popped.1;
      forall e | e in askQueue
        ensures e.id in orderMap
      {
        assert e in multiset(askQueue);
      }
    }
  }

  /** `add_order` followed by `remove_order` of the same id, on a book that
      does not hold that id, leaves the book as it was. */
  method AddThenRemove(book: StickerOrderBook, order: Order)
    requires book.Valid() && order.id !in book.orderMap
    modifies book
    ensures book.Valid()
    ensures book.bidQueue == old(book.bidQueue) && book.askQueue == old(book.askQueue)
    ensures book.orderMap == old(book.orderMap)
  {
    AddThenRemoveRestores(book.orderMap, book.bidQueue, book.askQueue, order);
    book.AddOrder(order);
    book.RemoveOrder(order.id);
  }

  /** Filing a value under a fresh key and removing that key again gives
      the map back. */
  lemma PutThenRemove<K, V>(m: map<K, V>, k: K, v: V)
    requires k !in m
    ensures m[k := v] - {k} == m
  {
    assert (m[k := v] - {k}).Keys == m.Keys;
  }

  /** Removing a key the map does not hold gives the map back. */
  lemma RemoveAbsent<K, V>(m: map<K, V>, k: K)
    requires k !in m
    ensures m - {k} == m
  {
    assert (m - {k}).Keys == m.Keys;
  }

  /** Adding an order whose id the book does not hold and then removing that
      id leaves the map and both queues as they were. */
  lemma AddThenRemoveRestores(orderMap: map<i64, Order>, bids: seq<OrderIndex>, asks: seq<OrderIndex>, order: Order)
    requires order.id !in orderMap
    requires forall e :: e in bids ==> e.id in orderMap
    requires forall e :: e in asks ==> e.id in orderMap
    ensures WithoutId(bids + [IndexOf(order)], order.id) == bids && WithoutId(asks, order.id) == asks
    ensures WithoutId(asks + [IndexOf(order)], order.id) == asks && WithoutId(bids, order.id) == bids
    ensures orderMap[order.id := order] - {order.id} == orderMap
  {
    assert NoEntryWith(bids, order.id) && NoEntryWith(asks, order.id);
    RetainUndoesPush(bids, IndexOf(order));
    RetainUndoesPush(asks, IndexOf(order));
    WithoutAbsentId(bids, order.id);
    WithoutAbsentId(asks, order.id);
    PutThenRemove(orderMap, order.id, order);
  }

  /** `_create_test_order`: an unfilled order with the given id, price,
      creation time and side. */
  function TestOrder(id: i64, price: i64, createdAt: Timestamp, side: Side): (o: Order)
    ensures o.id == id && o.price == price && o.createdAt == createdAt && o.side == side
    ensures o.fulfillerUserId == None && !o.isFulfilled
  {
    Order(id, "", "", None, false, price, side, createdAt)
  }

  /** A fresh book holding two orders of one side, placed in turn. */
  method NewBookWith(order1: Order, order2: Order) returns (book: StickerOrderBook)
    requires order1.side == order2.side
    ensures fresh(book) && book.Valid()
    ensures order1.side == Ask ==> book.askQueue == [IndexOf(order1), IndexOf(order2)]
    ensures order1.side == Bid ==> book.bidQueue == [IndexOf(order1), IndexOf(order2)]
  {
    book := new StickerOrderBook();
    book.AddOrder(order1);
    book.AddOrder(order2);
  }

  /** Asks at 25 (id 1) and 15 (id 2) pop as id 2, id 1, then nothing,
      whatever the two timestamps. */
  method AddSellOrderPriceScenario(t1: Timestamp, t2: Timestamp) returns (r1: Option<OrderIndex>, r2: Option<OrderIndex>, r3: Option<OrderIndex>)
    ensures r1.Some? && r1.value.id == 2
    ensures r2.Some? && r2.value.id == 1
    ensures r3 == None
  {
    var order1, order2 := TestOrder(1, 25, t1, Ask), TestOrder(2, 15, t2, Ask);
    PopTwo(IndexOf(order2), IndexOf(order1), Ask);
    PopOne(IndexOf(order1), Ask);
    var book := NewBookWith(order1, order2);
    r1 := book.NextAskOrder();
    r2 := book.NextAskOrder();
    r3 := book.NextAskOrder();
  }

  /** Two asks at 15, the second placed ten minutes (600 seconds) after the
      clock was first read, pop earliest first, as long as the first ask's
      clock read falls before that. */
  method AddSellOrderTimeScenario(now: Timestamp, t1: Timestamp) returns (r1: Option<OrderIndex>, r2: Option<OrderIndex>, r3: Option<OrderIndex>)
    requires t1 < now + 600
    ensures r1.Some? && r1.value.id == 1
    ensures r2.Some? && r2.value.id == 2
    ensures r3 == None
  {
    var order1, order2 := TestOrder(1, 15, t1, Ask), TestOrder(2, 15, now + 600, Ask);
    PopTwo(IndexOf(order1), IndexOf(order2), Ask);
    PopOne(IndexOf(order2), Ask);
    var book := NewBookWith(order1, order2);
    r1 := book.NextAskOrder();
    r2 := book.NextAskOrder();
    r3 := book.NextAskOrder();
  }

  /** Bids at 25 (id 1) and 15 (id 2) pop as id 1, id 2, then nothing,
      whatever the two timestamps. */
  method AddBuyOrderPriceScenario(t1: Timestamp, t2: Timestamp) returns (r1: Option<OrderIndex>, r2: Option<OrderIndex>, r3: Option<OrderIndex>)
    ensures r1.Some? && r1.value.id == 1
    ensures r2.Some? && r2.value.id == 2
    ensures r3 == None
  {
    var order1, order2 := TestOrder(1, 25, t1, Bid), TestOrder(2, 15, t2, Bid);
    PopTwo(IndexOf(order1), IndexOf(order2), Bid);
    PopOne(IndexOf(order2), Bid);
    var book := NewBookWith(order1, order2);
    r1 := book.NextBidOrder();
    r2 := book.NextBidOrder();
    r3 := book.NextBidOrder();
  }

  /** Two bids at 15, the second placed ten minutes after the clock was
      first read, pop earliest first, as long as the first bid's clock read
      falls before that. */
  method AddBuyOrderTimeScenario(now: Timestamp, t1: Timestamp) returns (r1: Option<OrderIndex>, r2: Option<OrderIndex>, r3: Option<OrderIndex>)
    requires t1 < now + 600
    ensures r1.Some? && r1.value.id == 1
    ensures r2.Some? && r2.value.id == 2
    ensures r3 == None
  {
    var order1, order2 := TestOrder(1, 15, t1, Bid), TestOrder(2, 15, now + 600, Bid);
    PopTwo(IndexOf(order1), IndexOf(order2), Bid);
    PopOne(IndexOf(order2), Bid);
    var book := NewBookWith(order1, order2);
    r1 := book.NextBidOrder();
    r2 := book.NextBidOrder();
    r3 := book.NextBidOrder();
  }
}
