/** The sort key that the order book's priority queues hold, and the
    price-time priority comparison on it (src/order.rs:6-54).

    The queues are max-heaps, so an entry that compares `Greater` is the
    one handed out first. */
module OrderIndexing {

  /** Rust's `i64`, the type of order ids and prices. */
  newtype i64 = x: int | -0x8000_0000_0000_0000 <= x < 0x8000_0000_0000_0000

  datatype Option<T> = None | Some(value: T)

  datatype Side = Bid | Ask

  /** Rust's `std::cmp::Ordering`. */
  datatype Ordering = Less | Equal | Greater

  /** A timestamp (`SystemTime`) is an integer count of clock ticks. */
  type Timestamp = int

  datatype OrderIndex = OrderIndex(id: i64, price: i64, timestamp: Timestamp, side: Side)

  /** `Ord for Timestamp`: the natural order of the clock. */
  function CompareTimes(x: Timestamp, y: Timestamp): Ordering {
    if x < y then Less else if x > y then Greater else Equal
  }

  /** `OrderIndex::cmp`. Only the receiver's side is consulted; at equal
      prices the operands of the timestamp comparison are swapped, so the
      earlier entry is the greater one. */
  function Cmp(a: OrderIndex, b: OrderIndex): (r: Ordering)
    ensures a.side == b.side ==> r == CompareKeys(PriorityKey(a), PriorityKey(b))
    ensures r == Equal <==> a.price == b.price && a.timestamp == b.timestamp
  {
    if a.price < b.price then
      match a.side
      case Bid => Less
      case Ask => Greater
    else if a.price > b.price then
      match a.side
      case Bid => Greater
      case Ask => Less
    else
      CompareTimes(b.timestamp, a.timestamp)
  }

  /** `OrderIndex::partial_cmp`: always defined, the comparison is total. */
  function PartialCmp(a: OrderIndex, b: OrderIndex): (r: Option<Ordering>)
    ensures r.Some?
  {
    Some(Cmp(a, b))
  }

  /** `OrderIndex::eq`. */
  function Eq(a: OrderIndex, b: OrderIndex): (r: bool)
    ensures r <==> Cmp(a, b) == Equal
  {
    if a.price > b.price || a.price < b.price then false else a.timestamp == b.timestamp
  }

  function Reverse(o: Ordering): Ordering {
    match o
    case Less => Greater
    case Equal => Equal
    case Greater => Less
  }

  /** `a` is popped no later than `b`. */
  predicate AtLeast(a: OrderIndex, b: OrderIndex) {
    Cmp(a, b) != Less
  }

  /** Key-based reference definition of price-time priority: a bid's key
      is its price, an ask's key is its negated price, and within a price
      the earlier timestamp has the larger key. */
  function PriorityKey(e: OrderIndex): (int, int) {
    ((if e.side == Bid then e.price as int else -(e.price as int)), -e.timestamp)
  }

  /** Lexicographic comparison of two keys. */
  function CompareKeys(k: (int, int), l: (int, int)): Ordering {
    if k.0 < l.0 then Less
    else if k.0 > l.0 then Greater
    else CompareTimes(k.1, l.1)
  }

  // ---------------------------------------------------------------------
  // Price-time priority (src/order.rs:20-36)
  // ---------------------------------------------------------------------

  /** Among bids, the higher price is greater, so it pops first. */
  lemma BidHigherPriceFirst(a: OrderIndex, b: OrderIndex)
    requires a.side == Bid && b.side == Bid && a.price > b.price
    ensures Cmp(a, b) == Greater && Cmp(b, a) == Less
  {
  }

  /** Among asks, the lower price is greater, so asks pop cheapest first. */
  lemma AskLowerPriceFirst(a: OrderIndex, b: OrderIndex)
    requires a.side == Ask && b.side == Ask && a.price < b.price
    ensures Cmp(a, b) == Greater && Cmp(b, a) == Less
  {
  }

  /** At equal prices the earlier timestamp is greater, whatever the sides. */
  lemma EarlierTimestampFirst(a: OrderIndex, b: OrderIndex)
    requires a.price == b.price && a.timestamp < b.timestamp
    ensures Cmp(a, b) == Greater && Cmp(b, a) == Less
  {
  }

  /** For entries of one side, `cmp` is the lexicographic order on the
      priority keys: the single comparator with a side-dependent branch is
      the same as one key extraction per side feeding one comparison. */
  lemma CmpIsKeyOrder(a: OrderIndex, b: OrderIndex)
    requires a.side == b.side
    ensures Cmp(a, b) == CompareKeys(PriorityKey(a), PriorityKey(b))
  {
  }

  /** `cmp` answers `Equal` exactly when price and timestamp agree; ids and
      sides play no part. */
  lemma CmpEqualIff(a: OrderIndex, b: OrderIndex)
    ensures Cmp(a, b) == Equal <==> a.price == b.price && a.timestamp == b.timestamp
  {
  }

  /** For entries of one side, swapping the operands reverses the answer. */
  lemma CmpAntisymmetric(a: OrderIndex, b: OrderIndex)
    requires a.side == b.side
    ensures Cmp(b, a) == Reverse(Cmp(a, b))
  {
  }

  /** For entries of one side, each of the three answers is transitive. */
  lemma CmpTransitive(a: OrderIndex, b: OrderIndex, c: OrderIndex, o: Ordering)
    requires a.side == b.side == c.side
    requires Cmp(a, b) == o && Cmp(b, c) == o
    ensures Cmp(a, c) == o
  {
  }

  /** Popped-no-later is a total preorder on the entries of one side. */
  lemma AtLeastTotalPreorder(a: OrderIndex, b: OrderIndex, c: OrderIndex)
    requires a.side == b.side == c.side
    ensures AtLeast(a, a)
    ensures AtLeast(a, b) || AtLeast(b, a)
    ensures AtLeast(a, b) && AtLeast(b, c) ==> AtLeast(a, c)
  {
  }

  /** The comparison is only antisymmetric within one side: an ask below a
      bid's price and that bid each compare `Greater` than the other. The
      book never compares across sides, since each queue holds one side. */
  lemma CrossSideNotAntisymmetric()
    ensures exists a: OrderIndex, b: OrderIndex ::
              a.side != b.side && Cmp(a, b) == Greater && Cmp(b, a) == Greater
  {
    var a := OrderIndex(1, 10, 0, Ask);
    var b := OrderIndex(2, 20, 0, Bid);
    assert Cmp(a, b) == Greater && Cmp(b, a) == Greater;
  }

  // ---------------------------------------------------------------------
  // Equality (src/order.rs:38-54)
  // ---------------------------------------------------------------------

  /** `eq` looks at price and timestamp only: entries with different ids or
      sides are equal when those two agree. */
  lemma EqIgnoresIdAndSide(a: OrderIndex, b: OrderIndex)
    ensures Eq(a, b) <==> a.price == b.price && a.timestamp == b.timestamp
  {
  }

  /** `eq` is an equivalence relation, as `impl Eq` asserts. */
  lemma EqIsEquivalence(a: OrderIndex, b: OrderIndex, c: OrderIndex)
    ensures Eq(a, a)
    ensures Eq(a, b) ==> Eq(b, a)
    ensures Eq(a, b) && Eq(b, c) ==> Eq(a, c)
  {
  }

  /** `eq`, `cmp` and `partial_cmp` agree: equal exactly when compared
      `Equal`, for any two entries. */
  lemma EqAgreesWithCmp(a: OrderIndex, b: OrderIndex)
    ensures Eq(a, b) <==> Cmp(a, b) == Equal
    ensures Eq(a, b) <==> PartialCmp(a, b) == Some(Equal)
  {
  }
}
