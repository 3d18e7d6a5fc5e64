# Sticker order book — a Dafny model

This project models the order book of the sticker market (`src/order.rs`).
Each sticker has a book (`StickerOrderBook`) that keeps its resting orders in
a map from order id to `Order`, plus two max-heaps of `OrderIndex` sort
keys: one for bids and one for asks. The order in which a heap hands out
entries is price-time priority, given by the `Ord` implementation on
`OrderIndex`:

- among bids, the higher price is greater;
- among asks, the lower price is greater;
- at equal prices, the earlier timestamp is greater.

The heap is a max-heap, so "greater" means "popped first".

Files:

- `order_index.dfy` (module `OrderIndexing`) covers `OrderSide`,
  `OrderIndex`, `cmp`, `partial_cmp` and `eq` as pure functions. Lemmas
  prove the price and time rules, that the comparison is a total order
  within one side, that `eq` agrees with `cmp`, and that `eq` ignores id and
  side. A second, key-based definition of the same order (one key per side,
  compared lexicographically) is proved equal to `cmp`.
- `priority_queue.dfy` (module `PriorityQueue`) models the heap operations
  the book uses. `push` appends. `pop` removes an entry that no other entry
  outranks. `retain(|index| index.id != id)` drops the entries with that id.
  `Drain` is the sequence of entries that repeated pops hand out. It is
  proved to be a permutation of the queue and sorted by priority: cheapest
  ask first, dearest bid first, and earliest first within a price.
- `order_book.dfy` (module `OrderBooks`) holds `Order`, the `OrderBook`
  registry and `StickerOrderBook`. The book is a class whose fields are the
  map and the two queues. Its methods state the new state and what stays
  unchanged, and they keep an invariant: each queue holds only its own side,
  each order is filed under its own id, and every queued id is in the map.
  Four client methods replay the unit tests at the end of `src/order.rs` and
  prove the pop orders those tests assert.

Behaviour as the code has it:

- `add_order` with an id that is already present overwrites the map entry
  and queues a second entry. The older entry stays queued.
- `remove_order` of an absent id changes nothing.
- A popped order stays in the map.
- Neither operation reports an error.

## Model

| member | source | states |
|---|---|---|
| `OrderIndexing.Cmp` | src/order.rs:21-35 | `cmp`: within one side it equals the lexicographic order on the priority keys, and it is `Equal` exactly when price and timestamp agree. Its other properties are carried by `CmpIsKeyOrder`, `CmpAntisymmetric` and `CmpTransitive` |
| `OrderIndexing.Eq` | src/order.rs:45-51 | `eq` holds exactly when `cmp` answers `Equal`; see also `EqAgreesWithCmp` and `EqIsEquivalence` |
| `OrderIndexing.PartialCmp` | src/order.rs:38-42 | `partial_cmp` is always `Some`: the order is total |
| `OrderIndexing.BidHigherPriceFirst` | src/order.rs:20-31 | between two bids, the one with the higher price compares `Greater`, and the other compares `Less` |
| `OrderIndexing.AskLowerPriceFirst` | src/order.rs:20-31 | between two asks, the one with the lower price compares `Greater`, and the other compares `Less` |
| `OrderIndexing.EarlierTimestampFirst` | src/order.rs:32-34 | at equal prices, the earlier timestamp compares `Greater`, whatever the sides |
| `OrderIndexing.CmpIsKeyOrder` | src/order.rs:20-36 | within one side, `cmp` equals the lexicographic order on (price for bids or negated price for asks, negated timestamp) |
| `OrderIndexing.CmpEqualIff` | src/order.rs:20-36 | `cmp` is `Equal` exactly when price and timestamp agree, whatever the ids and sides |
| `OrderIndexing.CmpAntisymmetric` | src/order.rs:20-36 | within one side, `cmp(b, a)` is the reverse of `cmp(a, b)` |
| `OrderIndexing.CmpTransitive` | src/order.rs:20-36 | within one side, each of `Less`, `Equal` and `Greater` is transitive |
| `OrderIndexing.AtLeastTotalPreorder` | src/order.rs:20-36 | within one side, "compares not `Less`" is reflexive, total and transitive |
| `OrderIndexing.CrossSideNotAntisymmetric` | src/order.rs:21-35 | across sides `cmp` is not antisymmetric: an ask priced below a bid and that bid each compare `Greater` than the other |
| `OrderIndexing.EqIgnoresIdAndSide` | src/order.rs:44-52 | `eq` holds exactly when price and timestamp agree; ids and sides are ignored |
| `OrderIndexing.EqIsEquivalence` | src/order.rs:44-54 | `eq` is reflexive, symmetric and transitive, as `impl Eq` requires |
| `OrderIndexing.EqAgreesWithCmp` | src/order.rs:20-52 | `eq` holds exactly when `cmp` is `Equal`, and exactly when `partial_cmp` is `Some(Equal)` |
| `PriorityQueue.BestIndex` | src/order.rs:113-118 | the position that `pop` takes is in range, and no queued entry outranks the entry there |
| `PriorityQueue.Pop` | src/order.rs:113-118 | `pop` gives `None` exactly on an empty queue. Otherwise it gives a queued entry that no other entry outranks, and the remaining queue is the old multiset minus that entry, still of one side |
| `PriorityQueue.PopOne` | src/order.rs:113-118 | a queue with one entry pops that entry and is left empty |
| `PriorityQueue.PopTwo` | src/order.rs:113-118 | of two entries, the one that ranks strictly higher pops first, whichever position it holds |
| `PriorityQueue.WithoutId` | src/order.rs:108-109 | `retain(|index| index.id != id)`. It has no contract of its own; what it keeps is stated by `WithoutIdCounts` and `WithoutIdMembers` |
| `PriorityQueue.WithoutIdCounts` | src/order.rs:108-109 | `retain` keeps zero copies of entries with the id, and every other entry with its old multiplicity |
| `PriorityQueue.WithoutIdMembers` | src/order.rs:108-109 | after `retain`, no entry has the id, and an entry is queued exactly when it was queued before and has another id |
| `PriorityQueue.WithoutAbsentId` | src/order.rs:107-111 | `retain` on an id that no entry carries leaves the queue unchanged |
| `PriorityQueue.WithoutIdAppend` | src/order.rs:108-109 | `retain` distributes over concatenation of queues |
| `PriorityQueue.RetainUndoesPush` | src/order.rs:101-109 | pushing an entry with a new id and then retaining the entries without that id gives back the old queue |
| `PriorityQueue.DrainIsPermutation` | src/order.rs:113-118 | repeated pops hand out each queued entry exactly once |
| `PriorityQueue.DrainIsSorted` | src/order.rs:113-118 | repeated pops hand out entries in non-increasing priority: no entry comes before one that outranks it |
| `PriorityQueue.AskDrainOrder` | src/order.rs:116-117 | repeated ask pops give non-decreasing prices, and at equal prices non-decreasing timestamps |
| `PriorityQueue.BidDrainOrder` | src/order.rs:113-114 | repeated bid pops give non-increasing prices, and at equal prices non-decreasing timestamps |
| `OrderBooks.IndexOf` | src/order.rs:94-99 | the queue entry built for an order carries the order's id, price, creation time and side |
| `OrderBooks.TestOrder` | src/order.rs:128-144 | the test helper builds an unfilled order, with no fulfiller, carrying the given id, price, creation time and side |
| `OrderBooks.NewBookWith` | src/order.rs:152-154 | a new book after two `add_order` calls of one side holds a valid state whose queue for that side holds the two orders' entries in placement order |
| `OrderBooks.OrderBook.constructor` | src/order.rs:71-76 | `OrderBook::new` starts with no sticker books |
| `OrderBooks.StickerOrderBook.constructor` | src/order.rs:85-91 | `StickerOrderBook::new` starts with an empty map and two empty queues, and the book invariant holds |
| `OrderBooks.StickerOrderBook.AddOrder` | src/order.rs:93-105 | exactly one entry with the order's id, price, timestamp and side is pushed onto the queue of the order's side. The other queue is unchanged. The map files the order under its id, overwriting any earlier order. The invariant is kept |
| `OrderBooks.StickerOrderBook.RemoveOrder` | src/order.rs:107-111 | no entry with the id is left in either queue, and every other entry keeps its multiplicity. The id leaves the map. An absent id changes nothing. The invariant is kept |
| `OrderBooks.StickerOrderBook.NextBidOrder` | src/order.rs:113-115 | the bid queue and the result are `pop` of the old bid queue: `None` exactly when it was empty, otherwise a maximal bid that leaves the queue. The drain of the new queue is the old drain minus its head. The ask queue and the map are unchanged |
| `OrderBooks.StickerOrderBook.NextAskOrder` | src/order.rs:116-118 | the same as `NextBidOrder`, on the ask queue. The bid queue and the map are unchanged |
| `OrderBooks.AddThenRemoveRestores` | src/order.rs:93-111 | on the book's fields: pushing an order whose id is absent and then retaining without that id gives back both queues, and putting then removing the id gives back the map |
| `OrderBooks.AddThenRemove` | src/order.rs:93-111 | on the book itself: `add_order` then `remove_order` of the same id, where the book did not hold that id, leaves both queues and the map as they were and keeps the invariant |
| `OrderBooks.AddSellOrderPriceScenario` | src/order.rs:145-171 | asks at 25 (id 1) and 15 (id 2) pop as id 2, then id 1, then `None`, for any timestamps |
| `OrderBooks.AddSellOrderTimeScenario` | src/order.rs:172-201 | two asks at 15, the second placed 600 seconds after the first clock read, pop as id 1, then id 2, then `None`, whenever the first ask's clock read is earlier than that |
| `OrderBooks.AddBuyOrderPriceScenario` | src/order.rs:202-229 | bids at 25 (id 1) and 15 (id 2) pop as id 1, then id 2, then `None`, for any timestamps |
| `OrderBooks.AddBuyOrderTimeScenario` | src/order.rs:230-258 | two bids at 15, the second placed 600 seconds after the first clock read, pop as id 1, then id 2, then `None`, whenever the first bid's clock read is earlier than that |

## Left out

- `match_order` (src/order.rs:119-122): its body is empty apart from two comments, so there is no crossing, trade or execution-price rule to model.
- The sticker registry `OrderBook` only has `new`. No routing to sticker books exists in the code, so none is modelled.
- `BinaryHeap` internals (sift-up, sift-down, storage layout) are library code. A queue is a sequence whose arrangement carries no meaning: `push` appends, and `pop` takes the first of the entries that no other entry outranks.
- PriorityQueue.Pop: when several entries tie (same price and same timestamp), the library may return any of them. The model always returns the first such entry in the sequence. The contract of `Pop` promises only what both share: the entry is maximal, and it leaves the queue. `NextBidOrder` and `NextAskOrder` go further: their `(r, queue) == Pop(...)` and `Drain` clauses commit to the model's choice of the first tied entry and to the exact sequence that remains, which the library does not promise.
- `SystemTime` and `Duration` are integers counting clock ticks; the test scenarios count seconds. The clock reads in the time tests are parameters. The only constraint is that the first order's read comes before the second order's time, which is ten minutes after the first read; the clock need not be monotonic.
- `id` and `price` are `i64`, modelled as a bounded newtype. The code only compares them, so no overflow can arise.
- The string fields `sticker_id`, `creator_user_id` and `fulfiller_user_id`, and the `is_fulfilled` flag, are carried in `Order` but never inspected. The random strings that the test helper `_create_test_order` generates are replaced by empty strings.
- Comparisons between a bid and an ask: `cmp` looks only at the receiver's side. Such comparisons are not antisymmetric (`CrossSideNotAntisymmetric`), so the ordering lemmas require one side. The book never makes such a comparison, because each queue holds one side (the class invariant).
