# NFT marketplace projection — a Dafny model

This project models the event handlers of a subgraph that indexes an NFT
marketplace contract. The contract emits events: a currency is whitelisted, a
market is opened for an NFT collection, an auction or sell order is created, a
bid or a sale happens, a listing ends or is cancelled, an NFT is withdrawn. The
handlers fold these events into a store of entities: markets, users,
currencies, NFTs, auctions, bids, sales, sell orders, and per-currency
statistics buckets for each market and each NFT.

The model keeps the store's shape and treats each handler as a pure function
from the store before an event to the store after it:

- `entities.dfy` (`Entities`): the entity records and the store, a record of
  finite maps keyed by structured ids. `NftId(token, tokenId)` stands for the
  `token-tokenId` string, `ListingId(nft, number)` for `token-tokenId-number`,
  and `EventId(txHash, logIndex)` for `hash-logIndex`.
- `fees.dfy` (`Fees`): `WEI_PER_ETHER`, BigInt division truncating toward
  zero, and the fee formula `price * rate / 10^18`.
- `store.dfy` (`Store`): get-or-create (`getUser`, the lazily created `Nft`
  row, the zero-initialised statistics buckets) and the statistics update that
  both sale handlers end with.
- `handlers.dfy` (`Handlers`): the twelve handlers. Each contract states the
  skip conditions, the rows written and the fields changed. It also says that
  nothing else changes. For AuctionCreated and SellOrderCreated, the market
  counters, the seller's User row and the two statistics buckets are stated in
  the companion lemmas `AuctionCreatedRegisters` and
  `SellOrderCreatedRegisters` instead of the handler's own contract.
- `stream.dfy` (`Stream`): the event type, one `Step` per event, and `Run`,
  which folds a whole stream.
- `invariants.dfy` (`Invariants`): `WellFormed`, a store invariant that holds
  in the empty store and that every handler preserves. It covers four things:
  - listings are numbered 1..counter with no gap;
  - an NFT's listing slot points at its newest listing;
  - every listing has both statistics buckets of its currency;
  - every bid and sale row names an existing listing.
- `numbering.dfy` (`Numbering`): listing numbers are fresh and gap-free, and
  the NFT and market counters follow the creations in a stream.
- `statistics.dfy` (`Statistics`): the buckets are append-only under
  non-negative prices and rates. In a well-formed store a sale always reaches
  both of its buckets.
- `slots.dfy` (`ListingSlot`): event order on one listing, and when the
  listing slot is (and is not) exclusive.

## Event order and the listing slot

The handlers look up an NFT's current auction or sell order by loading the id
held in its slot (`Auction.load(nft.currentAuction)`, src/mapping.ts:177,
src/mapping.ts:252; `SellOrder.load(nft.currentSellOrder)`, src/mapping.ts:377,
src/mapping.ts:393). Ending an auction, or cancelling or selling a sell order,
sets that slot to null (src/mapping.ts:273-287, 372-386, 419-421); an auction
sale leaves the auction slot set. What `load` does with a null id is up to the indexing host and is not
visible in the handlers. The model takes a null slot to find no row, so the
handler returns at its `== null` check. A host that instead rejects a null
argument would abort the handler; the model does not cover that outcome.
Under this choice:

- an AuctionSale that arrives after its AuctionEnd is skipped
  (`ListingSlot.EndThenSaleIsSkipped`), as is an AuctionBid
  (`ListingSlot.EndThenBidIsSkipped`);
- a Sale after a cancellation, or a second Sale of the same order, is skipped
  (`ListingSlot.CancelThenSaleIsSkipped`, `ListingSlot.SaleThenSaleIsSkipped`).

No handler keeps an NFT's auction and sell-order slots exclusive: each
creation sets its own half without looking at the other
(`ListingSlot.BothSlotsCanBeSet`). `ListingSlot.StepSlotExclusive` states
exactly which events keep the slot exclusive.

An auction sale does not clear the auction slot (src/mapping.ts:204-207).
Until its `AuctionEnd`, the same auction can therefore be sold again
(`ListingSlot.AuctionStaysLiveAfterSale`).

## Model

| member | source | states |
|---|---|---|
| Fees.TruncDiv | src/mapping.ts:195-201 | BigInt `div` truncates toward zero: for a non-negative dividend the quotient is the floor, and for a negative one it is the ceiling |
| Fees.TruncDivNegate | src/mapping.ts:195-201 | negating the dividend negates the quotient, unlike Euclidean or floor division |
| Fees.ScaledFee | src/mapping.ts:195-201 | a fee is 0 whenever price × rate is non-negative and below 10^18, and is non-negative for non-negative price and rate |
| Fees.ScaledFeeIsFloor | src/mapping.ts:410-416 | for a non-negative product the fee is the unique q with q·10^18 ≤ price·rate < (q+1)·10^18 |
| Fees.ScaledFeeAtMostPrice | src/mapping.ts:31 | a rate of at most 10^18 (100%) never charges more than the price |
| Fees.Charge | src/mapping.ts:195-201 | the three fees of one sale are non-negative when the price and the rates are |
| Store.GetOrCreate | src/mapping.ts:33-41 | get-or-create adds exactly the requested key, keeps every existing row, and uses the default only for a missing key |
| Store.GetOrCreateIdempotent | src/mapping.ts:137-168 | a second get-or-create of an existing bucket changes nothing, whatever default it offers |
| Store.GetUser | src/mapping.ts:33-41 | `getUser` returns the stored row of a known address with the store unchanged; an unknown address gets a new row for it, and no other table changes |
| Store.GetUserIdempotent | src/mapping.ts:33-41 | registering a user twice equals registering once |
| Store.OpenNft | src/mapping.ts:93-107 | the Nft row is created with empty slot and zero totals only if missing; `market.totalNfts` rises by 1 exactly when it was missing |
| Store.OpenBuckets | src/mapping.ts:137-168 | both buckets exist afterwards; a missing one starts at zero, an existing one is untouched |
| Store.AccumulateSale | src/mapping.ts:212-244 | the sale adds price and fees to the market bucket and then the NFT bucket; `floor` is kept; a missing market bucket leaves the NFT bucket alone |
| Handlers.HandleCurrencyAdded | src/mapping.ts:43-47 | writes the Currency row of the address and nothing else |
| Handlers.HandleMarketCreated | src/mapping.ts:49-65 | the market holds the event's rates, is active and has all totals 0, even if it existed; no other market changes |
| Handlers.HandleMarketFeeChanged | src/mapping.ts:67-75 | only the three rates of an existing market change; unknown token is a no-op |
| Handlers.HandleMarketStateChanged | src/mapping.ts:77-83 | only `active` of an existing market changes; unknown token is a no-op |
| Handlers.HandleAuctionCreated | src/mapping.ts:85-135 | skipped without a market; otherwise exactly one auction row is added, numbered one past the NFT's counter and filled from the event; the NFT row (new if missing) points its slot, currency and price at it and counts it, nothing else in that row changes; only the user, NFT, market, auction and bucket tables change |
| Handlers.PlaceAuction | src/mapping.ts:109-135 | the auction table gains the next-numbered row, the NFT slot points at it, and the NFT and market auction counters rise by exactly 1 with every other field unchanged |
| Handlers.AuctionCreatedRegisters | src/mapping.ts:91-168 | the market counts a new NFT exactly when the NFT had no row and always one more auction; the seller is registered; both buckets exist, a missing one zero-initialised and an existing one untouched |
| Handlers.HandleAuctionSale | src/mapping.ts:172-245 | skipped without NFT, current auction or market; otherwise the sale row with fees at the market's rates, new owner, last sale, sale counters +1, slot kept, buckets updated |
| Handlers.HandleAuctionBid | src/mapping.ts:247-271 | skipped without NFT or current auction; highest bid and bidder overwritten without a rise check, bid row recorded, price mirrored to the NFT |
| Handlers.HandleAuctionEnd | src/mapping.ts:273-287 | skipped without NFT or current auction; the auction is marked ended and the NFT's auction slot, currency and price are cleared, nothing else changes |
| Handlers.HandleSellOrderCreated | src/mapping.ts:289-339 | skipped without a market; otherwise exactly one sell-order row is added, numbered one past the NFT's counter and filled from the event; the NFT row (new if missing) points its slot, currency and price at it and counts it, nothing else in that row changes |
| Handlers.PlaceSellOrder | src/mapping.ts:313-335 | the order table gains the next-numbered row, the NFT slot points at it, and the NFT and market order counters rise by exactly 1 with every other field unchanged |
| Handlers.SellOrderCreatedRegisters | src/mapping.ts:295-369 | the market counts a new NFT exactly when the NFT had no row and always one more order; the seller is registered; both buckets exist, a missing one zero-initialised and an existing one untouched |
| Handlers.HandleSellOrderCanceled | src/mapping.ts:372-386 | skipped without NFT, current order or market; only the sell-order slot, currency and price are cleared |
| Handlers.HandleSale | src/mapping.ts:388-462 | skipped without NFT, current order or market; sale row, slot cleared, owner not changed, sale counters +1, buckets updated |
| Handlers.HandleWithdrawNft | src/mapping.ts:464-470 | only the NFT's owner is cleared; unknown NFT is a no-op |
| Stream.Run | src/mapping.ts:85-470 | a stream only adds rows and never lowers an NFT's auction, sell-order or sale counter |
| Invariants.StepWellFormed | src/mapping.ts:85-470 | every handler, on every event, preserves the store invariant |
| Invariants.RunWellFormed | src/mapping.ts:85-470 | any stream from a well-formed store ends in a well-formed store |
| Invariants.ReachableWellFormed | src/mapping.ts:85-470 | every store reachable from the empty store is well-formed |
| Numbering.ListingNumbers | src/mapping.ts:110-131 | in a well-formed store an NFT's auctions are exactly numbers 1..totalAuctions and its orders exactly 1..totalSellOrders |
| Numbering.CreatedAuctionIsFresh | src/mapping.ts:110-126 | the number handed to a new auction is unused, so the auction table grows by exactly one row |
| Numbering.CreatedSellOrderIsFresh | src/mapping.ts:314-326 | the number handed to a new order is unused, so the order table grows by exactly one row |
| Numbering.StepCounters | src/mapping.ts:314-331 | once the token's market exists, one event raises an NFT's auction (order) counter by 1 exactly when it creates an auction (order) of that NFT |
| Numbering.RunCounters | src/mapping.ts:110-131 | once the token's market exists, along a stream, the NFT counters rise by the number of creations on it |
| Numbering.NumbersAfterStream | src/mapping.ts:110-131 | once the token's market exists, from a well-formed store in which the NFT has no row yet, after N auction and M order creations on a new NFT, its listings are exactly numbers 1..N and 1..M |
| Numbering.StepMarketCounters | src/mapping.ts:134-135 | once the token's market exists, short of a MarketCreated, an event raises a market's auction (order) counter by 1 exactly when it creates that listing there |
| Numbering.RunMarketCounters | src/mapping.ts:334-335 | once the token's market exists, along a stream without MarketCreated for the token, the market counters rise by the creations on it |
| Statistics.AccumulateSaleGrows | src/mapping.ts:429-461 | with non-negative price and fees, the sale update lowers no sum and moves no floor |
| Statistics.StepStatsGrow | src/mapping.ts:212-244 | with non-negative rates and prices, no event lowers a bucket sum or removes a bucket, and the rates stay non-negative |
| Statistics.RunStatsGrow | src/mapping.ts:212-244 | along a stream without negative prices or rates, the statistics are append-only |
| Statistics.AuctionSaleAddsToBuckets | src/mapping.ts:212-244 | in a well-formed store both buckets of the auction's currency exist, and the sale adds price and fees at the market's rates to both |
| Statistics.SaleAddsToBuckets | src/mapping.ts:429-461 | the same for a sell-order sale |
| Statistics.FloorIsZero | src/mapping.ts:146 | every market bucket's floor is 0 in a well-formed store |
| ListingSlot.EndThenSaleIsSkipped | src/mapping.ts:273-287 | an AuctionSale after the AuctionEnd of the NFT's auction leaves the store unchanged, given that loading a null auction id finds no row |
| ListingSlot.EndThenBidIsSkipped | src/mapping.ts:247-253 | an AuctionBid after the AuctionEnd leaves the store unchanged, given that loading a null auction id finds no row |
| ListingSlot.EndIsIdempotent | src/mapping.ts:276-286 | ending twice equals ending once |
| ListingSlot.CancelThenSaleIsSkipped | src/mapping.ts:372-396 | a Sale after the cancellation of the NFT's order leaves the store unchanged, given that loading a null order id finds no row |
| ListingSlot.SaleThenSaleIsSkipped | src/mapping.ts:419-424 | a sell order is sold at most once: a second Sale of the NFT is a no-op, given that loading a null order id finds no row |
| ListingSlot.AuctionStaysLiveAfterSale | src/mapping.ts:204-207 | an auction sale keeps the auction current, so further sales and bids still apply |
| ListingSlot.StepSlotExclusive | src/mapping.ts:128-132 | from an exclusive store, an event keeps the slot exclusive if and only if it does not open a listing over a live one of the other kind |
| ListingSlot.RunSlotExclusive | src/mapping.ts:328-332 | a stream that only opens listings on empty slots keeps the slot exclusive |
| ListingSlot.ReachableSlotExclusive | src/mapping.ts:328-332 | every store reached from the empty store by a stream that only opens listings on empty slots is exclusive |
| ListingSlot.BothSlotsCanBeSet | src/mapping.ts:289-335 | from any store, MarketCreated, AuctionCreated and SellOrderCreated on one NFT leave both slot halves set |

## Left out

- The graph-node store, generated entity classes and `load`/`save`: the store is a value, and a handler returns the new value.
- String ids (`toHex`, `toString` and `-` joining): ids are tuples. The joined strings are taken to be injective, so two distinct tuples never share a row.
- Descriptive copies that no handler reads: `name`, `token`, `tokenId` on Market, Nft, Auction and SellOrder.
- `toI32` truncation of block timestamps and `endsAt`: they are plain integers.
- The 32-bit `Int` schema type of the market and NFT totals: they are unbounded naturals, and the i32 wrap-around after 2^31 increments is not modelled.
- Chain reorganisations and crash recovery: the indexer performs them around the handlers, outside `src/mapping.ts`.
- The `Withdraw` event: it is imported but has no handler.
- A null `currentAuction` or `currentSellOrder` passed to `load`: modelled as a missing row, so the handler skips. A host that rejects the null id would abort the handler instead; that outcome is not modelled.
- Statistics.RunStatsGrow: states that the sums never decrease, not that `volume` equals the sum of all recorded sale prices. The code does not keep that equality itself: a repeated event id (txHash, logIndex) overwrites its sale row while the volume is added again, so the equality needs exactly-once delivery, which the store does not enforce.
- Numbering.RunMarketCounters: holds only for streams without a MarketCreated of the same token, because that event resets the market's totals to 0.
