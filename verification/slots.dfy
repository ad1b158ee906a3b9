/** The NFT's "current listing" slot and the order of events on one listing.

    The slot is three nullable fields (currentAuction or currentSellOrder, with
    currentCurrency and currentPrice) that a listing's creation sets and its end,
    cancellation or sale clears. The handlers do not enforce that an NFT has at most
    one live listing: creating an auction while a sell order is live leaves both
    set. Exclusivity holds exactly for streams that never open a listing over a
    live one of the other kind.

    Closing a listing also closes the door on later events for it: once an auction
    has ended, a sale or bid on it is skipped; once a sell order is sold or
    cancelled, a sale on it is skipped.
 */
module ListingSlot {
  import opened Entities
  import opened Store
  import opened Handlers
  import opened Stream

  // ---------------------------------------------------------------------------
  // Event order on one listing

  /** An AuctionSale after the AuctionEnd of the same NFT's auction is skipped. */
  lemma EndThenSaleIsSkipped(s: State, t: Address, i: nat, m: Meta, bidder: Address, amount: int)
    ensures var ended := HandleAuctionEnd(s, t, i);
            HandleAuctionSale(ended, m, t, i, bidder, amount) == ended
  {
  }

  /** An AuctionBid after the AuctionEnd of the same NFT's auction is skipped. */
  lemma EndThenBidIsSkipped(s: State, t: Address, i: nat, m: Meta, bidder: Address, amount: int)
    ensures var ended := HandleAuctionEnd(s, t, i);
            HandleAuctionBid(ended, m, t, i, bidder, amount) == ended
  {
  }

  /** Ending twice is ending once. */
  lemma EndIsIdempotent(s: State, t: Address, i: nat)
    ensures HandleAuctionEnd(HandleAuctionEnd(s, t, i), t, i) == HandleAuctionEnd(s, t, i)
  {
  }

  /** A Sale after a cancellation of the NFT's sell order is skipped. */
  lemma CancelThenSaleIsSkipped(s: State, t: Address, i: nat, m: Meta, buyer: Address, price: int)
    ensures var canceled := HandleSellOrderCanceled(s, t, i);
            HandleSale(canceled, m, t, i, buyer, price) == canceled
  {
  }

  /** A sell order is sold at most once: a second Sale of the NFT is skipped until a new
      order is created. */
  lemma SaleThenSaleIsSkipped(s: State, m: Meta, t: Address, i: nat, buyer: Address, price: int,
                              m': Meta, buyer': Address, price': int)
    ensures var sold := HandleSale(s, m, t, i, buyer, price);
            HandleSale(sold, m', t, i, buyer', price') == sold
  {
    var id := NftId(t, i);
    var sold := HandleSale(s, m, t, i, buyer, price);
    if SellOrderSaleApplies(s, id) {
      assert sold.nfts[id].(currentSellOrder := None, currentCurrency := None, currentPrice := None,
                            lastSale := None, totalSales := 0).currentSellOrder == sold.nfts[id].currentSellOrder;
    }
  }

  /** An auction sale does not close the auction: the same auction still accepts sales and bids
      afterwards, until its AuctionEnd. */
  lemma AuctionStaysLiveAfterSale(s: State, m: Meta, t: Address, i: nat, bidder: Address, amount: int)
    requires AuctionSaleApplies(s, NftId(t, i))
    ensures var r := HandleAuctionSale(s, m, t, i, bidder, amount);
            && AuctionSaleApplies(r, NftId(t, i))
            && r.nfts[NftId(t, i)].currentAuction == s.nfts[NftId(t, i)].currentAuction
  {
    var id := NftId(t, i);
    var r := HandleAuctionSale(s, m, t, i, bidder, amount);
    var x := r.nfts[id].(currentOwner := None, lastSale := None, totalSales := 0);
    assert x.currentAuction == r.nfts[id].currentAuction && x.market == r.nfts[id].market;
  }

  // ---------------------------------------------------------------------------
  // Exclusivity of the slot

  /** No NFT has a live auction and a live sell order at once. */
  ghost predicate SlotExclusive(s: State)
  {
    forall n :: n in s.nfts ==> !(s.nfts[n].currentAuction.Some? && s.nfts[n].currentSellOrder.Some?)
  }

  /** The event does not open a listing on an NFT whose slot holds the other kind. A creation
      the handler skips (no market) opens nothing. */
  ghost predicate OpensOnEmptySlot(s: State, e: Event)
  {
    match e
    case AuctionCreated(_, t, i, _, _, _, _) =>
      t in s.markets && NftId(t, i) in s.nfts ==> s.nfts[NftId(t, i)].currentSellOrder.None?
    case SellOrderCreated(_, t, i, _, _, _) =>
      t in s.markets && NftId(t, i) in s.nfts ==> s.nfts[NftId(t, i)].currentAuction.None?
    case _ => true
  }

  /** From an exclusive store, one event keeps the slot exclusive exactly when it does not
      open a listing over a live one of the other kind. */
  lemma StepSlotExclusive(s: State, e: Event)
    requires SlotExclusive(s)
    ensures SlotExclusive(Step(s, e)) <==> OpensOnEmptySlot(s, e)
  {
    if e.AuctionCreated? || e.AuctionSaleEvent? || e.AuctionBidEvent? || e.AuctionEnd? {
      AuctionEventSlot(s, e);
    } else if e.SellOrderCreated? || e.SellOrderCanceled? || e.SaleEvent? || e.WithdrawNft? {
      SellOrderEventSlot(s, e);
    } else {
      MarketEventSlot(s, e);
    }
  }

  /** `StepSlotExclusive` for the currency and market events. */
  lemma MarketEventSlot(s: State, e: Event)
    requires SlotExclusive(s)
    requires e.CurrencyAdded? || e.MarketCreated? || e.MarketFeeChanged? || e.MarketStateChanged?
    ensures SlotExclusive(Step(s, e)) <==> OpensOnEmptySlot(s, e)
  {
  }

  /** `StepSlotExclusive` for the auction events. */
  lemma AuctionEventSlot(s: State, e: Event)
    requires SlotExclusive(s)
    requires e.AuctionCreated? || e.AuctionSaleEvent? || e.AuctionBidEvent? || e.AuctionEnd?
    ensures SlotExclusive(Step(s, e)) <==> OpensOnEmptySlot(s, e)
  {
    if e.AuctionCreated? {
      AuctionCreatedSlot(s, e.meta, e.token, e.tokenId, e.seller, e.currency, e.endsAt, e.initialBid);
    } else if e.AuctionSaleEvent? {
      AuctionSaleSlot(s, e.meta, e.token, e.tokenId, e.bidder, e.amount);
    }
  }

  /** `StepSlotExclusive` for the sell-order events. */
  lemma SellOrderEventSlot(s: State, e: Event)
    requires SlotExclusive(s)
    requires e.SellOrderCreated? || e.SellOrderCanceled? || e.SaleEvent? || e.WithdrawNft?
    ensures SlotExclusive(Step(s, e)) <==> OpensOnEmptySlot(s, e)
  {
    if e.SellOrderCreated? {
      SellOrderCreatedSlot(s, e.meta, e.token, e.tokenId, e.seller, e.currency, e.price);
    } else if e.SaleEvent? {
      SaleSlot(s, e.meta, e.token, e.tokenId, e.buyer, e.price);
    }
  }

  lemma AuctionCreatedSlot(s: State, m: Meta, t: Address, i: nat, seller: Address, c: Address, endsAt: int, bid: int)
    requires SlotExclusive(s)
    ensures SlotExclusive(HandleAuctionCreated(s, m, t, i, seller, c, endsAt, bid))
            <==> OpensOnEmptySlot(s, AuctionCreated(m, t, i, seller, c, endsAt, bid))
  {
    var id := NftId(t, i);
    var r := HandleAuctionCreated(s, m, t, i, seller, c, endsAt, bid);
    if t in s.markets {
      var x := r.nfts[id].(currentAuction := None, currentCurrency := None, currentPrice := None, totalAuctions := 0);
      assert x.currentSellOrder == r.nfts[id].currentSellOrder;
      assert r.nfts[id].currentAuction.Some?;
    }
  }

  lemma SellOrderCreatedSlot(s: State, m: Meta, t: Address, i: nat, seller: Address, c: Address, price: int)
    requires SlotExclusive(s)
    ensures SlotExclusive(HandleSellOrderCreated(s, m, t, i, seller, c, price))
            <==> OpensOnEmptySlot(s, SellOrderCreated(m, t, i, seller, c, price))
  {
    var id := NftId(t, i);
    var r := HandleSellOrderCreated(s, m, t, i, seller, c, price);
    if t in s.markets {
      var x := r.nfts[id].(currentSellOrder := None, currentCurrency := None, currentPrice := None, totalSellOrders := 0);
      assert x.currentAuction == r.nfts[id].currentAuction;
      assert r.nfts[id].currentSellOrder.Some?;
    }
  }

  lemma AuctionSaleSlot(s: State, m: Meta, t: Address, i: nat, bidder: Address, amount: int)
    requires SlotExclusive(s)
    ensures SlotExclusive(HandleAuctionSale(s, m, t, i, bidder, amount))
  {
    var id := NftId(t, i);
    var r := HandleAuctionSale(s, m, t, i, bidder, amount);
    if AuctionSaleApplies(s, id) {
      var x := r.nfts[id].(currentOwner := None, lastSale := None, totalSales := 0);
      assert x.currentAuction == r.nfts[id].currentAuction && x.currentSellOrder == r.nfts[id].currentSellOrder;
    }
  }

  lemma SaleSlot(s: State, m: Meta, t: Address, i: nat, buyer: Address, price: int)
    requires SlotExclusive(s)
    ensures SlotExclusive(HandleSale(s, m, t, i, buyer, price))
  {
    var id := NftId(t, i);
    var r := HandleSale(s, m, t, i, buyer, price);
    if SellOrderSaleApplies(s, id) {
      var x := r.nfts[id].(currentSellOrder := None, currentCurrency := None, currentPrice := None,
                           lastSale := None, totalSales := 0);
      assert x.currentAuction == r.nfts[id].currentAuction && x.currentSellOrder == r.nfts[id].currentSellOrder;
    }
  }

  /** Every event of the stream, in the store it meets, opens listings only on empty slots. */
  ghost predicate OrderedStream(s: State, evs: seq<Event>)
    decreases |evs|
  {
    |evs| == 0 || (OpensOnEmptySlot(s, evs[0]) && OrderedStream(Step(s, evs[0]), evs[1..]))
  }

  /** From an exclusive store, an ordered stream ends in an exclusive store. */
  lemma {:induction false} RunSlotExclusive(s: State, evs: seq<Event>)
    requires SlotExclusive(s)
    requires OrderedStream(s, evs)
    ensures SlotExclusive(Run(s, evs))
    decreases |evs|
  {
    if |evs| > 0 {
      StepSlotExclusive(s, evs[0]);
      RunSlotExclusive(Step(s, evs[0]), evs[1..]);
    }
  }

  /** The empty store is exclusive. */
  lemma EmptySlotExclusive()
    ensures SlotExclusive(Empty())
  {
  }

  /** Every store an ordered stream reaches from the empty store is exclusive. */
  lemma ReachableSlotExclusive(evs: seq<Event>)
    requires OrderedStream(Empty(), evs)
    ensures SlotExclusive(Run(Empty(), evs))
  {
    EmptySlotExclusive();
    RunSlotExclusive(Empty(), evs);
  }

  /** The handlers alone do not keep the slot exclusive: from any store, a MarketCreated
      followed by an auction and a sell order on the same NFT leaves both halves of the slot set. */
  lemma BothSlotsCanBeSet(s: State, m: Meta, t: Address, i: nat, seller: Address, c: Address, endsAt: int, bid: int,
                          price: int)
    ensures var s1 := HandleMarketCreated(s, t, 0, 0, 0);
            var s2 := HandleAuctionCreated(s1, m, t, i, seller, c, endsAt, bid);
            var s3 := HandleSellOrderCreated(s2, m, t, i, seller, c, price);
            && NftId(t, i) in s3.nfts
            && s3.nfts[NftId(t, i)].currentAuction.Some?
            && s3.nfts[NftId(t, i)].currentSellOrder.Some?
            && !SlotExclusive(s3)
  {
    var id := NftId(t, i);
    var s1 := HandleMarketCreated(s, t, 0, 0, 0);
    var s2 := HandleAuctionCreated(s1, m, t, i, seller, c, endsAt, bid);
    var s3 := HandleSellOrderCreated(s2, m, t, i, seller, c, price);
    assert s2.nfts[id].currentAuction.Some?;
    var x := s3.nfts[id].(currentSellOrder := None, currentCurrency := None, currentPrice := None, totalSellOrders := 0);
    assert x.currentAuction == s3.nfts[id].currentAuction;
  }
}
