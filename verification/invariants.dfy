/** What every store reachable from the empty store satisfies, and what follows from it.

    `WellFormed` ties the tables together: an NFT's listings are numbered
    1..totalAuctions and 1..totalSellOrders with no gap, its listing slot points at
    its newest listing, every listing has both statistics buckets of its currency,
    and every bid and sale row names a listing that exists.
 */
module Invariants {
  import opened Entities
  import opened Fees
  import opened Store
  import opened Handlers
  import opened Stream

  ghost predicate NftWellFormed(s: State, n: NftId)
    requires n in s.nfts
  {
    var nft := s.nfts[n];
    && nft.market == n.token
    && n.token in s.markets
    && (nft.currentAuction.Some? ==> nft.currentAuction.value == ListingId(n, nft.totalAuctions))
    && (nft.currentSellOrder.Some? ==> nft.currentSellOrder.value == ListingId(n, nft.totalSellOrders))
  }

  ghost predicate AuctionWellFormed(s: State, a: ListingId)
    requires a in s.auctions
  {
    var x := s.auctions[a];
    && a.nft in s.nfts
    && 1 <= a.number <= s.nfts[a.nft].totalAuctions
    && x.nft == a.nft
    && x.market == a.nft.token
    && (x.market, x.currency) in s.marketStats
    && (a.nft, x.currency) in s.nftStats
  }

  ghost predicate SellOrderWellFormed(s: State, o: ListingId)
    requires o in s.sellOrders
  {
    var x := s.sellOrders[o];
    && o.nft in s.nfts
    && 1 <= o.number <= s.nfts[o.nft].totalSellOrders
    && x.nft == o.nft
    && x.market == o.nft.token
    && (x.market, x.currency) in s.marketStats
    && (o.nft, x.currency) in s.nftStats
  }

  /** Every number from 1 to the NFT's counter names an existing listing. */
  ghost predicate NoGaps(s: State)
  {
    && (forall n, k :: n in s.nfts && 1 <= k <= s.nfts[n].totalAuctions ==> ListingId(n, k) in s.auctions)
    && (forall n, k :: n in s.nfts && 1 <= k <= s.nfts[n].totalSellOrders ==> ListingId(n, k) in s.sellOrders)
  }

  ghost predicate BucketsWellFormed(s: State)
  {
    && (forall k :: k in s.marketStats ==>
          s.marketStats[k].market == k.0 && s.marketStats[k].currency == k.1 && s.marketStats[k].floor == 0)
    && (forall k :: k in s.nftStats ==> s.nftStats[k].nft == k.0 && s.nftStats[k].currency == k.1)
  }

  ghost predicate RowsReferToListings(s: State)
  {
    && (forall k :: k in s.auctionBids ==> s.auctionBids[k].auction in s.auctions)
    && (forall k :: k in s.auctionSales ==> s.auctionSales[k].auction in s.auctions)
    && (forall k :: k in s.sellOrderSales ==> s.sellOrderSales[k].order in s.sellOrders)
  }

  ghost predicate RegistryWellFormed(s: State)
  {
    && (forall a :: a in s.users ==> s.users[a].address == a)
    && (forall c :: c in s.currencies ==> s.currencies[c].address == c)
  }

  ghost predicate ListingsWellFormed(s: State)
  {
    && (forall n :: n in s.nfts ==> NftWellFormed(s, n))
    && (forall a :: a in s.auctions ==> AuctionWellFormed(s, a))
    && (forall o :: o in s.sellOrders ==> SellOrderWellFormed(s, o))
  }

  ghost predicate WellFormed(s: State)
  {
    && RegistryWellFormed(s)
    && ListingsWellFormed(s)
    && NoGaps(s)
    && BucketsWellFormed(s)
    && RowsReferToListings(s)
  }

  lemma EmptyWellFormed()
    ensures WellFormed(Empty())
  {
  }

  // ---------------------------------------------------------------------------
  // Single-table updates that keep the store well formed

  lemma WithUserWellFormed(s: State, a: Address)
    requires WellFormed(s)
    ensures WellFormed(WithUser(s, a))
  {
  }

  /** The listing part of the invariant only reads the NFT and listing tables and the key sets
      of the market and bucket tables, and survives those key sets growing. */
  lemma ListingsFrame(s: State, r: State)
    requires ListingsWellFormed(s) && NoGaps(s)
    requires r.nfts == s.nfts && r.auctions == s.auctions && r.sellOrders == s.sellOrders
    requires s.markets.Keys <= r.markets.Keys
    requires s.marketStats.Keys <= r.marketStats.Keys && s.nftStats.Keys <= r.nftStats.Keys
    ensures ListingsWellFormed(r) && NoGaps(r)
  {
    forall n | n in r.nfts ensures NftWellFormed(r, n) {
      assert NftWellFormed(s, n);
    }
    forall a | a in r.auctions ensures AuctionWellFormed(r, a) {
      assert AuctionWellFormed(s, a);
    }
    forall o | o in r.sellOrders ensures SellOrderWellFormed(r, o) {
      assert SellOrderWellFormed(s, o);
    }
  }

  /** The rest of the invariant reads only the user, currency, bucket and event-row tables
      and the key sets of the listing tables. */
  lemma RestFrame(s: State, r: State)
    requires RegistryWellFormed(s) && BucketsWellFormed(s) && RowsReferToListings(s)
    requires r.users == s.users && r.currencies == s.currencies
    requires r.marketStats == s.marketStats && r.nftStats == s.nftStats
    requires r.auctionBids == s.auctionBids && r.auctionSales == s.auctionSales && r.sellOrderSales == s.sellOrderSales
    requires s.auctions.Keys <= r.auctions.Keys && s.sellOrders.Keys <= r.sellOrders.Keys
    ensures RegistryWellFormed(r) && BucketsWellFormed(r) && RowsReferToListings(r)
  {
  }

  lemma PutMarketWellFormed(s: State, t: Address, m: Market)
    requires WellFormed(s)
    ensures WellFormed(s.(markets := s.markets[t := m]))
  {
    var r := s.(markets := s.markets[t := m]);
    ListingsFrame(s, r);
    RestFrame(s, r);
  }

  /** Replacing an NFT row by one with the same market and counters whose slots are either
      kept or cleared. */
  lemma UpdateNftWellFormed(s: State, id: NftId, x: Nft)
    requires WellFormed(s)
    requires id in s.nfts
    requires x.market == s.nfts[id].market
    requires x.totalAuctions == s.nfts[id].totalAuctions && x.totalSellOrders == s.nfts[id].totalSellOrders
    requires x.currentAuction.None? || x.currentAuction == s.nfts[id].currentAuction
    requires x.currentSellOrder.None? || x.currentSellOrder == s.nfts[id].currentSellOrder
    ensures WellFormed(s.(nfts := s.nfts[id := x]))
  {
    var r := s.(nfts := s.nfts[id := x]);
    UpdateNftListings(s, id, x);
    RestFrame(s, r);
  }

  lemma UpdateNftListings(s: State, id: NftId, x: Nft)
    requires ListingsWellFormed(s) && NoGaps(s)
    requires id in s.nfts
    requires x.market == s.nfts[id].market
    requires x.totalAuctions == s.nfts[id].totalAuctions && x.totalSellOrders == s.nfts[id].totalSellOrders
    requires x.currentAuction.None? || x.currentAuction == s.nfts[id].currentAuction
    requires x.currentSellOrder.None? || x.currentSellOrder == s.nfts[id].currentSellOrder
    ensures ListingsWellFormed(s.(nfts := s.nfts[id := x])) && NoGaps(s.(nfts := s.nfts[id := x]))
  {
    var r := s.(nfts := s.nfts[id := x]);
    forall n | n in r.nfts ensures NftWellFormed(r, n) {
      assert NftWellFormed(s, n);
    }
    forall a | a in r.auctions ensures AuctionWellFormed(r, a) {
      assert AuctionWellFormed(s, a);
    }
    forall o | o in r.sellOrders ensures SellOrderWellFormed(r, o) {
      assert SellOrderWellFormed(s, o);
    }
  }

  /** Replacing an Auction row by one of the same NFT, market and currency. */
  lemma UpdateAuctionWellFormed(s: State, aid: ListingId, x: Auction)
    requires WellFormed(s)
    requires aid in s.auctions
    requires x.nft == s.auctions[aid].nft && x.market == s.auctions[aid].market
    requires x.currency == s.auctions[aid].currency
    ensures WellFormed(s.(auctions := s.auctions[aid := x]))
  {
    var r := s.(auctions := s.auctions[aid := x]);
    UpdateAuctionListings(s, aid, x);
    RestFrame(s, r);
  }

  lemma UpdateAuctionListings(s: State, aid: ListingId, x: Auction)
    requires ListingsWellFormed(s) && NoGaps(s)
    requires aid in s.auctions
    requires x.nft == s.auctions[aid].nft && x.market == s.auctions[aid].market
    requires x.currency == s.auctions[aid].currency
    ensures ListingsWellFormed(s.(auctions := s.auctions[aid := x])) && NoGaps(s.(auctions := s.auctions[aid := x]))
  {
    var r := s.(auctions := s.auctions[aid := x]);
    assert r.auctions.Keys == s.auctions.Keys;
    forall n | n in r.nfts ensures NftWellFormed(r, n) {
      assert NftWellFormed(s, n);
    }
    forall a | a in r.auctions ensures AuctionWellFormed(r, a) {
      assert AuctionWellFormed(s, a);
    }
    forall o | o in r.sellOrders ensures SellOrderWellFormed(r, o) {
      assert SellOrderWellFormed(s, o);
    }
  }

  lemma AddBidWellFormed(s: State, k: EventId, b: AuctionBid)
    requires WellFormed(s)
    requires b.auction in s.auctions
    ensures WellFormed(s.(auctionBids := s.auctionBids[k := b]))
  {
    var r := s.(auctionBids := s.auctionBids[k := b]);
    ListingsFrame(s, r);
    assert RowsReferToListings(r);
  }

  lemma AddAuctionSaleWellFormed(s: State, k: EventId, x: AuctionSale)
    requires WellFormed(s)
    requires x.auction in s.auctions
    ensures WellFormed(s.(auctionSales := s.auctionSales[k := x]))
  {
    var r := s.(auctionSales := s.auctionSales[k := x]);
    ListingsFrame(s, r);
    assert RowsReferToListings(r);
  }

  lemma AddSellOrderSaleWellFormed(s: State, k: EventId, x: SellOrderSale)
    requires WellFormed(s)
    requires x.order in s.sellOrders
    ensures WellFormed(s.(sellOrderSales := s.sellOrderSales[k := x]))
  {
    var r := s.(sellOrderSales := s.sellOrderSales[k := x]);
    ListingsFrame(s, r);
    assert RowsReferToListings(r);
  }

  /** Bucket updates that keep each bucket's key fields (and the market floor). */
  lemma BucketsFrame(s: State, r: State)
    requires BucketsWellFormed(s)
    requires r.marketStats.Keys == s.marketStats.Keys && r.nftStats.Keys == s.nftStats.Keys
    requires forall k :: k in s.marketStats ==>
               r.marketStats[k].(volume := 0, fees := 0, creatorFees := 0, reflectionFees := 0)
               == s.marketStats[k].(volume := 0, fees := 0, creatorFees := 0, reflectionFees := 0)
    requires forall k :: k in s.nftStats ==>
               r.nftStats[k].(volume := 0, fees := 0, creatorFees := 0, reflectionFees := 0)
               == s.nftStats[k].(volume := 0, fees := 0, creatorFees := 0, reflectionFees := 0)
    ensures BucketsWellFormed(r)
  {
    forall k | k in r.marketStats
      ensures r.marketStats[k].market == k.0 && r.marketStats[k].currency == k.1 && r.marketStats[k].floor == 0
    {
      var z := r.marketStats[k].(volume := 0, fees := 0, creatorFees := 0, reflectionFees := 0);
      assert z.market == r.marketStats[k].market && z.currency == r.marketStats[k].currency;
      assert z.floor == r.marketStats[k].floor;
    }
    forall k | k in r.nftStats ensures r.nftStats[k].nft == k.0 && r.nftStats[k].currency == k.1 {
      var z := r.nftStats[k].(volume := 0, fees := 0, creatorFees := 0, reflectionFees := 0);
      assert z.nft == r.nftStats[k].nft && z.currency == r.nftStats[k].currency;
    }
  }

  lemma AccumulateSaleWellFormed(s: State, market: Address, nft: NftId, currency: Address, price: int, b: FeeBreakdown)
    requires WellFormed(s)
    ensures WellFormed(AccumulateSale(s, market, nft, currency, price, b))
  {
    var r := AccumulateSale(s, market, nft, currency, price, b);
    ListingsFrame(s, r);
    BucketsFrame(s, r);
  }

  lemma OpenBucketsWellFormed(s: State, market: Address, nft: NftId, currency: Address)
    requires WellFormed(s)
    ensures WellFormed(OpenBuckets(s, market, nft, currency))
  {
    var r := OpenBuckets(s, market, nft, currency);
    ListingsFrame(s, r);
  }

  lemma OpenNftWellFormed(s: State, id: NftId)
    requires WellFormed(s)
    requires id.token in s.markets
    ensures WellFormed(OpenNft(s, id))
  {
    if id !in s.nfts {
      var r := OpenNft(s, id);
      forall n | n in r.nfts ensures NftWellFormed(r, n) {
        if n != id {
          assert NftWellFormed(s, n);
        }
      }
      forall a | a in r.auctions ensures AuctionWellFormed(r, a) {
        assert AuctionWellFormed(s, a);
      }
      forall o | o in r.sellOrders ensures SellOrderWellFormed(r, o) {
        assert SellOrderWellFormed(s, o);
      }
    }
  }

  lemma PlaceAuctionNfts(s: State, id: NftId, x: Auction)
    requires WellFormed(s)
    requires id in s.nfts && id.token in s.markets
    ensures var r := PlaceAuction(s, id, x); forall n :: n in r.nfts ==> NftWellFormed(r, n)
  {
    var r := PlaceAuction(s, id, x);
    assert NftWellFormed(s, id);
    forall n | n in r.nfts ensures NftWellFormed(r, n) {
      if n != id {
        assert NftWellFormed(s, n);
      }
    }
  }

  lemma PlaceAuctionListings(s: State, id: NftId, x: Auction)
    requires WellFormed(s)
    requires id in s.nfts && id.token in s.markets
    requires x.nft == id && x.market == id.token
    requires (id.token, x.currency) in s.marketStats && (id, x.currency) in s.nftStats
    ensures var r := PlaceAuction(s, id, x);
            && (forall a :: a in r.auctions ==> AuctionWellFormed(r, a))
            && (forall o :: o in r.sellOrders ==> SellOrderWellFormed(r, o))
  {
    var r := PlaceAuction(s, id, x);
    var aid := ListingId(id, s.nfts[id].totalAuctions + 1);
    forall a | a in r.auctions ensures AuctionWellFormed(r, a) {
      if a != aid {
        assert AuctionWellFormed(s, a);
      }
    }
    forall o | o in r.sellOrders ensures SellOrderWellFormed(r, o) {
      assert SellOrderWellFormed(s, o);
    }
  }

  lemma PlaceAuctionNoGaps(s: State, id: NftId, x: Auction)
    requires WellFormed(s)
    requires id in s.nfts && id.token in s.markets
    ensures NoGaps(PlaceAuction(s, id, x))
  {
    var r := PlaceAuction(s, id, x);
    var total := s.nfts[id].totalAuctions;
    forall n, k | n in r.nfts && 1 <= k <= r.nfts[n].totalAuctions ensures ListingId(n, k) in r.auctions {
      if n != id || k != total + 1 {
        assert ListingId(n, k) in s.auctions;
      }
    }
    forall n, k | n in r.nfts && 1 <= k <= r.nfts[n].totalSellOrders ensures ListingId(n, k) in r.sellOrders {
      assert ListingId(n, k) in s.sellOrders;
    }
  }

  /** Recording the next auction of an NFT whose buckets for the auction's currency exist. */
  lemma PlaceAuctionWellFormed(s: State, id: NftId, x: Auction)
    requires WellFormed(s)
    requires id in s.nfts && id.token in s.markets
    requires x.nft == id && x.market == id.token
    requires (id.token, x.currency) in s.marketStats && (id, x.currency) in s.nftStats
    ensures WellFormed(PlaceAuction(s, id, x))
  {
    var r := PlaceAuction(s, id, x);
    PlaceAuctionNfts(s, id, x);
    PlaceAuctionListings(s, id, x);
    PlaceAuctionNoGaps(s, id, x);
    assert ListingsWellFormed(r);
    assert RegistryWellFormed(r);
    assert BucketsWellFormed(r);
    assert RowsReferToListings(r);
  }

  lemma PlaceSellOrderNfts(s: State, id: NftId, x: SellOrder)
    requires WellFormed(s)
    requires id in s.nfts && id.token in s.markets
    ensures var r := PlaceSellOrder(s, id, x); forall n :: n in r.nfts ==> NftWellFormed(r, n)
  {
    var r := PlaceSellOrder(s, id, x);
    assert NftWellFormed(s, id);
    forall n | n in r.nfts ensures NftWellFormed(r, n) {
      if n != id {
        assert NftWellFormed(s, n);
      }
    }
  }

  lemma PlaceSellOrderListings(s: State, id: NftId, x: SellOrder)
    requires WellFormed(s)
    requires id in s.nfts && id.token in s.markets
    requires x.nft == id && x.market == id.token
    requires (id.token, x.currency) in s.marketStats && (id, x.currency) in s.nftStats
    ensures var r := PlaceSellOrder(s, id, x);
            && (forall a :: a in r.auctions ==> AuctionWellFormed(r, a))
            && (forall o :: o in r.sellOrders ==> SellOrderWellFormed(r, o))
  {
    var r := PlaceSellOrder(s, id, x);
    var oid := ListingId(id, s.nfts[id].totalSellOrders + 1);
    forall a | a in r.auctions ensures AuctionWellFormed(r, a) {
      assert AuctionWellFormed(s, a);
    }
    forall o | o in r.sellOrders ensures SellOrderWellFormed(r, o) {
      if o != oid {
        assert SellOrderWellFormed(s, o);
      }
    }
  }

  lemma PlaceSellOrderNoGaps(s: State, id: NftId, x: SellOrder)
    requires WellFormed(s)
    requires id in s.nfts && id.token in s.markets
    ensures NoGaps(PlaceSellOrder(s, id, x))
  {
    var r := PlaceSellOrder(s, id, x);
    var total := s.nfts[id].totalSellOrders;
    forall n, k | n in r.nfts && 1 <= k <= r.nfts[n].totalAuctions ensures ListingId(n, k) in r.auctions {
      assert ListingId(n, k) in s.auctions;
    }
    forall n, k | n in r.nfts && 1 <= k <= r.nfts[n].totalSellOrders ensures ListingId(n, k) in r.sellOrders {
      if n != id || k != total + 1 {
        assert ListingId(n, k) in s.sellOrders;
      }
    }
  }

  /** Recording the next sell order of an NFT whose buckets for the order's currency exist. */
  lemma PlaceSellOrderWellFormed(s: State, id: NftId, x: SellOrder)
    requires WellFormed(s)
    requires id in s.nfts && id.token in s.markets
    requires x.nft == id && x.market == id.token
    requires (id.token, x.currency) in s.marketStats && (id, x.currency) in s.nftStats
    ensures WellFormed(PlaceSellOrder(s, id, x))
  {
    var r := PlaceSellOrder(s, id, x);
    PlaceSellOrderNfts(s, id, x);
    PlaceSellOrderListings(s, id, x);
    PlaceSellOrderNoGaps(s, id, x);
    assert ListingsWellFormed(r);
    assert RegistryWellFormed(r);
    assert BucketsWellFormed(r);
    assert RowsReferToListings(r);
  }

  // ---------------------------------------------------------------------------
  // Every handler keeps the store well formed

  lemma CurrencyAddedWellFormed(s: State, c: Address)
    requires WellFormed(s)
    ensures WellFormed(HandleCurrencyAdded(s, c))
  {
    ListingsFrame(s, HandleCurrencyAdded(s, c));
  }

  lemma MarketCreatedWellFormed(s: State, t: Address, f: int, cf: int, rf: int)
    requires WellFormed(s)
    ensures WellFormed(HandleMarketCreated(s, t, f, cf, rf))
  {
    PutMarketWellFormed(s, t, Market(f, cf, rf, true, 0, 0, 0, 0));
  }

  lemma MarketFeeChangedWellFormed(s: State, t: Address, f: int, cf: int, rf: int)
    requires WellFormed(s)
    ensures WellFormed(HandleMarketFeeChanged(s, t, f, cf, rf))
  {
    if t in s.markets {
      PutMarketWellFormed(s, t, s.markets[t].(fee := f, creatorFee := cf, reflectionFee := rf));
    }
  }

  lemma MarketStateChangedWellFormed(s: State, t: Address, a: bool)
    requires WellFormed(s)
    ensures WellFormed(HandleMarketStateChanged(s, t, a))
  {
    if t in s.markets {
      PutMarketWellFormed(s, t, s.markets[t].(active := a));
    }
  }

  /** AuctionCreated, taken apart into the steps whose well-formedness is proved above: the
      buckets are opened before the auction is placed rather than after, which touches
      disjoint tables. */
  lemma AuctionCreatedSteps(s: State, m: Meta, t: Address, i: nat, seller: Address, c: Address, endsAt: int, bid: int)
    requires t in s.markets
    ensures var id := NftId(t, i);
            var s1 := OpenNft(WithUser(s, seller), id);
            HandleAuctionCreated(s, m, t, i, seller, c, endsAt, bid)
              == PlaceAuction(OpenBuckets(s1, t, id, c), id, Auction(seller, t, id, c, m.timestamp, false, endsAt, bid, bid, None))
  {
  }

  lemma AuctionCreatedWellFormed(s: State, m: Meta, t: Address, i: nat, seller: Address, c: Address, endsAt: int, bid: int)
    requires WellFormed(s)
    ensures WellFormed(HandleAuctionCreated(s, m, t, i, seller, c, endsAt, bid))
  {
    if t in s.markets {
      var id := NftId(t, i);
      WithUserWellFormed(s, seller);
      var s1 := OpenNft(WithUser(s, seller), id);
      OpenNftWellFormed(WithUser(s, seller), id);
      var sb := OpenBuckets(s1, t, id, c);
      OpenBucketsWellFormed(s1, t, id, c);
      PlaceAuctionWellFormed(sb, id, Auction(seller, t, id, c, m.timestamp, false, endsAt, bid, bid, None));
      AuctionCreatedSteps(s, m, t, i, seller, c, endsAt, bid);
    }
  }

  /** SellOrderCreated, taken apart the same way. */
  lemma SellOrderCreatedSteps(s: State, m: Meta, t: Address, i: nat, seller: Address, c: Address, price: int)
    requires t in s.markets
    ensures var id := NftId(t, i);
            var s1 := OpenNft(WithUser(s, seller), id);
            HandleSellOrderCreated(s, m, t, i, seller, c, price)
              == PlaceSellOrder(OpenBuckets(s1, t, id, c), id, SellOrder(seller, t, id, c, price, m.timestamp))
  {
  }

  lemma SellOrderCreatedWellFormed(s: State, m: Meta, t: Address, i: nat, seller: Address, c: Address, price: int)
    requires WellFormed(s)
    ensures WellFormed(HandleSellOrderCreated(s, m, t, i, seller, c, price))
  {
    if t in s.markets {
      var id := NftId(t, i);
      WithUserWellFormed(s, seller);
      var s1 := OpenNft(WithUser(s, seller), id);
      OpenNftWellFormed(WithUser(s, seller), id);
      var sb := OpenBuckets(s1, t, id, c);
      OpenBucketsWellFormed(s1, t, id, c);
      PlaceSellOrderWellFormed(sb, id, SellOrder(seller, t, id, c, price, m.timestamp));
      SellOrderCreatedSteps(s, m, t, i, seller, c, price);
    }
  }

  lemma AuctionBidWellFormed(s: State, m: Meta, t: Address, i: nat, bidder: Address, amount: int)
    requires WellFormed(s)
    ensures WellFormed(HandleAuctionBid(s, m, t, i, bidder, amount))
  {
    var id := NftId(t, i);
    if HasLiveAuction(s, id) {
      var nft := s.nfts[id];
      var aid := nft.currentAuction.value;
      var s1 := WithUser(s, bidder);
      WithUserWellFormed(s, bidder);
      var x := s1.auctions[aid].(highestBidder := Some(bidder), highestBid := amount);
      UpdateAuctionWellFormed(s1, aid, x);
      var s2 := s1.(auctions := s1.auctions[aid := x]);
      var b := AuctionBid(m.timestamp, aid, bidder, amount);
      AddBidWellFormed(s2, RowId(m), b);
      var s3 := s2.(auctionBids := s2.auctionBids[RowId(m) := b]);
      UpdateNftWellFormed(s3, id, nft.(currentPrice := Some(amount)));
      assert HandleAuctionBid(s, m, t, i, bidder, amount) == s3.(nfts := s3.nfts[id := nft.(currentPrice := Some(amount))]);
    }
  }

  lemma AuctionEndWellFormed(s: State, t: Address, i: nat)
    requires WellFormed(s)
    ensures WellFormed(HandleAuctionEnd(s, t, i))
  {
    var id := NftId(t, i);
    if HasLiveAuction(s, id) {
      var nft := s.nfts[id];
      var aid := nft.currentAuction.value;
      var x := s.auctions[aid].(ended := true);
      UpdateAuctionWellFormed(s, aid, x);
      var s1 := s.(auctions := s.auctions[aid := x]);
      var y := nft.(currentCurrency := None, currentAuction := None, currentPrice := None);
      UpdateNftWellFormed(s1, id, y);
      assert HandleAuctionEnd(s, t, i) == s1.(nfts := s1.nfts[id := y]);
    }
  }

  /** The bidder registered and an auction-sale row `x` stored under `k`. */
  ghost function WithAuctionSaleRow(s: State, bidder: Address, k: EventId, x: AuctionSale): State
  {
    var s1 := WithUser(s, bidder);
    s1.(auctionSales := s1.auctionSales[k := x])
  }

  /** The store after `handleAuctionSale` has recorded the sale, before the statistics buckets. */
  ghost function AuctionSaleRecorded(s: State, m: Meta, id: NftId, bidder: Address, amount: int): State
    requires AuctionSaleApplies(s, id)
  {
    var nft := s.nfts[id];
    var aid := nft.currentAuction.value;
    var auction := s.auctions[aid];
    var market := s.markets[nft.market];
    var b := MarketCharge(market, amount);
    var sale := AuctionSale(id, m.timestamp, aid, auction.seller, bidder, auction.currency, amount,
                            b.fee, b.creatorFee, b.reflectionFee);
    var y := nft.(currentOwner := Some(bidder), lastSale := Some(RowId(m)), totalSales := nft.totalSales + 1);
    WithSoldNft(WithAuctionSaleRow(s, bidder, RowId(m), sale), id, y, nft.market,
                market.(totalSales := market.totalSales + 1))
  }

  lemma AuctionSaleSteps(s: State, m: Meta, t: Address, i: nat, bidder: Address, amount: int)
    requires AuctionSaleApplies(s, NftId(t, i))
    ensures var id := NftId(t, i);
            var nft := s.nfts[id];
            HandleAuctionSale(s, m, t, i, bidder, amount)
              == AccumulateSale(AuctionSaleRecorded(s, m, id, bidder, amount), nft.market, id,
                                s.auctions[nft.currentAuction.value].currency, amount,
                                MarketCharge(s.markets[nft.market], amount))
  {
  }

  lemma AuctionSaleRowWellFormed(s: State, bidder: Address, k: EventId, x: AuctionSale)
    requires WellFormed(s)
    requires x.auction in s.auctions
    ensures WellFormed(WithAuctionSaleRow(s, bidder, k, x))
  {
    WithUserWellFormed(s, bidder);
    AddAuctionSaleWellFormed(WithUser(s, bidder), k, x);
  }

  /** An auction-sale row stored and the sold NFT and its market written back. */
  lemma AuctionSaleRowSoldWellFormed(s: State, bidder: Address, k: EventId, x: AuctionSale, id: NftId, y: Nft,
                                     t: Address, mk: Market)
    requires WellFormed(s)
    requires x.auction in s.auctions
    requires id in s.nfts
    requires y.market == s.nfts[id].market
    requires y.totalAuctions == s.nfts[id].totalAuctions && y.totalSellOrders == s.nfts[id].totalSellOrders
    requires y.currentAuction == s.nfts[id].currentAuction && y.currentSellOrder == s.nfts[id].currentSellOrder
    ensures WellFormed(WithSoldNft(WithAuctionSaleRow(s, bidder, k, x), id, y, t, mk))
  {
    var s2 := WithAuctionSaleRow(s, bidder, k, x);
    AuctionSaleRowWellFormed(s, bidder, k, x);
    assert s2.nfts == s.nfts;
    SoldNftWellFormed(s2, id, y, t, mk);
  }

  lemma AuctionSaleRecordedWellFormed(s: State, m: Meta, id: NftId, bidder: Address, amount: int)
    requires WellFormed(s)
    requires AuctionSaleApplies(s, id)
    ensures WellFormed(AuctionSaleRecorded(s, m, id, bidder, amount))
  {
    var nft := s.nfts[id];
    var aid := nft.currentAuction.value;
    var auction := s.auctions[aid];
    var market := s.markets[nft.market];
    var b := MarketCharge(market, amount);
    var sale := AuctionSale(id, m.timestamp, aid, auction.seller, bidder, auction.currency, amount,
                            b.fee, b.creatorFee, b.reflectionFee);
    var y := nft.(currentOwner := Some(bidder), lastSale := Some(RowId(m)), totalSales := nft.totalSales + 1);
    var mk := market.(totalSales := market.totalSales + 1);
    assert AuctionSaleRecorded(s, m, id, bidder, amount)
        == WithSoldNft(WithAuctionSaleRow(s, bidder, RowId(m), sale), id, y, nft.market, mk);
    AuctionSaleRowSoldWellFormed(s, bidder, RowId(m), sale, id, y, nft.market, mk);
  }

  lemma AuctionSaleWellFormed(s: State, m: Meta, t: Address, i: nat, bidder: Address, amount: int)
    requires WellFormed(s)
    ensures WellFormed(HandleAuctionSale(s, m, t, i, bidder, amount))
  {
    var id := NftId(t, i);
    if AuctionSaleApplies(s, id) {
      var nft := s.nfts[id];
      AuctionSaleRecordedWellFormed(s, m, id, bidder, amount);
      AccumulateSaleWellFormed(AuctionSaleRecorded(s, m, id, bidder, amount), nft.market, id,
                               s.auctions[nft.currentAuction.value].currency, amount,
                               MarketCharge(s.markets[nft.market], amount));
      AuctionSaleSteps(s, m, t, i, bidder, amount);
    }
  }

  lemma SellOrderCanceledWellFormed(s: State, t: Address, i: nat)
    requires WellFormed(s)
    ensures WellFormed(HandleSellOrderCanceled(s, t, i))
  {
    var id := NftId(t, i);
    if SellOrderSaleApplies(s, id) {
      UpdateNftWellFormed(s, id, s.nfts[id].(currentSellOrder := None, currentCurrency := None, currentPrice := None));
    }
  }

  /** The buyer registered and a sell-order sale row `x` stored under `k`. */
  ghost function WithSaleRow(s: State, buyer: Address, k: EventId, x: SellOrderSale): State
  {
    var s1 := WithUser(s, buyer);
    s1.(sellOrderSales := s1.sellOrderSales[k := x])
  }

  /** The NFT row `id` replaced by `x` and the market row `t` by `mk`. */
  ghost function WithSoldNft(s: State, id: NftId, x: Nft, t: Address, mk: Market): State
  {
    var s1 := s.(nfts := s.nfts[id := x]);
    s1.(markets := s1.markets[t := mk])
  }

  /** The store after `handleSale` has recorded the sale, before the statistics buckets. */
  ghost function SaleRecorded(s: State, m: Meta, id: NftId, buyer: Address, price: int): State
    requires SellOrderSaleApplies(s, id)
  {
    var nft := s.nfts[id];
    var oid := nft.currentSellOrder.value;
    var order := s.sellOrders[oid];
    var market := s.markets[nft.market];
    var b := MarketCharge(market, price);
    var sale := SellOrderSale(id, m.timestamp, oid, order.seller, buyer, order.currency, price,
                              b.fee, b.creatorFee, b.reflectionFee);
    var y := nft.(currentSellOrder := None, currentCurrency := None, currentPrice := None,
                  lastSale := Some(RowId(m)), totalSales := nft.totalSales + 1);
    WithSoldNft(WithSaleRow(s, buyer, RowId(m), sale), id, y, nft.market, market.(totalSales := market.totalSales + 1))
  }

  lemma SaleSteps(s: State, m: Meta, t: Address, i: nat, buyer: Address, price: int)
    requires SellOrderSaleApplies(s, NftId(t, i))
    ensures var id := NftId(t, i);
            var nft := s.nfts[id];
            HandleSale(s, m, t, i, buyer, price)
              == AccumulateSale(SaleRecorded(s, m, id, buyer, price), nft.market, id,
                                s.sellOrders[nft.currentSellOrder.value].currency, price,
                                MarketCharge(s.markets[nft.market], price))
  {
  }

  lemma SaleRowWellFormed(s: State, buyer: Address, k: EventId, x: SellOrderSale)
    requires WellFormed(s)
    requires x.order in s.sellOrders
    ensures WellFormed(WithSaleRow(s, buyer, k, x))
  {
    WithUserWellFormed(s, buyer);
    AddSellOrderSaleWellFormed(WithUser(s, buyer), k, x);
  }

  lemma SoldNftWellFormed(s: State, id: NftId, x: Nft, t: Address, mk: Market)
    requires WellFormed(s)
    requires id in s.nfts
    requires x.market == s.nfts[id].market
    requires x.totalAuctions == s.nfts[id].totalAuctions && x.totalSellOrders == s.nfts[id].totalSellOrders
    requires x.currentAuction.None? || x.currentAuction == s.nfts[id].currentAuction
    requires x.currentSellOrder.None? || x.currentSellOrder == s.nfts[id].currentSellOrder
    ensures WellFormed(WithSoldNft(s, id, x, t, mk))
  {
    UpdateNftWellFormed(s, id, x);
    PutMarketWellFormed(s.(nfts := s.nfts[id := x]), t, mk);
  }

  /** A sell-order-sale row stored and the sold NFT, its order slot cleared, and its market
      written back. */
  lemma SaleRowSoldWellFormed(s: State, buyer: Address, k: EventId, x: SellOrderSale, id: NftId, y: Nft,
                              t: Address, mk: Market)
    requires WellFormed(s)
    requires x.order in s.sellOrders
    requires id in s.nfts
    requires y.market == s.nfts[id].market
    requires y.totalAuctions == s.nfts[id].totalAuctions && y.totalSellOrders == s.nfts[id].totalSellOrders
    requires y.currentAuction == s.nfts[id].currentAuction && y.currentSellOrder.None?
    ensures WellFormed(WithSoldNft(WithSaleRow(s, buyer, k, x), id, y, t, mk))
  {
    var s2 := WithSaleRow(s, buyer, k, x);
    SaleRowWellFormed(s, buyer, k, x);
    assert s2.nfts == s.nfts;
    SoldNftWellFormed(s2, id, y, t, mk);
  }

  lemma SaleRecordedWellFormed(s: State, m: Meta, id: NftId, buyer: Address, price: int)
    requires WellFormed(s)
    requires SellOrderSaleApplies(s, id)
    ensures WellFormed(SaleRecorded(s, m, id, buyer, price))
  {
    var nft := s.nfts[id];
    var oid := nft.currentSellOrder.value;
    var order := s.sellOrders[oid];
    var market := s.markets[nft.market];
    var b := MarketCharge(market, price);
    var sale := SellOrderSale(id, m.timestamp, oid, order.seller, buyer, order.currency, price,
                              b.fee, b.creatorFee, b.reflectionFee);
    var y := nft.(currentSellOrder := None, currentCurrency := None, currentPrice := None,
                  lastSale := Some(RowId(m)), totalSales := nft.totalSales + 1);
    var mk := market.(totalSales := market.totalSales + 1);
    assert SaleRecorded(s, m, id, buyer, price)
        == WithSoldNft(WithSaleRow(s, buyer, RowId(m), sale), id, y, nft.market, mk);
    SaleRowSoldWellFormed(s, buyer, RowId(m), sale, id, y, nft.market, mk);
  }

  lemma SaleWellFormed(s: State, m: Meta, t: Address, i: nat, buyer: Address, price: int)
    requires WellFormed(s)
    ensures WellFormed(HandleSale(s, m, t, i, buyer, price))
  {
    var id := NftId(t, i);
    if SellOrderSaleApplies(s, id) {
      var nft := s.nfts[id];
      SaleRecordedWellFormed(s, m, id, buyer, price);
      AccumulateSaleWellFormed(SaleRecorded(s, m, id, buyer, price), nft.market, id,
                               s.sellOrders[nft.currentSellOrder.value].currency, price,
                               MarketCharge(s.markets[nft.market], price));
      SaleSteps(s, m, t, i, buyer, price);
    }
  }

  lemma WithdrawNftWellFormed(s: State, t: Address, i: nat)
    requires WellFormed(s)
    ensures WellFormed(HandleWithdrawNft(s, t, i))
  {
    var id := NftId(t, i);
    if id in s.nfts {
      UpdateNftWellFormed(s, id, s.nfts[id].(currentOwner := None));
    }
  }

  /** Every handler preserves well-formedness. */
  lemma StepWellFormed(s: State, e: Event)
    requires WellFormed(s)
    ensures WellFormed(Step(s, e))
  {
    if e.AuctionCreated? || e.AuctionSaleEvent? || e.AuctionBidEvent? || e.AuctionEnd? {
      AuctionEventWellFormed(s, e);
    } else if e.SellOrderCreated? || e.SellOrderCanceled? || e.SaleEvent? || e.WithdrawNft? {
      SellOrderEventWellFormed(s, e);
    } else {
      MarketEventWellFormed(s, e);
    }
  }

  /** `StepWellFormed` for the currency and market events. */
  lemma MarketEventWellFormed(s: State, e: Event)
    requires WellFormed(s)
    requires e.CurrencyAdded? || e.MarketCreated? || e.MarketFeeChanged? || e.MarketStateChanged?
    ensures WellFormed(Step(s, e))
  {
    if e.CurrencyAdded? {
      CurrencyAddedWellFormed(s, e.currency);
    } else if e.MarketCreated? {
      MarketCreatedWellFormed(s, e.token, e.fee, e.creatorFee, e.reflectionFee);
    } else if e.MarketFeeChanged? {
      MarketFeeChangedWellFormed(s, e.token, e.fee, e.creatorFee, e.reflectionFee);
    } else {
      MarketStateChangedWellFormed(s, e.token, e.isActive);
    }
  }

  /** `StepWellFormed` for the auction events. */
  lemma AuctionEventWellFormed(s: State, e: Event)
    requires WellFormed(s)
    requires e.AuctionCreated? || e.AuctionSaleEvent? || e.AuctionBidEvent? || e.AuctionEnd?
    ensures WellFormed(Step(s, e))
  {
    if e.AuctionCreated? {
      AuctionCreatedWellFormed(s, e.meta, e.token, e.tokenId, e.seller, e.currency, e.endsAt, e.initialBid);
    } else if e.AuctionSaleEvent? {
      AuctionSaleWellFormed(s, e.meta, e.token, e.tokenId, e.bidder, e.amount);
    } else if e.AuctionBidEvent? {
      AuctionBidWellFormed(s, e.meta, e.token, e.tokenId, e.bidder, e.amount);
    } else {
      AuctionEndWellFormed(s, e.token, e.tokenId);
    }
  }

  /** `StepWellFormed` for the sell-order events. */
  lemma SellOrderEventWellFormed(s: State, e: Event)
    requires WellFormed(s)
    requires e.SellOrderCreated? || e.SellOrderCanceled? || e.SaleEvent? || e.WithdrawNft?
    ensures WellFormed(Step(s, e))
  {
    if e.SellOrderCreated? {
      SellOrderCreatedWellFormed(s, e.meta, e.token, e.tokenId, e.seller, e.currency, e.price);
    } else if e.SellOrderCanceled? {
      SellOrderCanceledWellFormed(s, e.token, e.tokenId);
    } else if e.SaleEvent? {
      SaleWellFormed(s, e.meta, e.token, e.tokenId, e.buyer, e.price);
    } else {
      WithdrawNftWellFormed(s, e.token, e.tokenId);
    }
  }

  /** Any stream handled from a well-formed store leaves it well-formed. */
  lemma {:induction false} RunWellFormed(s: State, evs: seq<Event>)
    requires WellFormed(s)
    ensures WellFormed(Run(s, evs))
    decreases |evs|
  {
    if |evs| > 0 {
      StepWellFormed(s, evs[0]);
      RunWellFormed(Step(s, evs[0]), evs[1..]);
    }
  }

  /** Every store the projection can reach from its empty start is well-formed. */
  lemma ReachableWellFormed(evs: seq<Event>)
    ensures WellFormed(Run(Empty(), evs))
  {
    EmptyWellFormed();
    RunWellFormed(Empty(), evs);
  }
}
