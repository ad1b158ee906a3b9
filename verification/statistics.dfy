/** The per-currency statistics buckets.

    A (market, currency) bucket and an (nft, currency) bucket are opened, at zero,
    when a listing in that currency is created, and every later sale of that
    listing adds its price to `volume` and its three fees to the fee sums. The
    sums are append-only: with non-negative prices and rates they never go down,
    and `floor` keeps the 0 it was opened with.
 */
module Statistics {
  import opened Entities
  import opened Fees
  import opened Store
  import opened Handlers
  import opened Stream
  import opened Invariants

  predicate RatesNonNegative(m: Market)
  {
    m.fee >= 0 && m.creatorFee >= 0 && m.reflectionFee >= 0
  }

  /** Every market charges non-negative rates. */
  ghost predicate NonNegativeRates(s: State)
  {
    forall t :: t in s.markets ==> RatesNonNegative(s.markets[t])
  }

  /** The event sets no negative rate and sells at no negative price. */
  predicate NonNegativeEvent(e: Event)
  {
    match e
    case MarketCreated(_, f, cf, rf) => f >= 0 && cf >= 0 && rf >= 0
    case MarketFeeChanged(_, f, cf, rf) => f >= 0 && cf >= 0 && rf >= 0
    case AuctionSaleEvent(_, _, _, _, amount) => amount >= 0
    case SaleEvent(_, _, _, _, price) => price >= 0
    case _ => true
  }

  /** `b` is `a` after zero or more sales: same key and floor, no sum lower. */
  predicate MarketBucketGrows(a: MarketCurrencyStats, b: MarketCurrencyStats)
  {
    && a.market == b.market && a.currency == b.currency && a.floor == b.floor
    && a.volume <= b.volume && a.fees <= b.fees
    && a.creatorFees <= b.creatorFees && a.reflectionFees <= b.reflectionFees
  }

  predicate NftBucketGrows(a: NftCurrencyStats, b: NftCurrencyStats)
  {
    && a.nft == b.nft && a.currency == b.currency
    && a.volume <= b.volume && a.fees <= b.fees
    && a.creatorFees <= b.creatorFees && a.reflectionFees <= b.reflectionFees
  }

  /** No bucket of `s` is gone from `r` and none has a lower sum in `r`. */
  ghost predicate StatsGrow(s: State, r: State)
  {
    && (forall k :: k in s.marketStats ==> k in r.marketStats && MarketBucketGrows(s.marketStats[k], r.marketStats[k]))
    && (forall k :: k in s.nftStats ==> k in r.nftStats && NftBucketGrows(s.nftStats[k], r.nftStats[k]))
  }

  lemma StatsGrowTransitive(s: State, r: State, q: State)
    requires StatsGrow(s, r) && StatsGrow(r, q)
    ensures StatsGrow(s, q)
  {
  }

  /** Under non-negative rates and prices, one sale's accumulation only raises sums. */
  lemma AccumulateSaleGrows(s: State, market: Address, nft: NftId, currency: Address, price: int, b: FeeBreakdown)
    requires price >= 0 && b.fee >= 0 && b.creatorFee >= 0 && b.reflectionFee >= 0
    ensures StatsGrow(s, AccumulateSale(s, market, nft, currency, price, b))
  {
    var r := AccumulateSale(s, market, nft, currency, price, b);
    forall k | k in s.marketStats
      ensures k in r.marketStats && MarketBucketGrows(s.marketStats[k], r.marketStats[k])
    {
      if k == (market, currency) {
        var x := r.marketStats[k].(volume := 0, fees := 0, creatorFees := 0, reflectionFees := 0);
        assert x.market == r.marketStats[k].market && x.currency == r.marketStats[k].currency;
      }
    }
    forall k | k in s.nftStats
      ensures k in r.nftStats && NftBucketGrows(s.nftStats[k], r.nftStats[k])
    {
      if k == (nft, currency) && (market, currency) in s.marketStats {
        var x := r.nftStats[k].(volume := 0, fees := 0, creatorFees := 0, reflectionFees := 0);
        assert x.nft == r.nftStats[k].nft && x.currency == r.nftStats[k].currency;
      }
    }
  }

  /** Under non-negative rates, an event with no negative price or rate raises no sum,
      removes no bucket, moves no floor, and leaves every rate non-negative. */
  lemma StepStatsGrow(s: State, e: Event)
    requires NonNegativeRates(s) && NonNegativeEvent(e)
    ensures StatsGrow(s, Step(s, e))
    ensures NonNegativeRates(Step(s, e))
  {
    if e.AuctionCreated? || e.AuctionSaleEvent? || e.AuctionBidEvent? || e.AuctionEnd? {
      AuctionEventStats(s, e);
    } else if e.SellOrderCreated? || e.SellOrderCanceled? || e.SaleEvent? || e.WithdrawNft? {
      SellOrderEventStats(s, e);
    } else {
      MarketEventStats(s, e);
    }
  }

  /** `StepStatsGrow` for the currency and market events. */
  lemma MarketEventStats(s: State, e: Event)
    requires NonNegativeRates(s) && NonNegativeEvent(e)
    requires e.CurrencyAdded? || e.MarketCreated? || e.MarketFeeChanged? || e.MarketStateChanged?
    ensures StatsGrow(s, Step(s, e))
    ensures NonNegativeRates(Step(s, e))
  {
  }

  /** `StepStatsGrow` for the auction events. */
  lemma AuctionEventStats(s: State, e: Event)
    requires NonNegativeRates(s) && NonNegativeEvent(e)
    requires e.AuctionCreated? || e.AuctionSaleEvent? || e.AuctionBidEvent? || e.AuctionEnd?
    ensures StatsGrow(s, Step(s, e))
    ensures NonNegativeRates(Step(s, e))
  {
    if e.AuctionCreated? {
      AuctionCreatedStats(s, e.meta, e.token, e.tokenId, e.seller, e.currency, e.endsAt, e.initialBid);
    } else if e.AuctionSaleEvent? {
      AuctionSaleStats(s, e.meta, e.token, e.tokenId, e.bidder, e.amount);
    }
  }

  /** `StepStatsGrow` for the sell-order events. */
  lemma SellOrderEventStats(s: State, e: Event)
    requires NonNegativeRates(s) && NonNegativeEvent(e)
    requires e.SellOrderCreated? || e.SellOrderCanceled? || e.SaleEvent? || e.WithdrawNft?
    ensures StatsGrow(s, Step(s, e))
    ensures NonNegativeRates(Step(s, e))
  {
    if e.SellOrderCreated? {
      SellOrderCreatedStats(s, e.meta, e.token, e.tokenId, e.seller, e.currency, e.price);
    } else if e.SaleEvent? {
      SaleStats(s, e.meta, e.token, e.tokenId, e.buyer, e.price);
    }
  }

  lemma AuctionCreatedStats(s: State, m: Meta, t: Address, i: nat, seller: Address, c: Address, endsAt: int, bid: int)
    requires NonNegativeRates(s)
    ensures StatsGrow(s, HandleAuctionCreated(s, m, t, i, seller, c, endsAt, bid))
    ensures NonNegativeRates(HandleAuctionCreated(s, m, t, i, seller, c, endsAt, bid))
  {
    if t in s.markets {
      AuctionCreatedRegisters(s, m, t, i, seller, c, endsAt, bid);
    }
  }

  lemma SellOrderCreatedStats(s: State, m: Meta, t: Address, i: nat, seller: Address, c: Address, price: int)
    requires NonNegativeRates(s)
    ensures StatsGrow(s, HandleSellOrderCreated(s, m, t, i, seller, c, price))
    ensures NonNegativeRates(HandleSellOrderCreated(s, m, t, i, seller, c, price))
  {
    if t in s.markets {
      SellOrderCreatedRegisters(s, m, t, i, seller, c, price);
    }
  }

  lemma AuctionSaleStats(s: State, m: Meta, t: Address, i: nat, bidder: Address, amount: int)
    requires NonNegativeRates(s) && amount >= 0
    ensures StatsGrow(s, HandleAuctionSale(s, m, t, i, bidder, amount))
    ensures NonNegativeRates(HandleAuctionSale(s, m, t, i, bidder, amount))
  {
    var id := NftId(t, i);
    var r := HandleAuctionSale(s, m, t, i, bidder, amount);
    if AuctionSaleApplies(s, id) {
      var nft := s.nfts[id];
      var b := MarketCharge(s.markets[nft.market], amount);
      var rest := s.(users := r.users, nfts := r.nfts, markets := r.markets, auctionSales := r.auctionSales);
      AccumulateSaleGrows(rest, nft.market, id, s.auctions[nft.currentAuction.value].currency, amount, b);
      forall u | u in r.markets
        ensures RatesNonNegative(r.markets[u])
      {
        if u == nft.market {
          var x := r.markets[u].(totalSales := 0);
          assert x.fee == r.markets[u].fee && x.creatorFee == r.markets[u].creatorFee
                 && x.reflectionFee == r.markets[u].reflectionFee;
        }
      }
    }
  }

  lemma SaleStats(s: State, m: Meta, t: Address, i: nat, buyer: Address, price: int)
    requires NonNegativeRates(s) && price >= 0
    ensures StatsGrow(s, HandleSale(s, m, t, i, buyer, price))
    ensures NonNegativeRates(HandleSale(s, m, t, i, buyer, price))
  {
    var id := NftId(t, i);
    var r := HandleSale(s, m, t, i, buyer, price);
    if SellOrderSaleApplies(s, id) {
      var nft := s.nfts[id];
      var b := MarketCharge(s.markets[nft.market], price);
      var rest := s.(users := r.users, nfts := r.nfts, markets := r.markets, sellOrderSales := r.sellOrderSales);
      AccumulateSaleGrows(rest, nft.market, id, s.sellOrders[nft.currentSellOrder.value].currency, price, b);
      forall u | u in r.markets
        ensures RatesNonNegative(r.markets[u])
      {
        if u == nft.market {
          var x := r.markets[u].(totalSales := 0);
          assert x.fee == r.markets[u].fee && x.creatorFee == r.markets[u].creatorFee
                 && x.reflectionFee == r.markets[u].reflectionFee;
        }
      }
    }
  }

  /** Along a stream with no negative price or rate, the statistics are append-only. */
  lemma {:induction false} RunStatsGrow(s: State, evs: seq<Event>)
    requires NonNegativeRates(s)
    requires forall j :: 0 <= j < |evs| ==> NonNegativeEvent(evs[j])
    ensures StatsGrow(s, Run(s, evs))
    ensures NonNegativeRates(Run(s, evs))
    decreases |evs|
  {
    if |evs| > 0 {
      var s1 := Step(s, evs[0]);
      StepStatsGrow(s, evs[0]);
      assert forall j :: 0 <= j < |evs[1..]| ==> evs[1..][j] == evs[j + 1];
      RunStatsGrow(s1, evs[1..]);
      StatsGrowTransitive(s, s1, Run(s1, evs[1..]));
    }
  }

  // ---------------------------------------------------------------------------
  // A sale always reaches both buckets

  /** In a well-formed store the buckets of an auction's currency exist, so the defensive
      bucket checks of the auction-sale handler never fire: the sale adds its price and its
      fees, at the market's current rates, to both buckets. */
  lemma AuctionSaleAddsToBuckets(s: State, m: Meta, t: Address, i: nat, bidder: Address, amount: int)
    requires WellFormed(s)
    requires AuctionSaleApplies(s, NftId(t, i))
    ensures var id := NftId(t, i);
            var nft := s.nfts[id];
            var market := s.markets[nft.market];
            var currency := s.auctions[nft.currentAuction.value].currency;
            var r := HandleAuctionSale(s, m, t, i, bidder, amount);
            && (nft.market, currency) in s.marketStats && (id, currency) in s.nftStats
            && BucketTakesSale(s.marketStats[(nft.market, currency)], r.marketStats[(nft.market, currency)], amount, market)
            && NftBucketTakesSale(s.nftStats[(id, currency)], r.nftStats[(id, currency)], amount, market)
  {
    var id := NftId(t, i);
    var nft := s.nfts[id];
    var aid := nft.currentAuction.value;
    assert NftWellFormed(s, id);
    assert AuctionWellFormed(s, aid);
  }

  /** The same for a sell-order sale. */
  lemma SaleAddsToBuckets(s: State, m: Meta, t: Address, i: nat, buyer: Address, price: int)
    requires WellFormed(s)
    requires SellOrderSaleApplies(s, NftId(t, i))
    ensures var id := NftId(t, i);
            var nft := s.nfts[id];
            var market := s.markets[nft.market];
            var currency := s.sellOrders[nft.currentSellOrder.value].currency;
            var r := HandleSale(s, m, t, i, buyer, price);
            && (nft.market, currency) in s.marketStats && (id, currency) in s.nftStats
            && BucketTakesSale(s.marketStats[(nft.market, currency)], r.marketStats[(nft.market, currency)], price, market)
            && NftBucketTakesSale(s.nftStats[(id, currency)], r.nftStats[(id, currency)], price, market)
  {
    var id := NftId(t, i);
    var nft := s.nfts[id];
    var oid := nft.currentSellOrder.value;
    assert NftWellFormed(s, id);
    assert SellOrderWellFormed(s, oid);
  }

  /** `b` is `a` with one sale at `price` added at `market`'s rates. */
  predicate BucketTakesSale(a: MarketCurrencyStats, b: MarketCurrencyStats, price: int, market: Market)
  {
    && b.volume == a.volume + price
    && b.fees == a.fees + ScaledFee(price, market.fee)
    && b.creatorFees == a.creatorFees + ScaledFee(price, market.creatorFee)
    && b.reflectionFees == a.reflectionFees + ScaledFee(price, market.reflectionFee)
    && b.market == a.market && b.currency == a.currency && b.floor == a.floor
  }

  predicate NftBucketTakesSale(a: NftCurrencyStats, b: NftCurrencyStats, price: int, market: Market)
  {
    && b.volume == a.volume + price
    && b.fees == a.fees + ScaledFee(price, market.fee)
    && b.creatorFees == a.creatorFees + ScaledFee(price, market.creatorFee)
    && b.reflectionFees == a.reflectionFees + ScaledFee(price, market.reflectionFee)
    && b.nft == a.nft && b.currency == a.currency
  }

  /** A well-formed store's floors are all 0: no handler ever sets one. */
  lemma FloorIsZero(s: State, k: MarketBucket)
    requires WellFormed(s)
    requires k in s.marketStats
    ensures s.marketStats[k].floor == 0
  {
  }
}
