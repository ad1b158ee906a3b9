/** Listing numbers and the counters behind them.

    An NFT's auctions are numbered 1, 2, ... in creation order from its
    `totalAuctions` counter, and its sell orders likewise from `totalSellOrders`.
    No handler lowers either counter, so a number is never handed out twice:
    after N creations on an NFT, its listings are exactly numbers 1..N.
 */
module Numbering {
  import opened Entities
  import opened Store
  import opened Handlers
  import opened Stream
  import opened Invariants

  /** In a well-formed store the auctions of `n` are exactly numbers 1..totalAuctions, and
      its sell orders exactly 1..totalSellOrders. */
  lemma ListingNumbers(s: State, n: NftId, k: nat)
    requires WellFormed(s)
    ensures ListingId(n, k) in s.auctions <==> 1 <= k <= AuctionsOf(s, n)
    ensures ListingId(n, k) in s.sellOrders <==> 1 <= k <= SellOrdersOf(s, n)
  {
    var a := ListingId(n, k);
    if a in s.auctions {
      assert AuctionWellFormed(s, a);
    }
    if a in s.sellOrders {
      assert SellOrderWellFormed(s, a);
    }
  }

  /** Adding a row under a new key grows the table by exactly one. */
  lemma AddRowGrowsTable<K, V>(m: map<K, V>, k: K, v: V)
    requires k !in m
    ensures |m[k := v]| == |m| + 1
  {
    assert m[k := v].Keys == m.Keys + {k};
  }

  lemma AuctionCreatedAddsOneRow(s: State, m: Meta, t: Address, i: nat, seller: Address, c: Address, endsAt: int,
                                 bid: int)
    requires t in s.markets && ListingId(NftId(t, i), AuctionsOf(s, NftId(t, i)) + 1) !in s.auctions
    ensures |HandleAuctionCreated(s, m, t, i, seller, c, endsAt, bid).auctions| == |s.auctions| + 1
  {
    var id := NftId(t, i);
    AddRowGrowsTable(s.auctions, ListingId(id, AuctionsOf(s, id) + 1),
                     Auction(seller, t, id, c, m.timestamp, false, endsAt, bid, bid, None));
  }

  lemma SellOrderCreatedAddsOneRow(s: State, m: Meta, t: Address, i: nat, seller: Address, c: Address, price: int)
    requires t in s.markets && ListingId(NftId(t, i), SellOrdersOf(s, NftId(t, i)) + 1) !in s.sellOrders
    ensures |HandleSellOrderCreated(s, m, t, i, seller, c, price).sellOrders| == |s.sellOrders| + 1
  {
    var id := NftId(t, i);
    AddRowGrowsTable(s.sellOrders, ListingId(id, SellOrdersOf(s, id) + 1), SellOrder(seller, t, id, c, price, m.timestamp));
  }

  /** The number an AuctionCreated hands out is not in use, so no existing auction is
      overwritten and the table grows by exactly one row. */
  lemma CreatedAuctionIsFresh(s: State, m: Meta, t: Address, i: nat, seller: Address, c: Address, endsAt: int, bid: int)
    requires WellFormed(s)
    requires t in s.markets
    ensures var id := NftId(t, i);
            ListingId(id, AuctionsOf(s, id) + 1) !in s.auctions
    ensures |HandleAuctionCreated(s, m, t, i, seller, c, endsAt, bid).auctions| == |s.auctions| + 1
  {
    var id := NftId(t, i);
    var aid := ListingId(id, AuctionsOf(s, id) + 1);
    assert aid !in s.auctions by {
      ListingNumbers(s, id, AuctionsOf(s, id) + 1);
    }
    AuctionCreatedAddsOneRow(s, m, t, i, seller, c, endsAt, bid);
  }

  /** The number a SellOrderCreated hands out is not in use. */
  lemma CreatedSellOrderIsFresh(s: State, m: Meta, t: Address, i: nat, seller: Address, c: Address, price: int)
    requires WellFormed(s)
    requires t in s.markets
    ensures var id := NftId(t, i);
            ListingId(id, SellOrdersOf(s, id) + 1) !in s.sellOrders
    ensures |HandleSellOrderCreated(s, m, t, i, seller, c, price).sellOrders| == |s.sellOrders| + 1
  {
    var id := NftId(t, i);
    var oid := ListingId(id, SellOrdersOf(s, id) + 1);
    assert oid !in s.sellOrders by {
      ListingNumbers(s, id, SellOrdersOf(s, id) + 1);
    }
    SellOrderCreatedAddsOneRow(s, m, t, i, seller, c, price);
  }

  // ---------------------------------------------------------------------------
  // Counting creations along a stream

  predicate CreatesAuctionOn(e: Event, id: NftId)
  {
    e.AuctionCreated? && NftId(e.token, e.tokenId) == id
  }

  predicate CreatesSellOrderOn(e: Event, id: NftId)
  {
    e.SellOrderCreated? && NftId(e.token, e.tokenId) == id
  }

  /** How many events of the stream create an auction of `id`. */
  function AuctionsCreated(evs: seq<Event>, id: NftId): nat
  {
    if |evs| == 0 then 0
    else (if CreatesAuctionOn(evs[0], id) then 1 else 0) + AuctionsCreated(evs[1..], id)
  }

  /** How many events of the stream create a sell order of `id`. */
  function SellOrdersCreated(evs: seq<Event>, id: NftId): nat
  {
    if |evs| == 0 then 0
    else (if CreatesSellOrderOn(evs[0], id) then 1 else 0) + SellOrdersCreated(evs[1..], id)
  }

  /** Once the NFT's market exists, one event raises its auction counter by one exactly when
      it creates an auction of that NFT, and its sell-order counter likewise; no event lowers
      either. */
  lemma StepCounters(s: State, e: Event, id: NftId)
    requires id.token in s.markets
    ensures AuctionsOf(Step(s, e), id) == AuctionsOf(s, id) + (if CreatesAuctionOn(e, id) then 1 else 0)
    ensures SellOrdersOf(Step(s, e), id) == SellOrdersOf(s, id) + (if CreatesSellOrderOn(e, id) then 1 else 0)
  {
    if e.AuctionCreated? || e.AuctionSaleEvent? || e.AuctionBidEvent? || e.AuctionEnd? {
      AuctionEventCounters(s, e, id);
    } else if e.SellOrderCreated? || e.SellOrderCanceled? || e.SaleEvent? || e.WithdrawNft? {
      SellOrderEventCounters(s, e, id);
    } else {
      MarketEventCounters(s, e, id);
    }
  }

  /** `StepCounters` for the currency and market events. */
  lemma MarketEventCounters(s: State, e: Event, id: NftId)
    requires id.token in s.markets
    requires e.CurrencyAdded? || e.MarketCreated? || e.MarketFeeChanged? || e.MarketStateChanged?
    ensures AuctionsOf(Step(s, e), id) == AuctionsOf(s, id)
    ensures SellOrdersOf(Step(s, e), id) == SellOrdersOf(s, id)
  {
  }

  /** `StepCounters` for the auction events. */
  lemma AuctionEventCounters(s: State, e: Event, id: NftId)
    requires id.token in s.markets
    requires e.AuctionCreated? || e.AuctionSaleEvent? || e.AuctionBidEvent? || e.AuctionEnd?
    ensures AuctionsOf(Step(s, e), id) == AuctionsOf(s, id) + (if CreatesAuctionOn(e, id) then 1 else 0)
    ensures SellOrdersOf(Step(s, e), id) == SellOrdersOf(s, id)
  {
    if e.AuctionCreated? {
      AuctionCreatedCounters(s, e.meta, e.token, e.tokenId, e.seller, e.currency, e.endsAt, e.initialBid, id);
    } else if e.AuctionSaleEvent? {
      AuctionSaleCounters(s, e.meta, e.token, e.tokenId, e.bidder, e.amount, id);
    }
  }

  /** `StepCounters` for the sell-order events. */
  lemma SellOrderEventCounters(s: State, e: Event, id: NftId)
    requires id.token in s.markets
    requires e.SellOrderCreated? || e.SellOrderCanceled? || e.SaleEvent? || e.WithdrawNft?
    ensures AuctionsOf(Step(s, e), id) == AuctionsOf(s, id)
    ensures SellOrdersOf(Step(s, e), id) == SellOrdersOf(s, id) + (if CreatesSellOrderOn(e, id) then 1 else 0)
  {
    if e.SellOrderCreated? {
      SellOrderCreatedCounters(s, e.meta, e.token, e.tokenId, e.seller, e.currency, e.price, id);
    } else if e.SaleEvent? {
      SaleCounters(s, e.meta, e.token, e.tokenId, e.buyer, e.price, id);
    }
  }

  lemma AuctionCreatedCounters(s: State, m: Meta, t: Address, i: nat, seller: Address, c: Address, endsAt: int, bid: int,
                                id: NftId)
    requires id.token in s.markets
    ensures var r := HandleAuctionCreated(s, m, t, i, seller, c, endsAt, bid);
            && AuctionsOf(r, id) == AuctionsOf(s, id) + (if NftId(t, i) == id then 1 else 0)
            && SellOrdersOf(r, id) == SellOrdersOf(s, id)
  {
    var r := HandleAuctionCreated(s, m, t, i, seller, c, endsAt, bid);
    if t in s.markets && id == NftId(t, i) {
      var x := r.nfts[id].(currentAuction := None, currentCurrency := None, currentPrice := None, totalAuctions := 0);
      assert x.totalSellOrders == r.nfts[id].totalSellOrders;
    }
  }

  lemma SellOrderCreatedCounters(s: State, m: Meta, t: Address, i: nat, seller: Address, c: Address, price: int, id: NftId)
    requires id.token in s.markets
    ensures var r := HandleSellOrderCreated(s, m, t, i, seller, c, price);
            && SellOrdersOf(r, id) == SellOrdersOf(s, id) + (if NftId(t, i) == id then 1 else 0)
            && AuctionsOf(r, id) == AuctionsOf(s, id)
  {
    var r := HandleSellOrderCreated(s, m, t, i, seller, c, price);
    if t in s.markets && id == NftId(t, i) {
      var x := r.nfts[id].(currentSellOrder := None, currentCurrency := None, currentPrice := None, totalSellOrders := 0);
      assert x.totalAuctions == r.nfts[id].totalAuctions;
    }
  }

  lemma AuctionSaleCounters(s: State, m: Meta, t: Address, i: nat, bidder: Address, amount: int, id: NftId)
    ensures AuctionsOf(HandleAuctionSale(s, m, t, i, bidder, amount), id) == AuctionsOf(s, id)
    ensures SellOrdersOf(HandleAuctionSale(s, m, t, i, bidder, amount), id) == SellOrdersOf(s, id)
  {
    var r := HandleAuctionSale(s, m, t, i, bidder, amount);
    if AuctionSaleApplies(s, NftId(t, i)) && id == NftId(t, i) {
      assert r.nfts[id].(currentOwner := None, lastSale := None, totalSales := 0).totalAuctions == r.nfts[id].totalAuctions;
    }
  }

  lemma SaleCounters(s: State, m: Meta, t: Address, i: nat, buyer: Address, price: int, id: NftId)
    ensures AuctionsOf(HandleSale(s, m, t, i, buyer, price), id) == AuctionsOf(s, id)
    ensures SellOrdersOf(HandleSale(s, m, t, i, buyer, price), id) == SellOrdersOf(s, id)
  {
    var r := HandleSale(s, m, t, i, buyer, price);
    if SellOrderSaleApplies(s, NftId(t, i)) && id == NftId(t, i) {
      assert r.nfts[id].(currentSellOrder := None, currentCurrency := None, currentPrice := None,
                         lastSale := None, totalSales := 0).totalSellOrders == r.nfts[id].totalSellOrders;
    }
  }

  /** Once the NFT's market exists, along a stream the NFT's counters rise by exactly the
      number of creations on it. */
  lemma {:induction false} RunCounters(s: State, evs: seq<Event>, id: NftId)
    requires id.token in s.markets
    ensures AuctionsOf(Run(s, evs), id) == AuctionsOf(s, id) + AuctionsCreated(evs, id)
    ensures SellOrdersOf(Run(s, evs), id) == SellOrdersOf(s, id) + SellOrdersCreated(evs, id)
    decreases |evs|
  {
    if |evs| > 0 {
      StepCounters(s, evs[0], id);
      StepGrows(s, evs[0]);
      RunCounters(Step(s, evs[0]), evs[1..], id);
    }
  }

  /** From a well-formed store in which the NFT's market exists and the NFT has no row, after
      a stream of N auction creations and M sell-order creations on it, its auctions are
      exactly numbers 1..N and its sell orders exactly 1..M: no number is skipped and none is
      reused. */
  lemma NumbersAfterStream(s: State, evs: seq<Event>, id: NftId, k: nat)
    requires WellFormed(s)
    requires id.token in s.markets && id !in s.nfts
    ensures ListingId(id, k) in Run(s, evs).auctions <==> 1 <= k <= AuctionsCreated(evs, id)
    ensures ListingId(id, k) in Run(s, evs).sellOrders <==> 1 <= k <= SellOrdersCreated(evs, id)
  {
    RunCounters(s, evs, id);
    RunWellFormed(s, evs);
    ListingNumbers(Run(s, evs), id, k);
  }

  // ---------------------------------------------------------------------------
  // Market counters

  /** The market's auction counter, 0 before the market exists. */
  function MarketAuctionsOf(s: State, t: Address): nat
  {
    if t in s.markets then s.markets[t].totalAuctions else 0
  }

  /** The market's sell-order counter, 0 before the market exists. */
  function MarketSellOrdersOf(s: State, t: Address): nat
  {
    if t in s.markets then s.markets[t].totalSellOrders else 0
  }

  /** A MarketCreated for `t`, which resets the market's totals. */
  predicate ResetsMarket(e: Event, t: Address)
  {
    e.MarketCreated? && e.token == t
  }

  /** How many events of the stream create an auction on market `t`. */
  function MarketAuctionsCreated(evs: seq<Event>, t: Address): nat
  {
    if |evs| == 0 then 0
    else (if evs[0].AuctionCreated? && evs[0].token == t then 1 else 0) + MarketAuctionsCreated(evs[1..], t)
  }

  /** How many events of the stream create a sell order on market `t`. */
  function MarketSellOrdersCreated(evs: seq<Event>, t: Address): nat
  {
    if |evs| == 0 then 0
    else (if evs[0].SellOrderCreated? && evs[0].token == t then 1 else 0) + MarketSellOrdersCreated(evs[1..], t)
  }

  /** Short of a reset, one event raises an existing market's auction and sell-order counters
      by one exactly when it creates that kind of listing on the market. */
  lemma StepMarketCounters(s: State, e: Event, t: Address)
    requires t in s.markets && !ResetsMarket(e, t)
    ensures t in Step(s, e).markets
    ensures MarketAuctionsOf(Step(s, e), t)
              == MarketAuctionsOf(s, t) + (if e.AuctionCreated? && e.token == t then 1 else 0)
    ensures MarketSellOrdersOf(Step(s, e), t)
              == MarketSellOrdersOf(s, t) + (if e.SellOrderCreated? && e.token == t then 1 else 0)
  {
    if e.AuctionCreated? || e.AuctionSaleEvent? || e.AuctionBidEvent? || e.AuctionEnd? {
      AuctionEventMarketCounters(s, e, t);
    } else if e.SellOrderCreated? || e.SellOrderCanceled? || e.SaleEvent? || e.WithdrawNft? {
      SellOrderEventMarketCounters(s, e, t);
    } else {
      MarketEventMarketCounters(s, e, t);
    }
  }

  /** `StepMarketCounters` for the currency and market events. */
  lemma MarketEventMarketCounters(s: State, e: Event, t: Address)
    requires t in s.markets && !ResetsMarket(e, t)
    requires e.CurrencyAdded? || e.MarketCreated? || e.MarketFeeChanged? || e.MarketStateChanged?
    ensures t in Step(s, e).markets
    ensures MarketAuctionsOf(Step(s, e), t) == MarketAuctionsOf(s, t)
    ensures MarketSellOrdersOf(Step(s, e), t) == MarketSellOrdersOf(s, t)
  {
  }

  /** `StepMarketCounters` for the auction events. */
  lemma AuctionEventMarketCounters(s: State, e: Event, t: Address)
    requires t in s.markets
    requires e.AuctionCreated? || e.AuctionSaleEvent? || e.AuctionBidEvent? || e.AuctionEnd?
    ensures t in Step(s, e).markets
    ensures MarketAuctionsOf(Step(s, e), t) == MarketAuctionsOf(s, t) + (if e.AuctionCreated? && e.token == t then 1 else 0)
    ensures MarketSellOrdersOf(Step(s, e), t) == MarketSellOrdersOf(s, t)
  {
    if e.AuctionCreated? {
      AuctionCreatedMarketCounters(s, e.meta, e.token, e.tokenId, e.seller, e.currency, e.endsAt, e.initialBid, t);
    } else if e.AuctionSaleEvent? {
      AuctionSaleMarketCounters(s, e.meta, e.token, e.tokenId, e.bidder, e.amount, t);
    }
  }

  /** `StepMarketCounters` for the sell-order events. */
  lemma SellOrderEventMarketCounters(s: State, e: Event, t: Address)
    requires t in s.markets
    requires e.SellOrderCreated? || e.SellOrderCanceled? || e.SaleEvent? || e.WithdrawNft?
    ensures t in Step(s, e).markets
    ensures MarketAuctionsOf(Step(s, e), t) == MarketAuctionsOf(s, t)
    ensures MarketSellOrdersOf(Step(s, e), t) == MarketSellOrdersOf(s, t) + (if e.SellOrderCreated? && e.token == t then 1 else 0)
  {
    if e.SellOrderCreated? {
      SellOrderCreatedMarketCounters(s, e.meta, e.token, e.tokenId, e.seller, e.currency, e.price, t);
    } else if e.SaleEvent? {
      SaleMarketCounters(s, e.meta, e.token, e.tokenId, e.buyer, e.price, t);
    }
  }

  lemma AuctionCreatedMarketCounters(s: State, m: Meta, t': Address, i: nat, seller: Address, c: Address, endsAt: int,
                                     bid: int, t: Address)
    requires t in s.markets
    ensures var r := HandleAuctionCreated(s, m, t', i, seller, c, endsAt, bid);
            && t in r.markets
            && MarketAuctionsOf(r, t) == MarketAuctionsOf(s, t) + (if t' == t then 1 else 0)
            && MarketSellOrdersOf(r, t) == MarketSellOrdersOf(s, t)
  {
    if t' in s.markets {
      AuctionCreatedRegisters(s, m, t', i, seller, c, endsAt, bid);
    }
  }

  lemma SellOrderCreatedMarketCounters(s: State, m: Meta, t': Address, i: nat, seller: Address, c: Address, price: int,
                                       t: Address)
    requires t in s.markets
    ensures var r := HandleSellOrderCreated(s, m, t', i, seller, c, price);
            && t in r.markets
            && MarketSellOrdersOf(r, t) == MarketSellOrdersOf(s, t) + (if t' == t then 1 else 0)
            && MarketAuctionsOf(r, t) == MarketAuctionsOf(s, t)
  {
    if t' in s.markets {
      SellOrderCreatedRegisters(s, m, t', i, seller, c, price);
    }
  }

  lemma AuctionSaleMarketCounters(s: State, m: Meta, t': Address, i: nat, bidder: Address, amount: int, t: Address)
    requires t in s.markets
    ensures t in HandleAuctionSale(s, m, t', i, bidder, amount).markets
    ensures MarketAuctionsOf(HandleAuctionSale(s, m, t', i, bidder, amount), t) == MarketAuctionsOf(s, t)
    ensures MarketSellOrdersOf(HandleAuctionSale(s, m, t', i, bidder, amount), t) == MarketSellOrdersOf(s, t)
  {
    var r := HandleAuctionSale(s, m, t', i, bidder, amount);
    if AuctionSaleApplies(s, NftId(t', i)) && t == s.nfts[NftId(t', i)].market {
      assert r.markets[t].(totalSales := 0).totalAuctions == r.markets[t].totalAuctions;
      assert r.markets[t].(totalSales := 0).totalSellOrders == r.markets[t].totalSellOrders;
    }
  }

  lemma SaleMarketCounters(s: State, m: Meta, t': Address, i: nat, buyer: Address, price: int, t: Address)
    requires t in s.markets
    ensures t in HandleSale(s, m, t', i, buyer, price).markets
    ensures MarketAuctionsOf(HandleSale(s, m, t', i, buyer, price), t) == MarketAuctionsOf(s, t)
    ensures MarketSellOrdersOf(HandleSale(s, m, t', i, buyer, price), t) == MarketSellOrdersOf(s, t)
  {
    var r := HandleSale(s, m, t', i, buyer, price);
    if SellOrderSaleApplies(s, NftId(t', i)) && t == s.nfts[NftId(t', i)].market {
      assert r.markets[t].(totalSales := 0).totalAuctions == r.markets[t].totalAuctions;
      assert r.markets[t].(totalSales := 0).totalSellOrders == r.markets[t].totalSellOrders;
    }
  }

  /** Once market `t` exists, along a stream with no MarketCreated for `t` the market's counters rise by exactly the
      number of listings created on it. */
  lemma {:induction false} RunMarketCounters(s: State, evs: seq<Event>, t: Address)
    requires t in s.markets
    requires forall j :: 0 <= j < |evs| ==> !ResetsMarket(evs[j], t)
    ensures MarketAuctionsOf(Run(s, evs), t) == MarketAuctionsOf(s, t) + MarketAuctionsCreated(evs, t)
    ensures MarketSellOrdersOf(Run(s, evs), t) == MarketSellOrdersOf(s, t) + MarketSellOrdersCreated(evs, t)
    decreases |evs|
  {
    if |evs| > 0 {
      StepMarketCounters(s, evs[0], t);
      assert forall j :: 0 <= j < |evs[1..]| ==> evs[1..][j] == evs[j + 1];
      RunMarketCounters(Step(s, evs[0]), evs[1..], t);
    }
  }
}
