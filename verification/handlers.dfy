/** The twelve event handlers of the marketplace projection, each a pure
    function from the store before the event to the store after it.

    A handler whose required parent row is missing returns the store
    unchanged ("silent skip"). A handler that skips part-way, after it has
    already saved some rows, keeps those rows: only the sale handlers do this,
    when a statistics bucket is missing.
 */
module Handlers {
  import opened Entities
  import opened Fees
  import opened Store

  /** What every event carries besides its parameters: block timestamp, transaction hash, log index. */
  datatype Meta = Meta(timestamp: int, txHash: nat, logIndex: nat)

  /** Key of the bid or sale row recorded for an event. */
  function RowId(m: Meta): EventId
  {
    EventId(m.txHash, m.logIndex)
  }

  /** The NFT's auction counter, 0 before its row exists. */
  function AuctionsOf(s: State, id: NftId): nat
  {
    if id in s.nfts then s.nfts[id].totalAuctions else 0
  }

  /** The NFT's sell-order counter, 0 before its row exists. */
  function SellOrdersOf(s: State, id: NftId): nat
  {
    if id in s.nfts then s.nfts[id].totalSellOrders else 0
  }

  /** The NFT exists and its auction slot names an existing Auction row. */
  predicate HasLiveAuction(s: State, id: NftId)
  {
    id in s.nfts && s.nfts[id].currentAuction.Some? && s.nfts[id].currentAuction.value in s.auctions
  }

  /** The NFT exists and its sell-order slot names an existing SellOrder row. */
  predicate HasLiveSellOrder(s: State, id: NftId)
  {
    id in s.nfts && s.nfts[id].currentSellOrder.Some? && s.nfts[id].currentSellOrder.value in s.sellOrders
  }

  /** The three rows an auction sale needs: the NFT, its current Auction and its Market. */
  predicate AuctionSaleApplies(s: State, id: NftId)
  {
    HasLiveAuction(s, id) && s.nfts[id].market in s.markets
  }

  /** The three rows a sell-order sale or cancellation needs: the NFT, its current SellOrder and its Market. */
  predicate SellOrderSaleApplies(s: State, id: NftId)
  {
    HasLiveSellOrder(s, id) && s.nfts[id].market in s.markets
  }

  /** No handler deletes a row, and no handler lowers an NFT's auction, sell-order or sale counter. */
  ghost predicate Grows(s: State, r: State)
  {
    && s.markets.Keys <= r.markets.Keys
    && s.users.Keys <= r.users.Keys
    && s.currencies.Keys <= r.currencies.Keys
    && s.nfts.Keys <= r.nfts.Keys
    && s.auctions.Keys <= r.auctions.Keys
    && s.auctionBids.Keys <= r.auctionBids.Keys
    && s.auctionSales.Keys <= r.auctionSales.Keys
    && s.sellOrders.Keys <= r.sellOrders.Keys
    && s.sellOrderSales.Keys <= r.sellOrderSales.Keys
    && s.marketStats.Keys <= r.marketStats.Keys
    && s.nftStats.Keys <= r.nftStats.Keys
    && (forall n :: n in s.nfts ==>
          && s.nfts[n].totalAuctions <= r.nfts[n].totalAuctions
          && s.nfts[n].totalSellOrders <= r.nfts[n].totalSellOrders
          && s.nfts[n].totalSales <= r.nfts[n].totalSales)
  }

  /** The fee breakdown a market charges on `price` at its current rates. */
  function MarketCharge(m: Market, price: int): FeeBreakdown
  {
    Charge(price, m.fee, m.creatorFee, m.reflectionFee)
  }

  // ---------------------------------------------------------------------------
  // Currency and market events

  /** CurrencyAdded: (re)write the Currency row of `currency`; nothing else changes. */
  function HandleCurrencyAdded(s: State, currency: Address): (r: State)
    ensures currency in r.currencies && r.currencies[currency].address == currency
    ensures r.currencies.Keys == s.currencies.Keys + {currency}
    ensures forall c :: c in s.currencies && c != currency ==> r.currencies[c] == s.currencies[c]
    ensures r == s.(currencies := r.currencies)
  {
    s.(currencies := s.currencies[currency := Currency(currency)])
  }

  /** MarketCreated: the market of `token` holds the event's rates, is active and has every
      total at 0, even when a market of that token already existed. */
  function HandleMarketCreated(s: State, token: Address, fee: int, creatorFee: int, reflectionFee: int): (r: State)
    ensures token in r.markets
    ensures r.markets[token].fee == fee && r.markets[token].creatorFee == creatorFee
            && r.markets[token].reflectionFee == reflectionFee
    ensures r.markets[token].active
    ensures r.markets[token].totalNfts == 0 && r.markets[token].totalAuctions == 0
            && r.markets[token].totalSellOrders == 0 && r.markets[token].totalSales == 0
    ensures r.markets.Keys == s.markets.Keys + {token}
    ensures forall t :: t in s.markets && t != token ==> r.markets[t] == s.markets[t]
    ensures r == s.(markets := r.markets)
  {
    s.(markets := s.markets[token := Market(fee, creatorFee, reflectionFee, true, 0, 0, 0, 0)])
  }

  /** MarketFeeChanged: only the three rates of an existing market change. */
  function HandleMarketFeeChanged(s: State, token: Address, fee: int, creatorFee: int, reflectionFee: int): (r: State)
    ensures token !in s.markets ==> r == s
    ensures r.markets.Keys == s.markets.Keys
    ensures forall t :: t in s.markets && t != token ==> r.markets[t] == s.markets[t]
    ensures token in s.markets ==>
              && r.markets[token].fee == fee
              && r.markets[token].creatorFee == creatorFee
              && r.markets[token].reflectionFee == reflectionFee
              && r.markets[token].(fee := 0, creatorFee := 0, reflectionFee := 0)
                 == s.markets[token].(fee := 0, creatorFee := 0, reflectionFee := 0)
    ensures r == s.(markets := r.markets)
  {
    if token !in s.markets then s
    else
      var m := s.markets[token];
      s.(markets := s.markets[token := m.(fee := fee, creatorFee := creatorFee, reflectionFee := reflectionFee)])
  }

  /** MarketStateChanged: only the `active` flag of an existing market changes. */
  function HandleMarketStateChanged(s: State, token: Address, isActive: bool): (r: State)
    ensures token !in s.markets ==> r == s
    ensures r.markets.Keys == s.markets.Keys
    ensures forall t :: t in s.markets && t != token ==> r.markets[t] == s.markets[t]
    ensures token in s.markets ==>
              r.markets[token].active == isActive
              && r.markets[token].(active := true) == s.markets[token].(active := true)
    ensures r == s.(markets := r.markets)
  {
    if token !in s.markets then s
    else s.(markets := s.markets[token := s.markets[token].(active := isActive)])
  }

  // ---------------------------------------------------------------------------
  // Auctions

  /** AuctionCreated: register the seller, get-or-create the Nft, record Auction number
      `totalAuctions + 1`, point the NFT's slot at it, bump the NFT and market counters and
      open the (market, currency) and (nft, currency) buckets. Skipped without a market. */
  function HandleAuctionCreated(s: State, meta: Meta, token: Address, tokenId: nat, seller: Address,
                                currency: Address, endsAt: int, initialBid: int): (r: State)
    ensures token !in s.markets ==> r == s
    // the new auction takes the next sequence number and its fields come from the event
    ensures token in s.markets ==>
              var id := NftId(token, tokenId);
              var aid := ListingId(id, AuctionsOf(s, id) + 1);
              r.auctions == s.auctions[aid := Auction(seller, token, id, currency, meta.timestamp, false, endsAt,
                                                      initialBid, initialBid, None)]
    // the NFT row, created if missing: slot set, auction counter up by one, nothing else touched
    ensures token in s.markets ==>
              var id := NftId(token, tokenId);
              var aid := ListingId(id, AuctionsOf(s, id) + 1);
              var nft := if id in s.nfts then s.nfts[id] else NewNft(token);
              r.nfts == s.nfts[id := nft.(currentAuction := Some(aid), currentCurrency := Some(currency),
                                          currentPrice := Some(initialBid), totalAuctions := nft.totalAuctions + 1)]
    ensures r == s.(users := r.users, nfts := r.nfts, markets := r.markets, auctions := r.auctions,
                    marketStats := r.marketStats, nftStats := r.nftStats)
  {
    if token !in s.markets then s
    else
      var id := NftId(token, tokenId);
      var auction := Auction(seller, token, id, currency, meta.timestamp, false, endsAt, initialBid, initialBid, None);
      OpenBuckets(PlaceAuction(OpenNft(WithUser(s, seller), id), id, auction), token, id, currency)
  }

  /** The middle of AuctionCreated: store `x` as auction number `totalAuctions + 1` of the NFT,
      point the NFT's slot, currency and price at it, and count it on the NFT and the market. */
  function PlaceAuction(s: State, id: NftId, x: Auction): (r: State)
    requires id in s.nfts && id.token in s.markets
    ensures var aid := ListingId(id, s.nfts[id].totalAuctions + 1);
            && r.auctions == s.auctions[aid := x]
            && id in r.nfts
            && r.nfts == s.nfts[id := r.nfts[id]]
            && r.nfts[id].currentAuction == Some(aid)
            && r.nfts[id].currentCurrency == Some(x.currency)
            && r.nfts[id].currentPrice == Some(x.highestBid)
            && r.nfts[id].totalAuctions == s.nfts[id].totalAuctions + 1
            && r.nfts[id].(currentAuction := None, currentCurrency := None, currentPrice := None, totalAuctions := 0)
               == s.nfts[id].(currentAuction := None, currentCurrency := None, currentPrice := None, totalAuctions := 0)
    ensures && id.token in r.markets
            && r.markets == s.markets[id.token := r.markets[id.token]]
            && r.markets[id.token] == s.markets[id.token].(totalAuctions := s.markets[id.token].totalAuctions + 1)
    ensures r == s.(auctions := r.auctions, nfts := r.nfts, markets := r.markets)
  {
    var nft := s.nfts[id];
    var market := s.markets[id.token];
    var aid := ListingId(id, nft.totalAuctions + 1);
    s.(auctions := s.auctions[aid := x],
       nfts := s.nfts[id := nft.(currentAuction := Some(aid), currentCurrency := Some(x.currency),
                                 currentPrice := Some(x.highestBid), totalAuctions := nft.totalAuctions + 1)],
       markets := s.markets[id.token := market.(totalAuctions := market.totalAuctions + 1)])
  }

  /** The rest of AuctionCreated: the market counts a new NFT (when the NFT had no row) and the
      new auction; the seller is registered; the (market, currency) and (nft, currency)
      buckets exist afterwards, a missing one zero-initialised and an existing one untouched. */
  lemma AuctionCreatedRegisters(s: State, meta: Meta, token: Address, tokenId: nat, seller: Address,
                               currency: Address, endsAt: int, initialBid: int)
    requires token in s.markets
    ensures var r := HandleAuctionCreated(s, meta, token, tokenId, seller, currency, endsAt, initialBid);
            var id := NftId(token, tokenId);
            var market := s.markets[token];
            r.markets == s.markets[token := market.(totalNfts := market.totalNfts + (if id in s.nfts then 0 else 1),
                                                    totalAuctions := market.totalAuctions + 1)]
    ensures var r := HandleAuctionCreated(s, meta, token, tokenId, seller, currency, endsAt, initialBid);
            var id := NftId(token, tokenId);
            && r.users == GetUser(s, seller).0.users
            && r.marketStats == GetOrCreate(s.marketStats, (token, currency), ZeroMarketStats(token, currency))
            && r.nftStats == GetOrCreate(s.nftStats, (id, currency), ZeroNftStats(id, currency))
  {
  }

  /** AuctionSale: record the sale with its fee breakdown, make the buyer the owner, bump
      the sale counters and add the sale to the currency buckets. The listing slot is left
      as it was. Skipped without the NFT, its current auction or its market. */
  function HandleAuctionSale(s: State, meta: Meta, token: Address, tokenId: nat, bidder: Address, amount: int): (r: State)
    ensures !AuctionSaleApplies(s, NftId(token, tokenId)) ==> r == s
    // the sale row: price from the event, fees at the market's current rates, seller and currency from the auction
    ensures AuctionSaleApplies(s, NftId(token, tokenId)) ==>
              var id := NftId(token, tokenId);
              var aid := s.nfts[id].currentAuction.value;
              var market := s.markets[s.nfts[id].market];
              && RowId(meta) in r.auctionSales
              && r.auctionSales[RowId(meta)] ==
                 AuctionSale(id, meta.timestamp, aid, s.auctions[aid].seller, bidder, s.auctions[aid].currency, amount,
                             ScaledFee(amount, market.fee), ScaledFee(amount, market.creatorFee),
                             ScaledFee(amount, market.reflectionFee))
              && r.auctionSales.Keys == s.auctionSales.Keys + {RowId(meta)}
              && (forall k :: k in s.auctionSales && k != RowId(meta) ==> r.auctionSales[k] == s.auctionSales[k])
    // the NFT: new owner, last sale, one more sale; the listing slot is not cleared
    ensures AuctionSaleApplies(s, NftId(token, tokenId)) ==>
              var id := NftId(token, tokenId);
              && r.nfts.Keys == s.nfts.Keys
              && r.nfts[id].currentOwner == Some(bidder)
              && r.nfts[id].lastSale == Some(RowId(meta))
              && r.nfts[id].totalSales == s.nfts[id].totalSales + 1
              && r.nfts[id].(currentOwner := None, lastSale := None, totalSales := 0)
                 == s.nfts[id].(currentOwner := None, lastSale := None, totalSales := 0)
              && (forall n :: n in s.nfts && n != id ==> r.nfts[n] == s.nfts[n])
    ensures AuctionSaleApplies(s, NftId(token, tokenId)) ==>
              var mid := s.nfts[NftId(token, tokenId)].market;
              && r.markets.Keys == s.markets.Keys
              && r.markets[mid].totalSales == s.markets[mid].totalSales + 1
              && r.markets[mid].(totalSales := 0) == s.markets[mid].(totalSales := 0)
              && (forall t :: t in s.markets && t != mid ==> r.markets[t] == s.markets[t])
              && r.users == GetUser(s, bidder).0.users
    // the buckets of the auction's currency take the sale
    ensures AuctionSaleApplies(s, NftId(token, tokenId)) ==>
              var id := NftId(token, tokenId);
              var nft := s.nfts[id];
              var b := MarketCharge(s.markets[nft.market], amount);
              var rest := s.(users := r.users, nfts := r.nfts, markets := r.markets, auctionSales := r.auctionSales);
              r == AccumulateSale(rest, nft.market, id, s.auctions[nft.currentAuction.value].currency, amount, b)
    ensures r == s.(users := r.users, nfts := r.nfts, markets := r.markets, auctionSales := r.auctionSales,
                    marketStats := r.marketStats, nftStats := r.nftStats)
  {
    var id := NftId(token, tokenId);
    if !AuctionSaleApplies(s, id) then s
    else
      var nft := s.nfts[id];
      var aid := nft.currentAuction.value;
      var auction := s.auctions[aid];
      var market := s.markets[nft.market];
      var s1 := WithUser(s, bidder);
      var b := MarketCharge(market, amount);
      var sale := AuctionSale(id, meta.timestamp, aid, auction.seller, bidder, auction.currency, amount,
                              b.fee, b.creatorFee, b.reflectionFee);
      var s2 := s1.(auctionSales := s1.auctionSales[RowId(meta) := sale],
                    nfts := s1.nfts[id := nft.(currentOwner := Some(bidder), lastSale := Some(RowId(meta)),
                                               totalSales := nft.totalSales + 1)],
                    markets := s1.markets[nft.market := market.(totalSales := market.totalSales + 1)]);
      AccumulateSale(s2, nft.market, id, auction.currency, amount, b)
  }

  /** AuctionBid: overwrite the highest bid and bidder of the current auction (no check that the
      bid rises), record the bid and mirror it into the NFT's current price. Skipped without the
      NFT or its current auction. */
  function HandleAuctionBid(s: State, meta: Meta, token: Address, tokenId: nat, bidder: Address, amount: int): (r: State)
    ensures !HasLiveAuction(s, NftId(token, tokenId)) ==> r == s
    ensures HasLiveAuction(s, NftId(token, tokenId)) ==>
              var id := NftId(token, tokenId);
              var aid := s.nfts[id].currentAuction.value;
              && r.auctions.Keys == s.auctions.Keys
              && r.auctions[aid].highestBid == amount
              && r.auctions[aid].highestBidder == Some(bidder)
              && r.auctions[aid].(highestBid := 0, highestBidder := None) == s.auctions[aid].(highestBid := 0, highestBidder := None)
              && (forall a :: a in s.auctions && a != aid ==> r.auctions[a] == s.auctions[a])
    ensures HasLiveAuction(s, NftId(token, tokenId)) ==>
              var id := NftId(token, tokenId);
              var aid := s.nfts[id].currentAuction.value;
              && RowId(meta) in r.auctionBids
              && r.auctionBids[RowId(meta)] == AuctionBid(meta.timestamp, aid, bidder, amount)
              && r.auctionBids.Keys == s.auctionBids.Keys + {RowId(meta)}
              && (forall k :: k in s.auctionBids && k != RowId(meta) ==> r.auctionBids[k] == s.auctionBids[k])
    ensures HasLiveAuction(s, NftId(token, tokenId)) ==>
              var id := NftId(token, tokenId);
              && r.nfts.Keys == s.nfts.Keys
              && r.nfts[id].currentPrice == Some(amount)
              && r.nfts[id].(currentPrice := None) == s.nfts[id].(currentPrice := None)
              && (forall n :: n in s.nfts && n != id ==> r.nfts[n] == s.nfts[n])
              && r.users == GetUser(s, bidder).0.users
    ensures r == s.(users := r.users, nfts := r.nfts, auctions := r.auctions, auctionBids := r.auctionBids)
  {
    var id := NftId(token, tokenId);
    if !HasLiveAuction(s, id) then s
    else
      var nft := s.nfts[id];
      var aid := nft.currentAuction.value;
      var auction := s.auctions[aid];
      var s1 := WithUser(s, bidder);
      s1.(auctions := s1.auctions[aid := auction.(highestBidder := Some(bidder), highestBid := amount)],
          auctionBids := s1.auctionBids[RowId(meta) := AuctionBid(meta.timestamp, aid, bidder, amount)],
          nfts := s1.nfts[id := nft.(currentPrice := Some(amount))])
  }

  /** AuctionEnd: mark the current auction ended and clear the NFT's auction slot, currency and
      price. The sell-order slot, the owner and every counter are kept. Skipped without the NFT
      or its current auction. */
  function HandleAuctionEnd(s: State, token: Address, tokenId: nat): (r: State)
    ensures !HasLiveAuction(s, NftId(token, tokenId)) ==> r == s
    ensures HasLiveAuction(s, NftId(token, tokenId)) ==>
              var id := NftId(token, tokenId);
              var aid := s.nfts[id].currentAuction.value;
              && r.auctions.Keys == s.auctions.Keys
              && r.auctions[aid].ended
              && r.auctions[aid].(ended := false) == s.auctions[aid].(ended := false)
              && (forall a :: a in s.auctions && a != aid ==> r.auctions[a] == s.auctions[a])
    ensures HasLiveAuction(s, NftId(token, tokenId)) ==>
              var id := NftId(token, tokenId);
              && r.nfts.Keys == s.nfts.Keys
              && r.nfts[id].currentAuction.None?
              && r.nfts[id].currentCurrency.None?
              && r.nfts[id].currentPrice.None?
              && r.nfts[id] == s.nfts[id].(currentAuction := None, currentCurrency := None, currentPrice := None)
              && (forall n :: n in s.nfts && n != id ==> r.nfts[n] == s.nfts[n])
    ensures r == s.(nfts := r.nfts, auctions := r.auctions)
  {
    var id := NftId(token, tokenId);
    if !HasLiveAuction(s, id) then s
    else
      var nft := s.nfts[id];
      var aid := nft.currentAuction.value;
      s.(auctions := s.auctions[aid := s.auctions[aid].(ended := true)],
         nfts := s.nfts[id := nft.(currentCurrency := None, currentAuction := None, currentPrice := None)])
  }

  // ---------------------------------------------------------------------------
  // Sell orders

  /** SellOrderCreated: register the seller, get-or-create the Nft, record SellOrder number
      `totalSellOrders + 1`, point the NFT's slot at it, bump the NFT and market counters and
      open the buckets. Skipped without a market. */
  function HandleSellOrderCreated(s: State, meta: Meta, token: Address, tokenId: nat, seller: Address,
                                  currency: Address, price: int): (r: State)
    ensures token !in s.markets ==> r == s
    ensures token in s.markets ==>
              var id := NftId(token, tokenId);
              var oid := ListingId(id, SellOrdersOf(s, id) + 1);
              r.sellOrders == s.sellOrders[oid := SellOrder(seller, token, id, currency, price, meta.timestamp)]
    ensures token in s.markets ==>
              var id := NftId(token, tokenId);
              var oid := ListingId(id, SellOrdersOf(s, id) + 1);
              var nft := if id in s.nfts then s.nfts[id] else NewNft(token);
              r.nfts == s.nfts[id := nft.(currentSellOrder := Some(oid), currentCurrency := Some(currency),
                                          currentPrice := Some(price), totalSellOrders := nft.totalSellOrders + 1)]
    ensures r == s.(users := r.users, nfts := r.nfts, markets := r.markets, sellOrders := r.sellOrders,
                    marketStats := r.marketStats, nftStats := r.nftStats)
  {
    if token !in s.markets then s
    else
      var id := NftId(token, tokenId);
      var order := SellOrder(seller, token, id, currency, price, meta.timestamp);
      OpenBuckets(PlaceSellOrder(OpenNft(WithUser(s, seller), id), id, order), token, id, currency)
  }

  /** The middle of SellOrderCreated: store `x` as sell order number `totalSellOrders + 1` of the
      NFT, point the NFT's slot, currency and price at it, and count it on the NFT and the market. */
  function PlaceSellOrder(s: State, id: NftId, x: SellOrder): (r: State)
    requires id in s.nfts && id.token in s.markets
    ensures var oid := ListingId(id, s.nfts[id].totalSellOrders + 1);
            && r.sellOrders == s.sellOrders[oid := x]
            && id in r.nfts
            && r.nfts == s.nfts[id := r.nfts[id]]
            && r.nfts[id].currentSellOrder == Some(oid)
            && r.nfts[id].currentCurrency == Some(x.currency)
            && r.nfts[id].currentPrice == Some(x.price)
            && r.nfts[id].totalSellOrders == s.nfts[id].totalSellOrders + 1
            && r.nfts[id].(currentSellOrder := None, currentCurrency := None, currentPrice := None, totalSellOrders := 0)
               == s.nfts[id].(currentSellOrder := None, currentCurrency := None, currentPrice := None, totalSellOrders := 0)
    ensures && id.token in r.markets
            && r.markets == s.markets[id.token := r.markets[id.token]]
            && r.markets[id.token] == s.markets[id.token].(totalSellOrders := s.markets[id.token].totalSellOrders + 1)
    ensures r == s.(sellOrders := r.sellOrders, nfts := r.nfts, markets := r.markets)
  {
    var nft := s.nfts[id];
    var market := s.markets[id.token];
    var oid := ListingId(id, nft.totalSellOrders + 1);
    s.(sellOrders := s.sellOrders[oid := x],
       nfts := s.nfts[id := nft.(currentSellOrder := Some(oid), currentCurrency := Some(x.currency),
                                 currentPrice := Some(x.price), totalSellOrders := nft.totalSellOrders + 1)],
       markets := s.markets[id.token := market.(totalSellOrders := market.totalSellOrders + 1)])
  }

  /** The rest of SellOrderCreated: the market counts a new NFT (when the NFT had no row) and the
      new sell order; the seller is registered; the (market, currency) and (nft, currency)
      buckets exist afterwards, a missing one zero-initialised and an existing one untouched. */
  lemma SellOrderCreatedRegisters(s: State, meta: Meta, token: Address, tokenId: nat, seller: Address,
                               currency: Address, price: int)
    requires token in s.markets
    ensures var r := HandleSellOrderCreated(s, meta, token, tokenId, seller, currency, price);
            var id := NftId(token, tokenId);
            var market := s.markets[token];
            r.markets == s.markets[token := market.(totalNfts := market.totalNfts + (if id in s.nfts then 0 else 1),
                                                    totalSellOrders := market.totalSellOrders + 1)]
    ensures var r := HandleSellOrderCreated(s, meta, token, tokenId, seller, currency, price);
            var id := NftId(token, tokenId);
            && r.users == GetUser(s, seller).0.users
            && r.marketStats == GetOrCreate(s.marketStats, (token, currency), ZeroMarketStats(token, currency))
            && r.nftStats == GetOrCreate(s.nftStats, (id, currency), ZeroNftStats(id, currency))
  {
  }

  /** SellOrderCanceled: clear the NFT's sell-order slot, currency and price. No counter goes
      down and no other row changes. Skipped without the NFT, its current order or its market. */
  function HandleSellOrderCanceled(s: State, token: Address, tokenId: nat): (r: State)
    ensures !SellOrderSaleApplies(s, NftId(token, tokenId)) ==> r == s
    ensures SellOrderSaleApplies(s, NftId(token, tokenId)) ==>
              var id := NftId(token, tokenId);
              && r.nfts.Keys == s.nfts.Keys
              && r.nfts[id].currentSellOrder.None?
              && r.nfts[id].currentCurrency.None?
              && r.nfts[id].currentPrice.None?
              && r.nfts[id] == s.nfts[id].(currentSellOrder := None, currentCurrency := None, currentPrice := None)
              && (forall n :: n in s.nfts && n != id ==> r.nfts[n] == s.nfts[n])
    ensures r == s.(nfts := r.nfts)
  {
    var id := NftId(token, tokenId);
    if !SellOrderSaleApplies(s, id) then s
    else s.(nfts := s.nfts[id := s.nfts[id].(currentSellOrder := None, currentCurrency := None, currentPrice := None)])
  }

  /** Sale (of a sell order): record the sale with its fee breakdown, clear the NFT's sell-order
      slot, bump the sale counters and add the sale to the currency buckets. The owner is not
      changed. Skipped without the NFT, its current order or its market. */
  function HandleSale(s: State, meta: Meta, token: Address, tokenId: nat, buyer: Address, price: int): (r: State)
    ensures !SellOrderSaleApplies(s, NftId(token, tokenId)) ==> r == s
    ensures SellOrderSaleApplies(s, NftId(token, tokenId)) ==>
              var id := NftId(token, tokenId);
              var oid := s.nfts[id].currentSellOrder.value;
              var market := s.markets[s.nfts[id].market];
              && RowId(meta) in r.sellOrderSales
              && r.sellOrderSales[RowId(meta)] ==
                 SellOrderSale(id, meta.timestamp, oid, s.sellOrders[oid].seller, buyer, s.sellOrders[oid].currency, price,
                               ScaledFee(price, market.fee), ScaledFee(price, market.creatorFee),
                               ScaledFee(price, market.reflectionFee))
              && r.sellOrderSales.Keys == s.sellOrderSales.Keys + {RowId(meta)}
              && (forall k :: k in s.sellOrderSales && k != RowId(meta) ==> r.sellOrderSales[k] == s.sellOrderSales[k])
    ensures SellOrderSaleApplies(s, NftId(token, tokenId)) ==>
              var id := NftId(token, tokenId);
              && r.nfts.Keys == s.nfts.Keys
              && r.nfts[id].currentSellOrder.None?
              && r.nfts[id].currentCurrency.None?
              && r.nfts[id].currentPrice.None?
              && r.nfts[id].lastSale == Some(RowId(meta))
              && r.nfts[id].totalSales == s.nfts[id].totalSales + 1
              && r.nfts[id].currentOwner == s.nfts[id].currentOwner
              && r.nfts[id].(lastSale := None, totalSales := 0)
                 == s.nfts[id].(currentSellOrder := None, currentCurrency := None, currentPrice := None,
                                lastSale := None, totalSales := 0)
              && (forall n :: n in s.nfts && n != id ==> r.nfts[n] == s.nfts[n])
    ensures SellOrderSaleApplies(s, NftId(token, tokenId)) ==>
              var mid := s.nfts[NftId(token, tokenId)].market;
              && r.markets.Keys == s.markets.Keys
              && r.markets[mid].totalSales == s.markets[mid].totalSales + 1
              && r.markets[mid].(totalSales := 0) == s.markets[mid].(totalSales := 0)
              && (forall t :: t in s.markets && t != mid ==> r.markets[t] == s.markets[t])
              && r.users == GetUser(s, buyer).0.users
    ensures SellOrderSaleApplies(s, NftId(token, tokenId)) ==>
              var id := NftId(token, tokenId);
              var nft := s.nfts[id];
              var b := MarketCharge(s.markets[nft.market], price);
              var rest := s.(users := r.users, nfts := r.nfts, markets := r.markets, sellOrderSales := r.sellOrderSales);
              r == AccumulateSale(rest, nft.market, id, s.sellOrders[nft.currentSellOrder.value].currency, price, b)
    ensures r == s.(users := r.users, nfts := r.nfts, markets := r.markets, sellOrderSales := r.sellOrderSales,
                    marketStats := r.marketStats, nftStats := r.nftStats)
  {
    var id := NftId(token, tokenId);
    if !SellOrderSaleApplies(s, id) then s
    else
      var nft := s.nfts[id];
      var oid := nft.currentSellOrder.value;
      var order := s.sellOrders[oid];
      var market := s.markets[nft.market];
      var s1 := WithUser(s, buyer);
      var b := MarketCharge(market, price);
      var sale := SellOrderSale(id, meta.timestamp, oid, order.seller, buyer, order.currency, price,
                                b.fee, b.creatorFee, b.reflectionFee);
      var s2 := s1.(sellOrderSales := s1.sellOrderSales[RowId(meta) := sale],
                    nfts := s1.nfts[id := nft.(currentSellOrder := None, currentCurrency := None, currentPrice := None,
                                               lastSale := Some(RowId(meta)), totalSales := nft.totalSales + 1)],
                    markets := s1.markets[nft.market := market.(totalSales := market.totalSales + 1)]);
      AccumulateSale(s2, nft.market, id, order.currency, price, b)
  }

  // ---------------------------------------------------------------------------
  // Withdrawal

  /** WithdrawNft: the NFT no longer has an owner; nothing else changes. Skipped without the NFT. */
  function HandleWithdrawNft(s: State, token: Address, tokenId: nat): (r: State)
    ensures NftId(token, tokenId) !in s.nfts ==> r == s
    ensures NftId(token, tokenId) in s.nfts ==>
              var id := NftId(token, tokenId);
              && r.nfts.Keys == s.nfts.Keys
              && r.nfts[id].currentOwner.None?
              && r.nfts[id] == s.nfts[id].(currentOwner := None)
              && (forall n :: n in s.nfts && n != id ==> r.nfts[n] == s.nfts[n])
    ensures r == s.(nfts := r.nfts)
  {
    var id := NftId(token, tokenId);
    if id !in s.nfts then s
    else s.(nfts := s.nfts[id := s.nfts[id].(currentOwner := None)])
  }
}
