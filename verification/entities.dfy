/** Identifiers and rows of the marketplace entity store.

    The indexer keys every row by a string built from hex addresses and
    decimal numbers joined with "-". Here every key is a small datatype, so
    that two keys are equal exactly when their parts are. The store itself is
    a record of finite maps, one per entity kind; `load` is a map lookup and
    `save` is a map update.
 */
module Entities {

  datatype Option<+T> = None | Some(value: T)

  /** A chain address (token contract, wallet or currency). Its hex rendering is not modelled. */
  type Address = nat

  /** Key of an Nft: the token contract and the token id. */
  datatype NftId = NftId(token: Address, tokenId: nat)

  /** Key of an Auction or a SellOrder: the NFT and the per-NFT sequence number. */
  datatype ListingId = ListingId(nft: NftId, number: nat)

  /** Key of a bid or sale row: the transaction hash and the log index of the event. */
  datatype EventId = EventId(txHash: nat, logIndex: nat)

  /** Key of a MarketCurrencyStats bucket: (market id, currency). The market id is the token address. */
  type MarketBucket = (Address, Address)

  /** Key of an NftCurrencyStats bucket: (nft id, currency). */
  type NftBucket = (NftId, Address)

  /** One NFT collection. Fee rates are fixed-point fractions scaled by 10^18. */
  datatype Market = Market(
    fee: int,
    creatorFee: int,
    reflectionFee: int,
    active: bool,
    totalNfts: nat,
    totalAuctions: nat,
    totalSellOrders: nat,
    totalSales: nat)

  datatype User = User(address: Address)

  datatype Currency = Currency(address: Address)

  /** One token of a collection, with its "current listing" slot and running totals. */
  datatype Nft = Nft(
    market: Address,
    currentOwner: Option<Address>,
    currentAuction: Option<ListingId>,
    currentSellOrder: Option<ListingId>,
    currentCurrency: Option<Address>,
    currentPrice: Option<int>,
    lastSale: Option<EventId>,
    totalAuctions: nat,
    totalSellOrders: nat,
    totalSales: nat)

  datatype Auction = Auction(
    seller: Address,
    market: Address,
    nft: NftId,
    currency: Address,
    timestamp: int,
    ended: bool,
    endsAt: int,
    initialBid: int,
    highestBid: int,
    highestBidder: Option<Address>)

  datatype AuctionBid = AuctionBid(
    timestamp: int,
    auction: ListingId,
    bidder: Address,
    value: int)

  datatype AuctionSale = AuctionSale(
    nft: NftId,
    timestamp: int,
    auction: ListingId,
    seller: Address,
    buyer: Address,
    currency: Address,
    price: int,
    fee: int,
    creatorFee: int,
    reflectionFee: int)

  datatype SellOrder = SellOrder(
    seller: Address,
    market: Address,
    nft: NftId,
    currency: Address,
    price: int,
    timestamp: int)

  datatype SellOrderSale = SellOrderSale(
    nft: NftId,
    timestamp: int,
    order: ListingId,
    seller: Address,
    buyer: Address,
    currency: Address,
    price: int,
    fee: int,
    creatorFee: int,
    reflectionFee: int)

  datatype MarketCurrencyStats = MarketCurrencyStats(
    market: Address,
    currency: Address,
    volume: int,
    floor: int,
    fees: int,
    creatorFees: int,
    reflectionFees: int)

  datatype NftCurrencyStats = NftCurrencyStats(
    nft: NftId,
    currency: Address,
    volume: int,
    fees: int,
    creatorFees: int,
    reflectionFees: int)

  /** The whole entity store: one table per entity kind. */
  datatype State = State(
    markets: map<Address, Market>,
    users: map<Address, User>,
    currencies: map<Address, Currency>,
    nfts: map<NftId, Nft>,
    auctions: map<ListingId, Auction>,
    auctionBids: map<EventId, AuctionBid>,
    auctionSales: map<EventId, AuctionSale>,
    sellOrders: map<ListingId, SellOrder>,
    sellOrderSales: map<EventId, SellOrderSale>,
    marketStats: map<MarketBucket, MarketCurrencyStats>,
    nftStats: map<NftBucket, NftCurrencyStats>)

  /** The store before the first event. */
  function Empty(): State
  {
    State(map[], map[], map[], map[], map[], map[], map[], map[], map[], map[], map[])
  }
}
