/** The event stream: one decoded event at a time, in chain order, each handled to
    completion before the next. A stream is a left fold of `Step` over a sequence.
 */
module Stream {
  import opened Entities
  import opened Handlers

  /** The marketplace events the projection handles, with the parameters it reads. */
  datatype Event =
    | CurrencyAdded(currency: Address)
    | MarketCreated(token: Address, fee: int, creatorFee: int, reflectionFee: int)
    | MarketFeeChanged(token: Address, fee: int, creatorFee: int, reflectionFee: int)
    | MarketStateChanged(token: Address, isActive: bool)
    | AuctionCreated(meta: Meta, token: Address, tokenId: nat, seller: Address, currency: Address,
                     endsAt: int, initialBid: int)
    | AuctionSaleEvent(meta: Meta, token: Address, tokenId: nat, bidder: Address, amount: int)
    | AuctionBidEvent(meta: Meta, token: Address, tokenId: nat, bidder: Address, amount: int)
    | AuctionEnd(token: Address, tokenId: nat)
    | SellOrderCreated(meta: Meta, token: Address, tokenId: nat, seller: Address, currency: Address, price: int)
    | SellOrderCanceled(token: Address, tokenId: nat)
    | SaleEvent(meta: Meta, token: Address, tokenId: nat, buyer: Address, price: int)
    | WithdrawNft(token: Address, tokenId: nat)

  /** One event, dispatched to its handler. */
  function Step(s: State, e: Event): State
  {
    match e
    case CurrencyAdded(c) => HandleCurrencyAdded(s, c)
    case MarketCreated(t, f, cf, rf) => HandleMarketCreated(s, t, f, cf, rf)
    case MarketFeeChanged(t, f, cf, rf) => HandleMarketFeeChanged(s, t, f, cf, rf)
    case MarketStateChanged(t, a) => HandleMarketStateChanged(s, t, a)
    case AuctionCreated(m, t, i, seller, c, endsAt, bid) => HandleAuctionCreated(s, m, t, i, seller, c, endsAt, bid)
    case AuctionSaleEvent(m, t, i, bidder, amount) => HandleAuctionSale(s, m, t, i, bidder, amount)
    case AuctionBidEvent(m, t, i, bidder, amount) => HandleAuctionBid(s, m, t, i, bidder, amount)
    case AuctionEnd(t, i) => HandleAuctionEnd(s, t, i)
    case SellOrderCreated(m, t, i, seller, c, price) => HandleSellOrderCreated(s, m, t, i, seller, c, price)
    case SellOrderCanceled(t, i) => HandleSellOrderCanceled(s, t, i)
    case SaleEvent(m, t, i, buyer, price) => HandleSale(s, m, t, i, buyer, price)
    case WithdrawNft(t, i) => HandleWithdrawNft(s, t, i)
  }

  /** A stream of events, handled in order. */
  function Run(s: State, evs: seq<Event>): (r: State)
    ensures Grows(s, r)
    decreases |evs|
  {
    if |evs| == 0 then s
    else
      StepGrows(s, evs[0]);
      Run(Step(s, evs[0]), evs[1..])
  }

  /** Every handler only adds rows and never lowers an NFT counter. */
  lemma StepGrows(s: State, e: Event)
    ensures Grows(s, Step(s, e))
  {
    if e.AuctionCreated? || e.AuctionSaleEvent? || e.AuctionBidEvent? || e.AuctionEnd? {
      AuctionEventGrows(s, e);
    } else if e.SellOrderCreated? || e.SellOrderCanceled? || e.SaleEvent? || e.WithdrawNft? {
      SellOrderEventGrows(s, e);
    } else {
      MarketEventGrows(s, e);
    }
  }

  /** `StepGrows` for the currency and market events. */
  lemma MarketEventGrows(s: State, e: Event)
    requires e.CurrencyAdded? || e.MarketCreated? || e.MarketFeeChanged? || e.MarketStateChanged?
    ensures Grows(s, Step(s, e))
  {
  }

  /** `StepGrows` for the auction events. */
  lemma AuctionEventGrows(s: State, e: Event)
    requires e.AuctionCreated? || e.AuctionSaleEvent? || e.AuctionBidEvent? || e.AuctionEnd?
    ensures Grows(s, Step(s, e))
  {
    if e.AuctionCreated? {
      AuctionCreatedGrows(s, e.meta, e.token, e.tokenId, e.seller, e.currency, e.endsAt, e.initialBid);
    } else if e.AuctionSaleEvent? {
      AuctionSaleGrows(s, e.meta, e.token, e.tokenId, e.bidder, e.amount);
    }
  }

  /** `StepGrows` for the sell-order events. */
  lemma SellOrderEventGrows(s: State, e: Event)
    requires e.SellOrderCreated? || e.SellOrderCanceled? || e.SaleEvent? || e.WithdrawNft?
    ensures Grows(s, Step(s, e))
  {
    if e.SellOrderCreated? {
      SellOrderCreatedGrows(s, e.meta, e.token, e.tokenId, e.seller, e.currency, e.price);
    } else if e.SaleEvent? {
      SaleGrows(s, e.meta, e.token, e.tokenId, e.buyer, e.price);
    }
  }

  lemma AuctionCreatedGrows(s: State, m: Meta, t: Address, i: nat, seller: Address, c: Address, endsAt: int, bid: int)
    ensures Grows(s, HandleAuctionCreated(s, m, t, i, seller, c, endsAt, bid))
  {
    if t in s.markets {
      AuctionCreatedRegisters(s, m, t, i, seller, c, endsAt, bid);
    }
  }

  lemma AuctionSaleGrows(s: State, m: Meta, t: Address, i: nat, bidder: Address, amount: int)
    ensures Grows(s, HandleAuctionSale(s, m, t, i, bidder, amount))
  {
  }

  lemma SellOrderCreatedGrows(s: State, m: Meta, t: Address, i: nat, seller: Address, c: Address, price: int)
    ensures Grows(s, HandleSellOrderCreated(s, m, t, i, seller, c, price))
  {
    if t in s.markets {
      SellOrderCreatedRegisters(s, m, t, i, seller, c, price);
    }
  }

  lemma SaleGrows(s: State, m: Meta, t: Address, i: nat, buyer: Address, price: int)
    ensures Grows(s, HandleSale(s, m, t, i, buyer, price))
  {
  }
}
