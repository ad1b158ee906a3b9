/** The entity-access layer shared by the handlers: get-or-create lookups,
    the lazily created Nft row and statistics buckets, and the accumulation of
    a sale into the per-currency buckets.
 */
module Store {
  import opened Entities
  import opened Fees

  /** Get-or-create on one table: an existing row is kept, a missing one is inserted as `init`. */
  function GetOrCreate<K, V>(m: map<K, V>, k: K, init: V): (r: map<K, V>)
    ensures r.Keys == m.Keys + {k}
    ensures forall j :: j in m ==> r[j] == m[j]
    ensures k !in m ==> r[k] == init
  {
    if k in m then m else m[k := init]
  }

  /** A second get-or-create on the same key changes nothing, whatever default it offers. */
  lemma GetOrCreateIdempotent<K, V>(m: map<K, V>, k: K, init: V, other: V)
    ensures GetOrCreate(GetOrCreate(m, k, init), k, other) == GetOrCreate(m, k, init)
  {
  }

  /** `getUser`: the user row of `a`, created on first reference. */
  function GetUser(s: State, a: Address): (r: (State, User))
    ensures a !in s.users ==> r.1 == User(a)
    ensures a in r.0.users && r.0.users[a] == r.1
    ensures a in s.users ==> r.0 == s && r.1 == s.users[a]
    ensures r.0.users.Keys == s.users.Keys + {a}
    ensures forall b :: b in s.users ==> r.0.users[b] == s.users[b]
    ensures r.0 == s.(users := r.0.users)
  {
    var users := GetOrCreate(s.users, a, User(a));
    (s.(users := users), users[a])
  }

  /** Registering the same user twice is the same as registering it once. */
  lemma GetUserIdempotent(s: State, a: Address)
    ensures GetUser(GetUser(s, a).0, a) == GetUser(s, a)
  {
  }

  /** The store with `a` registered as a user. */
  function WithUser(s: State, a: Address): State
  {
    GetUser(s, a).0
  }

  /** A freshly created Nft row of `market`: no owner, empty listing slot, all totals 0. */
  function NewNft(market: Address): Nft
  {
    Nft(market, None, None, None, None, None, None, 0, 0, 0)
  }

  /** Get-or-create the Nft row of a listing; a new row raises its market's `totalNfts` by one. */
  function OpenNft(s: State, id: NftId): (r: State)
    requires id.token in s.markets
    ensures id in r.nfts
    ensures id in s.nfts ==> r == s
    ensures id !in s.nfts ==> r.nfts[id] == NewNft(id.token)
    ensures r.nfts == s.nfts[id := r.nfts[id]]
    ensures var market := s.markets[id.token];
            r.markets == s.markets[id.token := market.(totalNfts := market.totalNfts + (if id in s.nfts then 0 else 1))]
    ensures r == s.(nfts := r.nfts, markets := r.markets)
  {
    if id in s.nfts then s
    else
      var market := s.markets[id.token];
      s.(nfts := s.nfts[id := NewNft(id.token)],
         markets := s.markets[id.token := market.(totalNfts := market.totalNfts + 1)])
  }

  function ZeroMarketStats(market: Address, currency: Address): MarketCurrencyStats
  {
    MarketCurrencyStats(market, currency, 0, 0, 0, 0, 0)
  }

  function ZeroNftStats(nft: NftId, currency: Address): NftCurrencyStats
  {
    NftCurrencyStats(nft, currency, 0, 0, 0, 0)
  }

  /** Lazily create the (market, currency) and (nft, currency) buckets, zero-initialised;
      a bucket that already exists is left untouched. */
  function OpenBuckets(s: State, market: Address, nft: NftId, currency: Address): (r: State)
    ensures (market, currency) in r.marketStats && (nft, currency) in r.nftStats
    ensures r.marketStats.Keys == s.marketStats.Keys + {(market, currency)}
    ensures r.nftStats.Keys == s.nftStats.Keys + {(nft, currency)}
    ensures forall k :: k in s.marketStats ==> r.marketStats[k] == s.marketStats[k]
    ensures forall k :: k in s.nftStats ==> r.nftStats[k] == s.nftStats[k]
    ensures (market, currency) !in s.marketStats ==> r.marketStats[(market, currency)] == ZeroMarketStats(market, currency)
    ensures (nft, currency) !in s.nftStats ==> r.nftStats[(nft, currency)] == ZeroNftStats(nft, currency)
    ensures r == s.(marketStats := r.marketStats, nftStats := r.nftStats)
  {
    s.(marketStats := GetOrCreate(s.marketStats, (market, currency), ZeroMarketStats(market, currency)),
       nftStats := GetOrCreate(s.nftStats, (nft, currency), ZeroNftStats(nft, currency)))
  }

  /** A market bucket after one sale of `price` with fee breakdown `b`. */
  function AddSaleToMarket(st: MarketCurrencyStats, price: int, b: FeeBreakdown): MarketCurrencyStats
  {
    st.(volume := st.volume + price,
        fees := st.fees + b.fee,
        creatorFees := st.creatorFees + b.creatorFee,
        reflectionFees := st.reflectionFees + b.reflectionFee)
  }

  /** An NFT bucket after one sale of `price` with fee breakdown `b`. */
  function AddSaleToNft(st: NftCurrencyStats, price: int, b: FeeBreakdown): NftCurrencyStats
  {
    st.(volume := st.volume + price,
        fees := st.fees + b.fee,
        creatorFees := st.creatorFees + b.creatorFee,
        reflectionFees := st.reflectionFees + b.reflectionFee)
  }

  /** The tail shared by both sale handlers: add the sale to the market bucket, then to the NFT
      bucket. A missing market bucket ends the handler before the NFT bucket is touched. */
  function AccumulateSale(s: State, market: Address, nft: NftId, currency: Address, price: int, b: FeeBreakdown): (r: State)
    ensures r == s.(marketStats := r.marketStats, nftStats := r.nftStats)
    ensures r.marketStats.Keys == s.marketStats.Keys && r.nftStats.Keys == s.nftStats.Keys
    ensures forall k :: k in s.marketStats && k != (market, currency) ==> r.marketStats[k] == s.marketStats[k]
    ensures forall k :: k in s.nftStats && k != (nft, currency) ==> r.nftStats[k] == s.nftStats[k]
    ensures (market, currency) !in s.marketStats ==> r == s
    ensures (market, currency) in s.marketStats ==>
              var before := s.marketStats[(market, currency)];
              var after := r.marketStats[(market, currency)];
              && after.volume == before.volume + price
              && after.fees == before.fees + b.fee
              && after.creatorFees == before.creatorFees + b.creatorFee
              && after.reflectionFees == before.reflectionFees + b.reflectionFee
              && after.floor == before.floor
              && after.(volume := 0, fees := 0, creatorFees := 0, reflectionFees := 0)
                 == before.(volume := 0, fees := 0, creatorFees := 0, reflectionFees := 0)
    ensures (market, currency) in s.marketStats && (nft, currency) in s.nftStats ==>
              var before := s.nftStats[(nft, currency)];
              var after := r.nftStats[(nft, currency)];
              && after.volume == before.volume + price
              && after.fees == before.fees + b.fee
              && after.creatorFees == before.creatorFees + b.creatorFee
              && after.reflectionFees == before.reflectionFees + b.reflectionFee
              && after.(volume := 0, fees := 0, creatorFees := 0, reflectionFees := 0)
                 == before.(volume := 0, fees := 0, creatorFees := 0, reflectionFees := 0)
    ensures (market, currency) !in s.marketStats || (nft, currency) !in s.nftStats ==> r.nftStats == s.nftStats
  {
    var mk := (market, currency);
    if mk !in s.marketStats then s
    else
      var s1 := s.(marketStats := s.marketStats[mk := AddSaleToMarket(s.marketStats[mk], price, b)]);
      var nk := (nft, currency);
      if nk !in s1.nftStats then s1
      else s1.(nftStats := s1.nftStats[nk := AddSaleToNft(s1.nftStats[nk], price, b)])
  }
}
