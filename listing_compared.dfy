/**
  The three-exchange listing comparison: fetch Binance USDT, Upbit KRW and
  Bithumb KRW listings, reduce each to a set of asset names, and split their
  union into the seven regions.
 */
module ListingCompared {
  import opened PyStr
  import opened Seqs
  import opened Exchanges
  import opened SetReconciler

  /** The Binance fetcher's loop over `data['symbols']`. */
  method GetBinanceUsdtPairs(fetch: Fetch<seq<BinanceSymbol>>) returns (pairs: seq<BinancePair>)
    ensures pairs == if fetch.Fetched? then UsdtSpotPairs(fetch.payload) else []
  {
    var symbols := if fetch.Fetched? then fetch.payload else [];
    pairs := [];
    var i := 0;
    while i < |symbols|
      invariant 0 <= i <= |symbols|
      invariant pairs == UsdtSpotPairs(symbols[..i])
    {
      UsdtSpotPairsStep(symbols, i);
      if IsUsdtSpot(symbols[i]) {
        pairs := pairs + [ToBinancePair(symbols[i])];
      }
      i := i + 1;
    }
    assert symbols[..i] == symbols;
  }

  /** The Upbit fetcher's loop: the markets whose code starts with "KRW-". */
  method GetUpbitKrwPairs(fetch: Fetch<seq<UpbitMarket>>) returns (rows: seq<UpbitMarket>)
    ensures rows == if fetch.Fetched? then Filter(fetch.payload, IsKrwMarket) else []
  {
    var markets := if fetch.Fetched? then fetch.payload else [];
    rows := [];
    var i := 0;
    while i < |markets|
      invariant 0 <= i <= |markets|
      invariant rows == Filter(markets[..i], IsKrwMarket)
    {
      var m := markets[i];
      if StartsWith(m.market, "KRW-") {
        rows := rows + [m];
      }
      FilterStep(markets, i, IsKrwMarket);
      i := i + 1;
    }
    assert markets[..i] == markets;
  }

  /** `upbit_df['Market'].str.replace('KRW-', '')`: every "KRW-" removed. */
  function UpbitAsset(m: UpbitMarket): string
  {
    RemoveAll(m.market, "KRW-")
  }

  function UpbitAssets(rows: seq<UpbitMarket>): set<string>
  {
    Image(rows, UpbitAsset)
  }

  /** The comparison the script writes out: the seven regions of the Binance,
      Upbit and Bithumb asset sets. */
  method SaveToExcel(binance: Fetch<seq<BinanceSymbol>>, upbit: Fetch<seq<UpbitMarket>>,
                     bithumb: Fetch<seq<string>>)
    returns (regions: Regions)
    ensures regions == ThreeWay(BinanceSet(binance), UpbitSet(upbit), BithumbSet(bithumb))
  {
    var binancePairs := GetBinanceUsdtPairs(binance);
    var upbitPairs := GetUpbitKrwPairs(upbit);
    var bithumbPairs := GetBithumbKrwPairs(bithumb);
    var binanceSet := BinanceAssets(binancePairs);
    var upbitSet := UpbitAssets(upbitPairs);
    var bithumbSet := BithumbAssets(bithumbPairs);
    assert binanceSet == BinanceSet(binance);
    assert upbitSet == UpbitSet(upbit);
    assert bithumbSet == BithumbSet(bithumb);
    regions := ThreeWay(binanceSet, upbitSet, bithumbSet);
  }

  /** The asset set each exchange contributes, as a function of its fetch. */
  function BinanceSet(f: Fetch<seq<BinanceSymbol>>): (r: set<string>)
    ensures f.Failed? ==> r == {}
    ensures forall a :: a in r <==>
              f.Fetched? && exists s :: s in f.payload && IsUsdtSpot(s) && s.baseAsset == a
  {
    if f.Failed? then {}
    else
      var pairs := UsdtSpotPairs(f.payload);
      assert forall a :: a in BinanceAssets(pairs) <==>
                exists s :: s in f.payload && IsUsdtSpot(s) && s.baseAsset == a by {
        forall a ensures a in BinanceAssets(pairs) <==>
                  exists s :: s in f.payload && IsUsdtSpot(s) && s.baseAsset == a {
          if exists s :: s in f.payload && IsUsdtSpot(s) && s.baseAsset == a {
            var s :| s in f.payload && IsUsdtSpot(s) && s.baseAsset == a;
            UsdtSpotPairsMembership(f.payload, ToBinancePair(s));
          }
          if a in BinanceAssets(pairs) {
            var p :| p in pairs && p.baseAsset == a;
            UsdtSpotPairsMembership(f.payload, p);
          }
        }
      }
      BinanceAssets(pairs)
  }

  function UpbitSet(f: Fetch<seq<UpbitMarket>>): (r: set<string>)
    ensures f.Failed? ==> r == {}
    ensures forall a :: a in r <==>
              f.Fetched? && exists m :: m in f.payload && IsKrwMarket(m) && UpbitAsset(m) == a
  {
    if f.Failed? then {}
    else
      var rows := Filter(f.payload, IsKrwMarket);
      assert forall m :: m in rows <==> m in f.payload && IsKrwMarket(m) by {
        forall m ensures m in rows <==> m in f.payload && IsKrwMarket(m) {
          FilterMembership(f.payload, IsKrwMarket, m);
        }
      }
      UpbitAssets(rows)
  }

  function BithumbSet(f: Fetch<seq<string>>): (r: set<string>)
    ensures f.Failed? ==> r == {}
    ensures forall a :: a in r <==> f.Fetched? && a in f.payload && a != "date"
  {
    if f.Failed? then {}
    else
      var rows := BithumbKrwRows(f.payload);
      BithumbKrwRowsSpec(f.payload);
      assert forall a :: a in BithumbAssets(rows) <==> a in f.payload && a != "date" by {
        forall a ensures a in BithumbAssets(rows) <==> a in f.payload && a != "date" {
          if a in BithumbAssets(rows) {
            var r :| r in rows && r.currency == a;
            var i :| 0 <= i < |rows| && rows[i] == r;
          }
          if a in f.payload && a != "date" {
            var i :| 0 <= i < |rows| && rows[i].currency == a;
            assert rows[i] in rows;
          }
        }
      }
      BithumbAssets(rows)
  }

  /** For an ordinary market code "KRW-" + k, the asset this script uses and
      the `split('-')[1]` convention of the other scripts agree. */
  lemma UpbitAssetIsBase(k: string)
    requires '-' !in k
    ensures '-' in "KRW-" + k
    ensures UpbitAsset(UpbitMarket("KRW-" + k, "", "")) == Base("KRW-" + k) == k
  {
    BaseOfPair("KRW", k);
    assert "KRW" + "-" + k == "KRW-" + k;
    NoDashNoKrw(k);
    RemovePrefixOnce("KRW-", k);
  }

  lemma {:induction false} NoDashNoKrw(k: string)
    requires '-' !in k
    ensures !Contains(k, "KRW-")
    decreases |k|
  {
    if k != [] {
      assert |k| >= 4 ==> k[3] in k;
      NoDashNoKrw(k[1..]);
    }
  }
}
