/**
  The three exchanges' listing payloads and how the scripts normalise them.
  An HTTP request is not modelled: a fetch is its outcome, either the decoded
  payload or a failure (network error, timeout, non-2xx status, or a missing
  top-level field), all of which the scripts catch.
 */
module Exchanges {
  import opened PyStr
  import opened Seqs

  datatype Option<T> = None | Some(value: T)

  /** The outcome of one request. */
  datatype Fetch<T> = Failed | Fetched(payload: T)

  /** One entry of Binance's `exchangeInfo.symbols`. `onboardDate` is kept as
      the already formatted `YYYY-MM-DD` text. */
  datatype BinanceSymbol = BinanceSymbol(
    symbol: string, baseAsset: string, quoteAsset: string,
    status: string, isSpotTradingAllowed: bool, onboardDate: Option<string>)

  /** A row of the Binance USDT table. */
  datatype BinancePair = BinancePair(
    symbol: string, baseAsset: string, quoteAsset: string, listingDate: string)

  /** One entry of Upbit's `market/all`. */
  datatype UpbitMarket = UpbitMarket(market: string, koreanName: string, englishName: string)

  /** A row of the Bithumb KRW table. */
  datatype BithumbRow = BithumbRow(market: string, currency: string)

  /** The Binance filter: USDT-quoted, trading, spot trading allowed. */
  predicate IsUsdtSpot(s: BinanceSymbol)
  {
    s.quoteAsset == "USDT" && s.status == "TRADING" && s.isSpotTradingAllowed
  }

  function ToBinancePair(s: BinanceSymbol): BinancePair
  {
    BinancePair(s.symbol, s.baseAsset, s.quoteAsset,
      match s.onboardDate case Some(d) => d case None => "N/A")
  }

  /** The Binance USDT table built from `data['symbols']`. */
  function UsdtSpotPairs(symbols: seq<BinanceSymbol>): seq<BinancePair>
  {
    Map(Filter(symbols, IsUsdtSpot), ToBinancePair)
  }

  /** Bithumb's `data` object holds one key per currency plus the `date`
      timestamp, which is not a currency. */
  predicate IsCurrencyKey(k: string)
  {
    k != "date"
  }

  function ToBithumbRow(k: string): BithumbRow
  {
    BithumbRow("KRW-" + k, k)
  }

  /** The Bithumb KRW table built from the keys of `data['data']`, in order. */
  function BithumbKrwRows(keys: seq<string>): seq<BithumbRow>
  {
    Map(Filter(keys, IsCurrencyKey), ToBithumbRow)
  }

  predicate IsKrwMarket(m: UpbitMarket)
  {
    StartsWith(m.market, "KRW-")
  }

  /** The asset column of each table, as the set the comparisons use; an
      empty table (which is what a failed fetch gives) is the empty set. */
  function BinanceAssets(pairs: seq<BinancePair>): set<string>
  {
    Image(pairs, (p: BinancePair) => p.baseAsset)
  }

  function BithumbAssets(rows: seq<BithumbRow>): set<string>
  {
    Image(rows, (r: BithumbRow) => r.currency)
  }

  /** One USDT spot symbol appended by the fetch loop. */
  lemma UsdtSpotPairsStep(symbols: seq<BinanceSymbol>, i: nat)
    requires i < |symbols|
    ensures UsdtSpotPairs(symbols[..i + 1]) ==
              UsdtSpotPairs(symbols[..i]) + (if IsUsdtSpot(symbols[i]) then [ToBinancePair(symbols[i])] else [])
  {
    assert symbols[..i + 1] == symbols[..i] + [symbols[i]];
    FilterSnoc(symbols[..i], symbols[i], IsUsdtSpot);
    if IsUsdtSpot(symbols[i]) {
      MapSnoc(Filter(symbols[..i], IsUsdtSpot), symbols[i], ToBinancePair);
    }
  }

  /** One key appended by the Bithumb fetch loop. */
  lemma BithumbKrwRowsStep(keys: seq<string>, i: nat)
    requires i < |keys|
    ensures BithumbKrwRows(keys[..i + 1]) ==
              BithumbKrwRows(keys[..i]) + (if keys[i] != "date" then [ToBithumbRow(keys[i])] else [])
  {
    assert keys[..i + 1] == keys[..i] + [keys[i]];
    FilterSnoc(keys[..i], keys[i], IsCurrencyKey);
    if keys[i] != "date" {
      MapSnoc(Filter(keys[..i], IsCurrencyKey), keys[i], ToBithumbRow);
    }
  }

  /** The Binance table is exactly the USDT spot symbols, in input order. */
  lemma UsdtSpotPairsMembership(symbols: seq<BinanceSymbol>, p: BinancePair)
    ensures p in UsdtSpotPairs(symbols) <==>
              exists s :: s in symbols && IsUsdtSpot(s) && p == ToBinancePair(s)
  {
    var kept := Filter(symbols, IsUsdtSpot);
    if p in UsdtSpotPairs(symbols) {
      var i :| 0 <= i < |kept| && p == ToBinancePair(kept[i]);
      FilterMembership(symbols, IsUsdtSpot, kept[i]);
    }
    if exists s :: s in symbols && IsUsdtSpot(s) && p == ToBinancePair(s) {
      var s :| s in symbols && IsUsdtSpot(s) && p == ToBinancePair(s);
      FilterMembership(symbols, IsUsdtSpot, s);
      var i :| 0 <= i < |kept| && kept[i] == s;
      assert UsdtSpotPairs(symbols)[i] == p;
    }
  }

  /** Splitting the symbol list splits the table the same way: input order is kept. */
  lemma UsdtSpotPairsAppend(symbols: seq<BinanceSymbol>, more: seq<BinanceSymbol>)
    ensures UsdtSpotPairs(symbols + more) == UsdtSpotPairs(symbols) + UsdtSpotPairs(more)
  {
    FilterAppend(symbols, more, IsUsdtSpot);
    MapAppend(Filter(symbols, IsUsdtSpot), Filter(more, IsUsdtSpot), ToBinancePair);
  }

  /** The Bithumb table has one row per key other than `date`, in key order,
      with `Market == "KRW-" + key` and `Currency == key`. */
  lemma BithumbKrwRowsSpec(keys: seq<string>)
    ensures |BithumbKrwRows(keys)| == |keys| - multiset(keys)["date"]
    ensures forall i :: 0 <= i < |BithumbKrwRows(keys)| ==>
              BithumbKrwRows(keys)[i].currency != "date" &&
              BithumbKrwRows(keys)[i].market == "KRW-" + BithumbKrwRows(keys)[i].currency
    ensures forall k :: (exists i :: 0 <= i < |BithumbKrwRows(keys)| && BithumbKrwRows(keys)[i].currency == k)
              <==> k in keys && k != "date"
  {
    var kept := Filter(keys, IsCurrencyKey);
    var rows := BithumbKrwRows(keys);
    FilterCountLength(keys, IsCurrencyKey, "date");
    forall k ensures (exists i :: 0 <= i < |rows| && rows[i].currency == k) <==> k in keys && k != "date" {
      FilterMembership(keys, IsCurrencyKey, k);
      if k in kept {
        var i :| 0 <= i < |kept| && kept[i] == k;
        assert rows[i].currency == k;
      }
    }
  }

  /** A filter that drops exactly the occurrences of one value `v` shortens
      the sequence by the number of those occurrences. */
  lemma {:induction false} FilterCountLength(s: seq<string>, p: string -> bool, v: string)
    requires forall x :: p(x) <==> x != v
    ensures |Filter(s, p)| == |s| - multiset(s)[v]
  {
    if s != [] {
      var init := s[..|s| - 1];
      FilterCountLength(init, p, v);
      assert s == init + [s[|s| - 1]];
      FilterSnoc(init, s[|s| - 1], p);
    }
  }

  /** The Bithumb fetcher's loop over the keys of `data['data']`, the same
      in both scripts that fetch Bithumb KRW listings. */
  method GetBithumbKrwPairs(fetch: Fetch<seq<string>>) returns (rows: seq<BithumbRow>)
    ensures rows == if fetch.Fetched? then BithumbKrwRows(fetch.payload) else []
  {
    var keys := if fetch.Fetched? then fetch.payload else [];
    rows := [];
    var i := 0;
    while i < |keys|
      invariant 0 <= i <= |keys|
      invariant rows == BithumbKrwRows(keys[..i])
    {
      BithumbKrwRowsStep(keys, i);
      if keys[i] != "date" {
        rows := rows + [ToBithumbRow(keys[i])];
      }
      i := i + 1;
    }
    assert keys[..i] == keys;
  }
}
