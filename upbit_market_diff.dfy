/**
  The Upbit market-type comparison script: one fetch of Upbit's markets,
  the per-market-type breakdown, and the sheets it writes. The script's
  listing-date source is empty, so every list falls back to being sorted by
  market code.
 */
module UpbitMarketDiff {
  import opened PyStr
  import opened Seqs
  import opened Exchanges
  import opened MarketTypes
  import opened Sorting
  import opened SetReconciler

  /** The sort key of the fallback: the market code. */
  function MarketCode(m: UpbitMarket): string
  {
    m.market
  }

  /** Python's `not listing_dates` for `None` or a dict. */
  predicate NoDates(dates: Option<map<string, string>>)
  {
    dates.None? || |dates.value| == 0
  }

  /** `sort_by_listing_date(pairs, listing_dates)`: by market code when
      there are no dates, otherwise by listing date with `NoDate` for a base
      without one; a stable rearrangement either way. */
  function SortByListingDate(pairs: seq<UpbitMarket>, dates: Option<map<string, string>>): (r: seq<UpbitMarket>)
    ensures multiset(r) == multiset(pairs)
    ensures NoDates(dates) ==> SortedBy(r, MarketCode) && StableFor(r, pairs, MarketCode)
    ensures !NoDates(dates) ==>
              SortedBy(r, ListingDateKey(dates.value)) && StableFor(r, pairs, ListingDateKey(dates.value))
  {
    if NoDates(dates) then SortBy(pairs, MarketCode)
    else SortBy(pairs, ListingDateKey(dates.value))
  }

  /** `get_coin_listing_dates()`: no listing dates are known. */
  function CoinListingDates(): (r: map<string, string>)
    ensures |r| == 0
  {
    map[]
  }

  function DiffSort(dates: Option<map<string, string>>): seq<UpbitMarket> -> seq<UpbitMarket>
  {
    (pairs: seq<UpbitMarket>) => SortByListingDate(pairs, dates)
  }

  /** What `main` derives: nothing when the fetch failed or returned no
      markets, otherwise the breakdown sorted with the script's dates. */
  function Main(fetch: Fetch<seq<UpbitMarket>>): (r: Option<MarketReport>)
    ensures r.None? <==> fetch.Failed? || fetch.payload == []
  {
    if fetch.Failed? || fetch.payload == [] then None
    else Some(Derive(fetch.payload, DiffSort(Some(CoinListingDates()))))
  }

  lemma DiffSortRearranges(dates: Option<map<string, string>>)
    ensures Rearranges(DiffSort(dates))
  {
    forall xs ensures multiset(DiffSort(dates)(xs)) == multiset(xs) {
      assert DiffSort(dates)(xs) == SortByListingDate(xs, dates);
    }
  }

  /** Every list `main` writes is sorted by market code. */
  lemma MainSortedByCode(fetch: Fetch<seq<UpbitMarket>>)
    requires Main(fetch).Some?
    ensures var r := Main(fetch).value;
            SortedBy(r.krwPairs, MarketCode) && SortedBy(r.usdtPairs, MarketCode) &&
            SortedBy(r.btcPairs, MarketCode) && SortedBy(r.onlyKrw, MarketCode) &&
            SortedBy(r.onlyUsdt, MarketCode) && SortedBy(r.onlyBtc, MarketCode) &&
            SortedBy(r.allMarkets, MarketCode) && SortedBy(r.usdtBtcNotKrw, MarketCode)
  {
    var dates := Some(CoinListingDates());
    assert NoDates(dates);
    var sort := DiffSort(dates);
    assert forall xs :: sort(xs) == SortByListingDate(xs, dates);
  }

  /** The breakdown `main` writes, list by list, in terms of the fetched
      markets: only-lists hold the pairs whose base is on neither other
      market type, `all_markets` the KRW pairs whose base is on both others,
      `usdt_btc_not_krw` the USDT pairs whose base is on BTC and not KRW. */
  lemma MainBreakdown(fetch: Fetch<seq<UpbitMarket>>, m: UpbitMarket)
    requires Main(fetch).Some?
    ensures var r, ms := Main(fetch).value, fetch.payload;
            (m in r.onlyKrw <==>
               (m in ms && StartsWith(m.market, "KRW-") &&
                BaseOf(m) !in MarketBases(ms, "USDT-") && BaseOf(m) !in MarketBases(ms, "BTC-"))) &&
            (m in r.onlyUsdt <==>
               (m in ms && StartsWith(m.market, "USDT-") &&
                BaseOf(m) !in MarketBases(ms, "KRW-") && BaseOf(m) !in MarketBases(ms, "BTC-"))) &&
            (m in r.onlyBtc <==>
               (m in ms && StartsWith(m.market, "BTC-") &&
                BaseOf(m) !in MarketBases(ms, "KRW-") && BaseOf(m) !in MarketBases(ms, "USDT-"))) &&
            (m in r.allMarkets <==>
               (m in ms && StartsWith(m.market, "KRW-") &&
                BaseOf(m) in MarketBases(ms, "USDT-") && BaseOf(m) in MarketBases(ms, "BTC-"))) &&
            (m in r.usdtBtcNotKrw <==>
               (m in ms && StartsWith(m.market, "USDT-") &&
                BaseOf(m) in MarketBases(ms, "BTC-") && BaseOf(m) !in MarketBases(ms, "KRW-")))
  {
    var sort := DiffSort(Some(CoinListingDates()));
    DiffSortRearranges(Some(CoinListingDates()));
    OnlyListsExact(fetch.payload, sort, m);
    CombinedListsExact(fetch.payload, sort, m);
  }

  /** One row of a written sheet. */
  datatype SheetRow = SheetRow(
    code: string, baseCurrency: string, quoteCurrency: string,
    koreanName: string, englishName: string, listingDate: string, warning: string)

  datatype Sheet = Sheet(name: string, rows: seq<SheetRow>)

  /** The row `save_to_excel` writes for one pair of a non-empty sheet. */
  function ToRow(m: UpbitMarket, baseCurrency: string): SheetRow
    requires '-' in m.market
  {
    var quote := Base(m.market);
    var dates := CoinListingDates();
    SheetRow(m.market, baseCurrency, quote, m.koreanName, m.englishName,
             if quote in dates then dates[quote] else Unknown, "")
  }

  /** `save_to_excel(pairs, sheet_name, writer, base_currency)`, with an
      empty `baseCurrency` standing for the absent argument: an empty list
      with a base currency renames the sheet; a non-empty one gets one row per
      pair. */
  function SaveToExcel(pairs: seq<UpbitMarket>, sheetName: string, baseCurrency: string): (r: Sheet)
    requires AllDashed(pairs)
    ensures pairs == [] ==>
              (r.rows == [] &&
               r.name == if baseCurrency != "" then "only_" + baseCurrency + "_pairs" else sheetName)
    ensures pairs != [] ==> r.name == sheetName && |r.rows| == |pairs|
    ensures forall i :: 0 <= i < |r.rows| ==>
              r.rows[i].code == pairs[i].market &&
              r.rows[i].koreanName == pairs[i].koreanName &&
              r.rows[i].englishName == pairs[i].englishName &&
              r.rows[i].quoteCurrency == BaseOf(pairs[i]) &&
              r.rows[i].baseCurrency == BaseColumn(sheetName) &&
              r.rows[i].listingDate == Unknown &&
              r.rows[i].warning == ""
  {
    if pairs == [] then
      Sheet(if baseCurrency != "" then "only_" + baseCurrency + "_pairs" else sheetName, [])
    else
      var base := BaseColumn(sheetName);
      Sheet(sheetName, seq(|pairs|, i requires 0 <= i < |pairs| => ToRow(pairs[i], base)))
  }
}
