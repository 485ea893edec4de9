/**
  The combined analyser: an object that fetches the three exchanges'
  listings, keeps Upbit's market list once fetched, records a listing date
  per base asset, and derives the Upbit market-type breakdown (sorted by
  listing date), the seven exchange regions and the cross comparison of the
  Binance-and-Bithumb assets missing from Upbit's KRW market with Upbit's
  USDT-and-BTC-but-not-KRW pairs.
 */
module ExchangeAnalysis {
  import opened PyStr
  import opened Seqs
  import opened Exchanges
  import opened MarketTypes
  import opened Sorting
  import opened SetReconciler
  import UpbitMarketDiff

  /** A Binance symbol whose listing date the fetch records. */
  predicate Dated(s: BinanceSymbol)
  {
    IsUsdtSpot(s) && s.onboardDate.Some?
  }

  /** The listing dates after the Binance fetch loop has run over `symbols`. */
  function RecordDates(dates: map<string, string>, symbols: seq<BinanceSymbol>): map<string, string>
  {
    if symbols == [] then dates
    else
      var d := RecordDates(dates, symbols[..|symbols| - 1]);
      var s := symbols[|symbols| - 1];
      if Dated(s) then d[s.baseAsset := s.onboardDate.value] else d
  }

  /** The listing dates after the Upbit fetch loop has run over `markets`. */
  function FillUnknown(dates: map<string, string>, markets: seq<UpbitMarket>): map<string, string>
  {
    if markets == [] then dates
    else
      var d := FillUnknown(dates, markets[..|markets| - 1]);
      var b := BaseOf(markets[|markets| - 1]);
      if b in d then d else d[b := Unknown]
  }

  function AfterBinance(dates: map<string, string>, fetch: Fetch<seq<BinanceSymbol>>): map<string, string>
  {
    if fetch.Fetched? then RecordDates(dates, fetch.payload) else dates
  }

  function AfterUpbit(dates: map<string, string>, fetch: Fetch<seq<UpbitMarket>>): map<string, string>
  {
    if fetch.Fetched? then FillUnknown(dates, fetch.payload) else dates
  }

  /** The analyser's sort, for a fixed set of listing dates. */
  function ByListingDate(dates: map<string, string>): seq<UpbitMarket> -> seq<UpbitMarket>
  {
    (pairs: seq<UpbitMarket>) => SortBy(pairs, ListingDateKey(dates))
  }

  datatype Analysis = Analysis(upbit: MarketReport, exchanges: Regions, cross: CrossResult)

  /** Everything the analysis derives from the three tables, Upbit's market
      list and the listing dates recorded by the fetches. Upbit's asset set is
      the bases of all its markets, whatever the quote. */
  function Analyze(binance: seq<BinancePair>, bithumb: seq<BithumbRow>,
                   markets: seq<UpbitMarket>, dates: map<string, string>): Analysis
  {
    var report := Derive(markets, ByListingDate(dates));
    var binanceAssets, bithumbAssets := BinanceAssets(binance), BithumbAssets(bithumb);
    Analysis(
      report,
      ThreeWay(binanceAssets, Bases(markets), bithumbAssets),
      CrossCompare(ExclusivePair(binanceAssets, bithumbAssets, Bases(report.krwPairs)),
                   Bases(report.usdtBtcNotKrw)))
  }

  class CryptoExchangeAnalyzer {
    /** Upbit's market list, once fetched. */
    var upbitMarkets: Option<seq<UpbitMarket>>
    /** Listing date per base asset. */
    var listingDates: map<string, string>

    constructor()
      ensures upbitMarkets == None && listingDates == map[]
    {
      upbitMarkets := None;
      listingDates := map[];
    }

    /** Builds the Binance USDT table and records the listing date of every
        symbol in it that has one. */
    method GetBinanceUsdtPairs(fetch: Fetch<seq<BinanceSymbol>>) returns (pairs: seq<BinancePair>)
      modifies this
      ensures pairs == if fetch.Fetched? then UsdtSpotPairs(fetch.payload) else []
      ensures listingDates == AfterBinance(old(listingDates), fetch)
      ensures upbitMarkets == old(upbitMarkets)
    {
      var symbols := if fetch.Fetched? then fetch.payload else [];
      pairs := [];
      var dates := listingDates;
      var i := 0;
      while i < |symbols|
        invariant 0 <= i <= |symbols|
        invariant pairs == UsdtSpotPairs(symbols[..i])
        invariant dates == RecordDates(listingDates, symbols[..i])
        modifies {}
      {
        var s := symbols[i];
        UsdtSpotPairsStep(symbols, i);
        RecordDatesStep(listingDates, symbols, i);
        if IsUsdtSpot(s) {
          pairs := pairs + [ToBinancePair(s)];
          if s.onboardDate.Some? {
            dates := dates[s.baseAsset := s.onboardDate.value];
          }
        }
        i := i + 1;
      }
      assert symbols[..i] == symbols;
      assert dates == AfterBinance(listingDates, fetch);
      listingDates := dates;
    }

    /** Fetches Upbit's markets on the first call only; a successful first
        fetch gives every base without a date the placeholder `Unknown`, a
        failed one leaves an empty list. Later calls return the kept list and
        change nothing. */
    method GetUpbitMarkets(fetch: Fetch<seq<UpbitMarket>>) returns (markets: seq<UpbitMarket>)
      requires upbitMarkets.None? && fetch.Fetched? ==> AllDashed(fetch.payload)
      modifies this
      ensures old(upbitMarkets).Some? ==>
                markets == old(upbitMarkets).value && upbitMarkets == old(upbitMarkets) &&
                listingDates == old(listingDates)
      ensures old(upbitMarkets).None? ==>
                markets == (if fetch.Fetched? then fetch.payload else []) &&
                upbitMarkets == Some(markets) &&
                listingDates == AfterUpbit(old(listingDates), fetch)
    {
      if upbitMarkets.None? {
        match fetch
        case Failed =>
          upbitMarkets := Some([]);
        case Fetched(payload) =>
          upbitMarkets := Some(payload);
          var i := 0;
          while i < |payload|
            invariant 0 <= i <= |payload|
            invariant upbitMarkets == Some(payload)
            invariant listingDates == FillUnknown(old(listingDates), payload[..i])
          {
            var b := Base(payload[i].market);
            if b !in listingDates {
              listingDates := listingDates[b := Unknown];
            }
            assert payload[..i + 1][..i] == payload[..i];
            i := i + 1;
          }
          assert payload[..i] == payload;
      }
      markets := upbitMarkets.value;
    }

    /** The Upbit markets whose code starts with `prefix`, from the kept list. */
    method FilterPairs(prefix: string, fetch: Fetch<seq<UpbitMarket>>) returns (pairs: seq<UpbitMarket>)
      requires upbitMarkets.None? && fetch.Fetched? ==> AllDashed(fetch.payload)
      modifies this
      ensures upbitMarkets.Some? && pairs == WithPrefix(upbitMarkets.value, prefix)
      ensures old(upbitMarkets).Some? ==>
                upbitMarkets == old(upbitMarkets) && listingDates == old(listingDates)
      ensures old(upbitMarkets).None? ==>
                upbitMarkets == Some(if fetch.Fetched? then fetch.payload else []) &&
                listingDates == AfterUpbit(old(listingDates), fetch)
    {
      var markets := GetUpbitMarkets(fetch);
      pairs := [];
      var i := 0;
      while i < |markets|
        invariant 0 <= i <= |markets|
        invariant pairs == WithPrefix(markets[..i], prefix)
        modifies {}
      {
        WithPrefixStep(markets, i, prefix);
        if StartsWith(markets[i].market, prefix) {
          pairs := pairs + [markets[i]];
        }
        i := i + 1;
      }
      assert markets[..i] == markets;
    }

    /** `sorted(pairs, key=listing date of the base)`: a stable sort in which
        a base without an entry sorts as `NoDate`. */
    function SortByListingDate(pairs: seq<UpbitMarket>): (r: seq<UpbitMarket>)
      reads this
      ensures multiset(r) == multiset(pairs)
      ensures SortedBy(r, ListingDateKey(listingDates))
      ensures StableFor(r, pairs, ListingDateKey(listingDates))
    {
      ByListingDate(listingDates)(pairs)
    }

    /** `save_to_excel(pairs, sheet_name, writer)`: the sheet the report
        writes for one list. An empty list keeps its sheet name and has no
        rows; otherwise each pair gives one row, in order, whose date is the
        recorded listing date of its base, or `Unknown` when there is none. */
    function SaveToExcel(pairs: seq<UpbitMarket>, sheetName: string): (r: UpbitMarketDiff.Sheet)
      requires AllDashed(pairs)
      reads this
      ensures r.name == sheetName && |r.rows| == |pairs|
      ensures forall i :: 0 <= i < |r.rows| ==>
                r.rows[i].code == pairs[i].market &&
                r.rows[i].koreanName == pairs[i].koreanName &&
                r.rows[i].englishName == pairs[i].englishName &&
                r.rows[i].baseCurrency == BaseColumn(sheetName) &&
                r.rows[i].quoteCurrency == BaseOf(pairs[i]) &&
                r.rows[i].listingDate ==
                  (if BaseOf(pairs[i]) in listingDates then listingDates[BaseOf(pairs[i])] else Unknown) &&
                r.rows[i].warning == ""
    {
      var base := BaseColumn(sheetName);
      UpbitMarketDiff.Sheet(sheetName, seq(|pairs|, i requires 0 <= i < |pairs| reads this =>
        var b := BaseOf(pairs[i]);
        UpbitMarketDiff.SheetRow(pairs[i].market, base, b, pairs[i].koreanName, pairs[i].englishName,
                                 if b in listingDates then listingDates[b] else Unknown, "")))
    }

    /** Fetches the three listings in the script's order and derives the
        whole analysis from them and the listing dates then recorded. */
    method AnalyzeExchanges(binanceFetch: Fetch<seq<BinanceSymbol>>,
                            bithumbFetch: Fetch<seq<string>>,
                            upbitFetch: Fetch<seq<UpbitMarket>>) returns (result: Analysis)
      requires upbitMarkets.None? && upbitFetch.Fetched? ==> AllDashed(upbitFetch.payload)
      modifies this
      ensures upbitMarkets.Some?
      ensures result == Analyze(if binanceFetch.Fetched? then UsdtSpotPairs(binanceFetch.payload) else [],
                                if bithumbFetch.Fetched? then BithumbKrwRows(bithumbFetch.payload) else [],
                                upbitMarkets.value, listingDates)
      ensures old(upbitMarkets).Some? ==>
                upbitMarkets == old(upbitMarkets) &&
                listingDates == AfterBinance(old(listingDates), binanceFetch)
      ensures old(upbitMarkets).None? ==>
                upbitMarkets == Some(if upbitFetch.Fetched? then upbitFetch.payload else []) &&
                listingDates == AfterUpbit(AfterBinance(old(listingDates), binanceFetch), upbitFetch)
    {
      var binance := GetBinanceUsdtPairs(binanceFetch);
      var bithumb := GetBithumbKrwPairs(bithumbFetch);
      var markets := GetUpbitMarkets(upbitFetch);
      result := Analyze(binance, bithumb, markets, listingDates);
    }
  }

  /** One more symbol seen by the Binance loop. */
  lemma RecordDatesStep(dates: map<string, string>, symbols: seq<BinanceSymbol>, i: nat)
    requires i < |symbols|
    ensures RecordDates(dates, symbols[..i + 1]) ==
              if Dated(symbols[i]) then RecordDates(dates, symbols[..i])[symbols[i].baseAsset := symbols[i].onboardDate.value]
              else RecordDates(dates, symbols[..i])
  {
    assert symbols[..i + 1][..i] == symbols[..i];
  }

  /** The Binance loop adds exactly the bases of the dated USDT spot symbols. */
  lemma {:induction false} RecordDatesKeys(dates: map<string, string>, symbols: seq<BinanceSymbol>)
    ensures RecordDates(dates, symbols).Keys ==
              dates.Keys + (set s | s in symbols && Dated(s) :: s.baseAsset)
  {
    if symbols != [] {
      var init, s := symbols[..|symbols| - 1], symbols[|symbols| - 1];
      RecordDatesKeys(dates, init);
      assert symbols == init + [s];
      var added := set x | x in symbols && Dated(x) :: x.baseAsset;
      var before := set x | x in init && Dated(x) :: x.baseAsset;
      assert added == before + (if Dated(s) then {s.baseAsset} else {}) by {
        forall b | b in added ensures b in before + (if Dated(s) then {s.baseAsset} else {}) {
          var x :| x in symbols && Dated(x) && x.baseAsset == b;
          if x != s {
            assert x in init;
          }
        }
      }
    }
  }

  /** A base is dated by the last dated symbol that carries it: the later
      entry overwrites the earlier. */
  lemma {:induction false} RecordDatesLastWins(dates: map<string, string>, symbols: seq<BinanceSymbol>, i: nat)
    requires i < |symbols| && Dated(symbols[i])
    requires forall j :: i < j < |symbols| && Dated(symbols[j]) ==> symbols[j].baseAsset != symbols[i].baseAsset
    ensures symbols[i].baseAsset in RecordDates(dates, symbols)
    ensures RecordDates(dates, symbols)[symbols[i].baseAsset] == symbols[i].onboardDate.value
  {
    var init := symbols[..|symbols| - 1];
    if i < |symbols| - 1 {
      RecordDatesLastWins(dates, init, i);
    }
  }

  /** A base no dated symbol carries keeps its old entry, or its absence. */
  lemma {:induction false} RecordDatesUntouched(dates: map<string, string>, symbols: seq<BinanceSymbol>, b: string)
    requires forall j :: 0 <= j < |symbols| && Dated(symbols[j]) ==> symbols[j].baseAsset != b
    ensures b in RecordDates(dates, symbols) <==> b in dates
    ensures b in dates ==> RecordDates(dates, symbols)[b] == dates[b]
  {
    if symbols != [] {
      RecordDatesUntouched(dates, symbols[..|symbols| - 1], b);
    }
  }

  /** The Upbit loop gives an entry to every base of `markets` and to no
      other key. */
  lemma {:induction false} FillUnknownKeys(dates: map<string, string>, markets: seq<UpbitMarket>)
    ensures FillUnknown(dates, markets).Keys == dates.Keys + Bases(markets)
  {
    if markets != [] {
      var init, m := markets[..|markets| - 1], markets[|markets| - 1];
      FillUnknownKeys(dates, init);
      assert markets == init + [m];
      BasesSnoc(init, m);
    }
  }

  /** A date already recorded is never overwritten, and every new entry is
      the placeholder. */
  lemma {:induction false} FillUnknownValues(dates: map<string, string>, markets: seq<UpbitMarket>, b: string)
    requires b in FillUnknown(dates, markets)
    ensures FillUnknown(dates, markets)[b] == if b in dates then dates[b] else Unknown
  {
    if markets != [] {
      var init := markets[..|markets| - 1];
      var d := FillUnknown(dates, init);
      FillUnknownKeys(dates, init);
      if b in d {
        FillUnknownValues(dates, init, b);
      }
    }
  }

  /** A listing whose bases all have entries leaves the dates as they are. */
  lemma {:induction false} FillUnknownCovered(dates: map<string, string>, markets: seq<UpbitMarket>)
    requires Bases(markets) <= dates.Keys
    ensures FillUnknown(dates, markets) == dates
  {
    if markets != [] {
      var init, m := markets[..|markets| - 1], markets[|markets| - 1];
      assert markets == init + [m];
      BasesSnoc(init, m);
      FillUnknownCovered(dates, init);
    }
  }

  /** Running the Upbit loop twice over the same markets adds nothing. */
  lemma FillUnknownIdempotent(dates: map<string, string>, markets: seq<UpbitMarket>)
    ensures FillUnknown(FillUnknown(dates, markets), markets) == FillUnknown(dates, markets)
  {
    FillUnknownKeys(dates, markets);
    FillUnknownCovered(FillUnknown(dates, markets), markets);
  }

  /** `YYYY-MM-DD`, the form `strftime('%Y-%m-%d')` gives for years 1000 to 9999. */
  predicate IsDate(s: string)
  {
    |s| == 10 &&
    forall i :: 0 <= i < 10 ==> if i == 4 || i == 7 then s[i] == '-' else '0' <= s[i] <= '9'
  }

  /** Every recorded value is a date or the placeholder. */
  ghost predicate DatesWellFormed(dates: map<string, string>)
  {
    forall b :: b in dates ==> IsDate(dates[b]) || dates[b] == Unknown
  }

  /** Order of the sort keys: every date, then `NoDate`, then `Unknown`. */
  lemma DateKeyOrder(d: string)
    requires IsDate(d)
    ensures LessEq(d, NoDate)
    ensures Less(NoDate, Unknown)
    ensures Less(d, Unknown)
  {
    PointwiseLessEq(d, NoDate);
  }

  /** Dates recorded from date-shaped onboard dates, then filled with the
      placeholder, stay well formed. */
  lemma {:induction false} RecordDatesWellFormed(dates: map<string, string>, symbols: seq<BinanceSymbol>)
    requires DatesWellFormed(dates)
    requires forall j :: 0 <= j < |symbols| && Dated(symbols[j]) ==> IsDate(symbols[j].onboardDate.value)
    ensures DatesWellFormed(RecordDates(dates, symbols))
  {
    if symbols != [] {
      RecordDatesWellFormed(dates, symbols[..|symbols| - 1]);
    }
  }

  lemma FillUnknownWellFormed(dates: map<string, string>, markets: seq<UpbitMarket>)
    requires DatesWellFormed(dates)
    ensures DatesWellFormed(FillUnknown(dates, markets))
  {
    forall b | b in FillUnknown(dates, markets)
      ensures IsDate(FillUnknown(dates, markets)[b]) || FillUnknown(dates, markets)[b] == Unknown
    {
      FillUnknownValues(dates, markets, b);
    }
  }

  /** With well-formed dates, sorting by listing date puts every pair whose
      date is unknown after every other pair. */
  lemma UnknownSortsLast(dates: map<string, string>, pairs: seq<UpbitMarket>, i: nat, j: nat)
    requires DatesWellFormed(dates)
    requires i < j < |SortBy(pairs, ListingDateKey(dates))|
    requires ListingDateKey(dates)(SortBy(pairs, ListingDateKey(dates))[i]) == Unknown
    ensures ListingDateKey(dates)(SortBy(pairs, ListingDateKey(dates))[j]) == Unknown
  {
    var r := SortBy(pairs, ListingDateKey(dates));
    var k := ListingDateKey(dates)(r[j]);
    assert LessEq(Unknown, k);
    if IsDate(k) {
      DateKeyOrder(k);
    } else if k == NoDate {
      DateKeyOrder("2000-01-01");
    }
  }

  lemma ByListingDateRearranges(dates: map<string, string>)
    ensures Rearranges(ByListingDate(dates))
  {
    forall xs ensures multiset(ByListingDate(dates)(xs)) == multiset(xs) {
      assert ByListingDate(dates)(xs) == SortBy(xs, ListingDateKey(dates));
    }
  }

  /** The cross comparison's common list holds exactly the assets Binance
      and Bithumb list, Upbit lists on its USDT and BTC markets, and Upbit
      does not list on its KRW market; the two other lists hold what is left
      on each side. */
  lemma CrossComparisonExact(binance: seq<BinancePair>, bithumb: seq<BithumbRow>,
                             markets: seq<UpbitMarket>, dates: map<string, string>, a: string)
    ensures var c := Analyze(binance, bithumb, markets, dates).cross;
            (a in c.common <==>
               a in BinanceAssets(binance) && a in BithumbAssets(bithumb) &&
               a !in MarketBases(markets, "KRW-") &&
               a in MarketBases(markets, "USDT-") && a in MarketBases(markets, "BTC-")) &&
            (a in c.onlyA <==>
               a in BinanceAssets(binance) && a in BithumbAssets(bithumb) &&
               a !in MarketBases(markets, "KRW-") &&
               !(a in MarketBases(markets, "USDT-") && a in MarketBases(markets, "BTC-"))) &&
            (a in c.onlyB <==>
               !(a in BinanceAssets(binance) && a in BithumbAssets(bithumb)) &&
               a !in MarketBases(markets, "KRW-") &&
               a in MarketBases(markets, "USDT-") && a in MarketBases(markets, "BTC-"))
  {
    var report := Derive(markets, ByListingDate(dates));
    ByListingDateRearranges(dates);
    DeriveBases(markets, ByListingDate(dates));
    UsdtBtcNotKrwBaseSet(markets, ByListingDate(dates), a);
  }

  /** The bases of `usdt_btc_not_krw` are exactly the bases Upbit lists on its
      USDT and BTC markets and not on its KRW market. */
  lemma UsdtBtcNotKrwBaseSet(markets: seq<UpbitMarket>, sort: seq<UpbitMarket> -> seq<UpbitMarket>, a: string)
    requires Rearranges(sort)
    ensures a in Bases(Derive(markets, sort).usdtBtcNotKrw) <==>
              a !in MarketBases(markets, "KRW-") &&
              a in MarketBases(markets, "USDT-") && a in MarketBases(markets, "BTC-")
  {
    var tail := Derive(markets, sort).usdtBtcNotKrw;
    if a in Bases(tail) {
      var m :| m in tail && BaseOf(m) == a;
      UsdtBtcNotKrwBases(markets, sort, m);
    }
    if a !in MarketBases(markets, "KRW-") && a in MarketBases(markets, "USDT-") &&
       a in MarketBases(markets, "BTC-") {
      var m :| m in WithPrefix(markets, "USDT-") && BaseOf(m) == a;
      CombinedListsExact(markets, sort, m);
    }
  }

  /** Upbit's asset set in the exchange regions is the bases of all its
      markets: a base Upbit lists only against BTC or USDT still counts as
      listed on Upbit. */
  lemma UpbitAssetsAllQuotes(binance: seq<BinancePair>, bithumb: seq<BithumbRow>,
                             markets: seq<UpbitMarket>, dates: map<string, string>, a: string)
    requires a in MarketBases(markets, "BTC-") || a in MarketBases(markets, "USDT-")
    ensures a !in Analyze(binance, bithumb, markets, dates).exchanges.onlyX
    ensures a !in Analyze(binance, bithumb, markets, dates).exchanges.onlyZ
  {
    var m :| (m in WithPrefix(markets, "BTC-") || m in WithPrefix(markets, "USDT-")) && BaseOf(m) == a;
    assert a in Bases(markets);
  }

  /** After a successful first Upbit fetch every Upbit base has an entry, so
      the `NoDate` default never applies to Upbit's pairs. */
  lemma UpbitBasesAllDated(dates: map<string, string>, markets: seq<UpbitMarket>, m: UpbitMarket)
    requires m in markets
    ensures BaseOf(m) in FillUnknown(dates, markets)
    ensures ListingDateKey(FillUnknown(dates, markets))(m) != NoDate ||
              (BaseOf(m) in dates && dates[BaseOf(m)] == NoDate)
  {
    FillUnknownKeys(dates, markets);
    FillUnknownValues(dates, markets, BaseOf(m));
  }

  /** When every base of a list sorted by listing date has a recorded date,
      the date column of its sheet ascends. */
  lemma SheetDatesAscend(a: CryptoExchangeAnalyzer, ps: seq<UpbitMarket>, pairs: seq<UpbitMarket>,
                         sheetName: string, i: nat, j: nat)
    requires pairs == a.SortByListingDate(ps)
    requires AllDashed(pairs) && Bases(pairs) <= a.listingDates.Keys
    requires i < j < |pairs|
    ensures LessEq(a.SaveToExcel(pairs, sheetName).rows[i].listingDate,
                   a.SaveToExcel(pairs, sheetName).rows[j].listingDate)
  {
    var key := ListingDateKey(a.listingDates);
    assert BaseOf(pairs[i]) in a.listingDates && BaseOf(pairs[j]) in a.listingDates by {
      assert pairs[i] in pairs && pairs[j] in pairs;
    }
    assert LessEq(key(pairs[i]), key(pairs[j]));
  }
}
