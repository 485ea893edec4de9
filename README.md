# Exchange listing reconciliation, modelled in Dafny

This project models a set of scripts that compare which crypto assets are
listed on three exchanges: Binance (USDT spot pairs), Upbit (KRW, USDT and
BTC markets) and Bithumb (KRW and BTC markets). The scripts do two things.

- **Normalising listings.** Each script fetches an exchange's listing and
  turns it into a table of pairs with their base assets. It keeps only the
  quote currency it wants and skips Bithumb's `date` pseudo-key. Upbit's
  base asset is the second `-`-separated piece of the market code.
- **Reconciling them as sets.** The scripts then compute:
  - the seven regions of a three-exchange Venn diagram;
  - Upbit's per-quote breakdown (only-KRW, only-USDT, only-BTC, all three,
    USDT-and-BTC-but-not-KRW), sorted by listing date;
  - Bithumb's KRW/BTC split;
  - a cross comparison of the assets on Binance and Bithumb but not in
    Upbit's KRW market against Upbit's USDT-and-BTC-but-not-KRW assets;
  - a comparison of Upbit's and Bithumb's only-KRW and only-BTC sheets.

The model is organised as follows.

- Each network fetch becomes a parameter of type `Fetch<T>`, which is either
  `Failed` or `Fetched(payload)`.
- The Python string operations the scripts depend on are written out in
  `PyStr`:
  - code-point ordering;
  - `split`, `startswith` and substring `in`;
  - the single-pass `str.replace`;
  - ASCII `upper`.
- `sorted` is an insertion sort that is proved to be the unique stable sort
  (`Sorting`).
- The combined analyser keeps two pieces of state: the memoised Upbit market
  list and the listing-date dictionary. It is a class whose methods update
  them.
- The fetch loops are methods with loop invariants. Each is proved equal to a
  specification function, and the properties are proved about those
  functions.

Modules, one per script or shared concern:

| module | models |
|---|---|
| `PyStr`, `Seqs`, `Sorting` | Python string, list-comprehension and `sorted` semantics |
| `SetReconciler` | the three-set Venn regions and the sorted cross comparison |
| `Exchanges` | the record shapes and the Binance/Bithumb normalisation shared by the scripts |
| `MarketTypes` | Upbit prefix filtering, base extraction, the per-quote breakdown, sheet base-column rule |
| `ExchangeAnalysis` | `ba_upbit_bithumb_final.py`: the `CryptoExchangeAnalyzer` class |
| `ListingCompared` | `ba_upbit_bithumb_listing_compared.py` |
| `UpbitMarketDiff` | `upbit_krw_usdt_btc_diff.py` |
| `BithumbMarketDiff` | `bithumb_krw_btc_diff.py` |
| `UpbitBithumbDiff` | `upbit_bithumb_diff.py` (see Findings) |
| `CompareTest` | `compare_test.py` |

## Model

| member | source | states |
|---|---|---|
| ExchangeAnalysis.CryptoExchangeAnalyzer.constructor | ba_upbit_bithumb_final.py:10-14 | a new analyser has no Upbit market list yet and an empty listing-date dictionary |
| ExchangeAnalysis.CryptoExchangeAnalyzer.GetBinanceUsdtPairs | ba_upbit_bithumb_final.py:16-53 | the table is the USDT, TRADING, spot-allowed symbols in order (empty on failure); the listing dates become `RecordDates` of the old dates (last symbol wins per base); the Upbit list is untouched |
| ExchangeAnalysis.CryptoExchangeAnalyzer.GetUpbitMarkets | ba_upbit_bithumb_final.py:82-100 | the first call keeps the fetched list (or `[]` on failure) and adds the placeholder `未知` for every base without a date; later calls return the kept list and change nothing |
| ExchangeAnalysis.CryptoExchangeAnalyzer.FilterPairs | ba_upbit_bithumb_final.py:102-105 | the result is the kept market list's entries whose code starts with the prefix, in order, and the state changes only as `GetUpbitMarkets` changes it |
| ExchangeAnalysis.CryptoExchangeAnalyzer.SortByListingDate | ba_upbit_bithumb_final.py:107-111 | the result is a permutation of the pairs, sorted by the base's listing date (`9999-99-99` when absent), and stable |
| ExchangeAnalysis.CryptoExchangeAnalyzer.AnalyzeExchanges | ba_upbit_bithumb_final.py:184-257 | fetches Binance, Bithumb and Upbit in that order; the result is `Analyze` of the three tables, the kept market list and the dates then recorded; the new dates are the Binance dates followed by the Upbit placeholder fill |
| ExchangeAnalysis.CryptoExchangeAnalyzer.SaveToExcel | ba_upbit_bithumb_final.py:113-152 | an empty list keeps its sheet name and has no rows. The single-exchange script renames it. Otherwise there is one row per pair, in order, with the pair's code and names, the sheet's base label, the second code piece, an empty warning, and the recorded listing date of the base (`未知` when none). |
| ExchangeAnalysis.SheetDatesAscend | ba_upbit_bithumb_final.py:107-143 | for a list sorted by listing date whose bases all have a recorded date, the date column of its sheet ascends |
| ExchangeAnalysis.Analyze | ba_upbit_bithumb_final.py:193-257 | the analysis is the Upbit breakdown sorted by listing date, the seven regions of the Binance bases, all Upbit bases and the Bithumb currencies, and the cross comparison of `binance & bithumb - krw` with the USDT-BTC-not-KRW bases |
| ExchangeAnalysis.RecordDates | ba_upbit_bithumb_final.py:26-47 | the dictionary after the Binance loop: each USDT spot symbol with an onboard date, in order, sets its base's date |
| ExchangeAnalysis.FillUnknown | ba_upbit_bithumb_final.py:93-96 | the dictionary after the Upbit loop: each market's base without an entry gets `未知` |
| ExchangeAnalysis.AfterBinance | ba_upbit_bithumb_final.py:16-53 | the dictionary after the Binance fetch, unchanged when it fails |
| ExchangeAnalysis.AfterUpbit | ba_upbit_bithumb_final.py:84-99 | the dictionary after the first Upbit fetch, unchanged when it fails |
| ExchangeAnalysis.RecordDatesKeys | ba_upbit_bithumb_final.py:44-47 | the Binance loop adds exactly the base assets of USDT spot symbols with an onboard date |
| ExchangeAnalysis.RecordDatesLastWins | ba_upbit_bithumb_final.py:44-47 | a base's recorded date is that of its last dated symbol in the response |
| ExchangeAnalysis.RecordDatesUntouched | ba_upbit_bithumb_final.py:44-47 | a base with no dated symbol keeps its previous entry, or stays absent |
| ExchangeAnalysis.FillUnknownKeys | ba_upbit_bithumb_final.py:93-96 | after the Upbit fill the dictionary's keys are the old keys plus every Upbit base |
| ExchangeAnalysis.FillUnknownValues | ba_upbit_bithumb_final.py:93-96 | the fill never overwrites a date: an old entry is kept, a new one is `未知` |
| ExchangeAnalysis.FillUnknownCovered | ba_upbit_bithumb_final.py:95 | when every base already has an entry the fill changes nothing |
| ExchangeAnalysis.FillUnknownIdempotent | ba_upbit_bithumb_final.py:93-96 | filling twice equals filling once |
| ExchangeAnalysis.DateKeyOrder | ba_upbit_bithumb_final.py:109-111 | a `YYYY-MM-DD` date sorts no later than `9999-99-99`, which sorts before `未知` |
| ExchangeAnalysis.RecordDatesWellFormed | ba_upbit_bithumb_final.py:44-47 | recording formatted dates keeps every entry a date or `未知` |
| ExchangeAnalysis.FillUnknownWellFormed | ba_upbit_bithumb_final.py:93-96 | the Upbit fill keeps every entry a date or `未知` |
| ExchangeAnalysis.UnknownSortsLast | ba_upbit_bithumb_final.py:109-111 | with well-formed dates, once a pair keyed `未知` appears in the sorted list, every later pair is keyed `未知` |
| ExchangeAnalysis.ByListingDateRearranges | ba_upbit_bithumb_final.py:107-111 | the listing-date sort is a permutation of any input |
| ExchangeAnalysis.CrossComparisonExact | ba_upbit_bithumb_final.py:252-257 | the common, only-in-Binance-and-Bithumb and only-in-Upbit lists are strictly ascending, and each holds exactly the assets of its region |
| ExchangeAnalysis.UsdtBtcNotKrwBaseSet | ba_upbit_bithumb_final.py:235-238 | an asset is a base of the USDT-and-BTC-not-KRW list iff it has a USDT and a BTC market but no KRW market |
| ExchangeAnalysis.UpbitAssetsAllQuotes | ba_upbit_bithumb_final.py:211 | Upbit's asset set includes the bases of BTC and USDT markets, so such an asset is never "only Binance" or "only Bithumb" |
| ExchangeAnalysis.UpbitBasesAllDated | ba_upbit_bithumb_final.py:93-96 | after the fill, every Upbit base has an entry, so no Upbit pair sorts by the `9999-99-99` default unless that is its recorded date |
| MarketTypes.BaseOf | upbit_krw_usdt_btc_diff.py:135 | `market.split('-')[1]`, the base asset of an Upbit code |
| MarketTypes.ListingDateKey | ba_upbit_bithumb_final.py:111 | the sort key `listing_dates.get(base, '9999-99-99')` |
| MarketTypes.BaseColumn | upbit_krw_usdt_btc_diff.py:67-71 | the base-currency column: the second `_` piece of a name containing `only_`, else the first piece upper-cased |
| MarketTypes.Bases | upbit_krw_usdt_btc_diff.py:135-137 | `{m['market'].split('-')[1] for m in pairs}`, the base set of a list of markets |
| MarketTypes.MarketBases | ba_upbit_bithumb_final.py:212-214 | the base set of the markets with one prefix |
| MarketTypes.Derive | upbit_krw_usdt_btc_diff.py:130-168 | the eight lists of the breakdown: the three prefix lists sorted, their base sets, and the five derived lists filtered from the sorted prefix lists and sorted again |
| MarketTypes.WithPrefix | ba_upbit_bithumb_final.py:105 | the result is the subsequence of markets whose code starts with the prefix, with each kept market's multiplicity unchanged |
| MarketTypes.WithPrefixDashed | upbit_krw_usdt_btc_diff.py:29-31 | filtering by a prefix ending in `-` yields only codes containing `-`, so `split('-')[1]` is defined on them |
| MarketTypes.BasesSnoc | upbit_krw_usdt_btc_diff.py:135-137 | the base set of a list grows by exactly the base of an appended market |
| MarketTypes.NoOnlyWithoutY | upbit_krw_usdt_btc_diff.py:67 | a sheet name without `y` never takes the `only_` branch (used for the fixed names such as `KRW_pairs`) |
| MarketTypes.OnlySheetBase | upbit_krw_usdt_btc_diff.py:67-69 | the base column of sheet `only_B_pairs` is `B` |
| MarketTypes.PlainSheetBase | upbit_krw_usdt_btc_diff.py:70-71 | the base column of any sheet `Q_rest` (no `_` in `Q`) whose name does not contain `only_` is `Q` upper-cased |
| MarketTypes.MarketSheetBase | upbit_krw_usdt_btc_diff.py:70-71 | sheet `KRW_pairs` has base column `KRW` |
| MarketTypes.PrefixedOnlySheetBase | ba_upbit_bithumb_final.py:134-136 | in the combined report, sheet `Upbit_only_B` gets base column `only` (the second `_` piece), not `B` |
| MarketTypes.PrefixedPlainSheetBase | ba_upbit_bithumb_final.py:137-138 | any sheet `Upbit_rest` whose name does not contain `only_` gets base column `UPBIT` |
| MarketTypes.RearrangedMembership | upbit_krw_usdt_btc_diff.py:34-42 | a permuting sort keeps the same members and the same base set |
| MarketTypes.DerivedMembership | upbit_krw_usdt_btc_diff.py:140-168 | a market is in a derived list iff it is in the prefix-filtered list and passes the list's base test |
| MarketTypes.DeriveBases | upbit_krw_usdt_btc_diff.py:130-137 | the KRW, USDT and BTC lists have exactly the bases of the markets with those prefixes |
| MarketTypes.OnlyListsExact | upbit_krw_usdt_btc_diff.py:140-154 | a market is in only-KRW/only-USDT/only-BTC iff it has that prefix and its base has no market under either other prefix |
| MarketTypes.CombinedListsExact | upbit_krw_usdt_btc_diff.py:157-168 | the all-markets list is the KRW markets whose base is also on USDT and BTC; the USDT-BTC-not-KRW list is the USDT markets whose base is on BTC and not KRW |
| MarketTypes.CombinedAndOnlyApart | upbit_krw_usdt_btc_diff.py:140-161 | no base appears both in the all-markets list and in an only- list |
| MarketTypes.UsdtBtcNotKrwBases | upbit_krw_usdt_btc_diff.py:164-168 | each base of the USDT-BTC-not-KRW list has USDT and BTC markets and no KRW market |
| UpbitMarketDiff.NoDates | upbit_krw_usdt_btc_diff.py:36 | `not listing_dates`: no dictionary, or an empty one |
| UpbitMarketDiff.SortByListingDate | upbit_krw_usdt_btc_diff.py:34-42 | a permutation; with no dates, stably sorted by market code; with dates, stably sorted by the base's date or `9999-99-99` |
| UpbitMarketDiff.CoinListingDates | upbit_krw_usdt_btc_diff.py:22-26 | the listing-date source is empty |
| UpbitMarketDiff.DiffSortRearranges | upbit_krw_usdt_btc_diff.py:34-42 | the script's sort is a permutation for any dates |
| UpbitMarketDiff.Main | upbit_krw_usdt_btc_diff.py:119-168 | there is no report iff the fetch failed or returned no markets |
| UpbitMarketDiff.MainSortedByCode | upbit_krw_usdt_btc_diff.py:127-132 | because the date source is empty, every list in the report is sorted by market code |
| UpbitMarketDiff.MainBreakdown | upbit_krw_usdt_btc_diff.py:130-168 | the report's lists hold exactly the markets the per-quote rules select from the fetched list |
| UpbitMarketDiff.SaveToExcel | upbit_krw_usdt_btc_diff.py:45-77 | an empty list renames the sheet to `only_<base>_pairs` when a base is given; otherwise one row per pair, keeping order, with the pair's code and Korean and English names, the sheet's base label, the second code piece, the date `未知` and an empty warning |
| ListingCompared.GetBinanceUsdtPairs | ba_upbit_bithumb_listing_compared.py:11-44 | the table is the USDT, TRADING, spot-allowed symbols in order, empty on failure |
| ListingCompared.GetUpbitKrwPairs | ba_upbit_bithumb_listing_compared.py:73-96 | the table is the markets whose code starts with `KRW-`, in order, empty on failure |
| Exchanges.GetBithumbKrwPairs | ba_upbit_bithumb_listing_compared.py:46-71 | the table has one row per currency key other than `date`, in order, empty on failure |
| Exchanges.IsUsdtSpot | ba_upbit_bithumb_final.py:27-29 | the Binance filter: quoted in USDT, status `TRADING` and spot trading allowed |
| Exchanges.BinanceAssets | ba_upbit_bithumb_final.py:194-197 | `set(binance_df['Base Asset'])`, empty for an empty table |
| Exchanges.BithumbAssets | ba_upbit_bithumb_final.py:200-203 | `set(bithumb_df['Currency'])`, empty for an empty table |
| Exchanges.UsdtSpotPairs | ba_upbit_bithumb_final.py:25-43 | the Binance table: one row per symbol quoted in USDT, `TRADING` and spot-allowed, in order |
| Exchanges.BithumbKrwRows | ba_upbit_bithumb_final.py:65-74 | the Bithumb table: one `KRW-c` row per key `c` other than `date`, in order |
| Exchanges.UsdtSpotPairsMembership | ba_upbit_bithumb_final.py:26-43 | a pair is in the Binance table iff some symbol is quoted in USDT, trading, spot-allowed and maps to it |
| Exchanges.UsdtSpotPairsAppend | ba_upbit_bithumb_final.py:26-43 | the Binance table of a concatenated response is the concatenation of the tables |
| Exchanges.BithumbKrwRowsSpec | ba_upbit_bithumb_final.py:65-74 | the Bithumb table has one row per key minus the `date` keys, each row is `KRW-c` with currency `c` (never `date`), and every non-`date` key has a row |
| ListingCompared.SaveToExcel | ba_upbit_bithumb_listing_compared.py:98-143 | the seven regions are `ThreeWay` of the Binance base assets, the Upbit KRW codes with `KRW-` removed and the Bithumb currencies, each empty on failure |
| ListingCompared.BinanceSet | ba_upbit_bithumb_listing_compared.py:101-104 | an asset is in the Binance set iff the fetch succeeded and a USDT spot symbol has it as base |
| ListingCompared.UpbitSet | ba_upbit_bithumb_listing_compared.py:107-111 | an asset is in the Upbit set iff it is a `KRW-` code with every `KRW-` removed |
| ListingCompared.BithumbSet | ba_upbit_bithumb_listing_compared.py:113-122 | an asset is in the Bithumb set iff it is a fetched key other than `date` |
| ListingCompared.UpbitAsset | ba_upbit_bithumb_listing_compared.py:109 | an Upbit asset is its market code with every `KRW-` removed |
| ListingCompared.UpbitAssets | ba_upbit_bithumb_listing_compared.py:107-121 | the Upbit asset set: the `KRW-`-stripped code of every KRW market |
| ListingCompared.UpbitAssetIsBase | ba_upbit_bithumb_listing_compared.py:109 | for a currency without `-`, removing `KRW-` gives the same asset as the second `-` piece |
| ListingCompared.NoDashNoKrw | ba_upbit_bithumb_listing_compared.py:109 | a currency without `-` contains no `KRW-` |
| SetReconciler.AllCommon | compare_test.py:17 | an asset is in all three iff it is in each set |
| SetReconciler.OnlyIn | compare_test.py:20 | the only-X region is X minus the union of the other two, disjoint from both |
| SetReconciler.ExclusivePair | compare_test.py:29 | `x & y - z` is the intersection of x and y without z (Python precedence), disjoint from z |
| SetReconciler.ThreeWay | ba_upbit_bithumb_final.py:241-247 | the seven regions are pairwise disjoint, their union is the union of the three sets, and each holds exactly its membership pattern |
| SetReconciler.AllCommonSymmetric | compare_test.py:17 | the all-three region does not depend on operand order |
| SetReconciler.EmptyOperand | ba_upbit_bithumb_final.py:194-203 | with the second set empty (a failed fetch), its own region, the common region and the two pairwise regions naming it are empty; only-X is `x - z`, only-Z is `z - x` and the X-Z region is `x & z` |
| SetReconciler.SortedSet | ba_upbit_bithumb_final.py:255-257 | `sorted(set)` is strictly ascending in code-point order and holds exactly the set's members |
| SetReconciler.SortedSetUnique | ba_upbit_bithumb_final.py:255-257 | any strictly ascending listing of a set is `SortedSet` of it |
| SetReconciler.HeadIsLeast | ba_upbit_bithumb_final.py:255-257 | the first element of a sorted listing is the least member |
| SetReconciler.CrossCompare | ba_upbit_bithumb_final.py:255-257 | common, only-A and only-B are strictly ascending, hold exactly their regions, and together count each asset of the union once |
| BithumbMarketDiff.KeysOf | bithumb_krw_btc_diff.py:20 | `data.get('data', {}).keys()`: no `data` field gives no keys |
| BithumbMarketDiff.PairBases | bithumb_krw_btc_diff.py:31-32 | `{pair.split('-')[1] for pair in pairs}` |
| BithumbMarketDiff.Classify | bithumb_krw_btc_diff.py:35-41 | `KRW-c` for the KRW-only bases, `BTC-c` for the BTC-only bases, `KRW-c, BTC-c` for the common ones |
| BithumbMarketDiff.Differences | bithumb_krw_btc_diff.py:31-41 | the classification of the two pair lists' base sets |
| BithumbMarketDiff.Compare | bithumb_krw_btc_diff.py:19-49 | the script's result for two key lists: the pairs built from them and their classification |
| BithumbMarketDiff.QuotedPairs | bithumb_krw_btc_diff.py:19-28 | every pair built contains `-` |
| BithumbMarketDiff.BuildPairs | bithumb_krw_btc_diff.py:19-28 | the loop builds `QuotedPairs`: `Q-k` for every key except `date`, in order |
| BithumbMarketDiff.QuotedPairsSpec | bithumb_krw_btc_diff.py:19-28 | there is one pair per non-`date` key, and a string is a pair iff it is `Q-k` for such a key |
| BithumbMarketDiff.BasesAreKeys | bithumb_krw_btc_diff.py:31-32 | for keys without `-`, the base set of the built pairs is the key set minus `date` |
| BithumbMarketDiff.FetchBithumbMarkets | bithumb_krw_btc_diff.py:9-53 | no result when either request fails; otherwise the comparison of the two key lists (a missing `data` field counts as no keys) |
| BithumbMarketDiff.SheetsWritten | bithumb_krw_btc_diff.py:56-60 | nothing is written without data; otherwise five sheets including `only_KRW` and `only_BTC` |
| BithumbMarketDiff.DifferencesSizes | bithumb_krw_btc_diff.py:35-41 | only-KRW plus both-markets has as many entries as there are KRW bases, and likewise for BTC |
| BithumbMarketDiff.PrefixedSize | bithumb_krw_btc_diff.py:35-38 | prefixing a set of currencies loses no element |
| BithumbMarketDiff.BothSize | bithumb_krw_btc_diff.py:41 | the both-markets entries are one per common currency |
| BithumbMarketDiff.CompareClassifiesKeys | bithumb_krw_btc_diff.py:19-49 | the comparison classifies the two key sets without `date` |
| BithumbMarketDiff.OnlyKrwExact | bithumb_krw_btc_diff.py:35 | a string is in only-KRW iff it is `KRW-c` for a KRW key `c` that is not a BTC key |
| BithumbMarketDiff.OnlyBtcExact | bithumb_krw_btc_diff.py:38 | a string is in only-BTC iff it is `BTC-c` for a BTC key `c` that is not a KRW key |
| BithumbMarketDiff.BothMarketsExact | bithumb_krw_btc_diff.py:41 | a string is in both-markets iff it is `KRW-c, BTC-c` for a key `c` of both |
| UpbitBithumbDiff.Unique | upbit_bithumb_diff.py:19-24 | the comprehension keeps, in order, every element not in the other list, with its multiplicity |
| UpbitBithumbDiff.UniqueMembership | upbit_bithumb_diff.py:19-24 | an element survives iff it is in the first list and not in the second |
| UpbitBithumbDiff.UniqueApart | upbit_bithumb_diff.py:19-24 | an element never survives on both sides |
| UpbitBithumbDiff.AsWritten | upbit_bithumb_diff.py:19-24 | the four comprehensions as written, each entry compared as it is |
| UpbitBithumbDiff.AsWrittenRemovesNothing | upbit_bithumb_diff.py:19-24 | with bare currencies on one side and `-` pairs on the other, both differences equal their inputs |
| UpbitBithumbDiff.AsWrittenExample | upbit_bithumb_diff.py:19-20 | Upbit `XRP` and Bithumb `KRW-XRP` both survive as "unique" |
| UpbitBithumbDiff.Corrected | upbit_bithumb_diff.py:19-24 | the four differences compared by currency, taking the part after the quote of each Bithumb pair |
| UpbitBithumbDiff.UpbitOnly | upbit_bithumb_diff.py:19 | the by-currency difference keeps a subsequence of the Upbit list |
| UpbitBithumbDiff.BithumbOnly | upbit_bithumb_diff.py:20 | the by-currency difference keeps a subsequence of the Bithumb list |
| UpbitBithumbDiff.CurrenciesOfPairs | bithumb_krw_btc_diff.py:35-38 | the currency of each prefixed pair is the currency it was built from |
| UpbitBithumbDiff.UpbitOnlyExact | upbit_bithumb_diff.py:19 | by currency, an Upbit currency is kept iff Bithumb has no pair for it |
| UpbitBithumbDiff.BithumbOnlyExact | upbit_bithumb_diff.py:20 | by currency, a Bithumb pair `Q-c` is kept iff Upbit does not list `c` |
| UpbitBithumbDiff.CorrectedExample | upbit_bithumb_diff.py:19-20 | by currency, Upbit `XRP` and Bithumb `KRW-XRP` cancel |
| CompareTest.AssetColumn | compare_test.py:12-14 | an asset is in the set of a sheet's column iff some row holds it |
| CompareTest.CompareSheets | compare_test.py:17-35 | the seven regions of the three sheets are pairwise disjoint, cover every asset and hold exactly their membership pattern |
| CompareTest.EmptySheet | compare_test.py:17-35 | an empty sheet, in any of the three positions, empties `ALL`, its own only-sheet and the two pairwise sheets naming its exchange |
| CompareTest.RowsAsSet | compare_test.py:12 | sheets with the same assets give the same regions, whatever the row order or repetition |
| CompareTest.RepeatedRow | compare_test.py:12 | repeating a row changes nothing |
| PyStr.Less | ba_upbit_bithumb_final.py:255-257 | Python's `str` `<`: lexicographic by code point, a proper prefix first |
| PyStr.StartsWith | ba_upbit_bithumb_final.py:105 | `str.startswith(prefix)` |
| PyStr.Contains | upbit_krw_usdt_btc_diff.py:67 | the substring test `'only_' in sheet_name` |
| PyStr.Base | upbit_krw_usdt_btc_diff.py:135 | `code.split('-')[1]`, defined on codes that contain `-` |
| PyStr.RemoveAll | ba_upbit_bithumb_listing_compared.py:109 | `str.replace(pat, '')`: one left-to-right pass deleting non-overlapping occurrences |
| PyStr.Upper | upbit_krw_usdt_btc_diff.py:71 | `str.upper()` on ASCII letters, the same length |
| PyStr.LessEqTotalOrder | ba_upbit_bithumb_final.py:255-257 | Python's string `<=` is reflexive, antisymmetric, transitive and total |
| PyStr.LessTrichotomy | ba_upbit_bithumb_final.py:110-111 | two strings are equal or one is strictly less |
| PyStr.Split | ba_upbit_bithumb_final.py:211 | `split(sep)` has one piece more than separator occurrences, none containing the separator |
| PyStr.SplitAfterPrefix | upbit_krw_usdt_btc_diff.py:135 | splitting `Q-rest` with no `-` in `Q` gives `Q` followed by the pieces of `rest`, so the second piece is the part of `rest` before its next `-` |
| PyStr.BaseOfPair | bithumb_krw_btc_diff.py:31-32 | the base of `Q-k` is `k` when neither contains `-` |
| PyStr.RemoveAllAbsent | ba_upbit_bithumb_listing_compared.py:109 | `replace` leaves a string without the pattern unchanged |
| PyStr.RemovePrefixOnce | ba_upbit_bithumb_listing_compared.py:109 | removing `KRW-` from `KRW-k` gives `k` when `k` has no `KRW-` |
| PyStr.RemoveAllSinglePass | ba_upbit_bithumb_listing_compared.py:109 | `replace` is a single left-to-right pass: `KRKRW-W-` becomes `KRW-`, not empty |
| Sorting.SortBy | ba_upbit_bithumb_final.py:110-111 | `sorted(key=...)` returns a stable, key-sorted permutation |
| Sorting.SortByIsTheStableSort | ba_upbit_bithumb_final.py:110-111 | any stable key-sorted arrangement equals `SortBy`, so the model is Python's `sorted` |
| Sorting.StableSortIsUnique | ba_upbit_bithumb_final.py:110-111 | two key-sorted arrangements stable with respect to each other are equal |
| Seqs.Filter | upbit_krw_usdt_btc_diff.py:31 | a list comprehension with a condition keeps, in order, exactly the satisfying elements with their multiplicities |
| Seqs.FilterKeepsAll | upbit_krw_usdt_btc_diff.py:31 | a comprehension whose condition always holds returns its input |

## Left out

- HTTP requests, timeouts and status checks are left out. Each fetch is a `Fetch` parameter, and any failure is `Failed`. The scripts' `print` messages, timestamps, output paths and directory creation are left out.
- pandas and Excel output are left out: column widths, styling, workbook writing and the empty-frame guards. A table is modelled as its rows.
- Binance's `datetime.fromtimestamp(onboardDate / 1000)` is left out because it depends on the local time zone. `onboardDate` is modelled as the already formatted date string, or absent.
- The Binance `PRICE_FILTER`/`LOT_SIZE` lookups are left out. They only fill display columns.
- `ba_upbit_bithumb_listing.py` is not part of this model. Its fetchers are the ones modelled from `ba_upbit_bithumb_listing_compared.py`, and it does no reconciliation.
- Malformed responses are left out: a missing key, a non-string code, or an exception raised part-way through a loop. On a mid-loop exception the scripts leave partial dictionary updates that the model does not capture.
- The combined analyser crashes on an Upbit market code without `-`: it applies `split('-')[1]` to every fetched market (`ba_upbit_bithumb_final.py:94` and `:211`). The model requires `AllDashed` of the first fetched list in `CryptoExchangeAnalyzer.GetUpbitMarkets`, and in the methods that call it, instead of modelling the crash. The other scripts split only prefix-filtered codes or use `replace`, and need no such requirement. `MarketTypes.BaseOf` returns such a code unchanged, and that value is never reached.
- Iteration order of Python sets is left out. This is why:
  - Bithumb's only-KRW, only-BTC and both-markets lists are modelled as sets;
  - `UpbitBithumbDiff` takes the sheet columns as given sequences;
  - the exchange regions are sets.
- `upper()` is modelled for ASCII letters only. The sheet names are ASCII.
- The `market_warning` column is left out. The market list is fetched without warning details, so every sheet writes an empty warning. If the column were present, the single-exchange script would raise a `KeyError` (`upbit_krw_usdt_btc_diff.py:81-83`). The combined report renames it correctly (`ba_upbit_bithumb_final.py:147-149`).
- The combined report's `save_to_excel` (`ba_upbit_bithumb_final.py:113-183`) is modelled by `ExchangeAnalysis.CryptoExchangeAnalyzer.SaveToExcel` for its sheet name and row contents only. Its column order, column widths and header styling are left out.
- Unicode collation is left out. String order is code-point order, which is what Python's `<` uses.

## Findings

| source | as written | input that shows it | evidently intended | confidence | as-written member | corrected member |
|---|---|---|---|---|---|---|
| upbit_bithumb_diff.py:19-24 | The Upbit lists come from the `报价货币` column. That column holds bare currencies (`split('-')[1]`, upbit_krw_usdt_btc_diff.py:73). The Bithumb lists come from the `only_KRW`/`only_BTC` sheets, which hold pairs such as `KRW-XRP` (bithumb_krw_btc_diff.py:35-38). `not in` compares the two directly, so it never removes anything. | Upbit only-KRW `["XRP"]`, Bithumb only-KRW `["KRW-XRP"]`: `XRP` and `KRW-XRP` are both reported as unique | compare by currency, taking the part after the quote prefix of each Bithumb pair | high on the data the two scripts write; not executed | UpbitBithumbDiff.AsWrittenRemovesNothing | UpbitBithumbDiff.UpbitOnlyExact |
