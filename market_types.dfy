/**
  The per-market-type breakdown of Upbit's listing that two scripts compute:
  the KRW, USDT and BTC markets, and the pairs listed on one market type only,
  on all three, or on USDT and BTC but not KRW. Each list is handed to the
  script's own sort, so the breakdown takes the sort as a parameter.
 */
module MarketTypes {
  import opened PyStr
  import opened Seqs
  import opened Exchanges

  /** `market['market'].split('-')[1]`. The scripts only apply it to codes
      that hold a '-' (a market filtered by a prefix ending in '-', or a
      fetch that requires one); other codes are returned unchanged. */
  function BaseOf(m: UpbitMarket): string
  {
    if '-' in m.market then Base(m.market) else m.market
  }

  predicate AllDashed(ms: seq<UpbitMarket>)
  {
    forall i :: 0 <= i < |ms| ==> '-' in ms[i].market
  }

  /** `[m for m in markets if m['market'].startswith(prefix)]`: exactly the
      markets whose code starts with `prefix`, every occurrence, in order. */
  function WithPrefix(markets: seq<UpbitMarket>, prefix: string): (r: seq<UpbitMarket>)
    ensures IsSubsequence(r, markets)
    ensures forall m :: m in r <==> m in markets && StartsWith(m.market, prefix)
    ensures forall m :: multiset(r)[m] == if StartsWith(m.market, prefix) then multiset(markets)[m] else 0
  {
    var r := Filter(markets, (m: UpbitMarket) => StartsWith(m.market, prefix));
    assert forall m :: m in r <==> multiset(r)[m] > 0;
    r
  }

  /** One more market seen by a loop that filters by prefix. */
  lemma WithPrefixStep(markets: seq<UpbitMarket>, i: nat, prefix: string)
    requires i < |markets|
    ensures WithPrefix(markets[..i + 1], prefix) ==
              WithPrefix(markets[..i], prefix) + (if StartsWith(markets[i].market, prefix) then [markets[i]] else [])
  {
    FilterStep(markets, i, (m: UpbitMarket) => StartsWith(m.market, prefix));
  }

  /** `{m['market'].split('-')[1] for m in pairs}`. */
  function Bases(pairs: seq<UpbitMarket>): set<string>
  {
    Image(pairs, BaseOf)
  }

  /** One more market adds its base and nothing else. */
  lemma BasesSnoc(ms: seq<UpbitMarket>, m: UpbitMarket)
    ensures Bases(ms + [m]) == Bases(ms) + {BaseOf(m)}
  {
    forall b | b in Bases(ms + [m]) ensures b in Bases(ms) + {BaseOf(m)} {
      var x :| x in ms + [m] && BaseOf(x) == b;
      if x != m {
        assert x in ms;
      }
    }
  }

  /** The base-asset set of one market type. */
  function MarketBases(markets: seq<UpbitMarket>, prefix: string): set<string>
  {
    Bases(WithPrefix(markets, prefix))
  }

  /** The placeholder written for a base with no known listing date ("未知"). */
  const Unknown: string := "\U{672A}\U{77E5}"

  /** The sort key of a pair whose base has no listing date at all. */
  const NoDate: string := "9999-99-99"

  /** `listing_dates.get(base, '9999-99-99')`, the listing-date sort key. */
  function ListingDateKey(dates: map<string, string>): UpbitMarket -> string
  {
    (m: UpbitMarket) => var b := BaseOf(m); if b in dates then dates[b] else NoDate
  }

  /** The base-currency column `save_to_excel` writes for a non-empty sheet:
      the second '_'-piece of a sheet name that contains "only_", otherwise
      the first piece upper-cased. */
  function BaseColumn(sheetName: string): string
  {
    if Contains(sheetName, "only_") then
      ContainsChar(sheetName, "only_", 4);
      SecondPiece(sheetName, '_')
    else
      Upper(Split(sheetName, '_')[0])
  }

  /** A name without 'y' does not contain "only_". */
  lemma NoOnlyWithoutY(s: string)
    ensures 'y' !in s ==> !Contains(s, "only_")
  {
    if Contains(s, "only_") {
      ContainsChar(s, "only_", 3);
    }
  }

  /** An `only_<base>_pairs` sheet gets `<base>` as its base currency. */
  lemma OnlySheetBase(b: string)
    requires '_' !in b
    ensures BaseColumn("only_" + b + "_pairs") == b
  {
    var name := "only_" + b + "_pairs";
    assert StartsWith(name, "only_") by { assert name[..5] == "only_"; }
    ContainsAfter([], name, "only_");
    assert [] + name == name;
    assert name == "only" + ['_'] + (b + ['_'] + "pairs");
    SplitAfterPrefix("only", '_', b + ['_'] + "pairs");
    SplitAfterPrefix(b, '_', "pairs");
    SplitNoSep("pairs", '_');
  }

  /** Any other sheet takes its first '_'-piece, upper-cased. */
  lemma PlainSheetBase(q: string, rest: string)
    requires '_' !in q && !Contains(q + ['_'] + rest, "only_")
    ensures BaseColumn(q + ['_'] + rest) == Upper(q)
  {
    SplitAfterPrefix(q, '_', rest);
  }

  /** A market-type sheet gets its quote as base currency. */
  lemma MarketSheetBase()
    ensures BaseColumn("KRW_pairs") == "KRW"
  {
    assert !Contains("KRW" + ['_'] + "pairs", "only_") by {
      NoOnlyWithoutY("KRW" + ['_'] + "pairs");
    }
    PlainSheetBase("KRW", "pairs");
    assert "KRW" + ['_'] + "pairs" == "KRW_pairs";
    assert Upper("KRW") == "KRW" by {
      assert Upper("KRW")[0] == 'K' && Upper("KRW")[1] == 'R' && Upper("KRW")[2] == 'W';
    }
  }

  /** With the exchange name in front, as the combined analyser names its
      sheets, an only-sheet gets "only" as its base currency. */
  lemma PrefixedOnlySheetBase(b: string)
    requires '_' !in b
    ensures BaseColumn("Upbit_only_" + b) == "only"
  {
    var name := "Upbit_only_" + b;
    assert name == "Upbit_" + ("only_" + b);
    assert StartsWith("only_" + b, "only_") by { assert ("only_" + b)[..5] == "only_"; }
    ContainsAfter("Upbit_", "only_" + b, "only_");
    assert name == "Upbit" + ['_'] + ("only" + ['_'] + b);
    SplitAfterPrefix("Upbit", '_', "only" + ['_'] + b);
    SplitAfterPrefix("only", '_', b);
  }

  /** ... and any other sheet gets "UPBIT". */
  lemma PrefixedPlainSheetBase(rest: string)
    requires !Contains("Upbit_" + rest, "only_")
    ensures BaseColumn("Upbit_" + rest) == "UPBIT"
  {
    assert "Upbit_" + rest == "Upbit" + ['_'] + rest;
    PlainSheetBase("Upbit", rest);
    assert Upper("Upbit") == "UPBIT" by {
      assert Upper("Upbit")[0] == 'U' && Upper("Upbit")[1] == 'P' && Upper("Upbit")[2] == 'B';
      assert Upper("Upbit")[3] == 'I' && Upper("Upbit")[4] == 'T';
    }
  }

  datatype MarketReport = MarketReport(
    krwPairs: seq<UpbitMarket>, usdtPairs: seq<UpbitMarket>, btcPairs: seq<UpbitMarket>,
    onlyKrw: seq<UpbitMarket>, onlyUsdt: seq<UpbitMarket>, onlyBtc: seq<UpbitMarket>,
    allMarkets: seq<UpbitMarket>, usdtBtcNotKrw: seq<UpbitMarket>)

  /** `sort` rearranges its input and keeps every element. */
  ghost predicate Rearranges(sort: seq<UpbitMarket> -> seq<UpbitMarket>)
  {
    forall xs :: multiset(sort(xs)) == multiset(xs)
  }

  /** The breakdown as the scripts compute it: each market type filtered and
      sorted, its base set taken from the sorted list, and each derived list
      filtered from a sorted market-type list and sorted again. */
  function Derive(markets: seq<UpbitMarket>, sort: seq<UpbitMarket> -> seq<UpbitMarket>): MarketReport
  {
    var krw := sort(WithPrefix(markets, "KRW-"));
    var usdt := sort(WithPrefix(markets, "USDT-"));
    var btc := sort(WithPrefix(markets, "BTC-"));
    var krwBases, usdtBases, btcBases := Bases(krw), Bases(usdt), Bases(btc);
    MarketReport(
      krw, usdt, btc,
      sort(Filter(krw, (m: UpbitMarket) => BaseOf(m) !in usdtBases && BaseOf(m) !in btcBases)),
      sort(Filter(usdt, (m: UpbitMarket) => BaseOf(m) !in krwBases && BaseOf(m) !in btcBases)),
      sort(Filter(btc, (m: UpbitMarket) => BaseOf(m) !in krwBases && BaseOf(m) !in usdtBases)),
      sort(Filter(krw, (m: UpbitMarket) => BaseOf(m) in usdtBases && BaseOf(m) in btcBases)),
      sort(Filter(usdt, (m: UpbitMarket) => BaseOf(m) in btcBases && BaseOf(m) !in krwBases)))
  }

  lemma RearrangedMembership(sort: seq<UpbitMarket> -> seq<UpbitMarket>, xs: seq<UpbitMarket>)
    requires Rearranges(sort)
    ensures forall m :: m in sort(xs) <==> m in xs
    ensures Bases(sort(xs)) == Bases(xs)
  {
    assert multiset(sort(xs)) == multiset(xs);
    assert forall m :: m in sort(xs) <==> multiset(sort(xs))[m] > 0;
    assert forall m :: m in xs <==> multiset(xs)[m] > 0;
  }

  /** A list filtered from a sorted market-type list and sorted again holds
      exactly the markets of that type that pass the filter. */
  lemma DerivedMembership(markets: seq<UpbitMarket>, prefix: string,
                          sort: seq<UpbitMarket> -> seq<UpbitMarket>,
                          keep: UpbitMarket -> bool, m: UpbitMarket)
    requires Rearranges(sort)
    ensures m in sort(Filter(sort(WithPrefix(markets, prefix)), keep)) <==>
              m in markets && StartsWith(m.market, prefix) && keep(m)
  {
    var typed := sort(WithPrefix(markets, prefix));
    RearrangedMembership(sort, WithPrefix(markets, prefix));
    RearrangedMembership(sort, Filter(typed, keep));
    FilterMembership(typed, keep, m);
  }

  /** The base sets the breakdown tests against are those of the whole
      listing's market types. */
  lemma DeriveBases(markets: seq<UpbitMarket>, sort: seq<UpbitMarket> -> seq<UpbitMarket>)
    requires Rearranges(sort)
    ensures Bases(Derive(markets, sort).krwPairs) == MarketBases(markets, "KRW-")
    ensures Bases(Derive(markets, sort).usdtPairs) == MarketBases(markets, "USDT-")
    ensures Bases(Derive(markets, sort).btcPairs) == MarketBases(markets, "BTC-")
  {
    RearrangedMembership(sort, WithPrefix(markets, "KRW-"));
    RearrangedMembership(sort, WithPrefix(markets, "USDT-"));
    RearrangedMembership(sort, WithPrefix(markets, "BTC-"));
  }

  /** `only_krw`, `only_usdt`, `only_btc` hold exactly the pairs of their
      market type whose base is listed on neither of the other two. */
  lemma OnlyListsExact(markets: seq<UpbitMarket>, sort: seq<UpbitMarket> -> seq<UpbitMarket>, m: UpbitMarket)
    requires Rearranges(sort)
    ensures m in Derive(markets, sort).onlyKrw <==>
              m in markets && StartsWith(m.market, "KRW-") &&
              BaseOf(m) !in MarketBases(markets, "USDT-") && BaseOf(m) !in MarketBases(markets, "BTC-")
    ensures m in Derive(markets, sort).onlyUsdt <==>
              m in markets && StartsWith(m.market, "USDT-") &&
              BaseOf(m) !in MarketBases(markets, "KRW-") && BaseOf(m) !in MarketBases(markets, "BTC-")
    ensures m in Derive(markets, sort).onlyBtc <==>
              m in markets && StartsWith(m.market, "BTC-") &&
              BaseOf(m) !in MarketBases(markets, "KRW-") && BaseOf(m) !in MarketBases(markets, "USDT-")
  {
    var r := Derive(markets, sort);
    DeriveBases(markets, sort);
    var krwB, usdtB, btcB := Bases(r.krwPairs), Bases(r.usdtPairs), Bases(r.btcPairs);
    DerivedMembership(markets, "KRW-", sort, (p: UpbitMarket) => BaseOf(p) !in usdtB && BaseOf(p) !in btcB, m);
    DerivedMembership(markets, "USDT-", sort, (p: UpbitMarket) => BaseOf(p) !in krwB && BaseOf(p) !in btcB, m);
    DerivedMembership(markets, "BTC-", sort, (p: UpbitMarket) => BaseOf(p) !in krwB && BaseOf(p) !in usdtB, m);
  }

  /** `all_markets` holds exactly the KRW pairs whose base is on both the
      USDT and the BTC market; `usdt_btc_not_krw` exactly the USDT pairs whose
      base is on the BTC market and not on the KRW market. */
  lemma CombinedListsExact(markets: seq<UpbitMarket>, sort: seq<UpbitMarket> -> seq<UpbitMarket>, m: UpbitMarket)
    requires Rearranges(sort)
    ensures m in Derive(markets, sort).allMarkets <==>
              m in markets && StartsWith(m.market, "KRW-") &&
              BaseOf(m) in MarketBases(markets, "USDT-") && BaseOf(m) in MarketBases(markets, "BTC-")
    ensures m in Derive(markets, sort).usdtBtcNotKrw <==>
              m in markets && StartsWith(m.market, "USDT-") &&
              BaseOf(m) in MarketBases(markets, "BTC-") && BaseOf(m) !in MarketBases(markets, "KRW-")
  {
    var r := Derive(markets, sort);
    DeriveBases(markets, sort);
    var krwB, usdtB, btcB := Bases(r.krwPairs), Bases(r.usdtPairs), Bases(r.btcPairs);
    DerivedMembership(markets, "KRW-", sort, (p: UpbitMarket) => BaseOf(p) in usdtB && BaseOf(p) in btcB, m);
    DerivedMembership(markets, "USDT-", sort, (p: UpbitMarket) => BaseOf(p) in btcB && BaseOf(p) !in krwB, m);
  }

  /** No base of `all_markets` appears in any of the `only_` lists, and every
      base of `usdt_btc_not_krw` is on the USDT and BTC markets and not on
      the KRW market. */
  lemma CombinedAndOnlyApart(markets: seq<UpbitMarket>, sort: seq<UpbitMarket> -> seq<UpbitMarket>,
                             m: UpbitMarket, o: UpbitMarket)
    requires Rearranges(sort)
    requires m in Derive(markets, sort).allMarkets
    requires o in Derive(markets, sort).onlyKrw || o in Derive(markets, sort).onlyUsdt ||
             o in Derive(markets, sort).onlyBtc
    ensures BaseOf(m) != BaseOf(o)
  {
    CombinedListsExact(markets, sort, m);
    OnlyListsExact(markets, sort, o);
    assert m in WithPrefix(markets, "KRW-");
    assert BaseOf(m) in MarketBases(markets, "KRW-");
    if o in Derive(markets, sort).onlyKrw {
      assert BaseOf(o) !in MarketBases(markets, "USDT-");
    } else if o in Derive(markets, sort).onlyUsdt {
      assert BaseOf(o) !in MarketBases(markets, "KRW-");
    } else {
      assert BaseOf(o) !in MarketBases(markets, "KRW-");
    }
  }

  lemma UsdtBtcNotKrwBases(markets: seq<UpbitMarket>, sort: seq<UpbitMarket> -> seq<UpbitMarket>, m: UpbitMarket)
    requires Rearranges(sort)
    requires m in Derive(markets, sort).usdtBtcNotKrw
    ensures BaseOf(m) !in MarketBases(markets, "KRW-")
    ensures BaseOf(m) in MarketBases(markets, "USDT-") && BaseOf(m) in MarketBases(markets, "BTC-")
  {
    CombinedListsExact(markets, sort, m);
    assert m in WithPrefix(markets, "USDT-");
  }

  /** Every market a prefix ending in '-' selects has a base. */
  lemma WithPrefixDashed(markets: seq<UpbitMarket>, prefix: string)
    requires prefix != [] && prefix[|prefix| - 1] == '-'
    ensures AllDashed(WithPrefix(markets, prefix))
  {
    var r := WithPrefix(markets, prefix);
    forall i | 0 <= i < |r| ensures '-' in r[i].market {
      assert r[i] in r;
      PrefixGivesDash(r[i].market, prefix);
    }
  }
}
