/**
  The Bithumb KRW-versus-BTC comparison: the pair lists of both markets,
  their base-currency sets, and the pairs listed on one market only or on
  both. The three derived lists are built by iterating over a set, so their
  order is not determined; they are modelled as sets of the strings the
  script writes.
 */
module BithumbMarketDiff {
  import opened PyStr
  import opened Seqs
  import opened Exchanges

  /** `f'{quote}-{k}'`. */
  function QuotedPair(quote: string): string -> string
  {
    (k: string) => quote + "-" + k
  }

  /** The pair list built from the keys of one market's `data` object. */
  function QuotedPairs(keys: seq<string>, quote: string): (r: seq<string>)
    ensures Dashed(r)
  {
    var r := Map(Filter(keys, IsCurrencyKey), QuotedPair(quote));
    assert forall k :: '-' in QuotedPair(quote)(k) by {
      forall k ensures '-' in QuotedPair(quote)(k) {
        assert QuotedPair(quote)(k)[|quote|] == '-';
      }
    }
    r
  }

  predicate Dashed(pairs: seq<string>)
  {
    forall i :: 0 <= i < |pairs| ==> '-' in pairs[i]
  }

  /** `{pair.split('-')[1] for pair in pairs}`. */
  function PairBases(pairs: seq<string>): set<string>
    requires Dashed(pairs)
  {
    set i | 0 <= i < |pairs| :: Base(pairs[i])
  }

  /** The five lists the script returns. */
  datatype BithumbMarkets = BithumbMarkets(
    krwPairs: seq<string>, btcPairs: seq<string>,
    onlyKrw: set<string>, onlyBtc: set<string>, bothMarkets: set<string>)

  /** The three comparisons of two base sets, as the strings written. */
  function Classify(krwPairs: seq<string>, btcPairs: seq<string>, krwBase: set<string>, btcBase: set<string>): BithumbMarkets
  {
    BithumbMarkets(
      krwPairs, btcPairs,
      set c | c in krwBase - btcBase :: "KRW-" + c,
      set c | c in btcBase - krwBase :: "BTC-" + c,
      set c | c in krwBase * btcBase :: "KRW-" + c + ", BTC-" + c)
  }

  /** The base sets of two pair lists and the three comparisons of them. */
  function Differences(krwPairs: seq<string>, btcPairs: seq<string>): BithumbMarkets
    requires Dashed(krwPairs) && Dashed(btcPairs)
  {
    Classify(krwPairs, btcPairs, PairBases(krwPairs), PairBases(btcPairs))
  }

  /** The whole comparison as a function of the two markets' key lists. */
  function Compare(krwKeys: seq<string>, btcKeys: seq<string>): BithumbMarkets
  {
    Differences(QuotedPairs(krwKeys, "KRW"), QuotedPairs(btcKeys, "BTC"))
  }

  /** `data.get('data', {}).keys()`: no `data` field gives no keys. */
  function KeysOf(data: Option<seq<string>>): seq<string>
  {
    match data
    case None => []
    case Some(keys) => keys
  }

  /** The loop that builds one market's pair list. */
  method BuildPairs(keys: seq<string>, quote: string) returns (pairs: seq<string>)
    ensures pairs == QuotedPairs(keys, quote)
  {
    pairs := [];
    var i := 0;
    while i < |keys|
      invariant 0 <= i <= |keys|
      invariant pairs == QuotedPairs(keys[..i], quote)
    {
      QuotedPairsStep(keys, i, quote);
      if keys[i] != "date" {
        pairs := pairs + [quote + "-" + keys[i]];
      }
      i := i + 1;
    }
    assert keys[..i] == keys;
  }

  /** One step of the loop: the next key adds its pair unless it is `date`. */
  lemma QuotedPairsStep(keys: seq<string>, i: nat, quote: string)
    requires i < |keys|
    ensures QuotedPairs(keys[..i + 1], quote) ==
              QuotedPairs(keys[..i], quote) + (if keys[i] != "date" then [quote + "-" + keys[i]] else [])
  {
    assert keys[..i + 1] == keys[..i] + [keys[i]];
    FilterSnoc(keys[..i], keys[i], IsCurrencyKey);
    if keys[i] != "date" {
      MapSnoc(Filter(keys[..i], IsCurrencyKey), keys[i], QuotedPair(quote));
    }
  }

  /** `fetch_bithumb_markets()`: a failed request or an undecodable reply
      on either market gives `None`; otherwise both pair lists are built and
      compared. */
  method FetchBithumbMarkets(krw: Fetch<Option<seq<string>>>, btc: Fetch<Option<seq<string>>>)
    returns (r: Option<BithumbMarkets>)
    ensures r == if krw.Failed? || btc.Failed? then None
                 else Some(Compare(KeysOf(krw.payload), KeysOf(btc.payload)))
  {
    if krw.Failed? || btc.Failed? {
      return None;
    }
    var krwPairs := BuildPairs(KeysOf(krw.payload), "KRW");
    var btcPairs := BuildPairs(KeysOf(btc.payload), "BTC");
    r := Some(Differences(krwPairs, btcPairs));
  }

  /** The sheets `save_to_excel` writes: none for `None`, otherwise one per
      list, in the order of the returned dict. */
  function SheetsWritten(data: Option<BithumbMarkets>): (r: seq<string>)
    ensures r == [] <==> data.None?
    ensures data.Some? ==> |r| == 5 && "only_KRW" in r && "only_BTC" in r
  {
    if data.None? then []
    else ["KRW_pairs", "BTC_pairs", "only_KRW", "only_BTC", "both_markets"]
  }

  /** A pair list has one entry per key other than `date`, and its pairs are
      exactly `quote-k` for those keys. */
  lemma QuotedPairsSpec(keys: seq<string>, quote: string, p: string)
    ensures |QuotedPairs(keys, quote)| == |keys| - multiset(keys)["date"]
    ensures p in QuotedPairs(keys, quote) <==> exists k :: k in keys && k != "date" && p == quote + "-" + k
  {
    var kept := Filter(keys, IsCurrencyKey);
    var r := QuotedPairs(keys, quote);
    FilterCountLength(keys, IsCurrencyKey, "date");
    if p in r {
      var i :| 0 <= i < |r| && r[i] == p;
      FilterMembership(keys, IsCurrencyKey, kept[i]);
    }
    if exists k :: k in keys && k != "date" && p == quote + "-" + k {
      var k :| k in keys && k != "date" && p == quote + "-" + k;
      FilterMembership(keys, IsCurrencyKey, k);
      var i :| 0 <= i < |kept| && kept[i] == k;
      assert r[i] == p;
    }
  }

  /** With keys that hold no '-', the base set of a pair list is exactly the
      key set without `date`. */
  lemma BasesAreKeys(keys: seq<string>, quote: string)
    requires '-' !in quote
    requires forall k :: k in keys ==> '-' !in k
    ensures PairBases(QuotedPairs(keys, quote)) == Elems(keys) - {"date"}
  {
    var r := QuotedPairs(keys, quote);
    forall c ensures c in PairBases(r) <==> c in keys && c != "date" {
      if c in PairBases(r) {
        var i :| 0 <= i < |r| && Base(r[i]) == c;
        QuotedPairsSpec(keys, quote, r[i]);
        var k :| k in keys && k != "date" && r[i] == quote + "-" + k;
        BaseOfPair(quote, k);
      }
      if c in keys && c != "date" {
        QuotedPairsSpec(keys, quote, quote + "-" + c);
        var i :| 0 <= i < |r| && r[i] == quote + "-" + c;
        BaseOfPair(quote, c);
      }
    }
  }

  /** Every base of the KRW market is written once, either as an only-KRW
      pair or as a both-markets entry; likewise for BTC. */
  lemma DifferencesSizes(krwPairs: seq<string>, btcPairs: seq<string>)
    requires Dashed(krwPairs) && Dashed(btcPairs)
    ensures |Differences(krwPairs, btcPairs).onlyKrw| + |Differences(krwPairs, btcPairs).bothMarkets| ==
              |PairBases(krwPairs)|
    ensures |Differences(krwPairs, btcPairs).onlyBtc| + |Differences(krwPairs, btcPairs).bothMarkets| ==
              |PairBases(btcPairs)|
  {
    var krwBase, btcBase := PairBases(krwPairs), PairBases(btcPairs);
    PrefixedSize(krwBase - btcBase, "KRW-");
    PrefixedSize(btcBase - krwBase, "BTC-");
    BothSize(krwBase * btcBase);
    assert krwBase == (krwBase - btcBase) + (krwBase * btcBase);
    assert btcBase == (btcBase - krwBase) + (krwBase * btcBase);
  }

  /** Prefixing is one-to-one, so it keeps the size of a set. */
  lemma {:induction false} PrefixedSize(s: set<string>, p: string)
    ensures |set c | c in s :: p + c| == |s|
    decreases |s|
  {
    if s != {} {
      var x :| x in s;
      PrefixedSize(s - {x}, p);
      assert (set c | c in s :: p + c) == (set c | c in s - {x} :: p + c) + {p + x};
      forall c | c in s - {x} ensures p + c != p + x {
        assert (p + c)[|p|..] == c && (p + x)[|p|..] == x;
      }
    }
  }

  /** The both-markets entry names its currency, so it keeps the size too. */
  lemma {:induction false} BothSize(s: set<string>)
    ensures |set c | c in s :: "KRW-" + c + ", BTC-" + c| == |s|
    decreases |s|
  {
    if s != {} {
      var x :| x in s;
      BothSize(s - {x});
      var e := "KRW-" + x + ", BTC-" + x;
      assert (set c | c in s :: "KRW-" + c + ", BTC-" + c) ==
             (set c | c in s - {x} :: "KRW-" + c + ", BTC-" + c) + {e};
      forall c | c in s - {x} ensures "KRW-" + c + ", BTC-" + c != e {
        var d := "KRW-" + c + ", BTC-" + c;
        if |c| == |x| {
          assert d[4..4 + |c|] == c && e[4..4 + |x|] == x;
        } else {
          assert |d| != |e|;
        }
      }
    }
  }

  /** With keys that hold no '-', the comparison classifies the key sets
      themselves, without `date`. */
  lemma CompareClassifiesKeys(krwKeys: seq<string>, btcKeys: seq<string>)
    requires forall k :: k in krwKeys ==> '-' !in k
    requires forall k :: k in btcKeys ==> '-' !in k
    ensures Compare(krwKeys, btcKeys) ==
              Classify(QuotedPairs(krwKeys, "KRW"), QuotedPairs(btcKeys, "BTC"),
                       Elems(krwKeys) - {"date"}, Elems(btcKeys) - {"date"})
  {
    BasesAreKeys(krwKeys, "KRW");
    BasesAreKeys(btcKeys, "BTC");
  }

  /** With keys that hold no '-', the only-KRW list is exactly `KRW-c` for
      the currencies the KRW market lists and the BTC market does not. */
  lemma OnlyKrwExact(krwKeys: seq<string>, btcKeys: seq<string>, p: string)
    requires forall k :: k in krwKeys ==> '-' !in k
    requires forall k :: k in btcKeys ==> '-' !in k
    ensures p in Compare(krwKeys, btcKeys).onlyKrw <==>
              exists c :: c in krwKeys && c != "date" && c !in btcKeys && p == "KRW-" + c
  {
    CompareClassifiesKeys(krwKeys, btcKeys);
  }

  /** ... and the only-BTC list is the mirror image. */
  lemma OnlyBtcExact(krwKeys: seq<string>, btcKeys: seq<string>, p: string)
    requires forall k :: k in krwKeys ==> '-' !in k
    requires forall k :: k in btcKeys ==> '-' !in k
    ensures p in Compare(krwKeys, btcKeys).onlyBtc <==>
              exists c :: c in btcKeys && c != "date" && c !in krwKeys && p == "BTC-" + c
  {
    CompareClassifiesKeys(krwKeys, btcKeys);
  }

  /** The both-markets list names exactly the currencies both markets list. */
  lemma BothMarketsExact(krwKeys: seq<string>, btcKeys: seq<string>, p: string)
    requires forall k :: k in krwKeys ==> '-' !in k
    requires forall k :: k in btcKeys ==> '-' !in k
    ensures p in Compare(krwKeys, btcKeys).bothMarkets <==>
              exists c :: c in krwKeys && c in btcKeys && c != "date" && p == "KRW-" + c + ", BTC-" + c
  {
    CompareClassifiesKeys(krwKeys, btcKeys);
  }
}
