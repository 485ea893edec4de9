/**
  The Upbit-versus-Bithumb comparison of the two exchanges' single-market
  lists: four order-preserving list differences. The Upbit lists are the
  quote-currency column of Upbit's only-KRW and only-BTC sheets (bare
  currencies such as `XRP`); the Bithumb lists are the first column of
  Bithumb's `only_KRW` and `only_BTC` sheets (pairs such as `KRW-XRP`).
 */
module UpbitBithumbDiff {
  import opened PyStr
  import opened Seqs
  import opened BithumbMarketDiff

  function NotIn(ys: seq<string>): string -> bool
  {
    (x: string) => x !in ys
  }

  /** `[pair for pair in xs if pair not in ys]`: the entries of `xs` absent
      from `ys`, in their order, every occurrence kept. */
  function Unique(xs: seq<string>, ys: seq<string>): (r: seq<string>)
    ensures IsSubsequence(r, xs)
    ensures forall x :: multiset(r)[x] == if x in ys then 0 else multiset(xs)[x]
  {
    Filter(xs, NotIn(ys))
  }

  lemma UniqueMembership(xs: seq<string>, ys: seq<string>, x: string)
    ensures x in Unique(xs, ys) <==> x in xs && x !in ys
  {
    FilterMembership(xs, NotIn(ys), x);
  }

  /** The two differences of one pair of lists share no entry, and neither
      holds an entry of the other input. */
  lemma UniqueApart(xs: seq<string>, ys: seq<string>, x: string)
    ensures x in Unique(xs, ys) ==> x !in ys && x !in Unique(ys, xs)
    ensures x in Unique(ys, xs) ==> x !in xs
  {
    UniqueMembership(xs, ys, x);
    UniqueMembership(ys, xs, x);
  }

  /** The four lists written. */
  datatype OnlyLists = OnlyLists(
    upbitKrwOnly: seq<string>, bithumbKrwOnly: seq<string>,
    upbitBtcOnly: seq<string>, bithumbBtcOnly: seq<string>)

  /** The comparison as the script performs it: entries are compared as
      they are, a bare currency against a quoted pair. */
  function AsWritten(upbitKrw: seq<string>, upbitBtc: seq<string>,
                     bithumbKrw: seq<string>, bithumbBtc: seq<string>): OnlyLists
  {
    OnlyLists(Unique(upbitKrw, bithumbKrw), Unique(bithumbKrw, upbitKrw),
              Unique(upbitBtc, bithumbBtc), Unique(bithumbBtc, upbitBtc))
  }

  /** As written, a list of bare currencies and a list of pairs never share
      an entry, so each difference is its whole input. */
  lemma AsWrittenRemovesNothing(currencies: seq<string>, pairs: seq<string>)
    requires forall i :: 0 <= i < |currencies| ==> '-' !in currencies[i]
    requires Dashed(pairs)
    ensures Unique(currencies, pairs) == currencies
    ensures Unique(pairs, currencies) == pairs
  {
    forall i | 0 <= i < |currencies| ensures NotIn(pairs)(currencies[i]) {
      forall j | 0 <= j < |pairs| ensures pairs[j] != currencies[i] {
        assert '-' in pairs[j];
      }
    }
    FilterKeepsAll(currencies, NotIn(pairs));
    forall i | 0 <= i < |pairs| ensures NotIn(currencies)(pairs[i]) {
      forall j | 0 <= j < |currencies| ensures currencies[j] != pairs[i] {
        assert '-' in pairs[i];
      }
    }
    FilterKeepsAll(pairs, NotIn(currencies));
  }

  /** `XRP` listed KRW-only on both exchanges is reported as unique to each. */
  lemma AsWrittenExample()
    ensures AsWritten(["XRP"], [], ["KRW-XRP"], []).upbitKrwOnly == ["XRP"]
    ensures AsWritten(["XRP"], [], ["KRW-XRP"], []).bithumbKrwOnly == ["KRW-XRP"]
  {
    assert '-' !in "XRP";
    assert "KRW-XRP"[3] == '-';
    AsWrittenRemovesNothing(["XRP"], ["KRW-XRP"]);
  }

  /** The currency a Bithumb entry names: its base for a pair. */
  function PairCurrency(p: string): string
  {
    if '-' in p then Base(p) else p
  }

  function CurrencyNotIn(ys: seq<string>): string -> bool
  {
    (p: string) => PairCurrency(p) !in ys
  }

  /** The Upbit currencies whose currency no Bithumb pair names. */
  function UpbitOnly(currencies: seq<string>, pairs: seq<string>): (r: seq<string>)
    ensures IsSubsequence(r, currencies)
  {
    Filter(currencies, NotIn(Map(pairs, PairCurrency)))
  }

  /** The Bithumb pairs whose currency is not among the Upbit currencies. */
  function BithumbOnly(pairs: seq<string>, currencies: seq<string>): (r: seq<string>)
    ensures IsSubsequence(r, pairs)
  {
    Filter(pairs, CurrencyNotIn(currencies))
  }

  /** The comparison by currency. */
  function Corrected(upbitKrw: seq<string>, upbitBtc: seq<string>,
                     bithumbKrw: seq<string>, bithumbBtc: seq<string>): OnlyLists
  {
    OnlyLists(UpbitOnly(upbitKrw, bithumbKrw), BithumbOnly(bithumbKrw, upbitKrw),
              UpbitOnly(upbitBtc, bithumbBtc), BithumbOnly(bithumbBtc, upbitBtc))
  }

  /** The currency of `quote-c` is `c`, so the currencies of a Bithumb list
      are the keys it was built from. */
  lemma CurrenciesOfPairs(cs: seq<string>, quote: string)
    requires '-' !in quote
    requires forall i :: 0 <= i < |cs| ==> '-' !in cs[i]
    ensures Map(Map(cs, QuotedPair(quote)), PairCurrency) == cs
  {
    var pairs := Map(cs, QuotedPair(quote));
    forall i | 0 <= i < |cs| ensures PairCurrency(pairs[i]) == cs[i] {
      BaseOfPair(quote, cs[i]);
    }
  }

  /** By currency, an Upbit currency is unique exactly when Bithumb lists no
      pair for it... */
  lemma UpbitOnlyExact(currencies: seq<string>, cs: seq<string>, quote: string, x: string)
    requires '-' !in quote
    requires forall i :: 0 <= i < |cs| ==> '-' !in cs[i]
    ensures x in UpbitOnly(currencies, Map(cs, QuotedPair(quote))) <==> x in currencies && x !in cs
  {
    CurrenciesOfPairs(cs, quote);
    FilterMembership(currencies, NotIn(cs), x);
  }

  /** ... and a Bithumb pair `quote-c` is unique exactly when Upbit does not
      list `c`. */
  lemma BithumbOnlyExact(currencies: seq<string>, cs: seq<string>, quote: string, c: string)
    requires '-' !in quote
    requires forall i :: 0 <= i < |cs| ==> '-' !in cs[i]
    requires c in cs
    ensures quote + "-" + c in BithumbOnly(Map(cs, QuotedPair(quote)), currencies) <==> c !in currencies
  {
    var pairs := Map(cs, QuotedPair(quote));
    var i :| 0 <= i < |cs| && cs[i] == c;
    assert pairs[i] == quote + "-" + c;
    BaseOfPair(quote, c);
    FilterMembership(pairs, CurrencyNotIn(currencies), quote + "-" + c);
  }

  /** By currency, `XRP` listed KRW-only on both exchanges is unique to
      neither. */
  lemma CorrectedExample()
    ensures Corrected(["XRP"], [], ["KRW-XRP"], []).upbitKrwOnly == []
    ensures Corrected(["XRP"], [], ["KRW-XRP"], []).bithumbKrwOnly == []
  {
    var pair := "KRW" + "-" + "XRP";
    assert pair == "KRW-XRP" by {
      assert |pair| == 7;
      forall k | 0 <= k < 7 ensures pair[k] == "KRW-XRP"[k] { }
    }
    var pairs := Map(["XRP"], QuotedPair("KRW"));
    assert |pairs| == 1 && pairs[0] == pair;
    assert pairs == ["KRW-XRP"];
    UpbitOnlyExact(["XRP"], ["XRP"], "KRW", "XRP");
    BithumbOnlyExact(["XRP"], ["XRP"], "KRW", "XRP");
    var u := UpbitOnly(["XRP"], pairs);
    var b := BithumbOnly(pairs, ["XRP"]);
    assert "XRP" !in u;
    assert "KRW-XRP" !in b;
  }
}
