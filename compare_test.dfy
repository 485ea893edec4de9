/**
  The stand-alone comparison of three exchanges' asset sheets: each sheet's
  `Asset` column becomes a set, and the seven regions of the three sets are
  written one per sheet.
 */
module CompareTest {
  import opened Seqs
  import opened SetReconciler

  /** `set(df['Asset'])`. */
  function AssetColumn(rows: seq<string>): (r: AssetSet)
    ensures forall a :: a in r <==> a in rows
  {
    Elems(rows)
  }

  /** The seven result sets, from the Binance, Upbit and Bithumb sheets in
      that order: `ALL`, `only_ba`, `only_upbit`, `only_bithumb`, `ba_upbit`,
      `ba_bithumb`, `upbit_bithumb`. */
  function CompareSheets(binance: seq<string>, upbit: seq<string>, bithumb: seq<string>): (r: Regions)
    ensures r.PairwiseDisjoint()
    ensures forall a :: a in r.Union() <==> a in binance || a in upbit || a in bithumb
    ensures forall a :: a in r.all <==> a in binance && a in upbit && a in bithumb
    ensures forall a :: a in r.onlyX <==> a in binance && a !in upbit && a !in bithumb
    ensures forall a :: a in r.onlyY <==> a !in binance && a in upbit && a !in bithumb
    ensures forall a :: a in r.onlyZ <==> a !in binance && a !in upbit && a in bithumb
    ensures forall a :: a in r.xy <==> a in binance && a in upbit && a !in bithumb
    ensures forall a :: a in r.xz <==> a in binance && a !in upbit && a in bithumb
    ensures forall a :: a in r.zy <==> a !in binance && a in upbit && a in bithumb
  {
    ThreeWay(AssetColumn(binance), AssetColumn(upbit), AssetColumn(bithumb))
  }

  /** An empty sheet empties `ALL`, its own only-sheet and the two pairwise
      sheets that name its exchange. */
  lemma EmptySheet(binance: seq<string>, upbit: seq<string>, bithumb: seq<string>)
    ensures var r := CompareSheets(binance, upbit, bithumb);
            (binance == [] ==> r.all == {} && r.onlyX == {} && r.xy == {} && r.xz == {}) &&
            (upbit == [] ==> r.all == {} && r.onlyY == {} && r.xy == {} && r.zy == {}) &&
            (bithumb == [] ==> r.all == {} && r.onlyZ == {} && r.xz == {} && r.zy == {})
  {
  }

  /** Only which assets a sheet holds matters: reordering its rows or
      repeating one changes no result. */
  lemma RowsAsSet(binance: seq<string>, binance': seq<string>, upbit: seq<string>, bithumb: seq<string>)
    requires forall a :: a in binance <==> a in binance'
    ensures CompareSheets(binance, upbit, bithumb) == CompareSheets(binance', upbit, bithumb)
  {
    assert AssetColumn(binance) == AssetColumn(binance');
  }

  /** In particular, a repeated row is ignored. */
  lemma RepeatedRow(binance: seq<string>, upbit: seq<string>, bithumb: seq<string>, a: string)
    requires a in binance
    ensures CompareSheets(binance + [a], upbit, bithumb) == CompareSheets(binance, upbit, bithumb)
  {
    RowsAsSet(binance + [a], binance, upbit, bithumb);
  }
}
