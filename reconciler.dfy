/**
  The set reconciliation shared by the comparison scripts. Every operation is
  written the way Python evaluates the source expression: `&` and `-` on sets,
  with `-` binding tighter than `&` and both associating to the left.
 */
module SetReconciler {
  import opened PyStr

  type AssetSet = set<string>

  /** `x & y & z`: the assets listed by all three. */
  function AllCommon(x: AssetSet, y: AssetSet, z: AssetSet): (r: AssetSet)
    ensures forall a :: a in r <==> a in x && a in y && a in z
    ensures r <= x && r <= y && r <= z
  {
    x * y * z
  }

  /** `x - y - z`: the assets listed by `x` alone. */
  function OnlyIn(x: AssetSet, y: AssetSet, z: AssetSet): (r: AssetSet)
    ensures r == x - (y + z)
    ensures r !! y && r !! z
  {
    x - y - z
  }

  /** `x & y - z`, which Python reads as `x & (y - z)`; it is the same set as
      `(x & y) - z`, the assets listed by `x` and `y` but not by `z`. */
  function ExclusivePair(x: AssetSet, y: AssetSet, z: AssetSet): (r: AssetSet)
    ensures r == (x * y) - z
    ensures r !! z
    ensures r <= x && r <= y
  {
    x * (y - z)
  }

  /** The seven regions of a three-set Venn diagram, named after the sets
      `x`, `y`, `z` they are computed from. */
  datatype Regions = Regions(
    all: AssetSet,
    onlyX: AssetSet, onlyY: AssetSet, onlyZ: AssetSet,
    xy: AssetSet, xz: AssetSet, zy: AssetSet)
  {
    function Union(): AssetSet
    {
      all + onlyX + onlyY + onlyZ + xy + xz + zy
    }

    predicate PairwiseDisjoint()
    {
      && all !! onlyX && all !! onlyY && all !! onlyZ && all !! xy && all !! xz && all !! zy
      && onlyX !! onlyY && onlyX !! onlyZ && onlyX !! xy && onlyX !! xz && onlyX !! zy
      && onlyY !! onlyZ && onlyY !! xy && onlyY !! xz && onlyY !! zy
      && onlyZ !! xy && onlyZ !! xz && onlyZ !! zy
      && xy !! xz && xy !! zy
      && xz !! zy
    }
  }

  /** The seven comparisons every script computes, in the scripts' order and
      operand order: `x & y & z`, `x - y - z`, `y - x - z`, `z - x - y`,
      `x & y - z`, `x & z - y`, `z & y - x`. */
  function ThreeWay(x: AssetSet, y: AssetSet, z: AssetSet): (r: Regions)
    ensures r.PairwiseDisjoint()
    ensures r.Union() == x + y + z
    ensures forall a :: a in r.all <==> a in x && a in y && a in z
    ensures forall a :: a in r.onlyX <==> a in x && a !in y && a !in z
    ensures forall a :: a in r.onlyY <==> a !in x && a in y && a !in z
    ensures forall a :: a in r.onlyZ <==> a !in x && a !in y && a in z
    ensures forall a :: a in r.xy <==> a in x && a in y && a !in z
    ensures forall a :: a in r.xz <==> a in x && a !in y && a in z
    ensures forall a :: a in r.zy <==> a !in x && a in y && a in z
  {
    Regions(
      AllCommon(x, y, z),
      OnlyIn(x, y, z), OnlyIn(y, x, z), OnlyIn(z, x, y),
      ExclusivePair(x, y, z), ExclusivePair(x, z, y), ExclusivePair(z, y, x))
  }

  /** The three-way intersection does not depend on the order of its operands. */
  lemma AllCommonSymmetric(x: AssetSet, y: AssetSet, z: AssetSet)
    ensures AllCommon(x, y, z) == AllCommon(y, x, z) == AllCommon(x, z, y)
         == AllCommon(z, y, x) == AllCommon(y, z, x) == AllCommon(z, x, y)
  {
  }

  /** An empty input empties its own region, the common region and the two
      pairwise regions that involve it; the other regions become two-set
      differences and intersections. */
  lemma EmptyOperand(x: AssetSet, y: AssetSet, z: AssetSet)
    requires y == {}
    ensures ThreeWay(x, y, z).all == {}
    ensures ThreeWay(x, y, z).xy == {} && ThreeWay(x, y, z).zy == {}
    ensures ThreeWay(x, y, z).onlyX == x - z
    ensures ThreeWay(x, y, z).xz == x * z
    ensures ThreeWay(x, y, z).onlyY == {} && ThreeWay(x, y, z).onlyZ == z - x
  {
  }

  /** Strictly ascending in Python's string order: sorted, no duplicates. */
  predicate StrictlyAscending(s: seq<string>)
  {
    forall i, j :: 0 <= i < j < |s| ==> Less(s[i], s[j])
  }

  /** Every finite set of strings has a least element. */
  lemma {:induction false} HasLeast(s: AssetSet)
    requires s != {}
    ensures exists m :: m in s && forall y :: y in s ==> LessEq(m, y)
    decreases |s|
  {
    var x :| x in s;
    LessIrreflexive(x);
    if s == {x} {
      assert forall y :: y in s ==> LessEq(x, y);
    } else {
      var rest := s - {x};
      HasLeast(rest);
      var m :| m in rest && forall y :: y in rest ==> LessEq(m, y);
      if LessEq(m, x) {
        assert forall y :: y in s ==> y == x || y in rest;
        assert m in s && forall y :: y in s ==> LessEq(m, y);
      } else {
        forall y | y in s ensures LessEq(x, y) {
          if y != x {
            LessThenLessEq(x, m, y);
            LessAsymmetric(x, y);
          }
        }
        assert x in s && forall y :: y in s ==> LessEq(x, y);
      }
    }
  }

  /** `sorted(s)` for a set of strings: its elements in ascending order. */
  function SortedSet(s: AssetSet): (r: seq<string>)
    ensures StrictlyAscending(r)
    ensures |r| == |s|
    ensures forall a :: a in r <==> a in s
    decreases |s|
  {
    if s == {} then []
    else
      LessEqAntisymmetric();
      HasLeast(s);
      var m :| m in s && forall y :: y in s ==> LessEq(m, y);
      var rest := SortedSet(s - {m});
      assert forall j :: 0 <= j < |rest| ==> Less(m, rest[j]) by {
        forall j | 0 <= j < |rest| ensures Less(m, rest[j]) {
          assert rest[j] in rest;
          LessTrichotomy(m, rest[j]);
        }
      }
      [m] + rest
  }

  lemma LessEqAntisymmetric()
    ensures forall a, b :: LessEq(a, b) && LessEq(b, a) ==> a == b
  {
    forall a, b | LessEq(a, b) && LessEq(b, a) ensures a == b { LessTrichotomy(a, b); }
  }

  /** Dropping the least element of an ascending listing of `s` leaves an
      ascending listing of the rest of `s`. */
  lemma ListingTail(s: AssetSet, r: seq<string>)
    requires StrictlyAscending(r) && r != []
    requires forall a :: a in r <==> a in s
    ensures StrictlyAscending(r[1..])
    ensures forall a :: a in r[1..] <==> a in s - {r[0]}
  {
    forall a ensures a in r[1..] <==> a in s - {r[0]} {
      if a in r[1..] {
        var k :| 0 <= k < |r[1..]| && r[1..][k] == a;
        assert Less(r[0], r[k + 1]);
        LessIrreflexive(a);
      }
      if a in s - {r[0]} {
        assert a in r;
        var k :| 0 <= k < |r| && r[k] == a;
        assert r[1..][k - 1] == a;
      }
    }
  }

  /** The only strictly ascending listing of a set is `SortedSet`. */
  lemma SortedSetUnique(s: AssetSet, r: seq<string>)
    requires StrictlyAscending(r)
    requires forall a :: a in r <==> a in s
    ensures r == SortedSet(s)
  {
    ListingsAgree(s, r, SortedSet(s));
  }

  /** Two strictly ascending listings of the same set are equal. */
  lemma {:induction false} ListingsAgree(s: AssetSet, r: seq<string>, q: seq<string>)
    requires StrictlyAscending(r) && forall a :: a in r <==> a in s
    requires StrictlyAscending(q) && forall a :: a in q <==> a in s
    ensures r == q
    decreases |r|
  {
    if s == {} {
      NoMembersEmpty(r);
      NoMembersEmpty(q);
    } else {
      assert r != [] && q != [] by {
        var a :| a in s;
        assert a in r && a in q;
      }
      SameLeast(s, r, q);
      ListingTail(s, r);
      ListingTail(s, q);
      ListingsAgree(s - {r[0]}, r[1..], q[1..]);
      assert q == [q[0]] + q[1..] && r == [r[0]] + r[1..];
    }
  }

  /** Two ascending listings of the same set start with the same element. */
  lemma SameLeast(s: AssetSet, r: seq<string>, q: seq<string>)
    requires StrictlyAscending(r) && r != [] && forall a :: a in r <==> a in s
    requires StrictlyAscending(q) && q != [] && forall a :: a in q <==> a in s
    ensures r[0] == q[0]
  {
    HeadIsLeast(s, r);
    HeadIsLeast(s, q);
    if r[0] != q[0] {
      LessAsymmetric(r[0], q[0]);
    }
  }

  lemma NoMembersEmpty(r: seq<string>)
    ensures (forall a :: a !in r) ==> r == []
  {
    if r != [] {
      assert r[0] in r;
    }
  }

  /** The first element of an ascending listing of `s` is below every other. */
  lemma HeadIsLeast(s: AssetSet, r: seq<string>)
    requires StrictlyAscending(r) && r != []
    requires forall a :: a in r <==> a in s
    ensures r[0] in s
    ensures forall y :: y in s && y != r[0] ==> Less(r[0], y)
  {
    forall y | y in s && y != r[0] ensures Less(r[0], y) {
      assert y in r;
      var k :| 0 <= k < |r| && r[k] == y;
    }
  }

  /** The second-order comparison of two derived asset sets `a` and `b`:
      `sorted(a & b)`, `sorted(a - b)`, `sorted(b - a)`. */
  datatype CrossResult = CrossResult(common: seq<string>, onlyA: seq<string>, onlyB: seq<string>)

  function CrossCompare(a: AssetSet, b: AssetSet): (r: CrossResult)
    ensures StrictlyAscending(r.common) && StrictlyAscending(r.onlyA) && StrictlyAscending(r.onlyB)
    ensures forall e :: e in r.common <==> e in a && e in b
    ensures forall e :: e in r.onlyA <==> e in a && e !in b
    ensures forall e :: e in r.onlyB <==> e in b && e !in a
    ensures |r.common| + |r.onlyA| + |r.onlyB| == |a + b|
  {
    assert a + b == (a * b) + (a - b) + (b - a);
    assert |(a * b) + (a - b)| == |a * b| + |a - b|;
    CrossResult(SortedSet(a * b), SortedSet(a - b), SortedSet(b - a))
  }
}
