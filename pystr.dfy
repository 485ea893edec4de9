/**
  Python string operations the listing scripts rely on, with Python's own
  semantics: code-point comparison (`<`), `str.startswith`, the substring test
  `p in s`, `str.split(sep)`, `str.replace(pat, '')` and ASCII `str.upper`.
 */
module PyStr {

  /** Python's `a < b` on `str`: lexicographic by code point, a proper prefix
      sorts first. */
  predicate Less(a: string, b: string)
  {
    if a == [] then b != []
    else if b == [] then false
    else if a[0] != b[0] then a[0] < b[0]
    else Less(a[1..], b[1..])
  }

  /** `a <= b`; Python's `sorted` only ever asks `b < a`, so "not after". */
  predicate LessEq(a: string, b: string)
  {
    !Less(b, a)
  }

  lemma {:induction false} LessIrreflexive(a: string)
    ensures !Less(a, a)
  {
    if a != [] {
      LessIrreflexive(a[1..]);
    }
  }

  lemma {:induction false} LessTransitive(a: string, b: string, c: string)
    requires Less(a, b) && Less(b, c)
    ensures Less(a, c)
  {
    if a != [] && b != [] && c != [] && a[0] == b[0] == c[0] {
      LessTransitive(a[1..], b[1..], c[1..]);
    }
  }

  lemma {:induction false} LessTrichotomy(a: string, b: string)
    ensures Less(a, b) || a == b || Less(b, a)
  {
    if a != [] && b != [] && a[0] == b[0] {
      LessTrichotomy(a[1..], b[1..]);
      if a[1..] == b[1..] {
        assert a == [a[0]] + a[1..] && b == [b[0]] + b[1..];
      }
    }
  }

  lemma {:induction false} LessAsymmetric(a: string, b: string)
    requires Less(a, b)
    ensures !Less(b, a)
  {
    if a != [] && b != [] && a[0] == b[0] {
      LessAsymmetric(a[1..], b[1..]);
    }
  }

  lemma LessThenLessEq(a: string, b: string, c: string)
    requires Less(a, b) && LessEq(b, c)
    ensures Less(a, c)
  {
    if b != c {
      LessTrichotomy(b, c);
      LessTransitive(a, b, c);
    }
  }

  /** `<=` is a total order on strings: reflexive, antisymmetric, transitive, total. */
  lemma LessEqTotalOrder()
    ensures forall a :: LessEq(a, a)
    ensures forall a, b :: LessEq(a, b) && LessEq(b, a) ==> a == b
    ensures forall a, b, c :: LessEq(a, b) && LessEq(b, c) ==> LessEq(a, c)
    ensures forall a, b :: LessEq(a, b) || LessEq(b, a)
  {
    forall a ensures LessEq(a, a) { LessIrreflexive(a); }
    forall a, b | LessEq(a, b) && LessEq(b, a) ensures a == b { LessTrichotomy(a, b); }
    forall a, b, c | LessEq(a, b) && LessEq(b, c) ensures LessEq(a, c) {
      if Less(c, a) {
        LessTrichotomy(a, b);
        if Less(a, b) { LessTransitive(c, a, b); }
      }
    }
    forall a, b ensures LessEq(a, b) || LessEq(b, a) {
      if Less(b, a) { LessAsymmetric(b, a); }
    }
  }

  /** Strings of one length compared position by position: if no code point of
      `a` is above the one of `b` at the same place, `a <= b`. */
  lemma {:induction false} PointwiseLessEq(a: string, b: string)
    requires |a| == |b|
    requires forall i :: 0 <= i < |a| ==> a[i] <= b[i]
    ensures LessEq(a, b)
  {
    if a != [] && a[0] == b[0] {
      PointwiseLessEq(a[1..], b[1..]);
    }
  }

  /** Python's `s.startswith(p)`. */
  predicate StartsWith(s: string, p: string)
  {
    |p| <= |s| && s[..|p|] == p
  }

  /** Python's substring test `p in s`. */
  predicate Contains(s: string, p: string)
    decreases |s|
  {
    StartsWith(s, p) || (s != [] && Contains(s[1..], p))
  }

  /** Every character of a substring occurs in the string. */
  lemma {:induction false} ContainsChar(s: string, p: string, i: nat)
    requires Contains(s, p) && i < |p|
    ensures p[i] in s
    decreases |s|
  {
    if StartsWith(s, p) {
      assert s[i] == p[i];
    } else {
      ContainsChar(s[1..], p, i);
    }
  }

  /** A string starting with `p`, after any text, contains `p`. */
  lemma {:induction false} ContainsAfter(a: string, b: string, p: string)
    requires StartsWith(b, p)
    ensures Contains(a + b, p)
    decreases |a|
  {
    if a == [] {
      assert a + b == b;
    } else {
      ContainsAfter(a[1..], b, p);
      assert (a + b)[1..] == a[1..] + b;
    }
  }

  /** Python's `s.split(sep)` for a one-character separator: always at least
      one piece, one more piece than there are separators. */
  function Split(s: string, sep: char): (r: seq<string>)
    ensures |r| == 1 + Count(s, sep)
    ensures forall i :: 0 <= i < |r| ==> sep !in r[i]
  {
    if s == [] then [""]
    else
      var rest := Split(s[1..], sep);
      if s[0] == sep then [""] + rest
      else [[s[0]] + rest[0]] + rest[1..]
  }

  /** Number of occurrences of `c` in `s`. */
  function Count(s: string, c: char): (n: nat)
    ensures n == 0 <==> c !in s
  {
    if s == [] then 0
    else (if s[0] == c then 1 else 0) + Count(s[1..], c)
  }

  /** Splitting `p + [sep] + k` where `p` holds no separator: the first piece
      is `p`, the rest is the split of `k`. */
  lemma {:induction false} SplitAfterPrefix(p: string, sep: char, k: string)
    requires sep !in p
    ensures Split(p + [sep] + k, sep) == [p] + Split(k, sep)
  {
    if p == [] {
      assert p + [sep] + k == [sep] + k;
      assert ([sep] + k)[1..] == k;
    } else {
      SplitAfterPrefix(p[1..], sep, k);
      assert (p + [sep] + k)[1..] == p[1..] + [sep] + k;
      assert [p[0]] + p[1..] == p;
    }
  }

  /** A string without the separator splits into itself alone. */
  lemma {:induction false} SplitNoSep(k: string, sep: char)
    requires sep !in k
    ensures Split(k, sep) == [k]
  {
    if k != [] {
      SplitNoSep(k[1..], sep);
      assert [k[0]] + k[1..] == k;
    }
  }

  /** The second piece of `s.split(sep)`, which Python only has when `sep`
      occurs in `s` (otherwise `[1]` raises IndexError). */
  function SecondPiece(s: string, sep: char): (r: string)
    requires sep in s
    ensures sep !in r
  {
    Split(s, sep)[1]
  }

  /** The scripts' base-asset convention `code.split('-')[1]`. For a pair code
      `quote + "-" + k` it is the part of `k` up to its first '-'; it is `k`
      itself exactly when `k` holds no '-'. */
  function Base(code: string): (r: string)
    requires '-' in code
  {
    SecondPiece(code, '-')
  }

  lemma BaseOfPair(quote: string, k: string)
    requires '-' !in quote
    ensures '-' in quote + "-" + k
    ensures Base(quote + "-" + k) == Split(k, '-')[0]
    ensures '-' !in k ==> Base(quote + "-" + k) == k
  {
    assert (quote + "-" + k)[|quote|] == '-';
    SplitAfterPrefix(quote, '-', k);
    if '-' !in k { SplitNoSep(k, '-'); }
  }

  /** A code that starts with a prefix ending in '-' has a base. */
  lemma PrefixGivesDash(s: string, p: string)
    requires StartsWith(s, p) && p != [] && p[|p| - 1] == '-'
    ensures '-' in s
  {
    assert s[|p| - 1] == p[|p| - 1];
  }

  /** Python's `s.replace(pat, '')`: one left-to-right pass that deletes every
      non-overlapping occurrence of `pat`. */
  function RemoveAll(s: string, pat: string): (r: string)
    requires pat != []
    ensures |r| <= |s|
    decreases |s|
  {
    if s == [] then []
    else if StartsWith(s, pat) then RemoveAll(s[|pat|..], pat)
    else [s[0]] + RemoveAll(s[1..], pat)
  }

  /** A string that does not contain `pat` is left as it is. */
  lemma {:induction false} RemoveAllAbsent(s: string, pat: string)
    requires pat != [] && !Contains(s, pat)
    ensures RemoveAll(s, pat) == s
    decreases |s|
  {
    if s != [] {
      RemoveAllAbsent(s[1..], pat);
      assert [s[0]] + s[1..] == s;
    }
  }

  /** Stripping "KRW-" from "KRW-" + k gives k back when k holds no "KRW-". */
  lemma RemovePrefixOnce(pat: string, k: string)
    requires pat != [] && !Contains(k, pat)
    ensures RemoveAll(pat + k, pat) == k
  {
    assert StartsWith(pat + k, pat);
    assert (pat + k)[|pat|..] == k;
    RemoveAllAbsent(k, pat);
  }

  /** One pass is not a fixpoint: deleting an inner "KRW-" can join its
      neighbours into a new "KRW-", which Python's `replace` leaves in place. */
  lemma RemoveAllSinglePass()
    ensures RemoveAll("KRKRW-W-", "KRW-") == "KRW-"
  {
    var s := "KRKRW-W-";
    assert s[..4][2] != "KRW-"[2];
    assert s[1..][..4][0] != "KRW-"[0];
    assert s[2..][..4] == "KRW-" && s[2..][4..] == "W-";
    assert RemoveAll("W-", "KRW-") == "W-" by {
      assert "W-"[1..] == "-";
      assert RemoveAll("-", "KRW-") == "-";
    }
  }

  /** Python's `str.upper()` on ASCII letters; every other code point is kept. */
  function Upper(s: string): (r: string)
    ensures |r| == |s|
    ensures forall i :: 0 <= i < |s| ==> r[i] == UpperChar(s[i])
  {
    if s == [] then [] else [UpperChar(s[0])] + Upper(s[1..])
  }

  function UpperChar(c: char): char
  {
    if 'a' <= c <= 'z' then (c as int - 'a' as int + 'A' as int) as char else c
  }
}
