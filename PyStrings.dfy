/**
 * The behaviour of the Python `str` operations the core relies on:
 * ordering and `sorted(set(...))`, `startswith`, `in`/`find`,
 * `sep.join`, `split` and `str(int)`.
 */
module PyStrings {
  import opened Wrappers

  // ---------------------------------------------------------------------
  // Ordering: Python compares str values code point by code point.
  // ---------------------------------------------------------------------

  /** `a < b` on Python strings. */
  predicate LexLess(a: string, b: string)
    decreases |a|
  {
    if |a| == 0 then |b| > 0
    else |b| > 0 && (a[0] < b[0] || (a[0] == b[0] && LexLess(a[1..], b[1..])))
  }

  lemma {:induction false} LexLessIrreflexive(a: string)
    ensures !LexLess(a, a)
    decreases |a|
  {
    if |a| > 0 {
      LexLessIrreflexive(a[1..]);
    }
  }

  lemma {:induction false} LexLessAsymmetric(a: string, b: string)
    requires LexLess(a, b)
    ensures !LexLess(b, a)
    decreases |a|
  {
    if |a| > 0 && a[0] == b[0] {
      LexLessAsymmetric(a[1..], b[1..]);
    }
  }

  lemma {:induction false} LexLessTransitive(a: string, b: string, c: string)
    requires LexLess(a, b) && LexLess(b, c)
    ensures LexLess(a, c)
    decreases |a|
  {
    if |a| > 0 && a[0] == b[0] && b[0] == c[0] {
      LexLessTransitive(a[1..], b[1..], c[1..]);
    }
  }

  lemma {:induction false} LexLessTotal(a: string, b: string)
    requires a != b
    ensures LexLess(a, b) || LexLess(b, a)
    decreases |a|
  {
    if |a| > 0 && |b| > 0 && a[0] == b[0] {
      assert a == [a[0]] + a[1..] && b == [b[0]] + b[1..];
      LexLessTotal(a[1..], b[1..]);
    }
  }

  /** Strictly increasing in Python's string order, hence free of duplicates. */
  predicate StrictlySorted(s: seq<string>)
  {
    forall i, j :: 0 <= i < j < |s| ==> LexLess(s[i], s[j])
  }

  lemma LessThanAll(x: string, s: seq<string>)
    requires StrictlySorted(s) && |s| > 0 && LexLess(x, s[0])
    ensures forall j :: 0 <= j < |s| ==> LexLess(x, s[j])
  {
    forall j | 0 < j < |s| {
      LexLessTransitive(x, s[0], s[j]);
    }
  }

  /** Inserts `x` into a strictly sorted sequence unless it is already there. */
  function InsertSorted(s: seq<string>, x: string): (r: seq<string>)
    requires StrictlySorted(s)
    ensures StrictlySorted(r)
    ensures forall y :: y in r <==> y in s || y == x
    decreases |s|
  {
    if |s| == 0 then [x]
    else if x == s[0] then s
    else if LexLess(x, s[0]) then
      LessThanAll(x, s);
      [x] + s
    else
      LexLessTotal(x, s[0]);
      var rest := InsertSorted(s[1..], x);
      assert forall y :: y in rest ==> LexLess(s[0], y) by {
        forall y | y in rest
          ensures LexLess(s[0], y)
        {
          if y != x {
            var k :| 0 <= k < |s[1..]| && s[1..][k] == y;
            assert s[k + 1] == y;
          }
        }
      }
      [s[0]] + rest
  }

  /** `sorted(set(xs))`: the distinct elements of `xs` in increasing order. */
  function SortedSet(xs: seq<string>): (r: seq<string>)
    ensures StrictlySorted(r)
    ensures forall y :: y in r <==> y in xs
    decreases |xs|
  {
    if |xs| == 0 then []
    else
      var front := SortedSet(xs[..|xs| - 1]);
      assert forall y :: y in xs <==> y in xs[..|xs| - 1] || y == xs[|xs| - 1] by {
        assert xs == xs[..|xs| - 1] + [xs[|xs| - 1]];
      }
      InsertSorted(front, xs[|xs| - 1])
  }

  lemma HeadIsElement(s: seq<string>)
    requires |s| > 0
    ensures s[0] in s
  {
  }

  /**
   * A strictly sorted sequence is determined by its elements: whatever order
   * the input had, `sorted(set(...))` has exactly one possible value.
   */
  lemma {:induction false} SortedUnique(a: seq<string>, b: seq<string>)
    requires StrictlySorted(a) && StrictlySorted(b)
    requires forall y :: y in a <==> y in b
    ensures a == b
    decreases |a|
  {
    if |a| == 0 || |b| == 0 {
      if |a| != |b| {
        // the first element of the non-empty side is missing from the other
        HeadIsElement(if |a| == 0 then b else a);
        assert false;
      }
    } else {
      assert a[0] == b[0] by {
        if a[0] != b[0] {
          assert a[0] in b;
          var k :| 0 <= k < |b| && b[k] == a[0];
          assert LexLess(b[0], a[0]);
          assert b[0] in a;
          var m :| 0 <= m < |a| && a[m] == b[0];
          assert LexLess(a[0], b[0]);
          LexLessAsymmetric(a[0], b[0]);
        }
      }
      forall y
        ensures y in a[1..] <==> y in b[1..]
      {
        if y in a[1..] {
          var k :| 0 <= k < |a[1..]| && a[1..][k] == y;
          assert LexLess(a[0], a[k + 1]);
          LexLessIrreflexive(y);
          assert y in b && y != b[0];
          var m :| 0 <= m < |b| && b[m] == y;
          assert b[1..][m - 1] == y;
        }
        if y in b[1..] {
          var k :| 0 <= k < |b[1..]| && b[1..][k] == y;
          assert LexLess(b[0], b[k + 1]);
          LexLessIrreflexive(y);
          assert y in a && y != a[0];
          var m :| 0 <= m < |a| && a[m] == y;
          assert a[1..][m - 1] == y;
        }
      }
      SortedUnique(a[1..], b[1..]);
      assert a == [a[0]] + a[1..] && b == [b[0]] + b[1..];
    }
  }

  // ---------------------------------------------------------------------
  // Truthiness of an optional string.
  // ---------------------------------------------------------------------

  /** Python truthiness of an optional string: not `None` and not empty. */
  predicate Truthy(v: Option<string>)
  {
    v.Some? && v.value != ""
  }

  /** `v or d` for an optional string. */
  function Or(v: Option<string>, d: string): (r: string)
    ensures Truthy(v) ==> r == v.value
    ensures !Truthy(v) ==> r == d
  {
    if Truthy(v) then v.value else d
  }

  // ---------------------------------------------------------------------
  // Prefixes and substring search.
  // ---------------------------------------------------------------------

  /** `s.startswith(p)`. */
  predicate StartsWith(s: string, p: string)
  {
    |p| <= |s| && s[..|p|] == p
  }

  /** `pat` occurs in `s` starting at index `i`. */
  predicate OccursAt(s: string, pat: string, i: int)
  {
    0 <= i && i + |pat| <= |s| && s[i..i + |pat|] == pat
  }

  /** `s.find(pat, start)`: the leftmost occurrence at or after `start`. */
  function Find(s: string, pat: string, start: nat): (r: Option<nat>)
    ensures r.Some? ==> start <= r.value && OccursAt(s, pat, r.value)
    ensures r.Some? ==> forall k :: start <= k < r.value ==> !OccursAt(s, pat, k)
    ensures r.None? ==> forall k :: start <= k ==> !OccursAt(s, pat, k)
    decreases |s| - start
  {
    if start + |pat| > |s| then None
    else if s[start..start + |pat|] == pat then Some(start)
    else Find(s, pat, start + 1)
  }

  /** `pat in s`. */
  predicate Contains(s: string, pat: string)
  {
    Find(s, pat, 0).Some?
  }

  // ---------------------------------------------------------------------
  // Regular-expression character classes, over ASCII: `\d`, `\w`, `\s`.
  // ---------------------------------------------------------------------

  /** `\w`: a letter, a digit or `_`. */
  predicate IsWordChar(c: char)
  {
    ('a' <= c <= 'z') || ('A' <= c <= 'Z') || ('0' <= c <= '9') || c == '_'
  }

  /** `\s`: space, tab, line feed, carriage return, vertical tab or form feed. */
  predicate IsSpace(c: char)
  {
    c == ' ' || c == '\t' || c == '\n' || c == '\r' || c == '\U{000B}' || c == '\U{000C}'
  }

  /**
   * Length of the longest run of characters of class `cls` starting at `p`:
   * what a greedy `[cls]*` consumes there.
   */
  function RunOf(s: string, p: nat, cls: char -> bool): (n: nat)
    requires p <= |s|
    ensures p + n <= |s|
    ensures forall k :: p <= k < p + n ==> cls(s[k])
    ensures p + n == |s| || !cls(s[p + n])
    decreases |s| - p
  {
    if p < |s| && cls(s[p]) then 1 + RunOf(s, p + 1, cls) else 0
  }

  /** A run that ends where the class stops is the run `RunOf` measures. */
  lemma RunOfExact(s: string, p: nat, cls: char -> bool, n: nat)
    requires p + n <= |s|
    requires forall k :: p <= k < p + n ==> cls(s[k])
    requires p + n == |s| || !cls(s[p + n])
    ensures RunOf(s, p, cls) == n
  {
  }

  /** A run of at least `n` characters is measured as at least `n`. */
  lemma RunOfAtLeast(s: string, p: nat, cls: char -> bool, n: nat)
    requires p + n <= |s|
    requires forall k :: p <= k < p + n ==> cls(s[k])
    ensures RunOf(s, p, cls) >= n
  {
  }

  // ---------------------------------------------------------------------
  // `sep.join(xs)` and `s.split(c)`.
  // ---------------------------------------------------------------------

  /** `sep.join(xs)`. */
  function Join(xs: seq<string>, sep: string): string
    decreases |xs|
  {
    if |xs| == 0 then ""
    else if |xs| == 1 then xs[0]
    else xs[0] + sep + Join(xs[1..], sep)
  }

  /** `s.split(c)` for a single-character separator. */
  function Split(s: string, c: char): (r: seq<string>)
    ensures |r| > 0
    decreases |s|
  {
    match Find(s, [c], 0)
    case None => [s]
    case Some(i) => [s[..i]] + Split(s[i + 1..], c)
  }

  lemma NoSeparatorFind(x: string, rest: string, c: char)
    requires c !in x
    ensures Find(x + [c] + rest, [c], 0) == Some(|x|)
  {
    var s := x + [c] + rest;
    assert OccursAt(s, [c], |x|) by {
      assert s[|x|..|x| + 1] == [c];
    }
    forall k | 0 <= k < |x|
      ensures !OccursAt(s, [c], k)
    {
      assert s[k] == x[k];
    }
  }

  lemma NoSeparatorSplit(x: string, c: char)
    requires c !in x
    ensures Split(x, c) == [x]
  {
    var f := Find(x, [c], 0);
    if f.Some? {
      OccursAtCharIn(x, c, f.value);
      assert false;
    }
  }

  lemma OccursAtCharIn(s: string, c: char, i: int)
    requires OccursAt(s, [c], i)
    ensures c in s
  {
    assert s[i..i + 1][0] == s[i];
  }

  /**
   * Splitting a join on the same one-character separator gives back the
   * pieces, provided no piece contains the separator.
   */
  lemma {:induction false} SplitJoin(xs: seq<string>, c: char)
    requires |xs| > 0
    requires forall i :: 0 <= i < |xs| ==> c !in xs[i]
    ensures Split(Join(xs, [c]), c) == xs
    decreases |xs|
  {
    if |xs| == 1 {
      NoSeparatorSplit(xs[0], c);
    } else {
      var rest := Join(xs[1..], [c]);
      var s := xs[0] + [c] + rest;
      assert Join(xs, [c]) == s;
      NoSeparatorFind(xs[0], rest, c);
      assert s[..|xs[0]|] == xs[0];
      assert s[|xs[0]| + 1..] == rest;
      SplitJoin(xs[1..], c);
      assert xs == [xs[0]] + xs[1..];
    }
  }

  // ---------------------------------------------------------------------
  // `str(n)` for an int.
  // ---------------------------------------------------------------------

  predicate IsAsciiDigit(c: char)
  {
    '0' <= c <= '9'
  }

  function DigitChar(d: nat): (c: char)
    requires d < 10
    ensures IsAsciiDigit(c) && (c as int) - ('0' as int) == d
  {
    ('0' as int + d) as char
  }

  /** Decimal digits of a natural number, without leading zeros. */
  function NatToDigits(n: nat): (r: string)
    ensures |r| > 0 && forall i :: 0 <= i < |r| ==> IsAsciiDigit(r[i])
    decreases n
  {
    if n < 10 then [DigitChar(n)] else NatToDigits(n / 10) + [DigitChar(n % 10)]
  }

  /** Value of a string of decimal digits. */
  function DigitsValue(s: string): nat
    requires forall i :: 0 <= i < |s| ==> IsAsciiDigit(s[i])
    decreases |s|
  {
    if |s| == 0 then 0
    else
      var last := s[|s| - 1];
      assert IsAsciiDigit(last);
      10 * DigitsValue(s[..|s| - 1]) + ((last as int) - ('0' as int))
  }

  lemma {:induction false} NatToDigitsValue(n: nat)
    ensures DigitsValue(NatToDigits(n)) == n
    decreases n
  {
    if n >= 10 {
      var r := NatToDigits(n);
      assert r[..|r| - 1] == NatToDigits(n / 10);
      NatToDigitsValue(n / 10);
    }
  }

  /** `str(i)` for a Python int. */
  function IntToString(i: int): (r: string)
    ensures '\n' !in r
  {
    if i < 0 then "-" + NatToDigits(-i) else NatToDigits(i)
  }

  lemma IntToStringSign(i: int)
    ensures |IntToString(i)| > 0 && (IntToString(i)[0] == '-' <==> i < 0)
  {
    if i >= 0 {
      assert IsAsciiDigit(NatToDigits(i)[0]);
    }
  }

  /** `str(i)` loses nothing: distinct integers have distinct decimal forms. */
  lemma IntToStringInjective(i: int, j: int)
    requires IntToString(i) == IntToString(j)
    ensures i == j
  {
    var a := IntToString(i);
    IntToStringSign(i);
    IntToStringSign(j);
    if i < 0 {
      assert a[1..] == NatToDigits(-i) == NatToDigits(-j);
      NatToDigitsValue(-i);
      NatToDigitsValue(-j);
    } else {
      NatToDigitsValue(i);
      NatToDigitsValue(j);
    }
  }
}
