/** The sorted list of distinct keys that pandas builds when it groups rows
    (`groupby`, `sort=True`) or unstacks a level into columns: each key once,
    in increasing order. */
module Ordering {
  import opened Text

  ghost predicate StrictTotalOrder<T(!new)>(less: (T, T) -> bool) {
    && (forall a :: !less(a, a))
    && (forall a, b, c :: less(a, b) && less(b, c) ==> less(a, c))
    && (forall a, b :: a != b ==> less(a, b) || less(b, a))
  }

  ghost predicate Sorted<T>(s: seq<T>, less: (T, T) -> bool) {
    forall i, j :: 0 <= i < j < |s| ==> less(s[i], s[j])
  }

  /** Insert `x` into a sorted list unless it is already there. */
  function Insert<T(==)>(x: T, s: seq<T>, less: (T, T) -> bool): seq<T> {
    if s == [] then [x]
    else if x == s[0] then s
    else if less(x, s[0]) then [x] + s
    else [s[0]] + Insert(x, s[1..], less)
  }

  /** The distinct elements of `xs`, sorted by `less`. */
  function SortedDistinct<T(==)>(xs: seq<T>, less: (T, T) -> bool): seq<T> {
    if xs == [] then []
    else Insert(xs[|xs| - 1], SortedDistinct(xs[..|xs| - 1], less), less)
  }

  lemma {:induction false} InsertSpec<T(!new)>(x: T, s: seq<T>, less: (T, T) -> bool)
    requires StrictTotalOrder(less) && Sorted(s, less)
    ensures Sorted(Insert(x, s, less), less)
    ensures forall y :: y in Insert(x, s, less) <==> y == x || y in s
  {
    if s != [] && x != s[0] && !less(x, s[0]) {
      InsertSpec(x, s[1..], less);
      var t := Insert(x, s[1..], less);
      assert less(s[0], x);
      forall j | 0 <= j < |t| ensures less(s[0], t[j]) {
        assert t[j] in t;
      }
      assert Insert(x, s, less) == [s[0]] + t;
      assert s == [s[0]] + s[1..];
    }
  }

  /** SortedDistinct yields a strictly increasing list holding exactly the
      elements of its input. */
  lemma {:induction false} SortedDistinctSpec<T(!new)>(xs: seq<T>, less: (T, T) -> bool)
    requires StrictTotalOrder(less)
    ensures Sorted(SortedDistinct(xs, less), less)
    ensures forall y :: y in SortedDistinct(xs, less) <==> y in xs
  {
    if xs != [] {
      var init := xs[..|xs| - 1];
      SortedDistinctSpec(init, less);
      InsertSpec(xs[|xs| - 1], SortedDistinct(init, less), less);
      assert xs == init + [xs[|xs| - 1]];
    }
  }

  /** A strictly increasing list has no repeated element. */
  lemma SortedHasNoDuplicates<T(!new)>(s: seq<T>, less: (T, T) -> bool)
    requires StrictTotalOrder(less) && Sorted(s, less)
    ensures forall i, j :: 0 <= i < j < |s| ==> s[i] != s[j]
  {
  }

  /** Python's order on strings is a strict total order. */
  lemma StrLessIsStrictTotal()
    ensures StrictTotalOrder(StrLess)
  {
    forall a ensures !StrLess(a, a) {
      StrLessIrreflexive(a);
    }
    forall a, b, c | StrLess(a, b) && StrLess(b, c) ensures StrLess(a, c) {
      StrLessTransitive(a, b, c);
    }
    forall a, b | a != b ensures StrLess(a, b) || StrLess(b, a) {
      StrLessTotal(a, b);
    }
  }

  /** Python's order on pairs of strings: by the first component, then by
      the second. */
  predicate PairLess(a: (string, string), b: (string, string)) {
    StrLess(a.0, b.0) || (a.0 == b.0 && StrLess(a.1, b.1))
  }

  lemma PairLessIsStrictTotal()
    ensures StrictTotalOrder(PairLess)
  {
    StrLessIsStrictTotal();
  }
}
