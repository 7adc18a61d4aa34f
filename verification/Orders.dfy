/** Strict total orders, the sequences sorted by them, and the byte-wise string order of Go.

    Every ordering the program promises (series before series, timestamp before timestamp, field
    before field) is a strict order here, and "the output is exactly this" is always stated the same
    way: strictly sorted, with exactly these elements. `SortedUnique` makes that a definition. */
module Orders {

  datatype Option<T> = None | Some(value: T)

  ghost predicate StrictTotal<T(!new)>(less: (T, T) -> bool) {
    && (forall x :: !less(x, x))
    && (forall x, y :: less(x, y) || less(y, x) || x == y)
    && (forall x, y, z :: less(x, y) && less(y, z) ==> less(x, z))
  }

  ghost predicate Strict<T>(s: seq<T>, less: (T, T) -> bool) {
    forall i, j :: 0 <= i < j < |s| ==> less(s[i], s[j])
  }

  /** A strictly sorted sequence is determined by its elements. */
  lemma SortedUnique<T(!new)>(a: seq<T>, b: seq<T>, less: (T, T) -> bool)
    requires StrictTotal(less)
    requires Strict(a, less) && Strict(b, less)
    requires forall x :: x in a <==> x in b
    ensures a == b
  {
    SortedOnce(a, b, less);
  }

  lemma StrictConcat<T>(a: seq<T>, b: seq<T>, less: (T, T) -> bool)
    requires Strict(a, less) && Strict(b, less)
    requires forall x, y :: x in a && y in b ==> less(x, y)
    ensures Strict(a + b, less)
  {
    forall i, j | 0 <= i < j < |a + b| ensures less((a + b)[i], (a + b)[j]) {
      if i < |a| && j >= |a| {
        assert a[i] in a && b[j - |a|] in b;
      }
    }
  }

  // ---- sorting by a comparator ----

  ghost predicate Asymmetric<T(!new)>(less: (T, T) -> bool) { forall x, y :: !(less(x, y) && less(y, x)) }

  ghost predicate Transitive<T(!new)>(less: (T, T) -> bool) { forall x, y, z :: less(x, y) && less(y, z) ==> less(x, z) }

  /** No two elements are equivalent under the order. */
  ghost predicate Comparable<T>(s: seq<T>, less: (T, T) -> bool) {
    forall i, j :: 0 <= i < j < |s| ==> less(s[i], s[j]) || less(s[j], s[i])
  }

  lemma RestOfStrict<T(!new)>(a: seq<T>, less: (T, T) -> bool, x: T)
    requires Asymmetric(less) && Strict(a, less) && a != []
    ensures x in a[1..] <==> x in a && x != a[0]
  {
    if x in a[1..] {
      var j :| 0 <= j < |a[1..]| && a[1..][j] == x;
      assert less(a[0], a[j + 1]);
    }
  }

  lemma FirstIsLeast<T(!new)>(a: seq<T>, less: (T, T) -> bool, x: T)
    requires Strict(a, less) && x in a
    ensures x == a[0] || less(a[0], x)
  {
    var j :| 0 <= j < |a| && a[j] == x;
  }

  /** Strictly sorted sequences with the same elements are the same, whatever sorted them. */
  lemma {:induction false} SortedOnce<T(!new)>(a: seq<T>, b: seq<T>, less: (T, T) -> bool)
    requires Asymmetric(less) && Strict(a, less) && Strict(b, less)
    requires forall x :: x in a <==> x in b
    ensures a == b
    decreases |a|
  {
    if a != [] || b != [] {
      assert a != [] ==> a[0] in b;
      assert b != [] ==> b[0] in a;
      FirstIsLeast(a, less, b[0]);
      FirstIsLeast(b, less, a[0]);
      forall x ensures x in a[1..] <==> x in b[1..] {
        RestOfStrict(a, less, x);
        RestOfStrict(b, less, x);
      }
      SortedOnce(a[1..], b[1..], less);
      assert a == [a[0]] + a[1..] && b == [b[0]] + b[1..];
    }
  }

  function InsertBy<T>(x: T, s: seq<T>, less: (T, T) -> bool): (r: seq<T>)
    ensures |r| == |s| + 1
  {
    if s == [] || less(x, s[0]) then [x] + s else [s[0]] + InsertBy(x, s[1..], less)
  }

  function SortBy<T>(s: seq<T>, less: (T, T) -> bool): (r: seq<T>)
    ensures |r| == |s|
  {
    if s == [] then [] else InsertBy(s[0], SortBy(s[1..], less), less)
  }

  lemma {:induction false} InsertByMembers<T>(x: T, s: seq<T>, less: (T, T) -> bool, y: T)
    ensures y in InsertBy(x, s, less) <==> y == x || y in s
    decreases |s|
  {
    if s != [] && !less(x, s[0]) {
      InsertByMembers(x, s[1..], less, y);
      assert s == [s[0]] + s[1..];
    }
  }

  lemma {:induction false} SortByMembers<T>(s: seq<T>, less: (T, T) -> bool, y: T)
    ensures y in SortBy(s, less) <==> y in s
    decreases |s|
  {
    if s != [] {
      SortByMembers(s[1..], less, y);
      InsertByMembers(s[0], SortBy(s[1..], less), less, y);
      assert s == [s[0]] + s[1..];
    }
  }

  lemma {:induction false} InsertByStrict<T(!new)>(x: T, s: seq<T>, less: (T, T) -> bool)
    requires Transitive(less) && Strict(s, less)
    requires forall y :: y in s ==> less(x, y) || less(y, x)
    ensures Strict(InsertBy(x, s, less), less)
    decreases |s|
  {
    var r := InsertBy(x, s, less);
    if s == [] {
    } else if less(x, s[0]) {
      forall j | 0 < j < |r| ensures less(r[0], r[j]) { assert r[j] == s[j - 1]; }
    } else {
      assert forall y :: y in s[1..] ==> y in s;
      InsertByStrict(x, s[1..], less);
      forall j | 0 < j < |r| ensures less(r[0], r[j]) {
        InsertByMembers(x, s[1..], less, r[j]);
        assert r[j] in InsertBy(x, s[1..], less);
        if r[j] in s[1..] { var k :| 0 <= k < |s[1..]| && s[1..][k] == r[j]; assert less(s[0], s[k + 1]); }
      }
    }
  }

  /** Without equivalent elements, sorting sorts strictly. */
  lemma {:induction false} SortByStrict<T(!new)>(s: seq<T>, less: (T, T) -> bool)
    requires Transitive(less) && Comparable(s, less)
    ensures Strict(SortBy(s, less), less)
    decreases |s|
  {
    if s != [] {
      var t := s[1..];
      assert forall i :: 0 <= i < |t| ==> t[i] == s[i + 1];
      SortByStrict(t, less);
      forall y | y in SortBy(t, less) ensures less(s[0], y) || less(y, s[0]) {
        SortByMembers(t, less, y);
        var k :| 0 <= k < |t| && t[k] == y;
        assert s[k + 1] == y;
      }
      InsertByStrict(s[0], SortBy(t, less), less);
    }
  }

  /** Every finite non-empty set has a least element. */
  lemma {:induction false} HasLeast<T(!new)>(s: set<T>, less: (T, T) -> bool) returns (m: T)
    requires StrictTotal(less) && s != {}
    ensures m in s && forall x :: x in s && x != m ==> less(m, x)
    decreases |s|
  {
    m :| m in s;
    if s != {m} {
      var r := s - {m};
      assert s == r + {m};
      var n := HasLeast(r, less);
      if less(n, m) { m := n; }
    }
  }

  /** The elements of a set, in order. */
  ghost function Sorted<T(!new)>(s: set<T>, less: (T, T) -> bool): (r: seq<T>)
    requires StrictTotal(less)
    ensures Strict(r, less)
    ensures forall x :: x in r <==> x in s
    ensures |r| == |s|
    decreases |s|
  {
    if s == {} then []
    else
      assert exists m :: m in s && forall x :: x in s && x != m ==> less(m, x) by {
        var m := HasLeast(s, less);
      }
      var m :| m in s && forall x :: x in s && x != m ==> less(m, x);
      [m] + Sorted(s - {m}, less)
  }

  predicate IntLess(a: int, b: int) { a < b }

  lemma IntTotal()
    ensures StrictTotal(IntLess)
  {}

  // ---- Go strings: byte sequences under byte-wise comparison ----

  type Byte = b: int | 0 <= b < 256
  type Str = seq<Byte>

  predicate StrLess(a: Str, b: Str) {
    b != [] && (a == [] || a[0] < b[0] || (a[0] == b[0] && StrLess(a[1..], b[1..])))
  }

  lemma {:induction false} StrTrichotomy(a: Str, b: Str)
    ensures !StrLess(a, a)
    ensures StrLess(a, b) || StrLess(b, a) || a == b
    decreases |a| + |b|
  {
    if a != [] {
      StrTrichotomy(a[1..], if b != [] then b[1..] else []);
      if b != [] && a[0] == b[0] {
        assert a == [a[0]] + a[1..] && b == [b[0]] + b[1..];
      }
    }
  }

  lemma {:induction false} StrTransitive(a: Str, b: Str, c: Str)
    requires StrLess(a, b) && StrLess(b, c)
    ensures StrLess(a, c)
    decreases |a|
  {
    if a != [] && a[0] == b[0] && b[0] == c[0] {
      StrTransitive(a[1..], b[1..], c[1..]);
    }
  }

  /** The first difference decides, and a string sorts before its extensions. */
  lemma {:induction false} StrLessMeaning(a: Str, b: Str)
    ensures StrLess(a, b) <==> exists k :: 0 <= k <= |a| && k < |b| && a[..k] == b[..k] && (k == |a| || a[k] < b[k])
    decreases |a|
  {
    if a != [] && b != [] { StrLessMeaning(a[1..], b[1..]); }
    if StrLess(a, b) {
      if a != [] && a[0] == b[0] {
        var x, y := a[1..], b[1..];
        var k :| 0 <= k <= |x| && k < |y| && x[..k] == y[..k] && (k == |x| || x[k] < y[k]);
        assert a[..k + 1] == [a[0]] + x[..k] && b[..k + 1] == [b[0]] + y[..k];
      } else {
        assert a[..0] == b[..0];
      }
    }
    if k :| 0 <= k <= |a| && k < |b| && a[..k] == b[..k] && (k == |a| || a[k] < b[k]) {
      if k > 0 {
        var x, y := a[1..], b[1..];
        assert a[0] == a[..k][0] == b[..k][0] == b[0];
        assert x[..k - 1] == a[..k][1..] && y[..k - 1] == b[..k][1..];
      }
    }
  }

  lemma StrTotal()
    ensures StrictTotal(StrLess)
  {
    forall a: Str, b: Str ensures !StrLess(a, a) && (StrLess(a, b) || StrLess(b, a) || a == b) {
      StrTrichotomy(a, b);
    }
    forall a: Str, b: Str, c: Str | StrLess(a, b) && StrLess(b, c) ensures StrLess(a, c) {
      StrTransitive(a, b, c);
    }
  }
}
