/** Ordering of strings as Go compares them, and the in-place sorts the
    tool applies to its lists (`sort.Slice`, `sort.Strings`). Go's `sort`
    is not stable, so a sort is specified only by "sorted" and "a
    permutation of its input". */
module Order {

  /** Go's `a < b` on strings: lexicographic by character. Go compares the
      UTF-8 bytes, which orders valid text exactly as comparing its code
      points does. */
  predicate StrLess(a: string, b: string)
    decreases |a|
  {
    if |a| == 0 then |b| > 0
    else if |b| == 0 then false
    else a[0] < b[0] || (a[0] == b[0] && StrLess(a[1..], b[1..]))
  }

  lemma {:induction false} StrLessIrreflexive(a: string)
    ensures !StrLess(a, a)
    decreases |a|
  {
    if |a| > 0 { StrLessIrreflexive(a[1..]); }
  }

  lemma {:induction false} StrLessTransitive(a: string, b: string, c: string)
    requires StrLess(a, b) && StrLess(b, c)
    ensures StrLess(a, c)
    decreases |a|
  {
    if |a| > 0 && a[0] == b[0] && b[0] == c[0] {
      StrLessTransitive(a[1..], b[1..], c[1..]);
    }
  }

  /** Any two different strings are ordered one way or the other. */
  lemma {:induction false} StrLessTotal(a: string, b: string)
    ensures a == b || StrLess(a, b) || StrLess(b, a)
    decreases |a|
  {
    if |a| > 0 && |b| > 0 && a[0] == b[0] {
      StrLessTotal(a[1..], b[1..]);
      if a[1..] == b[1..] {
        assert a == [a[0]] + a[1..] && b == [b[0]] + b[1..];
      }
    }
  }

  lemma StrLessAsymmetric(a: string, b: string)
    requires StrLess(a, b)
    ensures !StrLess(b, a)
  {
    if StrLess(b, a) {
      StrLessTransitive(a, b, a);
      StrLessIrreflexive(a);
    }
  }

  /** The two sort orders of the project list ("asc" and "desc"). */
  datatype Direction = Ascending | Descending

  /** The order Go's `sort.Slice` establishes with the comparator `<`
      (ascending) or `>` (descending) on keys: `x` may stand before `y`. */
  predicate InOrder(x: string, y: string, d: Direction) {
    match d
    case Ascending => !StrLess(y, x)
    case Descending => !StrLess(x, y)
  }

  /** `le` is a total preorder: every pair is comparable and it is
      transitive. */
  ghost predicate TotalPreorder<T(!new)>(le: (T, T) -> bool) {
    && (forall a, b :: le(a, b) || le(b, a))
    && (forall a, b, c :: le(a, b) && le(b, c) ==> le(a, c))
  }

  ghost predicate Sorted<T>(s: seq<T>, le: (T, T) -> bool) {
    forall i, j :: 0 <= i < j < |s| ==> le(s[i], s[j])
  }

  /** The comparator that orders values by a string key in direction `d`. */
  function ByKey<T>(key: T -> string, d: Direction): (T, T) -> bool {
    (a: T, b: T) => InOrder(key(a), key(b), d)
  }

  lemma ByKeyIsTotalPreorder<T(!new)>(key: T -> string, d: Direction)
    ensures TotalPreorder(ByKey(key, d))
  {
    var le := ByKey(key, d);
    forall a: T, b: T ensures le(a, b) || le(b, a) {
      if StrLess(key(a), key(b)) { StrLessAsymmetric(key(a), key(b)); }
    }
    forall a: T, b: T, c: T | le(a, b) && le(b, c) ensures le(a, c) {
      var x, y, z := key(a), key(b), key(c);
      StrLessTotal(x, y);
      StrLessTotal(y, z);
      if d == Ascending {
        if StrLess(z, x) {
          if x == y { } else if y == z { } else { StrLessTransitive(x, y, z); StrLessAsymmetric(x, z); }
        }
      } else {
        if StrLess(x, z) {
          if x == y { } else if y == z { } else { StrLessTransitive(z, y, x); StrLessAsymmetric(z, x); }
        }
      }
    }
  }

  /** Putting `x` after the elements that may stand before it, and before
      the first that may not, keeps a sorted sequence sorted. */
  lemma InsertedSorted<T(!new)>(s: seq<T>, k: nat, x: T, le: (T, T) -> bool)
    requires TotalPreorder(le) && Sorted(s, le)
    requires k <= |s|
    requires forall j :: 0 <= j < k ==> le(s[j], x)
    requires k < |s| ==> !le(s[k], x)
    ensures Sorted(s[..k] + [x] + s[k..], le)
  {
    var r := s[..k] + [x] + s[k..];
    forall i, j | 0 <= i < j < |r| ensures le(r[i], r[j]) {
      if j < k {
        assert r[i] == s[i] && r[j] == s[j];
      } else if i > k {
        assert r[i] == s[i - 1] && r[j] == s[j - 1];
      } else if i == k {
        assert le(x, s[k]);
        assert r[j] == s[j - 1];
        if j - 1 > k { assert le(s[k], s[j - 1]); }
      } else if j == k {
        assert r[i] == s[i];
      } else {
        assert r[i] == s[i] && r[j] == s[j - 1];
      }
    }
  }

  /** Inserts `x` into the sorted `s` after every element that may stand
      before it. */
  method Insert<T(!new)>(s: seq<T>, x: T, le: (T, T) -> bool) returns (r: seq<T>)
    requires TotalPreorder(le)
    requires Sorted(s, le)
    ensures Sorted(r, le)
    ensures multiset(r) == multiset(s) + multiset{x}
  {
    var k := 0;
    while k < |s| && le(s[k], x)
      invariant 0 <= k <= |s|
      invariant forall j :: 0 <= j < k ==> le(s[j], x)
    {
      k := k + 1;
    }
    InsertedSorted(s, k, x, le);
    r := s[..k] + [x] + s[k..];
    assert s == s[..k] + s[k..];
  }

  /** sort.Slice: an insertion sort that leaves a sorted permutation of
      its input. */
  method SortBy<T(!new)>(s: seq<T>, le: (T, T) -> bool) returns (r: seq<T>)
    requires TotalPreorder(le)
    ensures Sorted(r, le)
    ensures multiset(r) == multiset(s)
  {
    r := [];
    var i := 0;
    while i < |s|
      invariant 0 <= i <= |s|
      invariant Sorted(r, le)
      invariant multiset(r) == multiset(s[..i])
    {
      r := Insert(r, s[i], le);
      assert s[..i + 1] == s[..i] + [s[i]];
      i := i + 1;
    }
    assert s[..|s|] == s;
  }
}
