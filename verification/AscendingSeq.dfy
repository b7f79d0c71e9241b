/** Strictly ascending sequences: what `sort_unstable` followed by `dedup` leaves, what
    binary search needs, and what insertion and removal at the found place keep. */
module AscendingSeq {

  ghost predicate TotalOrder<T(!new)>(less: (T, T) -> bool) {
    && (forall x :: !less(x, x))
    && (forall x, y :: x == y || less(x, y) || less(y, x))
    && (forall x, y, z :: less(x, y) && less(y, z) ==> less(x, z))
  }

  ghost predicate Ascending<T>(s: seq<T>, less: (T, T) -> bool) {
    forall i, j | 0 <= i < j < |s| :: less(s[i], s[j])
  }

  // Where x is, or where it belongs.
  ghost predicate Place<T>(s: seq<T>, less: (T, T) -> bool, x: T, found: bool, at: int) {
    && 0 <= at <= |s|
    && (found ==> at < |s| && s[at] == x)
    && (!found ==> x !in s)
    && (forall j | 0 <= j < at :: less(s[j], x))
    && (!found ==> forall j | at <= j < |s| :: less(x, s[j]))
  }

  method BinarySearch<T(!new, ==)>(s: seq<T>, less: (T, T) -> bool, x: T) returns (found: bool, at: nat)
    requires TotalOrder(less) && Ascending(s, less)
    ensures Place(s, less, x, found, at)
  {
    var lo, hi := 0, |s|;
    while lo < hi
      invariant 0 <= lo <= hi <= |s|
      invariant forall j | 0 <= j < lo :: less(s[j], x)
      invariant forall j | hi <= j < |s| :: less(x, s[j])
    {
      var mid := (lo + hi) / 2;
      if s[mid] == x {
        return true, mid;
      } else if less(s[mid], x) {
        lo := mid + 1;
      } else {
        hi := mid;
      }
    }
    assert forall j | 0 <= j < |s| :: s[j] != x;
    return false, lo;
  }

  function InsertAt<T(!new)>(s: seq<T>, at: nat, x: T): (r: seq<T>)
    requires at <= |s|
    ensures forall y :: y in r <==> y == x || y in s
  {
    assert s == s[..at] + s[at..];
    s[..at] + [x] + s[at..]
  }

  function RemoveAt<T>(s: seq<T>, at: nat): seq<T>
    requires at < |s|
  {
    s[..at] + s[at + 1..]
  }

  lemma {:induction false} InsertKeepsOrder<T(!new)>(s: seq<T>, less: (T, T) -> bool, x: T, at: nat)
    requires TotalOrder(less) && Ascending(s, less) && Place(s, less, x, false, at)
    ensures Ascending(InsertAt(s, at, x), less)
  {
    var r := InsertAt(s, at, x);
    assert forall i | 0 <= i < |r| :: r[i] == if i < at then s[i] else if i == at then x else s[i - 1];
  }

  lemma {:induction false} RemoveKeepsOrder<T(!new)>(s: seq<T>, less: (T, T) -> bool, at: nat)
    requires TotalOrder(less) && Ascending(s, less) && at < |s|
    ensures Ascending(RemoveAt(s, at), less)
    ensures forall y :: y in RemoveAt(s, at) <==> y in s && y != s[at]
  {
    var r := RemoveAt(s, at);
    assert forall i | 0 <= i < |r| :: r[i] == if i < at then s[i] else s[i + 1];
    forall y | y in s && y != s[at] ensures y in r {
      var i :| 0 <= i < |s| && s[i] == y;
      assert r[if i < at then i else i - 1] == y;
    }
    forall y | y in r ensures y in s && y != s[at] {
      var i :| 0 <= i < |r| && r[i] == y;
      assert less(s[i], s[at]) || less(s[at], s[i + 1]);
    }
  }

  // sort_unstable, then dedup.
  method SortDedup<T(!new, ==)>(s: seq<T>, less: (T, T) -> bool) returns (r: seq<T>)
    requires TotalOrder(less)
    ensures Ascending(r, less) && forall x :: x in r <==> x in s
  {
    r := [];
    for i := 0 to |s|
      invariant Ascending(r, less) && forall x :: x in r <==> x in s[..i]
    {
      var found, at := BinarySearch(r, less, s[i]);
      assert s[..i + 1] == s[..i] + [s[i]];
      if !found {
        InsertKeepsOrder(r, less, s[i], at);
        r := InsertAt(r, at, s[i]);
      }
    }
    assert s[..|s|] == s;
  }

  lemma {:induction false} HeadLeast<T>(s: seq<T>, less: (T, T) -> bool, x: T)
    requires Ascending(s, less) && x in s
    ensures x == s[0] || less(s[0], x)
  {
  }

  // That result is the only possible one: the order and the elements fix the sequence.
  lemma {:induction false} AscendingUnique<T(!new)>(a: seq<T>, b: seq<T>, less: (T, T) -> bool)
    requires TotalOrder(less) && Ascending(a, less) && Ascending(b, less)
    requires forall x :: x in a <==> x in b
    ensures a == b
  {
    assert a != [] ==> a[0] in b;
    assert b != [] ==> b[0] in a;
    if a != [] && b != [] {
      HeadLeast(a, less, b[0]);
      HeadLeast(b, less, a[0]);
      assert a[0] == b[0];
      var a', b' := a[1..], b[1..];
      forall x ensures x in a' <==> x in b' {
        assert a == [a[0]] + a' && b == [b[0]] + b';
        assert (x in a <==> x == a[0] || x in a') && (x in b <==> x == b[0] || x in b');
        assert a[0] !in a' && b[0] !in b';
      }
      AscendingUnique(a', b', less);
    }
  }
}
