/** Sorting as a function. Over a total order the sorted permutation is unique,
    so what the Go and TypeScript library sorts return is this function whatever
    algorithm they use. */
module Sorting {

  ghost predicate TotalPreorder<T(!new)>(le: (T, T) -> bool) {
    && (forall x, y :: le(x, y) || le(y, x))
    && (forall x, y, z :: le(x, y) && le(y, z) ==> le(x, z))
  }

  ghost predicate TotalOrder<T(!new)>(le: (T, T) -> bool) {
    && TotalPreorder(le)
    && (forall x, y :: le(x, y) && le(y, x) ==> x == y)
  }

  ghost predicate Sorted<T>(s: seq<T>, le: (T, T) -> bool) {
    forall i, j :: 0 <= i < j < |s| ==> le(s[i], s[j])
  }

  ghost predicate NoDuplicates<T>(s: seq<T>) {
    forall i, j :: 0 <= i < j < |s| ==> s[i] != s[j]
  }

  function Insert<T>(x: T, s: seq<T>, le: (T, T) -> bool): (r: seq<T>)
    ensures |r| == |s| + 1
  {
    if s == [] || le(x, s[0]) then [x] + s else [s[0]] + Insert(x, s[1..], le)
  }

  function Sort<T>(s: seq<T>, le: (T, T) -> bool): (r: seq<T>)
    ensures |r| == |s|
  {
    if s == [] then [] else Insert(s[0], Sort(s[1..], le), le)
  }

  lemma {:induction false} InsertKeeps<T>(x: T, s: seq<T>, le: (T, T) -> bool)
    ensures multiset(Insert(x, s, le)) == multiset{x} + multiset(s)
  {
    if s != [] && !le(x, s[0]) {
      InsertKeeps(x, s[1..], le);
      assert s == [s[0]] + s[1..];
    }
  }

  lemma {:induction false} InsertSorted<T(!new)>(x: T, s: seq<T>, le: (T, T) -> bool)
    requires TotalPreorder(le) && Sorted(s, le)
    ensures Sorted(Insert(x, s, le), le)
  {
    if s != [] && !le(x, s[0]) {
      InsertSorted(x, s[1..], le);
      var r := Insert(x, s[1..], le);
      InsertKeeps(x, s[1..], le);
      forall k | 0 <= k < |r| ensures le(s[0], r[k]) {
        assert r[k] in multiset(r);
        if r[k] != x {
          assert r[k] in s[1..];
        }
      }
    }
  }

  /** Sort returns a sorted permutation. */
  lemma {:induction false} SortCorrect<T(!new)>(s: seq<T>, le: (T, T) -> bool)
    requires TotalPreorder(le)
    ensures Sorted(Sort(s, le), le)
    ensures multiset(Sort(s, le)) == multiset(s)
  {
    if s != [] {
      SortCorrect(s[1..], le);
      InsertSorted(s[0], Sort(s[1..], le), le);
      InsertKeeps(s[0], Sort(s[1..], le), le);
      assert s == [s[0]] + s[1..];
    }
  }

  /** Sorting neither adds nor loses items, and keeps distinct items distinct. */
  lemma SortMembers<T(!new)>(s: seq<T>, le: (T, T) -> bool)
    requires TotalPreorder(le)
    ensures forall x :: x in Sort(s, le) <==> x in s
    ensures NoDuplicates(s) ==> NoDuplicates(Sort(s, le))
  {
    var t := Sort(s, le);
    SortCorrect(s, le);
    forall x ensures x in t <==> x in s {
      assert x in t <==> x in multiset(t);
      assert x in s <==> x in multiset(s);
    }
    if NoDuplicates(s) {
      NoDuplicatesPermuted(s, t);
    }
  }

  lemma TailCount<T>(s: seq<T>)
    requires s != []
    ensures multiset(s[1..]) == multiset(s) - multiset{s[0]}
  {
    assert s == [s[0]] + s[1..];
  }

  lemma SortedTail<T>(s: seq<T>, le: (T, T) -> bool)
    requires s != [] && Sorted(s, le)
    ensures Sorted(s[1..], le)
  {
  }

  lemma LeastFirst<T(!new)>(a: seq<T>, x: T, le: (T, T) -> bool)
    requires TotalOrder(le) && Sorted(a, le) && x in a
    ensures le(a[0], x)
  {
    assert le(x, x);
  }

  /** Two sorted permutations of the same items are equal. */
  lemma {:induction false} SortedUnique<T(!new)>(a: seq<T>, b: seq<T>, le: (T, T) -> bool)
    requires TotalOrder(le) && Sorted(a, le) && Sorted(b, le)
    requires multiset(a) == multiset(b)
    ensures a == b
  {
    assert |a| == |multiset(a)| == |multiset(b)| == |b|;
    if a != [] {
      assert a[0] in multiset(b) && b[0] in multiset(a);
      LeastFirst(a, b[0], le);
      LeastFirst(b, a[0], le);
      assert a[0] == b[0];
      TailCount(a);
      TailCount(b);
      SortedTail(a, le);
      SortedTail(b, le);
      hide Sorted, TotalOrder;
      SortedUnique(a[1..], b[1..], le);
      assert a == [a[0]] + a[1..] && b == [b[0]] + b[1..];
    }
  }

  /** The order in which items are handed to the sort does not matter. */
  lemma SortForgetsOrder<T(!new)>(a: seq<T>, b: seq<T>, le: (T, T) -> bool)
    requires TotalOrder(le) && multiset(a) == multiset(b)
    ensures Sort(a, le) == Sort(b, le)
  {
    SortCorrect(a, le);
    SortCorrect(b, le);
    SortedUnique(Sort(a, le), Sort(b, le), le);
  }

  lemma {:induction false} NoDuplicatesCount<T>(s: seq<T>)
    ensures NoDuplicates(s) <==> forall x :: x in s ==> multiset(s)[x] == 1
  {
    if s != [] {
      var t := s[1..];
      NoDuplicatesCount(t);
      assert s == [s[0]] + t;
      assert multiset(s) == multiset{s[0]} + multiset(t);
      if NoDuplicates(s) {
        assert s[0] !in t;
        forall x | x in s ensures multiset(s)[x] == 1 {
          if x != s[0] { assert x in t; }
        }
      } else if NoDuplicates(t) {
        assert s[0] in t;
        assert multiset(s)[s[0]] == 2;
      } else {
        var x :| x in t && multiset(t)[x] != 1;
        assert multiset(s)[x] != 1;
      }
    }
  }

  /** A permutation of distinct items is made of distinct items. */
  lemma NoDuplicatesPermuted<T>(a: seq<T>, b: seq<T>)
    requires NoDuplicates(a) && multiset(a) == multiset(b)
    ensures NoDuplicates(b)
  {
    NoDuplicatesCount(a);
    NoDuplicatesCount(b);
    forall x | x in b ensures multiset(b)[x] == 1 {
      assert x in multiset(b);
      assert x in a;
    }
  }

  // ---- sums that do not depend on order ----

  function Sum<T>(s: seq<T>, f: T -> nat): nat {
    if s == [] then 0 else f(s[0]) + Sum(s[1..], f)
  }

  lemma {:induction false} SumAppend<T>(a: seq<T>, b: seq<T>, f: T -> nat)
    ensures Sum(a + b, f) == Sum(a, f) + Sum(b, f)
  {
    if a == [] {
      assert a + b == b;
    } else {
      SumAppend(a[1..], b, f);
      assert (a + b)[1..] == a[1..] + b;
    }
  }

  /** Taking one item out of the middle takes its share out of the sum. */
  lemma Without<T>(s: seq<T>, i: nat, f: T -> nat) returns (rest: seq<T>)
    requires i < |s|
    ensures rest == s[..i] + s[i + 1..]
    ensures multiset(rest) == multiset(s) - multiset{s[i]}
    ensures Sum(s, f) == f(s[i]) + Sum(rest, f)
  {
    rest := s[..i] + s[i + 1..];
    var tail := [s[i]] + s[i + 1..];
    assert s == s[..i] + tail;
    SumAppend(s[..i], tail, f);
    SumAppend(s[..i], s[i + 1..], f);
    assert tail[1..] == s[i + 1..];
  }

  lemma {:induction false} SumPermuted<T>(a: seq<T>, b: seq<T>, f: T -> nat)
    requires multiset(a) == multiset(b)
    ensures Sum(a, f) == Sum(b, f)
  {
    assert |a| == |multiset(a)| == |multiset(b)| == |b|;
    if a != [] {
      assert a[0] in multiset(b);
      var i :| 0 <= i < |b| && b[i] == a[0];
      var rest := Without(b, i, f);
      TailCount(a);
      SumPermuted(a[1..], rest, f);
    }
  }
}
