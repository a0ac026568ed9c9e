/** Insertion sort over any total preorder: stable, and with one result if the order tells all elements apart. */
module Sorting {

  ghost predicate TotalOrder<T(!new)>(leq: (T, T) -> bool) {
    && (forall a, b :: leq(a, b) || leq(b, a))
    && (forall a, b, c :: leq(a, b) && leq(b, c) ==> leq(a, c))
  }

  predicate Sorted<T>(s: seq<T>, leq: (T, T) -> bool) {
    forall i, j | 0 <= i < j < |s| :: leq(s[i], s[j])
  }

  predicate Distinct<T(==)>(s: seq<T>) {
    forall i, j | 0 <= i < j < |s| :: s[i] != s[j]
  }

  /** Puts p into its place, after everything it is not strictly before. */
  function Placed<T>(s: seq<T>, p: T, leq: (T, T) -> bool): (r: seq<T>)
    ensures |r| == |s| + 1
  {
    if |s| == 0 || leq(s[|s| - 1], p) then s + [p]
    else Placed(s[..|s| - 1], p, leq) + [s[|s| - 1]]
  }

  lemma {:induction false} PlacedIsAddition<T>(s: seq<T>, p: T, leq: (T, T) -> bool)
    ensures multiset(Placed(s, p, leq)) == multiset(s) + multiset{p}
  {
    if |s| > 0 {
      assert s == s[..|s| - 1] + [s[|s| - 1]];
      PlacedIsAddition(s[..|s| - 1], p, leq);
    }
  }

  lemma PlacedMembers<T>(s: seq<T>, p: T, leq: (T, T) -> bool, x: T)
    ensures x in Placed(s, p, leq) <==> x == p || x in s
  {
    PlacedIsAddition(s, p, leq);
    assert x in multiset(Placed(s, p, leq)) <==> x in Placed(s, p, leq);
    assert x in multiset(s) <==> x in s;
  }

  lemma {:induction false} PlacedIsSorted<T(!new)>(s: seq<T>, p: T, leq: (T, T) -> bool)
    requires TotalOrder(leq) && Sorted(s, leq)
    ensures Sorted(Placed(s, p, leq), leq)
  {
    if |s| > 0 {
      var n := |s| - 1;
      if leq(s[n], p) {
        assert forall i | 0 <= i < n :: leq(s[i], s[n]);
      } else {
        PlacedIsSorted(s[..n], p, leq);
        var r := Placed(s[..n], p, leq);
        forall i | 0 <= i < |r| ensures leq(r[i], s[n]) {
          PlacedMembers(s[..n], p, leq, r[i]);
        }
      }
    }
  }

  function InsertionSort<T>(items: seq<T>, leq: (T, T) -> bool): (r: seq<T>)
    ensures |r| == |items|
  {
    if |items| == 0 then []
    else Placed(InsertionSort(items[..|items| - 1], leq), items[|items| - 1], leq)
  }

  lemma {:induction false} SortIsPermutation<T>(items: seq<T>, leq: (T, T) -> bool)
    ensures multiset(InsertionSort(items, leq)) == multiset(items)
  {
    if |items| > 0 {
      SortIsPermutation(items[..|items| - 1], leq);
      PlacedIsAddition(InsertionSort(items[..|items| - 1], leq), items[|items| - 1], leq);
      assert items == items[..|items| - 1] + [items[|items| - 1]];
    }
  }

  lemma {:induction false} SortIsSorted<T(!new)>(items: seq<T>, leq: (T, T) -> bool)
    requires TotalOrder(leq)
    ensures Sorted(InsertionSort(items, leq), leq)
  {
    if |items| > 0 {
      SortIsSorted(items[..|items| - 1], leq);
      PlacedIsSorted(InsertionSort(items[..|items| - 1], leq), items[|items| - 1], leq);
    }
  }

  /** Sorts one element after the other. */
  method Sort<T>(items: seq<T>, leq: (T, T) -> bool) returns (sorted: seq<T>)
    ensures sorted == InsertionSort(items, leq)
  {
    sorted := [];
    for i := 0 to |items|
      invariant sorted == InsertionSort(items[..i], leq)
    {
      assert items[..i + 1][..i] == items[..i];
      sorted := Placed(sorted, items[i], leq);
    }
    assert items[..|items|] == items;
  }

  // -- Bags --

  lemma SameMembers<T(!new)>(a: seq<T>, b: seq<T>)
    requires multiset(a) == multiset(b)
    ensures |a| == |b| && forall p :: p in a <==> p in b
  {
    assert |multiset(a)| == |a| && |multiset(b)| == |b|;
    forall p ensures p in a <==> p in b {
      assert p in multiset(a) <==> p in a;
      assert p in multiset(b) <==> p in b;
    }
  }

  lemma BagOfFront<T>(s: seq<T>)
    requires |s| > 0
    ensures multiset(s[..|s| - 1]) == multiset(s) - multiset{s[|s| - 1]}
    ensures s == s[..|s| - 1] + [s[|s| - 1]]
  {
    assert s == s[..|s| - 1] + [s[|s| - 1]];
  }

  lemma {:induction false} DistinctIsSet<T>(s: seq<T>)
    requires Distinct(s)
    ensures multiset(s) == multiset(set x | x in s) && |set x | x in s| == |s|
  {
    if |s| == 0 {
      assert (set x | x in s) == {};
    } else {
      var front, last := s[..|s| - 1], s[|s| - 1];
      DistinctIsSet(front);
      BagOfFront(s);
      assert (set x | x in s) == (set x | x in front) + {last};
      assert last !in front;
    }
  }

  lemma SetBagIsDistinct<T(!new)>(s: seq<T>, x: set<T>)
    requires multiset(s) == multiset(x)
    ensures Distinct(s) && |s| == |x| && forall a :: a in s <==> a in x
  {
    assert |multiset(s)| == |s|;
    forall a ensures a in s <==> a in x {
      assert a in s <==> a in multiset(s);
    }
    forall i, j | 0 <= i < j < |s| ensures s[i] != s[j] {
      assert s == s[..j] + [s[j]] + s[j + 1..];
      assert s[i] in s[..j];
      assert multiset(s)[s[j]] <= 1;
    }
  }

  // -- One result --

  ghost predicate Antisymmetric<T(!new)>(leq: (T, T) -> bool) {
    forall a, b :: leq(a, b) && leq(b, a) ==> a == b
  }

  lemma LastIsLargest<T(!new)>(s: seq<T>, p: T, leq: (T, T) -> bool)
    requires TotalOrder(leq) && Sorted(s, leq) && p in s
    ensures leq(p, s[|s| - 1])
  {
    var i :| 0 <= i < |s| && s[i] == p;
    assert i < |s| - 1 ==> leq(s[i], s[|s| - 1]);
    assert leq(p, p);
  }

  lemma LastsAgree<T(!new)>(a: seq<T>, b: seq<T>, leq: (T, T) -> bool)
    requires TotalOrder(leq) && Antisymmetric(leq) && Sorted(a, leq) && Sorted(b, leq) && multiset(a) == multiset(b) && |a| > 0
    ensures |b| == |a| && a[|a| - 1] == b[|a| - 1]
  {
    SameMembers(a, b);
    assert b[|a| - 1] in a && a[|a| - 1] in b;
    LastIsLargest(a, b[|a| - 1], leq);
    LastIsLargest(b, a[|a| - 1], leq);
  }

  lemma {:induction false} SortedIsUnique<T(!new)>(a: seq<T>, b: seq<T>, leq: (T, T) -> bool)
    requires TotalOrder(leq) && Antisymmetric(leq) && Sorted(a, leq) && Sorted(b, leq) && multiset(a) == multiset(b)
    ensures a == b
    decreases |a|
  {
    if |a| == 0 {
      assert |multiset(b)| == |b|;
    } else {
      LastsAgree(a, b, leq);
      BagOfFront(a);
      BagOfFront(b);
      SortedIsUnique(a[..|a| - 1], b[..|a| - 1], leq);
    }
  }

  // -- Counting --

  lemma SubsetIsNoLarger<T>(a: set<T>, b: set<T>)
    requires a <= b
    ensures |a| <= |b|
  {
    assert b == a + (b - a);
  }
}
