/** The shuffle: every order comes out for some draws, and for distinct items for one sequence of draws only. */
module Shuffling {
  import opened Sorting

  /** What is drawn for a position is that position or one below it. */
  ghost predicate AtOrBelow(draw: nat -> nat) {
    forall k :: draw(k) <= k
  }

  function Swapped<T>(s: seq<T>, i: nat, j: nat): (r: seq<T>)
    requires i < |s| && j < |s|
    ensures |r| == |s|
  {
    s[i := s[j]][j := s[i]]
  }

  /** Position i and every lower one in turn, down to position 1, is exchanged with the one drawn for it. */
  ghost function Shuffled<T>(s: seq<T>, draw: nat -> nat, i: nat): (r: seq<T>)
    requires AtOrBelow(draw) && (i == 0 || i < |s|)
    ensures |r| == |s|
    decreases i
  {
    if i == 0 then s else Shuffled(Swapped(s, i, draw(i)), draw, i - 1)
  }

  lemma {:induction false} AboveStays<T>(s: seq<T>, draw: nat -> nat, i: nat, k: nat)
    requires AtOrBelow(draw) && (i == 0 || i < |s|) && i < k < |s|
    ensures Shuffled(s, draw, i)[k] == s[k]
    decreases i
  {
    if i > 0 {
      AboveStays(Swapped(s, i, draw(i)), draw, i - 1, k);
    }
  }

  lemma SwappedIsPermutation<T>(s: seq<T>, i: nat, j: nat)
    requires i < |s| && j < |s|
    ensures multiset(Swapped(s, i, j)) == multiset(s) && Swapped(s, i, j)[i] == s[j]
  {
  }

  lemma {:induction false} ShuffledIsPermutation<T>(s: seq<T>, draw: nat -> nat, i: nat)
    requires AtOrBelow(draw) && (i == 0 || i < |s|)
    ensures multiset(Shuffled(s, draw, i)) == multiset(s)
    decreases i
  {
    if i > 0 {
      SwappedIsPermutation(s, i, draw(i));
      ShuffledIsPermutation(Swapped(s, i, draw(i)), draw, i - 1);
    }
  }

  lemma {:induction false} OnlyTheseDrawsMatter<T>(s: seq<T>, b: nat -> nat, d: nat -> nat, i: nat)
    requires AtOrBelow(b) && AtOrBelow(d) && (i == 0 || i < |s|)
    requires forall k | 1 <= k <= i :: b(k) == d(k)
    ensures Shuffled(s, b, i) == Shuffled(s, d, i)
    decreases i
  {
    if i > 0 {
      OnlyTheseDrawsMatter(Swapped(s, i, b(i)), b, d, i - 1);
    }
  }

  /** Once the right item is at the end, the rest still has to be put in order. */
  lemma PutLast<T>(s: seq<T>, goal: seq<T>, j: nat) returns (front: seq<T>)
    requires |s| == |goal| && j < |s| && s[j] == goal[|s| - 1] && multiset(s) == multiset(goal)
    ensures |front| == |s| - 1 && Swapped(s, |s| - 1, j) == front + [goal[|s| - 1]]
    ensures multiset(front) == multiset(goal[..|s| - 1])
  {
    SwappedIsPermutation(s, |s| - 1, j);
    front := SameFronts(Swapped(s, |s| - 1, j), goal);
  }

  lemma SameFronts<T>(a: seq<T>, b: seq<T>) returns (front: seq<T>)
    requires |a| > 0 && |b| > 0 && multiset(a) == multiset(b) && a[|a| - 1] == b[|b| - 1]
    ensures a == front + [a[|a| - 1]] && multiset(front) == multiset(b[..|b| - 1])
  {
    BagOfFront(a);
    BagOfFront(b);
    front := a[..|a| - 1];
  }

  lemma Member<T>(s: seq<T>, goal: seq<T>) returns (j: nat)
    requires |s| == |goal| > 0 && multiset(s) == multiset(goal)
    ensures j < |s| && s[j] == goal[|s| - 1]
  {
    assert goal[|s| - 1] in multiset(goal);
    j :| j < |s| && s[j] == goal[|s| - 1];
  }

  lemma {:induction false} ShuffledFront<T>(s: seq<T>, x: T, draw: nat -> nat, i: nat)
    requires AtOrBelow(draw) && (i == 0 || i < |s|)
    ensures Shuffled(s + [x], draw, i) == Shuffled(s, draw, i) + [x]
    decreases i
  {
    if i > 0 {
      ShuffledFront(Swapped(s, i, draw(i)), x, draw, i - 1);
      assert Swapped(s + [x], i, draw(i)) == Swapped(s, i, draw(i)) + [x];
    }
  }

  /** The position that the whole shuffle starts from. */
  function Top<T>(s: seq<T>): nat {
    if |s| == 0 then 0 else |s| - 1
  }

  /** Any rearrangement of the items comes out for some draws. */
  lemma {:induction false} EveryOrderIsPossible<T>(s: seq<T>, goal: seq<T>) returns (draw: nat -> nat)
    requires multiset(s) == multiset(goal)
    ensures AtOrBelow(draw) && Shuffled(s, draw, Top(s)) == goal
    decreases |s|
  {
    SameSize(s, goal);
    if |s| <= 1 {
      draw := _ => 0;
      if |s| == 1 {
        var j := Member(s, goal);
      }
    } else {
      var n := |s| - 1;
      var j := Member(s, goal);
      var front := PutLast(s, goal, j);
      var rest := EveryOrderIsPossible(front, goal[..n]);
      draw := k => if k == n then j else rest(k);
      assert goal[..n] + [goal[n]] == goal;
      Assembled(front, goal[n], goal, draw, rest);
    }
  }

  lemma SameSize<T>(s: seq<T>, goal: seq<T>)
    requires multiset(s) == multiset(goal)
    ensures |s| == |goal|
  {
    assert |multiset(s)| == |s| && |multiset(goal)| == |goal|;
  }

  lemma Assembled<T>(front: seq<T>, x: T, goal: seq<T>, draw: nat -> nat, rest: nat -> nat)
    requires |front| > 0 && AtOrBelow(draw) && AtOrBelow(rest)
    requires forall k | k != |front| :: draw(k) == rest(k)
    requires Shuffled(front, rest, |front| - 1) + [x] == goal
    ensures Shuffled(front + [x], draw, |front| - 1) == goal
  {
    ShuffledFront(front, x, draw, |front| - 1);
    OnlyTheseDrawsMatter(front, draw, rest, |front| - 1);
  }

  /** Different draws give different orders: with draws that are uniform, so is the order. */
  lemma {:induction false} OneDrawPerOrder<T>(s: seq<T>, b: nat -> nat, d: nat -> nat, i: nat, k: nat)
    requires AtOrBelow(b) && AtOrBelow(d) && (i == 0 || i < |s|) && Distinct(s)
    requires Shuffled(s, b, i) == Shuffled(s, d, i) && 1 <= k <= i
    ensures b(k) == d(k)
    decreases i
  {
    var x, y := b(i), d(i);
    AboveStays(Swapped(s, i, x), b, i - 1, i);
    AboveStays(Swapped(s, i, y), d, i - 1, i);
    assert s[x] == s[y];
    if k < i {
      SwappedIsDistinct(s, i, x);
      OneDrawPerOrder(Swapped(s, i, x), b, d, i - 1, k);
    }
  }

  lemma SwappedIsDistinct<T>(s: seq<T>, i: nat, j: nat)
    requires i < |s| && j < |s| && Distinct(s)
    ensures Distinct(Swapped(s, i, j))
  {
  }

  /** Exchanges every position with a drawn one at or below it. */
  method Shuffle<T>(items: seq<T>, draw: nat -> nat) returns (out: seq<T>)
    requires AtOrBelow(draw)
    ensures out == Shuffled(items, draw, Top(items))
    ensures multiset(out) == multiset(items) && |out| == |items|
  {
    out := items;
    var i := |out| - 1;
    while i > 0
      invariant |out| == |items| && -1 <= i < |out|
      invariant Shuffled(out, draw, if i < 0 then 0 else i) == Shuffled(items, draw, Top(items))
    {
      var j := draw(i);
      out := Swapped(out, i, j);
      i := i - 1;
    }
    ShuffledIsPermutation(items, draw, Top(items));
  }
}
