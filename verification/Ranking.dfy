/** Putting addresses in the order of a key, and taking the first of them. */
module Ranking {
  import opened Sorting

  predicate Ranked(s: seq<string>, rank: map<string, real>) {
    && (forall a | a in s :: a in rank)
    && (forall i, j | 0 <= i < j < |s| :: rank[s[i]] <= rank[s[j]])
  }

  function RankOf(rank: map<string, real>, a: string): real {
    if a in rank then rank[a] else 0.0
  }

  function ByRank(rank: map<string, real>): (leq: (string, string) -> bool)
    ensures TotalOrder(leq)
    ensures forall a, b :: leq(a, b) <==> RankOf(rank, a) <= RankOf(rank, b)
  {
    (a, b) => RankOf(rank, a) <= RankOf(rank, b)
  }

  /** The addresses of a set in the order of their keys; equal keys come in any order. */
  method SortByRank(addrs: set<string>, rank: map<string, real>) returns (s: seq<string>)
    requires addrs <= rank.Keys
    ensures Ranked(s, rank) && Distinct(s) && |s| == |addrs|
    ensures forall a :: a in s <==> a in addrs
  {
    s := [];
    var todo := addrs;
    while todo != {}
      invariant todo <= addrs
      invariant Sorted(s, ByRank(rank)) && multiset(s) == multiset(addrs - todo)
      decreases |todo|
    {
      var a :| a in todo;
      PlacedIsSorted(s, a, ByRank(rank));
      PlacedIsAddition(s, a, ByRank(rank));
      assert addrs - (todo - {a}) == (addrs - todo) + {a};
      s := Placed(s, a, ByRank(rank));
      todo := todo - {a};
    }
    assert addrs - todo == addrs;
    SetBagIsDistinct(s, addrs);
  }

  ghost function ToSet(s: seq<string>): set<string> {
    set a | a in s
  }

  lemma ToSetOneMore(s: seq<string>, a: string)
    ensures ToSet(s + [a]) == ToSet(s) + {a}
  {
  }

  lemma DistinctCount(s: seq<string>)
    requires Distinct(s)
    ensures |ToSet(s)| == |s|
  {
    DistinctIsSet(s);
    assert ToSet(s) == set x | x in s;
  }

  /** The first n of a ranked listing: n of them, and none ranks after one that stays. */
  lemma FirstAreLowest(s: seq<string>, n: nat, rank: map<string, real>)
    requires Ranked(s, rank) && Distinct(s) && n <= |s|
    ensures |ToSet(s[..n])| == n
    ensures forall g, k | g in ToSet(s[..n]) && k in ToSet(s) - ToSet(s[..n]) :: rank[g] <= rank[k]
  {
    DistinctCount(s[..n]);
    forall g, k | g in ToSet(s[..n]) && k in ToSet(s) - ToSet(s[..n]) ensures rank[g] <= rank[k] {
      var i :| 0 <= i < n && s[i] == g;
      assert s == s[..n] + s[n..];
      var j :| 0 <= j < |s[n..]| && s[n..][j] == k;
      assert s[n + j] == k;
    }
  }
}
