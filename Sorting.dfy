/** SQL's ORDER BY, modelled as a stable insertion sort under a caller-given
    "comes no later than" relation. SQL leaves the order of ties open; the
    model keeps the input order among them. */
module Sorting {

  ghost predicate Total<T(!new)>(le: (T, T) -> bool) {
    forall a, b :: le(a, b) || le(b, a)
  }

  ghost predicate Transitive<T(!new)>(le: (T, T) -> bool) {
    forall a, b, c :: le(a, b) && le(b, c) ==> le(a, c)
  }

  /** Every element comes no later than its successor. */
  ghost predicate Sorted<T>(s: seq<T>, le: (T, T) -> bool) {
    forall i :: 0 < i < |s| ==> le(s[i - 1], s[i])
  }

  /** Every element comes no later than every element after it. */
  ghost predicate SortedPairwise<T>(s: seq<T>, le: (T, T) -> bool) {
    forall i, j :: 0 <= i < j < |s| ==> le(s[i], s[j])
  }

  function Insert<T>(x: T, s: seq<T>, le: (T, T) -> bool): (r: seq<T>)
    ensures multiset(r) == multiset(s) + multiset{x}
    ensures |r| == |s| + 1
  {
    if s == [] then [x]
    else if le(x, s[0]) then [x] + s
    else
      assert s == [s[0]] + s[1..];
      [s[0]] + Insert(x, s[1..], le)
  }

  function SortBy<T>(s: seq<T>, le: (T, T) -> bool): (r: seq<T>)
    ensures multiset(r) == multiset(s)
    ensures |r| == |s|
  {
    if s == [] then []
    else
      assert s == [s[0]] + s[1..];
      Insert(s[0], SortBy(s[1..], le), le)
  }

  lemma {:induction false} InsertHead<T>(x: T, s: seq<T>, le: (T, T) -> bool)
    ensures Insert(x, s, le)[0] == x || (s != [] && Insert(x, s, le)[0] == s[0])
  {
  }

  lemma {:induction false} InsertSorted<T(!new)>(x: T, s: seq<T>, le: (T, T) -> bool)
    requires Total(le) && Sorted(s, le)
    ensures Sorted(Insert(x, s, le), le)
    decreases |s|
  {
    if s != [] && !le(x, s[0]) {
      assert le(s[0], x);
      var t := s[1..];
      assert Sorted(t, le) by {
        forall i | 0 < i < |t| ensures le(t[i - 1], t[i]) { assert t[i - 1] == s[i] && t[i] == s[i + 1]; }
      }
      InsertSorted(x, t, le);
      InsertHead(x, t, le);
      var r := Insert(x, s, le);
      assert r == [s[0]] + Insert(x, t, le);
      forall i | 0 < i < |r| ensures le(r[i - 1], r[i]) {
        if i == 1 {
          if t != [] { assert le(s[0], s[1]); }
        } else {
          assert r[i - 1] == Insert(x, t, le)[i - 2] && r[i] == Insert(x, t, le)[i - 1];
        }
      }
    }
  }

  /** Under a total relation the result is in order. */
  lemma {:induction false} SortBySorted<T(!new)>(s: seq<T>, le: (T, T) -> bool)
    requires Total(le)
    ensures Sorted(SortBy(s, le), le)
    decreases |s|
  {
    if s != [] {
      SortBySorted(s[1..], le);
      InsertSorted(s[0], SortBy(s[1..], le), le);
    }
  }

  /** Under a transitive relation, neighbour order gives order between any two. */
  lemma {:induction false} SortedIsPairwise<T(!new)>(s: seq<T>, le: (T, T) -> bool)
    requires Transitive(le) && Sorted(s, le)
    ensures SortedPairwise(s, le)
  {
    forall i, j | 0 <= i < j < |s| ensures le(s[i], s[j]) {
      var k := i + 1;
      while k < j
        invariant i < k <= j
        invariant le(s[i], s[k])
      {
        assert le(s[k], s[k + 1]);
        k := k + 1;
      }
    }
  }

  /** Membership is kept by sorting. */
  lemma SortByMembers<T>(s: seq<T>, le: (T, T) -> bool, x: T)
    ensures x in SortBy(s, le) <==> x in s
  {
    assert x in multiset(SortBy(s, le)) <==> x in multiset(s);
  }

  /** "LIMIT n" of SQLite: a negative limit means no limit. */
  function Limit<T>(s: seq<T>, n: int): (r: seq<T>)
    ensures n >= 0 ==> |r| <= n
    ensures r <= s
    ensures n < 0 || |s| <= n ==> r == s
    ensures 0 <= n < |s| ==> r == s[..n]
  {
    if n < 0 || |s| <= n then s else s[..n]
  }
}
