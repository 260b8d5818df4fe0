/** Shared vocabulary of the model: optional values, results, Python-style
    truthiness of optional strings, SQLite's ordering of TEXT values, and a
    signed sum over a sequence that every ledger figure is built from. */
module Common {

  datatype Option<+T> = None | Some(value: T)

  datatype Result<+R, +E> = Ok(value: R) | Err(error: E)

  /** Python truthiness of a nullable text value: None and "" are falsy. */
  predicate Truthy(s: Option<string>) {
    s.Some? && s.value != ""
  }

  /** `s or default` in Python, for a nullable text value. */
  function OrElse(s: Option<string>, default: string): (r: string)
    ensures Truthy(s) ==> r == s.value
    ensures !Truthy(s) ==> r == default
  {
    if Truthy(s) then s.value else default
  }

  /** `n or 0` in Python, for a nullable number. */
  function OrZero(n: Option<int>): (r: int)
    ensures n.Some? ==> r == n.value
    ensures n.None? ==> r == 0
  {
    if n.Some? then n.value else 0
  }

  // ---------------------------------------------------------------------
  // SQLite compares TEXT values with the BINARY collation: byte by byte on
  // their UTF-8 encoding, which orders strings exactly as comparing their
  // code points one by one does, a proper prefix coming first.

  predicate LexLe(a: string, b: string)
    decreases |a|
  {
    if a == [] then true
    else if b == [] then false
    else if a[0] != b[0] then a[0] < b[0]
    else LexLe(a[1..], b[1..])
  }

  lemma {:induction false} LexLeRefl(a: string)
    ensures LexLe(a, a)
    decreases |a|
  {
    if a != [] { LexLeRefl(a[1..]); }
  }

  lemma {:induction false} LexLeTotal(a: string, b: string)
    ensures LexLe(a, b) || LexLe(b, a)
    decreases |a|
  {
    if a != [] && b != [] && a[0] == b[0] { LexLeTotal(a[1..], b[1..]); }
  }

  lemma {:induction false} LexLeAntisym(a: string, b: string)
    requires LexLe(a, b) && LexLe(b, a)
    ensures a == b
    decreases |a|
  {
    if a != [] && b != [] {
      LexLeAntisym(a[1..], b[1..]);
      assert a == [a[0]] + a[1..] && b == [b[0]] + b[1..];
    }
  }

  lemma {:induction false} LexLeTrans(a: string, b: string, c: string)
    requires LexLe(a, b) && LexLe(b, c)
    ensures LexLe(a, c)
    decreases |a|
  {
    if a != [] && b != [] && c != [] && a[0] == b[0] && b[0] == c[0] {
      LexLeTrans(a[1..], b[1..], c[1..]);
    }
  }

  // ---------------------------------------------------------------------
  // Sums over a sequence of rows, as SQL's COALESCE(SUM(...), 0) and
  // Python's running totals compute them.

  function SumBy<T>(s: seq<T>, f: T -> int): int
  {
    if s == [] then 0 else SumBy(s[..|s| - 1], f) + f(s[|s| - 1])
  }

  lemma {:induction false} SumByAppend<T>(s: seq<T>, t: seq<T>, f: T -> int)
    ensures SumBy(s + t, f) == SumBy(s, f) + SumBy(t, f)
    decreases |t|
  {
    if t == [] {
      assert s + t == s;
    } else {
      var n := |t| - 1;
      assert (s + t)[..|s + t| - 1] == s + t[..n];
      SumByAppend(s, t[..n], f);
    }
  }

  lemma SumBySingle<T>(x: T, f: T -> int)
    ensures SumBy([x], f) == f(x)
  {
    assert [x][..0] == [];
  }

  /** A sum does not depend on the order of the rows. */
  lemma {:induction false} SumByPermutation<T>(s: seq<T>, t: seq<T>, f: T -> int)
    requires multiset(s) == multiset(t)
    ensures SumBy(s, f) == SumBy(t, f)
    decreases |s|
  {
    if s == [] {
      assert t == [] by { assert |multiset(t)| == 0; }
    } else {
      var n := |s| - 1;
      var x := s[n];
      assert s == s[..n] + [x];
      assert x in multiset(t);
      var j :| 0 <= j < |t| && t[j] == x;
      var rest := t[..j] + t[j + 1..];
      assert t == t[..j] + [x] + t[j + 1..];
      assert multiset(t) == multiset(rest) + multiset{x};
      assert multiset(s) == multiset(s[..n]) + multiset{x};
      assert multiset(s[..n]) == multiset(s) - multiset{x} == multiset(rest);
      SumByPermutation(s[..n], rest, f);
      SumByAppend(t[..j] + [x], t[j + 1..], f);
      SumByAppend(t[..j], [x], f);
      SumByAppend(t[..j], t[j + 1..], f);
      SumBySingle(x, f);
    }
  }

  /** Summands that agree on every row give the same sum. */
  lemma {:induction false} SumByCongruent<T>(s: seq<T>, f: T -> int, g: T -> int)
    requires forall x :: x in s ==> f(x) == g(x)
    ensures SumBy(s, f) == SumBy(s, g)
    decreases |s|
  {
    if s != [] { SumByCongruent(s[..|s| - 1], f, g); }
  }

  /** Summands that are pointwise no larger give a sum that is no larger. */
  lemma {:induction false} SumByMonotone<T>(s: seq<T>, f: T -> int, g: T -> int)
    requires forall x :: x in s ==> f(x) <= g(x)
    ensures SumBy(s, f) <= SumBy(s, g)
    decreases |s|
  {
    if s != [] { SumByMonotone(s[..|s| - 1], f, g); }
  }

  /** The sum of a difference is the difference of the sums. */
  lemma {:induction false} SumByDifference<T>(s: seq<T>, f: T -> int, g: T -> int, h: T -> int)
    requires forall x :: x in s ==> f(x) == g(x) - h(x)
    ensures SumBy(s, f) == SumBy(s, g) - SumBy(s, h)
    decreases |s|
  {
    if s != [] { SumByDifference(s[..|s| - 1], f, g, h); }
  }

  /** The sum of a sum is the sum of the sums. */
  lemma {:induction false} SumByPlus<T>(s: seq<T>, f: T -> int, g: T -> int, h: T -> int)
    requires forall x :: x in s ==> f(x) == g(x) + h(x)
    ensures SumBy(s, f) == SumBy(s, g) + SumBy(s, h)
    decreases |s|
  {
    if s != [] { SumByPlus(s[..|s| - 1], f, g, h); }
  }

  /** Rows on which the summand is zero contribute nothing. */
  lemma {:induction false} SumByZero<T>(s: seq<T>, f: T -> int)
    requires forall x :: x in s ==> f(x) == 0
    ensures SumBy(s, f) == 0
    decreases |s|
  {
    if s != [] { SumByZero(s[..|s| - 1], f); }
  }

  /** `keep` restricted to the rows satisfying `p`, in their order. */
  function Filter<T>(s: seq<T>, p: T -> bool): (r: seq<T>)
    ensures |r| <= |s|
  {
    if s == [] then []
    else Filter(s[..|s| - 1], p) + (if p(s[|s| - 1]) then [s[|s| - 1]] else [])
  }

  lemma {:induction false} FilterMembers<T>(s: seq<T>, p: T -> bool)
    ensures forall x :: x in Filter(s, p) <==> x in s && p(x)
    decreases |s|
  {
    if s != [] {
      FilterMembers(s[..|s| - 1], p);
      assert s == s[..|s| - 1] + [s[|s| - 1]];
    }
  }

  lemma {:induction false} FilterAppend<T>(s: seq<T>, t: seq<T>, p: T -> bool)
    ensures Filter(s + t, p) == Filter(s, p) + Filter(t, p)
    decreases |t|
  {
    if t == [] {
      assert s + t == s;
    } else {
      var n := |t| - 1;
      assert (s + t)[..|s + t| - 1] == s + t[..n];
      FilterAppend(s, t[..n], p);
    }
  }

  /** Summing over the rows `p` keeps equals summing a summand that is zero
      off `p`. */
  lemma {:induction false} SumByFilter<T>(s: seq<T>, p: T -> bool, f: T -> int, g: T -> int)
    requires forall x :: x in s ==> g(x) == (if p(x) then f(x) else 0)
    ensures SumBy(Filter(s, p), f) == SumBy(s, g)
    decreases |s|
  {
    if s != [] {
      var n := |s| - 1;
      SumByFilter(s[..n], p, f, g);
      assert s[n] in s;
      if p(s[n]) {
        SumByAppend(Filter(s[..n], p), [s[n]], f);
        SumBySingle(s[n], f);
      } else {
        assert Filter(s, p) == Filter(s[..n], p) + [];
        assert Filter(s, p) == Filter(s[..n], p);
        assert SumBy(s, g) == SumBy(s[..n], g) + g(s[n]);
      }
    }
  }

  /** Predicates that agree on every row keep the same rows. */
  lemma {:induction false} FilterCongruent<T>(s: seq<T>, p: T -> bool, q: T -> bool)
    requires forall x :: x in s ==> p(x) == q(x)
    ensures Filter(s, p) == Filter(s, q)
    decreases |s|
  {
    if s != [] {
      var n := |s| - 1;
      assert forall x :: x in s[..n] ==> x in s;
      FilterCongruent(s[..n], p, q);
      assert s[n] in s;
    }
  }

  /** Extending a prefix by one row extends its filter by that row or by
      nothing. */
  lemma FilterSnoc<T>(s: seq<T>, k: int, p: T -> bool)
    requires 0 <= k < |s|
    ensures Filter(s[..k + 1], p) == Filter(s[..k], p) + (if p(s[k]) then [s[k]] else [])
  {
    assert s[..k + 1][..k] == s[..k];
  }

  lemma SumBySnoc<T>(s: seq<T>, x: T, f: T -> int)
    ensures SumBy(s + [x], f) == SumBy(s, f) + f(x)
  {
    SumByAppend(s, [x], f);
    SumBySingle(x, f);
  }

  /** How many rows satisfy `p`. */
  function Count<T>(s: seq<T>, p: T -> bool): nat {
    |Filter(s, p)|
  }

  lemma CountSnoc<T>(s: seq<T>, k: int, p: T -> bool)
    requires 0 <= k < |s|
    ensures Count(s[..k + 1], p) == Count(s[..k], p) + (if p(s[k]) then 1 else 0)
  {
    FilterSnoc(s, k, p);
  }

  /** The predicate "has key `id`" on rows keyed by `key`. */
  function KeyIs<T>(key: T -> int, id: int): T -> bool {
    (x: T) => key(x) == id
  }

  /** A partition of the rows by a predicate and its negation loses and
      duplicates nothing. */
  lemma {:induction false} FilterComplement<T>(s: seq<T>, p: T -> bool, q: T -> bool)
    requires forall x :: x in s ==> q(x) == !p(x)
    ensures |Filter(s, p)| + |Filter(s, q)| == |s|
    decreases |s|
  {
    if s != [] {
      var n := |s| - 1;
      assert forall x :: x in s[..n] ==> x in s;
      FilterComplement(s[..n], p, q);
      assert s[n] in s;
    }
  }

  /** `[f(x) for x in s]`. */
  function Map<A, B>(s: seq<A>, f: A -> B): (r: seq<B>)
    ensures |r| == |s|
    ensures forall i :: 0 <= i < |s| ==> r[i] == f(s[i])
  {
    seq(|s|, i requires 0 <= i < |s| => f(s[i]))
  }

  lemma MapSnoc<A, B>(s: seq<A>, x: A, f: A -> B)
    ensures Map(s + [x], f) == Map(s, f) + [f(x)]
  {
  }

  lemma {:induction false} SumByMap<A, B>(s: seq<A>, f: A -> B, g: B -> int, h: A -> int)
    requires forall x :: x in s ==> h(x) == g(f(x))
    ensures SumBy(Map(s, f), g) == SumBy(s, h)
    decreases |s|
  {
    if s != [] {
      var n := |s| - 1;
      assert Map(s, f)[..n] == Map(s[..n], f);
      assert forall x :: x in s[..n] ==> x in s;
      SumByMap(s[..n], f, g, h);
      assert s[n] in s;
    }
  }

  /** Summing over the mapped rows that `p` keeps is summing, over the
      original rows, a summand that is zero where `p` drops the image. */
  lemma FilterMapSum<A, B>(s: seq<A>, m: A -> B, p: B -> bool, f: B -> int, h: A -> int)
    requires forall x :: x in s ==> h(x) == if p(m(x)) then f(m(x)) else 0
    ensures SumBy(Filter(Map(s, m), p), f) == SumBy(s, h)
  {
    var g := (y: B) => if p(y) then f(y) else 0;
    SumByFilter(Map(s, m), p, f, g);
    SumByMap(s, m, g, h);
  }

  lemma MulSucc(a: int, n: int)
    ensures a * (n + 1) == a * n + a
  {
  }

  lemma {:induction false} SumByBounded<T>(s: seq<T>, f: T -> int, lo: int, hi: int)
    requires forall x :: x in s ==> lo <= f(x) <= hi
    ensures lo * |s| <= SumBy(s, f) <= hi * |s|
    decreases |s|
  {
    if s != [] {
      var n := |s| - 1;
      assert forall x :: x in s[..n] ==> x in s;
      SumByBounded(s[..n], f, lo, hi);
      assert s[n] in s;
      MulSucc(lo, n);
      MulSucc(hi, n);
    }
  }

  // ---------------------------------------------------------------------
  // Text helpers shared by the display defaults.

  function DigitChar(d: int): char
    requires 0 <= d < 10
  {
    "0123456789"[d]
  }

  /** Python's str() of an integer. */
  function IntToString(n: int): (r: string)
    ensures |r| > 0
    decreases if n < 0 then 1 - n else n
  {
    if n < 0 then "-" + IntToString(-n)
    else if n < 10 then [DigitChar(n)]
    else IntToString(n / 10) + [DigitChar(n % 10)]
  }

  /** `sep.join(parts)` in Python. */
  function Join(parts: seq<string>, sep: string): string
  {
    if parts == [] then ""
    else if |parts| == 1 then parts[0]
    else parts[0] + sep + Join(parts[1..], sep)
  }
}
