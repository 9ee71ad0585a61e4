/** Sequence helpers shared by several source files: `filter(p).length`,
    `Array.from(new Set(xs))` and a numeric `sort((a, b) => a - b)`. */
module Seqs {

  /** `s.filter(p).length`. */
  function CountWhere<T>(s: seq<T>, p: T -> bool): (n: nat)
    ensures n <= |s|
    ensures n == 0 <==> forall i :: 0 <= i < |s| ==> !p(s[i])
    ensures n == |s| <==> forall i :: 0 <= i < |s| ==> p(s[i])
  {
    if s == [] then 0
    else CountWhere(s[..|s| - 1], p) + (if p(s[|s| - 1]) then 1 else 0)
  }

  lemma CountWhereAppend<T>(s: seq<T>, x: T, p: T -> bool)
    ensures CountWhere(s + [x], p) == CountWhere(s, p) + (if p(x) then 1 else 0)
  {
    assert (s + [x])[..|s|] == s;
  }

  /** Counting two predicates that never hold together counts their disjunction. */
  lemma {:induction false} CountWhereDisjoint<T>(s: seq<T>, p: T -> bool, q: T -> bool, pq: T -> bool)
    requires forall x :: !(p(x) && q(x))
    requires forall x :: pq(x) == (p(x) || q(x))
    ensures CountWhere(s, p) + CountWhere(s, q) == CountWhere(s, pq)
  {
    if s != [] {
      CountWhereDisjoint(s[..|s| - 1], p, q, pq);
    }
  }

  predicate StrictlyAscending(s: seq<int>) {
    forall i, j :: 0 <= i < j < |s| ==> s[i] < s[j]
  }

  predicate Ascending(s: seq<int>) {
    forall i, j :: 0 <= i < j < |s| ==> s[i] <= s[j]
  }

  predicate Distinct<T(==)>(s: seq<T>) {
    forall i, j :: 0 <= i < j < |s| ==> s[i] != s[j]
  }

  lemma AscendingCons(h: int, t: seq<int>)
    requires Ascending(t)
    requires t != [] ==> h <= t[0]
    ensures Ascending([h] + t)
  {
    forall i, j | 0 <= i < j < |t| + 1 ensures ([h] + t)[i] <= ([h] + t)[j] {
      if i == 0 && j > 1 { assert t[0] <= t[j - 1]; }
    }
  }

  /** Inserting `x` into an ascending sequence. */
  function Insert(x: int, s: seq<int>): (r: seq<int>)
    requires Ascending(s)
    ensures |r| == |s| + 1
    ensures r[0] == if s == [] || x <= s[0] then x else s[0]
    ensures Ascending(r)
    ensures multiset(r) == multiset(s) + multiset{x}
  {
    if s == [] then [x]
    else if x <= s[0] then AscendingCons(x, s); [x] + s
    else
      assert s == [s[0]] + s[1..];
      var t := Insert(x, s[1..]);
      AscendingCons(s[0], t);
      [s[0]] + t
  }

  /** `xs.sort((a, b) => a - b)`: ascending, and a permutation of its input. */
  function SortAsc(s: seq<int>): (r: seq<int>)
    ensures Ascending(r)
    ensures multiset(r) == multiset(s)
  {
    if s == [] then []
    else
      assert s == [s[0]] + s[1..];
      Insert(s[0], SortAsc(s[1..]))
  }

  /** `Array.from(new Set(s))`: every element of `s` exactly once. The order is
      not stated here; the one caller sorts the result next. */
  function Dedup<T(==)>(s: seq<T>): (r: seq<T>)
    ensures Distinct(r)
    ensures (set x | x in r) == (set x | x in s)
    ensures |r| <= |s|
  {
    if s == [] then []
    else
      var d := Dedup(s[..|s| - 1]);
      assert s == s[..|s| - 1] + [s[|s| - 1]];
      var y, init := s[|s| - 1], s[..|s| - 1];
      assert (set x | x in s) == (set x | x in init) + {y};
      if y in d then d
      else
        assert (set x | x in d + [y]) == (set x | x in d) + {y};
        d + [y]
  }

  /** An ascending sequence without repeated elements is strictly ascending. */
  lemma AscendingDistinct(s: seq<int>)
    requires Ascending(s) && Distinct(s)
    ensures StrictlyAscending(s)
  {
  }
  /** An ascending permutation of two different values puts the smaller first. */
  lemma SortedPair(d: seq<int>, u: seq<int>)
    requires |d| == 2 && d[0] != d[1]
    requires Ascending(u) && multiset(u) == multiset(d)
    ensures u == (if d[0] < d[1] then [d[0], d[1]] else [d[1], d[0]])
  {
    assert |u| == 2 by { assert |multiset(u)| == |multiset(d)|; }
    assert d == [d[0]] + [d[1]];
    assert u == [u[0]] + [u[1]];
    assert multiset(u) == multiset{u[0], u[1]};
    assert multiset(d) == multiset{d[0], d[1]};
    assert u[0] in multiset(d) && u[1] in multiset(d);
  }

  /** A sorted permutation of one value is that value. */
  lemma SortedSingle(x: int, u: seq<int>)
    requires multiset(u) == multiset{x}
    ensures u == [x]
  {
    assert |u| == 1 by { assert |multiset(u)| == 1; }
    assert u[0] in multiset(u);
  }

  /** `s.filter((y) => y !== x)`. */
  function RemoveAll(s: seq<int>, x: int): (r: seq<int>)
    ensures forall y :: y in r <==> y in s && y != x
    ensures x !in s ==> r == s
    ensures multiset(r) == multiset(s)[x := 0]
  {
    if s == [] then []
    else
      assert s == [s[0]] + s[1..];
      assert multiset(s) == multiset{s[0]} + multiset(s[1..]);
      (if s[0] == x then [] else [s[0]]) + RemoveAll(s[1..], x)
  }
}
