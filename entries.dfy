/** The entries of a grouped result and their order. */
module Entries {
  /** One entry of a grouped result: the key, how many rows have it, their
      weights added up, and the label of the first of them. */
  datatype Group<K, L> = Group(key: K, count: nat, total: int, name: L)

  /** The counts of the entries, added up. */
  function CountTotal<K, L>(gs: seq<Group<K, L>>): nat {
    if gs == [] then 0 else gs[0].count + CountTotal(gs[1..])
  }

  predicate KeysAscending<L>(gs: seq<Group<int, L>>) {
    forall i, j :: 0 <= i < j < |gs| ==> gs[i].key < gs[j].key
  }

  lemma ConsKeysAscending<L>(x: Group<int, L>, t: seq<Group<int, L>>)
    requires KeysAscending(t)
    requires t != [] ==> x.key < t[0].key
    ensures KeysAscending([x] + t)
  {
    var r := [x] + t;
    assert r[1..] == t;
    forall i, j | 0 <= i < j < |r| ensures r[i].key < r[j].key {
      assert r[j] == t[j - 1];
      if i > 0 {
        assert r[i] == t[i - 1];
      } else if j > 1 {
        assert t[0].key < t[j - 1].key;
      }
    }
  }

  lemma TailKeysAscending<L>(s: seq<Group<int, L>>)
    requires s != [] && KeysAscending(s)
    ensures KeysAscending(s[1..])
  {
    var t := s[1..];
    forall i, j | 0 <= i < j < |t| ensures t[i].key < t[j].key {
      assert t[i] == s[i + 1] && t[j] == s[j + 1];
    }
  }

  /** Inserting an entry with a new key into entries in ascending key order. */
  function InsertByKey<L>(g: Group<int, L>, s: seq<Group<int, L>>): (r: seq<Group<int, L>>)
    requires KeysAscending(s)
    requires forall i :: 0 <= i < |s| ==> s[i].key != g.key
    ensures |r| == |s| + 1
    ensures r[0].key == if s == [] || g.key < s[0].key then g.key else s[0].key
    ensures KeysAscending(r)
    ensures multiset(r) == multiset(s) + multiset{g}
  {
    if s == [] then
      [g]
    else if g.key < s[0].key then
      ConsKeysAscending(g, s);
      [g] + s
    else
      TailKeysAscending(s);
      var t := InsertByKey(g, s[1..]);
      assert |s| > 1 ==> s[0].key < s[1].key;
      ConsKeysAscending(s[0], t);
      assert s == [s[0]] + s[1..];
      assert multiset(s) == multiset{s[0]} + multiset(s[1..]);
      assert multiset([s[0]] + t) == multiset{s[0]} + multiset(t);
      [s[0]] + t
  }

  predicate DistinctKeys<K(==), L>(gs: seq<Group<K, L>>) {
    forall i, j :: 0 <= i < j < |gs| ==> gs[i].key != gs[j].key
  }

  /** `.sort((a, b) => a.month.localeCompare(b.month))` on entries whose keys
      are distinct: the same entries in ascending key order. The "YYYY-MM" month
      strings are modelled as integer month numbers, which compare the same way. */
  function SortByKey<L>(s: seq<Group<int, L>>): (r: seq<Group<int, L>>)
    requires DistinctKeys(s)
    ensures KeysAscending(r)
    ensures multiset(r) == multiset(s)
  {
    if s == [] then []
    else
      var t := SortByKey(s[1..]);
      RestAvoidsHead(s, t);
      assert s == [s[0]] + s[1..];
      InsertByKey(s[0], t)
  }

  /** Insertion adds the new entry's count to the total. */
  lemma {:induction false} InsertCountTotal<L>(g: Group<int, L>, s: seq<Group<int, L>>)
    requires KeysAscending(s)
    requires forall i :: 0 <= i < |s| ==> s[i].key != g.key
    ensures CountTotal(InsertByKey(g, s)) == g.count + CountTotal(s)
  {
    if s != [] && g.key >= s[0].key {
      InsertCountTotal(g, s[1..]);
      var t := InsertByKey(g, s[1..]);
      assert ([s[0]] + t)[1..] == t;
    } else {
      assert ([g] + s)[1..] == s;
    }
  }

  /** Sorting keeps the count total. */
  lemma {:induction false} SortCountTotal<L>(s: seq<Group<int, L>>)
    requires DistinctKeys(s)
    ensures CountTotal(SortByKey(s)) == CountTotal(s)
  {
    if s != [] {
      assert DistinctKeys(s[1..]);
      SortCountTotal(s[1..]);
      var t := SortByKey(s[1..]);
      SortedRestAvoidsHead(s);
      assert SortByKey(s) == InsertByKey(s[0], t);
      InsertCountTotal(s[0], t);
    }
  }

  /** A permutation of the tail of entries with distinct keys holds no entry
      with the head's key. */
  lemma RestAvoidsHead<L>(s: seq<Group<int, L>>, t: seq<Group<int, L>>)
    requires s != [] && DistinctKeys(s) && multiset(t) == multiset(s[1..])
    ensures forall i :: 0 <= i < |t| ==> t[i].key != s[0].key
  {
    forall i | 0 <= i < |t| ensures t[i].key != s[0].key {
      assert t[i] in multiset(s[1..]);
      var j :| 0 <= j < |s[1..]| && s[1..][j] == t[i];
      assert s[j + 1] == t[i];
    }
  }

  /** The sorted tail holds no entry with the head's key. */
  lemma SortedRestAvoidsHead<L>(s: seq<Group<int, L>>)
    requires s != [] && DistinctKeys(s)
    ensures forall i :: 0 <= i < |SortByKey(s[1..])| ==> SortByKey(s[1..])[i].key != s[0].key
  {
    RestAvoidsHead(s, SortByKey(s[1..]));
  }
}
