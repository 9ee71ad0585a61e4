/** The `grouped[key] = ...` pattern of the reporting code: rows are visited in
    order, a row whose key is missing is skipped, the first row of a key creates
    its group, and every row of the key adds one to the group's count and its
    weight to the group's total. Keys are listed in first-appearance order, the
    order `Object.entries` gives for non-numeric keys. */
module Grouping {
  import opened Wrappers
  import opened Seqs
  import opened Entries

  datatype Tally<L> = Tally(count: nat, total: int, name: L)

  /** The distinct keys of `rows`, in first-appearance order. */
  function GroupKeys<T, K(==,!new)>(rows: seq<T>, keyOf: T -> Option<K>): (ks: seq<K>)
    ensures Distinct(ks)
    ensures forall k :: k in ks <==> exists i :: 0 <= i < |rows| && keyOf(rows[i]) == Some(k)
  {
    if rows == [] then []
    else
      var init := rows[..|rows| - 1];
      var ks := GroupKeys(init, keyOf);
      assert forall i :: 0 <= i < |init| ==> init[i] == rows[i];
      match keyOf(rows[|rows| - 1])
      case None => ks
      case Some(k) => if k in ks then ks else ks + [k]
  }

  /** How many rows have key `k`. */
  function CountKey<T, K(==,!new)>(rows: seq<T>, keyOf: T -> Option<K>, k: K): nat {
    if rows == [] then 0
    else CountKey(rows[..|rows| - 1], keyOf, k) + (if keyOf(rows[|rows| - 1]) == Some(k) then 1 else 0)
  }

  /** The weights of the rows with key `k`, added up. */
  function SumKey<T, K(==,!new)>(rows: seq<T>, keyOf: T -> Option<K>, weight: T -> int, k: K): int {
    if rows == [] then 0
    else SumKey(rows[..|rows| - 1], keyOf, weight, k) + (if keyOf(rows[|rows| - 1]) == Some(k) then weight(rows[|rows| - 1]) else 0)
  }

  /** The label of the first row with key `k`. */
  function FirstLabel<T, K(==,!new), L>(rows: seq<T>, keyOf: T -> Option<K>, labelOf: T -> L, k: K): (l: L)
    requires k in GroupKeys(rows, keyOf)
    ensures exists i :: 0 <= i < |rows| && keyOf(rows[i]) == Some(k) && l == labelOf(rows[i])
              && forall j :: 0 <= j < i ==> keyOf(rows[j]) != Some(k)
  {
    var init := rows[..|rows| - 1];
    assert forall i :: 0 <= i < |init| ==> init[i] == rows[i];
    if k in GroupKeys(init, keyOf) then FirstLabel(init, keyOf, labelOf, k)
    else labelOf(rows[|rows| - 1])
  }

  /** How many rows have some key. */
  function Keyed<T, K>(rows: seq<T>, keyOf: T -> Option<K>): nat {
    if rows == [] then 0
    else Keyed(rows[..|rows| - 1], keyOf) + (if keyOf(rows[|rows| - 1]).Some? then 1 else 0)
  }

  function SpecTally<T, K(==,!new), L>(rows: seq<T>, keyOf: T -> Option<K>, weight: T -> int, labelOf: T -> L, k: K): Tally<L>
    requires k in GroupKeys(rows, keyOf)
  {
    Tally(CountKey(rows, keyOf, k), SumKey(rows, keyOf, weight, k), FirstLabel(rows, keyOf, labelOf, k))
  }

  /** What one more row does to the tally of key `k`. */
  lemma TallyStep<T, K(!new), L>(rows: seq<T>, x: T, keyOf: T -> Option<K>, weight: T -> int, labelOf: T -> L, k: K)
    requires k in GroupKeys(rows + [x], keyOf)
    ensures var t := SpecTally(rows + [x], keyOf, weight, labelOf, k);
      if keyOf(x) == Some(k) then
        if k in GroupKeys(rows, keyOf) then
          var t0 := SpecTally(rows, keyOf, weight, labelOf, k);
          t == Tally(t0.count + 1, t0.total + weight(x), t0.name)
        else t == Tally(1, weight(x), labelOf(x))
      else k in GroupKeys(rows, keyOf) && t == SpecTally(rows, keyOf, weight, labelOf, k)
  {
    assert (rows + [x])[..|rows|] == rows;
    if k !in GroupKeys(rows, keyOf) {
      CountKeyAbsent(rows, keyOf, k);
      SumKeyAbsent(rows, keyOf, weight, k);
    }
  }

  lemma {:induction false} SumKeyAbsent<T, K(!new)>(rows: seq<T>, keyOf: T -> Option<K>, weight: T -> int, k: K)
    requires k !in GroupKeys(rows, keyOf)
    ensures SumKey(rows, keyOf, weight, k) == 0
  {
    if rows != [] {
      var init := rows[..|rows| - 1];
      assert forall i :: 0 <= i < |init| ==> init[i] == rows[i];
      SumKeyAbsent(init, keyOf, weight, k);
    }
  }

  /** One step of the `forEach` loop keeps the dictionary equal to the tally
      of the rows visited so far. */
  lemma TallyAdvances<T, K(!new), L>(rows: seq<T>, x: T, keyOf: T -> Option<K>, weight: T -> int, labelOf: T -> L,
                                       keys: seq<K>, tally: map<K, Tally<L>>, keys': seq<K>, tally': map<K, Tally<L>>)
    requires keys == GroupKeys(rows, keyOf)
    requires forall k :: k in tally <==> k in keys
    requires forall k :: k in tally ==> tally[k] == SpecTally(rows, keyOf, weight, labelOf, k)
    requires keyOf(x).None? ==> keys' == keys && tally' == tally
    requires keyOf(x).Some? ==> var k := keyOf(x).value;
      keys' == (if k in tally then keys else keys + [k])
      && tally' == tally[k := if k in tally then Tally(tally[k].count + 1, tally[k].total + weight(x), tally[k].name)
                              else Tally(1, weight(x), labelOf(x))]
    ensures keys' == GroupKeys(rows + [x], keyOf)
    ensures forall k :: k in tally' <==> k in keys'
    ensures forall k :: k in tally' ==> tally'[k] == SpecTally(rows + [x], keyOf, weight, labelOf, k)
  {
    assert (rows + [x])[..|rows|] == rows;
    assert keys' == GroupKeys(rows + [x], keyOf);
    forall k | k in tally' ensures tally'[k] == SpecTally(rows + [x], keyOf, weight, labelOf, k) {
      TallyStep(rows, x, keyOf, weight, labelOf, k);
    }
  }

  /** The `forEach` loop that fills `grouped`. */
  method GroupTally<T, K(==,!new), L>(rows: seq<T>, keyOf: T -> Option<K>, weight: T -> int, labelOf: T -> L)
    returns (keys: seq<K>, tally: map<K, Tally<L>>)
    ensures keys == GroupKeys(rows, keyOf)
    ensures forall k :: k in tally <==> k in keys
    ensures forall k :: k in tally ==> tally[k] == SpecTally(rows, keyOf, weight, labelOf, k)
  {
    keys, tally := [], map[];
    var i := 0;
    while i < |rows|
      invariant 0 <= i <= |rows|
      invariant keys == GroupKeys(rows[..i], keyOf)
      invariant forall k :: k in tally <==> k in keys
      invariant forall k :: k in tally ==> tally[k] == SpecTally(rows[..i], keyOf, weight, labelOf, k)
    {
      var row := rows[i];
      assert rows[..i + 1] == rows[..i] + [row];
      var keys0, tally0 := keys, tally;
      match keyOf(row) {
        case None =>
        case Some(k) =>
          if k !in tally {
            tally := tally[k := Tally(0, 0, labelOf(row))];
            keys := keys + [k];
          }
          tally := tally[k := Tally(tally[k].count + 1, tally[k].total + weight(row), tally[k].name)];
      }
      TallyAdvances(rows[..i], row, keyOf, weight, labelOf, keys0, tally0, keys, tally);
      i := i + 1;
    }
    assert rows[..i] == rows;
  }

  /** ∑ over `ks` of the group counts. */
  function SumCounts<T, K(==,!new)>(ks: seq<K>, rows: seq<T>, keyOf: T -> Option<K>): nat {
    if ks == [] then 0 else CountKey(rows, keyOf, ks[0]) + SumCounts(ks[1..], rows, keyOf)
  }

  lemma {:induction false} SumCountsAppendKey<T, K(!new)>(ks: seq<K>, k: K, rows: seq<T>, keyOf: T -> Option<K>)
    ensures SumCounts(ks + [k], rows, keyOf) == SumCounts(ks, rows, keyOf) + CountKey(rows, keyOf, k)
  {
    if ks != [] {
      assert (ks + [k])[1..] == ks[1..] + [k];
      SumCountsAppendKey(ks[1..], k, rows, keyOf);
    }
  }

  /** Appending a row adds one to exactly the group of its key, if that group is listed. */
  lemma {:induction false} SumCountsAppendRow<T, K(!new)>(ks: seq<K>, rows: seq<T>, x: T, keyOf: T -> Option<K>)
    requires Distinct(ks)
    ensures SumCounts(ks, rows + [x], keyOf)
         == SumCounts(ks, rows, keyOf) + (if keyOf(x).Some? && keyOf(x).value in ks then 1 else 0)
  {
    assert (rows + [x])[..|rows|] == rows;
    if ks != [] {
      assert forall i, j :: 0 <= i < j < |ks[1..]| ==> ks[1..][i] == ks[i + 1] && ks[1..][j] == ks[j + 1];
      SumCountsAppendRow(ks[1..], rows, x, keyOf);
      assert ks == [ks[0]] + ks[1..];
    }
  }

  lemma {:induction false} CountKeyAbsent<T, K(!new)>(rows: seq<T>, keyOf: T -> Option<K>, k: K)
    requires k !in GroupKeys(rows, keyOf)
    ensures CountKey(rows, keyOf, k) == 0
  {
    if rows != [] {
      var init := rows[..|rows| - 1];
      assert forall i :: 0 <= i < |init| ==> init[i] == rows[i];
      CountKeyAbsent(init, keyOf, k);
    }
  }

  /** The group counts add up to the number of rows that have a key. */
  lemma {:induction false} GroupCountsSum<T, K(!new)>(rows: seq<T>, keyOf: T -> Option<K>)
    ensures SumCounts(GroupKeys(rows, keyOf), rows, keyOf) == Keyed(rows, keyOf)
  {
    if rows != [] {
      var init, x := rows[..|rows| - 1], rows[|rows| - 1];
      assert rows == init + [x];
      var ks := GroupKeys(init, keyOf);
      GroupCountsSum(init, keyOf);
      SumCountsAppendRow(ks, init, x, keyOf);
      match keyOf(x)
      case None =>
      case Some(k) =>
        if k !in ks {
          SumCountsAppendKey(ks, k, rows, keyOf);
          CountKeyAbsent(init, keyOf, k);
        }
    }
  }

  /** When every row has a key, the group counts add up to the number of rows. */
  lemma {:induction false} KeyedAll<T, K>(rows: seq<T>, keyOf: T -> Option<K>)
    requires forall i :: 0 <= i < |rows| ==> keyOf(rows[i]).Some?
    ensures Keyed(rows, keyOf) == |rows|
  {
    if rows != [] {
      KeyedAll(rows[..|rows| - 1], keyOf);
    }
  }

  /** The entries of the keys `ks`, in the order of `ks`. */
  function Groups<T, K(==,!new), L>(ks: seq<K>, rows: seq<T>, keyOf: T -> Option<K>, weight: T -> int, labelOf: T -> L): seq<Group<K, L>>
    requires forall k :: k in ks ==> k in GroupKeys(rows, keyOf)
  {
    seq(|ks|, i requires 0 <= i < |ks| =>
      var t := SpecTally(rows, keyOf, weight, labelOf, ks[i]);
      Group(ks[i], t.count, t.total, t.name))
  }

  /** The entries of every key, in first-appearance order. */
  function GroupsOf<T, K(==,!new), L>(rows: seq<T>, keyOf: T -> Option<K>, weight: T -> int, labelOf: T -> L): seq<Group<K, L>> {
    Groups(GroupKeys(rows, keyOf), rows, keyOf, weight, labelOf)
  }

  lemma {:induction false} CountTotalOfGroups<T, K(!new), L>(ks: seq<K>, rows: seq<T>, keyOf: T -> Option<K>, weight: T -> int, labelOf: T -> L)
    requires forall k :: k in ks ==> k in GroupKeys(rows, keyOf)
    ensures CountTotal(Groups(ks, rows, keyOf, weight, labelOf)) == SumCounts(ks, rows, keyOf)
  {
    if ks != [] {
      CountTotalOfGroups(ks[1..], rows, keyOf, weight, labelOf);
      assert Groups(ks, rows, keyOf, weight, labelOf)[1..] == Groups(ks[1..], rows, keyOf, weight, labelOf);
    }
  }

  /** The entries list every key once, and their counts add up to the number
      of rows that have a key. */
  lemma GroupsOfCover<T, K(!new), L>(rows: seq<T>, keyOf: T -> Option<K>, weight: T -> int, labelOf: T -> L)
    ensures forall i, j :: 0 <= i < j < |GroupsOf(rows, keyOf, weight, labelOf)| ==>
      GroupsOf(rows, keyOf, weight, labelOf)[i].key != GroupsOf(rows, keyOf, weight, labelOf)[j].key
    ensures forall k :: (exists i :: 0 <= i < |rows| && keyOf(rows[i]) == Some(k)) <==>
      exists g :: g in GroupsOf(rows, keyOf, weight, labelOf) && g.key == k
    ensures CountTotal(GroupsOf(rows, keyOf, weight, labelOf)) == Keyed(rows, keyOf)
  {
    var ks := GroupKeys(rows, keyOf);
    var gs := GroupsOf(rows, keyOf, weight, labelOf);
    CountTotalOfGroups(ks, rows, keyOf, weight, labelOf);
    GroupCountsSum(rows, keyOf);
    forall k | k in ks ensures exists g :: g in gs && g.key == k {
      var i :| 0 <= i < |ks| && ks[i] == k;
      assert gs[i] in gs && gs[i].key == k;
    }
  }

  /** Each entry is the tally of its key: how many rows have it, their weights
      added up, and the label of the first of them. */
  lemma GroupsOfEntry<T, K(!new), L>(rows: seq<T>, keyOf: T -> Option<K>, weight: T -> int, labelOf: T -> L, g: Group<K, L>)
    requires g in GroupsOf(rows, keyOf, weight, labelOf)
    ensures g.key in GroupKeys(rows, keyOf)
    ensures g.count == CountKey(rows, keyOf, g.key) && g.total == SumKey(rows, keyOf, weight, g.key)
    ensures g.name == FirstLabel(rows, keyOf, labelOf, g.key)
  {
    var gs := GroupsOf(rows, keyOf, weight, labelOf);
    var i :| 0 <= i < |gs| && gs[i] == g;
  }

  /** `Object.entries(grouped).map(...)` after the `forEach` loop. */
  method GroupEntries<T, K(==,!new), L>(rows: seq<T>, keyOf: T -> Option<K>, weight: T -> int, labelOf: T -> L)
    returns (gs: seq<Group<K, L>>)
    ensures gs == GroupsOf(rows, keyOf, weight, labelOf)
  {
    var keys, tally := GroupTally(rows, keyOf, weight, labelOf);
    gs := seq(|keys|, i requires 0 <= i < |keys| =>
      Group(keys[i], tally[keys[i]].count, tally[keys[i]].total, tally[keys[i]].name));
  }
}
