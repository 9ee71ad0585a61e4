/** The two-month picker (src/components/desiredMonths/DesiredLeaveMonthsForm.tsx).
    The selection is state that each click replaces: clicking a selected month
    removes it, clicking a new month adds it while fewer than two are selected,
    and otherwise drops the earlier of the two. Submitting needs exactly two
    months; closing is allowed only when the dialog was opened as closable. */
module DesiredMonthsForm {
  import opened Wrappers
  import opened Seqs
  import opened DesiredMonthsApi

  /** The picker offers the months 1 to 12. */
  const Months: seq<int> := [1, 2, 3, 4, 5, 6, 7, 8, 9, 10, 11, 12]

  /** At most two months, strictly ascending (so distinct), each in 1..12. */
  predicate Selection(s: seq<int>) {
    |s| <= 2 && StrictlyAscending(s) && forall i :: 0 <= i < |s| ==> IsMonth(s[i])
  }

  /** The `setSelectedMonths` updater of `handleMonthToggle`. */
  function Toggled(prev: seq<int>, monthValue: int): seq<int> {
    if monthValue in prev then RemoveAll(prev, monthValue)
    else if |prev| >= 2 then SortAsc([prev[1], monthValue])
    else SortAsc(prev + [monthValue])
  }

  /** What a click on month `m` makes of the selection. */
  lemma ToggleResult(prev: seq<int>, m: int)
    requires Selection(prev)
    ensures prev == [] ==> Toggled(prev, m) == [m]
    ensures |prev| == 1 ==> (Toggled(prev, m) ==
      if m == prev[0] then [] else if m < prev[0] then [m, prev[0]] else [prev[0], m])
    ensures |prev| == 2 && m in prev ==> Toggled(prev, m) == if m == prev[0] then [prev[1]] else [prev[0]]
    ensures |prev| == 2 && m !in prev ==> Toggled(prev, m) == if m < prev[1] then [m, prev[1]] else [prev[1], m]
  {
    if prev == [] {
      SortedSingle(m, SortAsc([m]));
    } else if |prev| == 1 {
      assert prev == [prev[0]];
      ToggleOne(prev[0], m);
    } else {
      assert prev == [prev[0], prev[1]];
      ToggleTwo(prev[0], prev[1], m);
    }
  }

  /** A click on an offered month keeps the selection at most two months,
      strictly ascending, all offered. */
  lemma {:induction false} ToggleKeepsSelection(prev: seq<int>, m: int)
    requires Selection(prev) && IsMonth(m)
    ensures Selection(Toggled(prev, m))
  {
    ToggleResult(prev, m);
    ResultIsSelection(prev, m, Toggled(prev, m));
  }

  lemma ResultIsSelection(prev: seq<int>, m: int, r: seq<int>)
    requires Selection(prev) && IsMonth(m)
    requires prev == [] ==> r == [m]
    requires |prev| == 1 ==> (r == if m == prev[0] then [] else if m < prev[0] then [m, prev[0]] else [prev[0], m])
    requires |prev| == 2 && m in prev ==> r == if m == prev[0] then [prev[1]] else [prev[0]]
    requires |prev| == 2 && m !in prev ==> r == if m < prev[1] then [m, prev[1]] else [prev[1], m]
    ensures Selection(r)
  {
    if |prev| == 2 {
      assert prev[0] < prev[1] && IsMonth(prev[0]) && IsMonth(prev[1]);
    }
  }

  lemma ToggleOne(a: int, m: int)
    ensures Toggled([a], m) == if m == a then [] else if m < a then [m, a] else [a, m]
  {
    if m != a {
      assert [a] + [m] == [a, m];
      SortedPair([a, m], SortAsc([a, m]));
    } else {
      assert RemoveAll([a], m) == [] + RemoveAll([], m);
    }
  }

  lemma ToggleTwo(a: int, b: int, m: int)
    requires a != b
    ensures m == a ==> Toggled([a, b], m) == [b]
    ensures m == b ==> Toggled([a, b], m) == [a]
    ensures m != a && m != b ==> Toggled([a, b], m) == if m < b then [m, b] else [b, m]
  {
    assert [a, b][1..] == [b] && [b][1..] == [];
    if m == a {
      assert RemoveAll([a, b], m) == [] + ([b] + []);
    } else if m == b {
      assert RemoveAll([a, b], m) == [a] + ([] + []);
    } else {
      SortedPair([b, m], SortAsc([b, m]));
    }
  }

  /** A full selection is one the server accepts as it is. */
  lemma FullSelectionAccepted(s: seq<int>)
    requires Selection(s) && |s| == 2
    ensures NormalizeMonths(Some(s)) == Ok(s)
  {
    assert s == [s[0], s[1]];
  }

  class MonthPicker {
    const canClose: bool
    var selectedMonths: seq<int>

    predicate Valid()
      reads this
    {
      Selection(selectedMonths)
    }

    /** `canClose` defaults to false when the caller gives none. */
    constructor (canClose: Option<bool>)
      ensures Valid() && selectedMonths == [] && this.canClose == canClose.GetOr(false)
    {
      this.canClose := canClose.GetOr(false);
      selectedMonths := [];
    }

    /** `handleMonthToggle` for one of the offered months. */
    method HandleMonthToggle(monthValue: int)
      requires Valid() && monthValue in Months
      modifies this
      ensures Valid()
      ensures selectedMonths == Toggled(old(selectedMonths), monthValue)
    {
      var prev := selectedMonths;
      assert IsMonth(monthValue);
      ToggleKeepsSelection(prev, monthValue);
      if monthValue in prev {
        selectedMonths := RemoveAll(prev, monthValue);
      } else if |prev| >= 2 {
        selectedMonths := SortAsc([prev[1], monthValue]);
      } else {
        selectedMonths := SortAsc(prev + [monthValue]);
      }
    }

    /** `handleSubmit`: the months sent, or nothing unless exactly two are selected.
        What is sent passes the server's checks unchanged. */
    method HandleSubmit() returns (submitted: Option<seq<int>>)
      requires Valid()
      ensures submitted.Some? <==> |selectedMonths| == 2
      ensures submitted.Some? ==> submitted.value == selectedMonths
      ensures submitted.Some? ==> NormalizeMonths(submitted) == Ok(selectedMonths)
    {
      if |selectedMonths| != 2 {
        return None;
      }
      FullSelectionAccepted(selectedMonths);
      return Some(selectedMonths);
    }

    /** `handleClose`: whether `onClose` is called. */
    method HandleClose() returns (closes: bool)
      ensures closes == canClose
    {
      closes := canClose;
    }
  }
}
