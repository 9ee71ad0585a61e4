/** The one-time choice of two desired leave months
    (src/api/desiredLeaveMonths.api.ts): the checks and normalisation of
    `submitDesiredMonths`, the insert into a table keyed by user (a second
    insert for the same user violates the unique key and is reported as
    already submitted), the null-on-missing read, and the defaults applied to
    the date-validation result. The `desired_leave_months` table is a map from
    user id to row. */
module DesiredMonthsApi {
  import opened Wrappers
  import opened Models
  import opened Seqs

  datatype SubmitError =
    | NotAuthenticated
    | NoMonths
    | WrongCount(selected: nat)
    | InvalidMonth
    | NotDistinct
    | AlreadySubmitted

  function DigitChar(d: nat): (c: char)
    requires d < 10
    ensures '0' <= c <= '9'
  {
    ['0', '1', '2', '3', '4', '5', '6', '7', '8', '9'][d]
  }

  /** `String(n)` for a non-negative integer. */
  function DecimalString(n: nat): (s: string)
    ensures |s| >= 1 && forall i :: 0 <= i < |s| ==> '0' <= s[i] <= '9'
    ensures n < 10 ==> s == [DigitChar(n)]
  {
    if n < 10 then [DigitChar(n)] else DecimalString(n / 10) + [DigitChar(n % 10)]
  }

  /** The message of the `Error` thrown for each case. */
  function Message(e: SubmitError): string {
    match e
    case NotAuthenticated => "Not authenticated"
    case NoMonths => "Please select exactly 2 months"
    case WrongCount(n) => "You must select exactly 2 months (you selected " + DecimalString(n) + ")"
    case InvalidMonth => "Invalid month values detected"
    case NotDistinct => "You must select exactly 2 different months"
    case AlreadySubmitted => "You have already submitted your desired leave months"
  }

  predicate IsMonth(m: int) {
    1 <= m <= 12
  }

  /** The checks of `submitDesiredMonths`, in the order the code makes them, and
      the de-duplicated, ascending list it stores. The length is checked before
      duplicates are removed. */
  function NormalizeMonths(months: Option<seq<int>>): (r: Result<seq<int>, SubmitError>)
    ensures r == Err(NoMonths) <==> months.None? || months.value == []
    ensures months.Some? && |months.value| != 0 && |months.value| != 2 ==> r == Err(WrongCount(|months.value|))
    ensures months.Some? && |months.value| == 2 ==>
      (r == Err(InvalidMonth) <==> !IsMonth(months.value[0]) || !IsMonth(months.value[1]))
    ensures months.Some? && |months.value| == 2 && IsMonth(months.value[0]) && IsMonth(months.value[1]) ==>
      (r == Err(NotDistinct) <==> months.value[0] == months.value[1])
    ensures r.Ok? <==> months.Some? && |months.value| == 2 && months.value[0] != months.value[1]
                        && IsMonth(months.value[0]) && IsMonth(months.value[1])
    ensures r.Ok? ==> var (a, b) := (months.value[0], months.value[1]);
      r.value == (if a < b then [a, b] else [b, a])
    ensures r.Ok? ==> |r.value| == 2 && StrictlyAscending(r.value) && IsMonth(r.value[0]) && IsMonth(r.value[1])
  {
    if months.None? || |months.value| == 0 then Err(NoMonths)
    else
      var m := months.value;
      if |m| != 2 then Err(WrongCount(|m|))
      else NormalizePair(m)
  }

  /** The checks after the length check, on a list of two. */
  function NormalizePair(m: seq<int>): (r: Result<seq<int>, SubmitError>)
    requires |m| == 2
    ensures r == Err(InvalidMonth) <==> !IsMonth(m[0]) || !IsMonth(m[1])
    ensures r == Err(NotDistinct) <==> IsMonth(m[0]) && IsMonth(m[1]) && m[0] == m[1]
    ensures r.Err? ==> r == Err(InvalidMonth) || r == Err(NotDistinct)
    ensures r.Ok? ==> r.value == (if m[0] < m[1] then [m[0], m[1]] else [m[1], m[0]])
  {
    var invalid := CountWhere(m, (x: int) => x < 1 || x > 12);
    assert invalid == 0 <==> IsMonth(m[0]) && IsMonth(m[1]);
    if invalid > 0 then Err(InvalidMonth)
    else
      var uniqueMonths := SortAsc(Dedup(m));
      assert m == [m[0], m[1]];
      TwoMonthsNormalized(m[0], m[1]);
      if |uniqueMonths| != 2 then Err(NotDistinct) else Ok(uniqueMonths)
  }

  /** De-duplicating and sorting two months keeps both, in ascending order, when
      they differ, and keeps one when they are equal. */
  lemma TwoMonthsNormalized(a: int, b: int)
    ensures var u := SortAsc(Dedup([a, b]));
      (a != b ==> u == (if a < b then [a, b] else [b, a])) && (a == b ==> |u| == 1)
  {
    var d := Dedup([a, b]);
    DedupPair(a, b);
    if a != b {
      SortedPair(d, SortAsc(d));
    } else {
      assert |multiset(SortAsc(d))| == |multiset(d)|;
    }
  }

  lemma DedupPair(a: int, b: int)
    ensures var d := Dedup([a, b]);
      (a != b ==> d == [a, b] || d == [b, a]) && (a == b ==> d == [a])
  {
    assert [a, b][..1] == [a] && [a][..0] == [];
    assert Dedup([a]) == [a];
  }

  /** `[3, 3]` is rejected as not distinct. */
  lemma RepeatedMonthRejected(m: seq<int>)
    requires m == [3, 3]
    ensures NormalizeMonths(Some(m)) == Err(NotDistinct)
  {
  }

  /** `[3, 3, 7]` is rejected for its length although it holds two different
      months: the length is checked before duplicates are removed. */
  lemma LengthCheckedBeforeDedup(m: seq<int>)
    requires m == [3, 3, 7]
    ensures NormalizeMonths(Some(m)) == Err(WrongCount(3))
    ensures Message(WrongCount(3)) == "You must select exactly 2 months (you selected 3)"
  {
  }

  /** `[9, 4]` is stored as `[4, 9]`. */
  lemma PairStoredAscending(m: seq<int>)
    requires m == [9, 4]
    ensures NormalizeMonths(Some(m)) == Ok([4, 9])
  {
  }

  /** A row of `desired_leave_months`. */
  datatype DesiredLeaveMonth = DesiredLeaveMonth(userId: UserId, preferredMonths: seq<int>, submittedAt: Timestamp, isLocked: bool)

  type Table = map<UserId, DesiredLeaveMonth>

  /** `submitDesiredMonths`: the table after the insert and the inserted row, or the error. */
  function SubmitDesiredMonths(table: Table, authUser: Option<UserId>, months: Option<seq<int>>, now: Timestamp)
    : (r: Result<(Table, DesiredLeaveMonth), SubmitError>)
    ensures authUser.None? ==> r == Err(NotAuthenticated)
    ensures authUser.Some? && NormalizeMonths(months).Err? ==> r == Err(NormalizeMonths(months).error)
    ensures authUser.Some? && NormalizeMonths(months).Ok? && authUser.value in table ==> r == Err(AlreadySubmitted)
    ensures r.Ok? ==> authUser.Some? && authUser.value !in table
    ensures r.Ok? ==> var row := r.value.1;
      row.userId == authUser.value && row.isLocked && row.submittedAt == now
      && row.preferredMonths == NormalizeMonths(months).value
      && r.value.0 == table[authUser.value := row]
  {
    if authUser.None? then Err(NotAuthenticated)
    else match NormalizeMonths(months)
      case Err(e) => Err(e)
      case Ok(uniqueMonths) =>
        var user := authUser.value;
        if user in table then Err(AlreadySubmitted)
        else
          var row := DesiredLeaveMonth(user, uniqueMonths, now, true);
          Ok((table[user := row], row))
  }

  /** `getMyDesiredMonths`: a user without a row gets `None`, not an error. */
  function GetMyDesiredMonths(table: Table, authUser: Option<UserId>): (r: Result<Option<DesiredLeaveMonth>, SubmitError>)
    ensures authUser.None? <==> r.Err?
    ensures r.Ok? ==> (r.value.None? <==> authUser.value !in table)
    ensures r.Ok? && r.value.Some? ==> r.value.value == table[authUser.value]
  {
    if authUser.None? then Err(NotAuthenticated)
    else if authUser.value in table then Ok(Some(table[authUser.value]))
    else Ok(None)
  }

  /** The lock: after a successful submission the user reads back the two
      months, locked, and every later submission fails and leaves the row as
      it is, whatever it asks for. */
  lemma {:induction false} SubmissionIsLocked(table: Table, user: UserId, months: Option<seq<int>>, now: Timestamp, later: Option<seq<int>>, now2: Timestamp)
    requires SubmitDesiredMonths(table, Some(user), months, now).Ok?
    ensures var (t, row) := SubmitDesiredMonths(table, Some(user), months, now).value;
      GetMyDesiredMonths(t, Some(user)) == Ok(Some(row))
      && row.isLocked && |row.preferredMonths| == 2 && StrictlyAscending(row.preferredMonths)
      && SubmitDesiredMonths(t, Some(user), later, now2).Err?
      && (NormalizeMonths(later).Ok? ==> SubmitDesiredMonths(t, Some(user), later, now2) == Err(AlreadySubmitted))
  {
    var (t, row) := SubmitDesiredMonths(table, Some(user), months, now).value;
    assert user in t;
  }

  /** The record returned by the `check_leave_dates_in_desired_months` function;
      any field may be missing. */
  datatype RpcRow = RpcRow(isValid: Option<bool>, desiredMonths: Option<seq<int>>, leaveMonths: Option<seq<int>>, message: Option<string>)

  /** The RPC's `data`: an array of rows, one row, or nothing. */
  datatype RpcData = Rows(rows: seq<RpcRow>) | Single(row: RpcRow) | NoData

  datatype ValidationResult = ValidationResult(isValid: bool, desiredMonths: Option<seq<int>>, leaveMonths: Option<seq<int>>, message: string)

  /** `validateLeaveDatesInDesiredMonths` after the call: the first row (or the
      single one) with its defaults applied. Reading a field of a missing row
      throws, which is the `None` case. */
  function ValidationDefaults(data: RpcData): (r: Option<ValidationResult>)
    ensures r.None? <==> data == NoData || data == Rows([])
    ensures r.Some? ==> var row := if data.Rows? then data.rows[0] else data.row;
      (r.value.isValid <==> row.isValid == Some(true))
      && r.value.desiredMonths == row.desiredMonths && r.value.leaveMonths == row.leaveMonths
      && (row.message.None? ==> r.value.message == "")
      && (row.message.Some? ==> r.value.message == row.message.value)
  {
    var result := if data.Rows? && |data.rows| > 0 then Some(data.rows[0]) else if data.Single? then Some(data.row) else None;
    match result
    case None => None
    case Some(row) => Some(ValidationResult(row.isValid.GetOr(false), row.desiredMonths, row.leaveMonths, row.message.GetOr("")))
  }
}
