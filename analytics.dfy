/** The counting and grouping of the dashboard report
    (leave-app/src/api/analytics.api.ts) over the leave applications the query
    returned, and the utilization percentages of the balance report. */
module Analytics {
  import opened Wrappers
  import opened Models
  import opened Seqs
  import opened Entries
  import opened Grouping

  /** The columns of a fetched application the report reads. `departmentId` is
      `user?.department_id`; `month` is the submission month as
      `12 * year + (month - 1)`, which orders like the "YYYY-MM" key. */
  datatype Row = Row(
    leaveType: LeaveType,
    status: LeaveStatus,
    workingDays: Option<int>,
    departmentId: Option<string>,
    month: int)

  /** `app.working_days || 0`. */
  function Days(r: Row): int {
    r.workingDays.GetOr(0)
  }

  /** The days a row adds where only approved applications count. */
  function ApprovedDays(r: Row): int {
    if r.status == Approved then Days(r) else 0
  }

  function NoWeight(r: Row): int {
    0
  }

  function NoName(r: Row): () {
    ()
  }

  // ---------------------------------------------------------------- summary

  predicate IsPending(r: Row) {
    r.status == PendingDirector || r.status == PendingHr
  }
  predicate IsPendingDirector(r: Row) {
    r.status == PendingDirector
  }
  predicate IsPendingHr(r: Row) {
    r.status == PendingHr
  }
  predicate IsApproved(r: Row) {
    r.status == Approved
  }
  predicate IsRejected(r: Row) {
    r.status == Rejected
  }
  predicate IsDraft(r: Row) {
    r.status == Draft
  }

  datatype Summary = Summary(total: nat, pending: nat, approved: nat, rejected: nat)

  /** The `summary` object but the average approval time. */
  function SummaryOf(rows: seq<Row>): (s: Summary)
    ensures s.total == |rows|
    ensures s.pending == CountWhere(rows, IsPendingDirector) + CountWhere(rows, IsPendingHr)
    ensures s.approved == CountWhere(rows, IsApproved) && s.rejected == CountWhere(rows, IsRejected)
    ensures s.pending + s.approved + s.rejected + CountWhere(rows, IsDraft) == s.total
  {
    CountWhereDisjoint(rows, IsPendingDirector, IsPendingHr, IsPending);
    StatusPartition(rows);
    Summary(|rows|, CountWhere(rows, IsPending), CountWhere(rows, IsApproved), CountWhere(rows, IsRejected))
  }

  /** Every row has exactly one of the four summary states. */
  lemma {:induction false} StatusPartition(rows: seq<Row>)
    ensures CountWhere(rows, IsPending) + CountWhere(rows, IsApproved) + CountWhere(rows, IsRejected)
            + CountWhere(rows, IsDraft) == |rows|
  {
    if rows != [] {
      StatusPartition(rows[..|rows| - 1]);
    }
  }

  /** The summary never counts more applications in a state than it fetched. */
  lemma SummaryBounded(rows: seq<Row>)
    ensures var s := SummaryOf(rows); s.pending + s.approved + s.rejected <= s.total
    ensures var s := SummaryOf(rows); s.pending + s.approved + s.rejected == s.total <==>
      forall i :: 0 <= i < |rows| ==> rows[i].status != Draft
  {
  }

  // ---------------------------------------------------------------- by leave type

  function LeaveTypeKey(r: Row): Option<LeaveType> {
    Some(r.leaveType)
  }

  /** `groupByLeaveType`: per type, the applications and their working days. */
  method GroupByLeaveType(rows: seq<Row>) returns (gs: seq<Group<LeaveType, ()>>)
    ensures gs == GroupsOf(rows, LeaveTypeKey, Days, NoName)
  {
    gs := GroupEntries(rows, LeaveTypeKey, Days, NoName);
  }

  /** One entry per leave type present, counts that add up to the number of
      applications, and per type the working days of its applications, a
      missing value counting 0. */
  lemma ByLeaveTypeMeaning(rows: seq<Row>, g: Group<LeaveType, ()>)
    requires g in GroupsOf(rows, LeaveTypeKey, Days, NoName)
    ensures CountTotal(GroupsOf(rows, LeaveTypeKey, Days, NoName)) == |rows|
    ensures (exists i :: 0 <= i < |rows| && rows[i].leaveType == g.key)
    ensures g.count == CountKey(rows, LeaveTypeKey, g.key)
    ensures g.total == SumKey(rows, LeaveTypeKey, Days, g.key)
  {
    GroupsOfCover(rows, LeaveTypeKey, Days, NoName);
    KeyedAll(rows, LeaveTypeKey);
    GroupsOfEntry(rows, LeaveTypeKey, Days, NoName, g);
  }

  /** An application without working days leaves its type's total unchanged. */
  lemma MissingDaysAddNothing(rows: seq<Row>, r: Row)
    requires r.workingDays == None
    ensures SumKey(rows + [r], LeaveTypeKey, Days, r.leaveType) == SumKey(rows, LeaveTypeKey, Days, r.leaveType)
  {
    assert (rows + [r])[..|rows|] == rows;
  }

  // ---------------------------------------------------------------- by status

  function StatusKey(r: Row): Option<LeaveStatus> {
    Some(r.status)
  }

  /** `groupByStatus`: per status, the number of applications. */
  method GroupByStatus(rows: seq<Row>) returns (gs: seq<Group<LeaveStatus, ()>>)
    ensures gs == GroupsOf(rows, StatusKey, NoWeight, NoName)
  {
    gs := GroupEntries(rows, StatusKey, NoWeight, NoName);
  }

  /** One entry per distinct status, and the counts add up to the number of
      applications. */
  lemma ByStatusMeaning(rows: seq<Row>)
    ensures var gs := GroupsOf(rows, StatusKey, NoWeight, NoName);
      forall i, j :: 0 <= i < j < |gs| ==> gs[i].key != gs[j].key
    ensures CountTotal(GroupsOf(rows, StatusKey, NoWeight, NoName)) == |rows|
  {
    GroupsOfCover(rows, StatusKey, NoWeight, NoName);
    KeyedAll(rows, StatusKey);
  }

  /** A status has an entry exactly when some application has it. */
  lemma ByStatusCovers(rows: seq<Row>, st: LeaveStatus)
    ensures (exists i :: 0 <= i < |rows| && rows[i].status == st) <==>
      exists g :: g in GroupsOf(rows, StatusKey, NoWeight, NoName) && g.key == st
  {
    var gs := GroupsOf(rows, StatusKey, NoWeight, NoName);
    if exists i :: 0 <= i < |rows| && rows[i].status == st {
      var i :| 0 <= i < |rows| && rows[i].status == st;
      assert st in GroupKeys(rows, StatusKey) by {
        assert StatusKey(rows[i]) == Some(st);
      }
      var j :| 0 <= j < |GroupKeys(rows, StatusKey)| && GroupKeys(rows, StatusKey)[j] == st;
      assert gs[j] in gs && gs[j].key == st;
    }
    if exists g :: g in gs && g.key == st {
      var g :| g in gs && g.key == st;
      GroupsOfEntry(rows, StatusKey, NoWeight, NoName, g);
      var i :| 0 <= i < |rows| && StatusKey(rows[i]) == Some(st);
    }
  }

  // ---------------------------------------------------------------- by department

  datatype Department = Department(id: string, name: string)

  /** `app.user?.department_id`, skipped when missing or empty. */
  function DepartmentKey(r: Row): (k: Option<string>)
    ensures k.Some? <==> r.departmentId.Some? && r.departmentId.value != ""
  {
    if r.departmentId.Some? && r.departmentId.value != "" then r.departmentId else None
  }

  /** `departments?.find((d) => d.id === deptId)`. */
  function FindDepartment(ds: seq<Department>, id: string): (r: Option<Department>)
    ensures r.Some? ==> r.value in ds && r.value.id == id
    ensures r.None? <==> forall i :: 0 <= i < |ds| ==> ds[i].id != id
    ensures r.Some? ==> exists i :: 0 <= i < |ds| && ds[i] == r.value && forall j :: 0 <= j < i ==> ds[j].id != id
  {
    if ds == [] then None
    else if ds[0].id == id then Some(ds[0])
    else
      var r := FindDepartment(ds[1..], id);
      if r.None? then r
      else
        var i :| 0 <= i < |ds[1..]| && ds[1..][i] == r.value && forall j :: 0 <= j < i ==> ds[1..][j].id != id;
        assert ds[i + 1] == r.value && forall j :: 0 <= j < i + 1 ==> ds[j].id != id;
        r
  }

  const Unknown := "Unknown"

  /** `dept?.name || 'Unknown'`; the departments are missing when their query failed. */
  function DepartmentName(departments: Option<seq<Department>>, id: string): (name: string)
    ensures name != ""
    ensures name == Unknown <==> departments.None? || FindDepartment(departments.value, id).None?
                                 || FindDepartment(departments.value, id).value.name in {"", Unknown}
  {
    match departments
    case None => Unknown
    case Some(ds) =>
      match FindDepartment(ds, id)
      case None => Unknown
      case Some(d) => if d.name == "" then Unknown else d.name
  }

  function DepartmentLabel(departments: Option<seq<Department>>): Row -> string {
    (r: Row) => DepartmentName(departments, r.departmentId.GetOr(""))
  }

  /** One entry of `by_department`. */
  datatype DepartmentEntry = DepartmentEntry(
    departmentId: string,
    departmentName: string,
    totalApplications: nat,
    utilizationPercentage: int)

  function DepartmentEntries(gs: seq<Group<string, string>>): (es: seq<DepartmentEntry>)
    ensures |es| == |gs|
    ensures forall i :: 0 <= i < |gs| ==>
      es[i] == DepartmentEntry(gs[i].key, gs[i].name, gs[i].count, 0)
  {
    seq(|gs|, i requires 0 <= i < |gs| => DepartmentEntry(gs[i].key, gs[i].name, gs[i].count, 0))
  }

  /** The department groups; their `total_days` keeps only approved days. */
  function DepartmentGroups(rows: seq<Row>, departments: Option<seq<Department>>): seq<Group<string, string>> {
    GroupsOf(rows, DepartmentKey, ApprovedDays, DepartmentLabel(departments))
  }

  /** `groupByDepartment` once the departments are fetched. */
  method GroupByDepartment(rows: seq<Row>, departments: Option<seq<Department>>) returns (es: seq<DepartmentEntry>)
    ensures es == DepartmentEntries(DepartmentGroups(rows, departments))
  {
    var gs := GroupEntries(rows, DepartmentKey, ApprovedDays, DepartmentLabel(departments));
    es := DepartmentEntries(gs);
  }

  /** How many applications name a department. */
  function WithDepartment(rows: seq<Row>): nat {
    CountWhere(rows, r => DepartmentKey(r).Some?)
  }

  lemma {:induction false} KeyedIsWithDepartment(rows: seq<Row>)
    ensures Keyed(rows, DepartmentKey) == WithDepartment(rows)
  {
    if rows != [] {
      KeyedIsWithDepartment(rows[..|rows| - 1]);
    }
  }

  /** The department counts add up to the applications that name a
      department: the others are skipped. */
  lemma DepartmentCountsSum(rows: seq<Row>, departments: Option<seq<Department>>)
    ensures CountTotal(DepartmentGroups(rows, departments)) == WithDepartment(rows)
    ensures WithDepartment(rows) <= |rows|
  {
    GroupsOfCover(rows, DepartmentKey, ApprovedDays, DepartmentLabel(departments));
    KeyedIsWithDepartment(rows);
  }

  /** Each department entry is named after that department, or "Unknown",
      counts its applications, and reports a utilization of 0. */
  lemma DepartmentEntryMeaning(rows: seq<Row>, departments: Option<seq<Department>>, i: nat)
    requires i < |DepartmentGroups(rows, departments)|
    ensures var g := DepartmentGroups(rows, departments)[i];
      var e := DepartmentEntries(DepartmentGroups(rows, departments))[i];
      g.key != "" && e.departmentId == g.key && e.departmentName == DepartmentName(departments, g.key)
      && e.totalApplications == CountKey(rows, DepartmentKey, g.key) && e.utilizationPercentage == 0
  {
    var gs := DepartmentGroups(rows, departments);
    var g := gs[i];
    assert g in gs;
    GroupsOfEntry(rows, DepartmentKey, ApprovedDays, DepartmentLabel(departments), g);
    var j :| 0 <= j < |rows| && DepartmentKey(rows[j]) == Some(g.key) && g.name == DepartmentLabel(departments)(rows[j]);
  }

  /** A department's `total_days` grows by an application's days only when it is approved. */
  lemma DepartmentDaysApprovedOnly(rows: seq<Row>, r: Row, id: string)
    requires DepartmentKey(r) == Some(id)
    ensures SumKey(rows + [r], DepartmentKey, ApprovedDays, id)
         == SumKey(rows, DepartmentKey, ApprovedDays, id) + (if r.status == Approved then Days(r) else 0)
  {
    assert (rows + [r])[..|rows|] == rows;
  }

  // ---------------------------------------------------------------- monthly trend

  function MonthKey(r: Row): Option<int> {
    Some(r.month)
  }

  /** `calculateMonthlyTrend`: per month, the applications and their approved
      days, in ascending month order. */
  function Trend(rows: seq<Row>): seq<Group<int, ()>> {
    GroupsOfCover(rows, MonthKey, ApprovedDays, NoName);
    SortByKey(GroupsOf(rows, MonthKey, ApprovedDays, NoName))
  }

  method MonthlyTrend(rows: seq<Row>) returns (t: seq<Group<int, ()>>)
    ensures t == Trend(rows)
  {
    var gs := GroupEntries(rows, MonthKey, ApprovedDays, NoName);
    GroupsOfCover(rows, MonthKey, ApprovedDays, NoName);
    t := SortByKey(gs);
  }

  /** The trend lists the months in strictly ascending order, holds exactly
      the month entries, and its counts add up to the number of applications. */
  lemma TrendOrdered(rows: seq<Row>)
    ensures KeysAscending(Trend(rows))
    ensures multiset(Trend(rows)) == multiset(GroupsOf(rows, MonthKey, ApprovedDays, NoName))
    ensures CountTotal(Trend(rows)) == |rows|
  {
    var gs := GroupsOf(rows, MonthKey, ApprovedDays, NoName);
    GroupsOfCover(rows, MonthKey, ApprovedDays, NoName);
    SortCountTotal(gs);
    KeyedAll(rows, MonthKey);
  }

  /** A trend entry counts the applications of its month and adds up the
      working days of the approved ones. */
  lemma TrendEntryMeaning(rows: seq<Row>, g: Group<int, ()>)
    requires g in Trend(rows)
    ensures exists i :: 0 <= i < |rows| && rows[i].month == g.key
    ensures g.count == CountKey(rows, MonthKey, g.key)
    ensures g.total == SumKey(rows, MonthKey, ApprovedDays, g.key)
  {
    TrendOrdered(rows);
    assert g in multiset(Trend(rows));
    GroupsOfEntry(rows, MonthKey, ApprovedDays, NoName, g);
  }

  /** An application that is not approved adds nothing to its month's days. */
  lemma TrendDaysApprovedOnly(rows: seq<Row>, r: Row)
    requires r.status != Approved
    ensures SumKey(rows + [r], MonthKey, ApprovedDays, r.month) == SumKey(rows, MonthKey, ApprovedDays, r.month)
  {
    assert (rows + [r])[..|rows|] == rows;
  }

  // ---------------------------------------------------------------- utilization

  /** `allocated_days > 0 ? Math.round((used_days / allocated_days) * 100) : 0`, on exact
      rationals: the percentage rounded to the nearest integer, halves up. */
  function UtilizationPercent(usedDays: int, allocatedDays: int): (p: int)
    ensures allocatedDays <= 0 ==> p == 0
    ensures allocatedDays > 0 ==> (2 * p - 1) * allocatedDays <= 200 * usedDays < (2 * p + 1) * allocatedDays
  {
    if allocatedDays > 0 then
      var p := (200 * usedDays + allocatedDays) / (2 * allocatedDays);
      RoundBounds(200 * usedDays + allocatedDays, 2 * allocatedDays, p);
      p
    else 0
  }

  lemma RoundBounds(n: int, d: int, q: int)
    requires d > 0 && q == n / d
    ensures q * d <= n < q * d + d
  {
  }

  datatype Balance = Balance(leaveType: LeaveType, allocatedDays: int, usedDays: int, pending: int, available: int)

  datatype TypeUtilization = TypeUtilization(
    leaveType: LeaveType, allocatedDays: int, usedDays: int, pending: int, available: int, utilizationPercentage: int)

  datatype UserUtilization = UserUtilization(
    userId: string, userName: string, department: string,
    byLeaveType: seq<TypeUtilization>, totalUtilizationPercentage: int)

  function TotalAllocated(bs: seq<Balance>): int {
    if bs == [] then 0 else TotalAllocated(bs[..|bs| - 1]) + bs[|bs| - 1].allocatedDays
  }

  function TotalUsed(bs: seq<Balance>): int {
    if bs == [] then 0 else TotalUsed(bs[..|bs| - 1]) + bs[|bs| - 1].usedDays
  }

  /** One user of the balance report: the balances passed through with their
      percentage, the total percentage, and the department name or "N/A". */
  function UtilizationOf(userId: string, userName: string, department: Option<string>, balances: Option<seq<Balance>>)
    : (u: UserUtilization)
    ensures var bs := balances.GetOr([]);
      |u.byLeaveType| == |bs|
      && (forall i :: 0 <= i < |bs| ==>
            var b, t := bs[i], u.byLeaveType[i];
            t.leaveType == b.leaveType && t.allocatedDays == b.allocatedDays && t.usedDays == b.usedDays
            && t.pending == b.pending && t.available == b.available
            && t.utilizationPercentage == UtilizationPercent(b.usedDays, b.allocatedDays))
      && u.totalUtilizationPercentage == UtilizationPercent(TotalUsed(bs), TotalAllocated(bs))
    ensures u.department == (if department.Some? && department.value != "" then department.value else "N/A")
    ensures u.userId == userId && u.userName == userName
  {
    var bs := balances.GetOr([]);
    UserUtilization(
      userId, userName,
      if department.Some? && department.value != "" then department.value else "N/A",
      seq(|bs|, i requires 0 <= i < |bs| =>
        TypeUtilization(bs[i].leaveType, bs[i].allocatedDays, bs[i].usedDays, bs[i].pending, bs[i].available,
                        UtilizationPercent(bs[i].usedDays, bs[i].allocatedDays))),
      UtilizationPercent(TotalUsed(bs), TotalAllocated(bs)))
  }

  /** With nothing allocated, per type or in total, utilization is 0; a user
      without balances reports 0 and no types. */
  lemma ZeroAllocationZeroUtilization(balances: Option<seq<Balance>>, i: nat)
    ensures var u := UtilizationOf("", "", None, balances);
      var bs := balances.GetOr([]);
      (i < |bs| && bs[i].allocatedDays <= 0 ==> u.byLeaveType[i].utilizationPercentage == 0)
      && (TotalAllocated(bs) <= 0 ==> u.totalUtilizationPercentage == 0)
      && (bs == [] ==> u.byLeaveType == [] && u.totalUtilizationPercentage == 0)
  {
  }

  /** The percentage is the one integer within half a point of the exact
      ratio, ties going up. */
  lemma NearestIsUnique(usedDays: int, allocatedDays: int, q: int)
    requires allocatedDays > 0
    requires (2 * q - 1) * allocatedDays <= 200 * usedDays < (2 * q + 1) * allocatedDays
    ensures UtilizationPercent(usedDays, allocatedDays) == q
  {
    var p := UtilizationPercent(usedDays, allocatedDays);
    if p < q {
      MulMonotone(2 * p + 1, 2 * q - 1, allocatedDays);
    } else if q < p {
      MulMonotone(2 * q + 1, 2 * p - 1, allocatedDays);
    }
  }

  lemma MulMonotone(x: int, y: int, a: int)
    requires x <= y && a > 0
    ensures x * a <= y * a
  {
    assert y * a - x * a == (y - x) * a;
  }

  /** Using exactly what is allocated is 100 percent, using none is 0, and
      using half is 50. */
  lemma FullAndEmptyUtilization(allocatedDays: int)
    requires allocatedDays > 0
    ensures UtilizationPercent(allocatedDays, allocatedDays) == 100
    ensures UtilizationPercent(0, allocatedDays) == 0
    ensures UtilizationPercent(allocatedDays, 2 * allocatedDays) == 50
  {
    NearestIsUnique(allocatedDays, allocatedDays, 100);
    NearestIsUnique(0, allocatedDays, 0);
    NearestIsUnique(allocatedDays, 2 * allocatedDays, 50);
  }
}
