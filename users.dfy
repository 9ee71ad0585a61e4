/** The user administration of leave-app/src/api/users.api.ts: the statistics
    report over the fetched users, the bulk import tally, and the profile
    updates, where deleting a user only deactivates it. */
module Users {
  import opened Wrappers
  import opened Models
  import opened Seqs
  import opened Entries
  import opened Grouping

  // ---------------------------------------------------------------- statistics

  /** The columns of a fetched user the statistics read; `departmentName` is
      `department?.name`. */
  datatype StatRow = StatRow(role: Role, isActive: bool, departmentName: Option<string>)

  predicate IsActive(u: StatRow) {
    u.isActive
  }

  function RoleKey(u: StatRow): Option<Role> {
    Some(u.role)
  }

  const Unassigned := "Unassigned"

  /** `department?.name || 'Unassigned'`: every user has a department key. */
  function DepartmentKey(u: StatRow): (k: Option<string>)
    ensures k.Some? && k.value != ""
    ensures k.value == Unassigned <==> u.departmentName.None? || u.departmentName.value in {"", Unassigned}
  {
    if u.departmentName.Some? && u.departmentName.value != "" then u.departmentName else Some(Unassigned)
  }

  function NoWeight(u: StatRow): int {
    0
  }

  function NoName(u: StatRow): () {
    ()
  }

  datatype Statistics = Statistics(
    totalUsers: nat,
    activeUsers: nat,
    byRole: seq<Group<Role, ()>>,
    byDepartment: seq<Group<string, ()>>)

  /** The report for the fetched users; a missing result counts as no users. */
  function StatisticsOf(users: Option<seq<StatRow>>): Statistics {
    var rows := users.GetOr([]);
    Statistics(|rows|, CountWhere(rows, IsActive),
               GroupsOf(rows, RoleKey, NoWeight, NoName),
               GroupsOf(rows, DepartmentKey, NoWeight, NoName))
  }

  /** `getUserStatistics` once the users are fetched: the two `forEach` loops
      fill the role and department dictionaries. */
  method GetUserStatistics(users: Option<seq<StatRow>>) returns (s: Statistics)
    ensures s == StatisticsOf(users)
  {
    var rows := users.GetOr([]);
    var byRole := GroupEntries(rows, RoleKey, NoWeight, NoName);
    var byDepartment := GroupEntries(rows, DepartmentKey, NoWeight, NoName);
    s := Statistics(|rows|, CountWhere(rows, IsActive), byRole, byDepartment);
  }

  /** The role counts and the department counts each add up to the number of
      users, every role and department appears once, and no more users are
      active than there are users. */
  lemma StatisticsAddUp(users: Option<seq<StatRow>>)
    ensures var s := StatisticsOf(users);
      s.totalUsers == |users.GetOr([])| && s.activeUsers <= s.totalUsers
      && CountTotal(s.byRole) == s.totalUsers && CountTotal(s.byDepartment) == s.totalUsers
    ensures var s := StatisticsOf(users);
      (forall i, j :: 0 <= i < j < |s.byRole| ==> s.byRole[i].key != s.byRole[j].key)
      && (forall i, j :: 0 <= i < j < |s.byDepartment| ==> s.byDepartment[i].key != s.byDepartment[j].key)
    ensures StatisticsOf(users).activeUsers == StatisticsOf(users).totalUsers <==>
      forall i :: 0 <= i < |users.GetOr([])| ==> users.GetOr([])[i].isActive
  {
    var rows := users.GetOr([]);
    GroupsOfCover(rows, RoleKey, NoWeight, NoName);
    GroupsOfCover(rows, DepartmentKey, NoWeight, NoName);
    KeyedAll(rows, RoleKey);
    KeyedAll(rows, DepartmentKey);
  }

  /** A user without a department name is counted under "Unassigned". */
  lemma UnassignedCounted(rows: seq<StatRow>, u: StatRow)
    requires u.departmentName.None? || u.departmentName == Some("")
    ensures CountKey(rows + [u], DepartmentKey, Unassigned) == CountKey(rows, DepartmentKey, Unassigned) + 1
  {
    assert (rows + [u])[..|rows|] == rows;
  }

  // ---------------------------------------------------------------- bulk import

  datatype CreateUserParams = CreateUserParams(
    email: string, fullName: string, password: string, role: Role, departmentId: string, hireDate: string)

  const CreateFailed := "Failed to create user"

  /** The message of the error `createUser` rethrows: `error.message || 'Failed to create user'`. */
  function RethrownMessage(message: string): (m: string)
    ensures m != ""
    ensures message != "" ==> m == message
  {
    if message == "" then CreateFailed else message
  }

  predicate Failed(o: Option<string>) {
    o.Some?
  }

  predicate Succeeded(o: Option<string>) {
    o.None?
  }

  /** The error line one creation adds: none on success, otherwise the
      user's email and the message. */
  function ErrorLine(u: CreateUserParams, o: Option<string>): (l: seq<string>)
    ensures |l| == if o.Some? then 1 else 0
  {
    if o.Some? then [u.email + ": " + RethrownMessage(o.value)] else []
  }

  /** The error lines for the failed creations, in input order. `outcomes[i]`
      is `None` when creating `users[i]` succeeded and the message of the
      error it raised otherwise. */
  function ImportErrors(users: seq<CreateUserParams>, outcomes: seq<Option<string>>): seq<string>
    requires |outcomes| == |users|
  {
    if users == [] then []
    else
      var n := |users| - 1;
      ImportErrors(users[..n], outcomes[..n]) + ErrorLine(users[n], outcomes[n])
  }

  lemma ImportErrorsSnoc(users: seq<CreateUserParams>, outcomes: seq<Option<string>>, u: CreateUserParams, o: Option<string>)
    requires |outcomes| == |users|
    ensures ImportErrors(users + [u], outcomes + [o]) == ImportErrors(users, outcomes) + ErrorLine(u, o)
  {
    assert (users + [u])[..|users|] == users && (outcomes + [o])[..|outcomes|] == outcomes;
  }

  /** There is one error line per failed creation. */
  lemma {:induction false} ImportErrorsCount(users: seq<CreateUserParams>, outcomes: seq<Option<string>>)
    requires |outcomes| == |users|
    ensures |ImportErrors(users, outcomes)| == CountWhere(outcomes, Failed)
  {
    if users != [] {
      var n := |users| - 1;
      ImportErrorsCount(users[..n], outcomes[..n]);
      assert ImportErrors(users, outcomes) == ImportErrors(users[..n], outcomes[..n]) + ErrorLine(users[n], outcomes[n]);
      assert outcomes == outcomes[..n] + [outcomes[n]];
      CountWhereAppend(outcomes[..n], outcomes[n], Failed);
    }
  }

  /** Every creation either succeeds or fails. */
  lemma OutcomesSplit(outcomes: seq<Option<string>>)
    ensures CountWhere(outcomes, Succeeded) + CountWhere(outcomes, Failed) == |outcomes|
  {
    CountWhereDisjoint(outcomes, Succeeded, Failed, o => true);
  }

  /** `bulkImportUsers`: one `createUser` per input, in order, tallied. */
  method BulkImportUsers(users: seq<CreateUserParams>, outcomes: seq<Option<string>>)
    returns (success: nat, failed: nat, errors: seq<string>)
    requires |outcomes| == |users|
    ensures success + failed == |users|
    ensures success == CountWhere(outcomes, Succeeded) && failed == CountWhere(outcomes, Failed)
    ensures errors == ImportErrors(users, outcomes)
    ensures failed == |errors|
  {
    success, failed, errors := 0, 0, [];
    var i := 0;
    while i < |users|
      invariant 0 <= i <= |users|
      invariant success + failed == i
      invariant failed == |errors|
      invariant errors == ImportErrors(users[..i], outcomes[..i])
    {
      assert outcomes[..i + 1] == outcomes[..i] + [outcomes[i]];
      assert users[..i + 1] == users[..i] + [users[i]];
      ImportErrorsSnoc(users[..i], outcomes[..i], users[i], outcomes[i]);
      match outcomes[i] {
        case None =>
          success := success + 1;
        case Some(message) =>
          failed := failed + 1;
          errors := errors + [users[i].email + ": " + RethrownMessage(message)];
      }
      i := i + 1;
    }
    assert users[..i] == users && outcomes[..i] == outcomes;
    ImportErrorsCount(users, outcomes);
    OutcomesSplit(outcomes);
  }

  /** Importing a prefix of the list reports a prefix of the errors: the
      users are processed in order and an error is never taken back. */
  lemma {:induction false} ImportErrorsInOrder(users: seq<CreateUserParams>, outcomes: seq<Option<string>>, k: nat)
    requires |outcomes| == |users| && k <= |users|
    ensures ImportErrors(users[..k], outcomes[..k]) <= ImportErrors(users, outcomes)
  {
    if k < |users| {
      var n := |users| - 1;
      assert users[..n][..k] == users[..k] && outcomes[..n][..k] == outcomes[..k];
      ImportErrorsInOrder(users[..n], outcomes[..n], k);
      assert users == users[..n] + [users[n]] && outcomes == outcomes[..n] + [outcomes[n]];
      ImportErrorsSnoc(users[..n], outcomes[..n], users[n], outcomes[n]);
    } else {
      assert users[..k] == users && outcomes[..k] == outcomes;
    }
  }

  /** Every error line names the email of a user whose creation failed,
      followed by the message of that failure. */
  lemma {:induction false} ImportErrorsNameFailures(users: seq<CreateUserParams>, outcomes: seq<Option<string>>, j: nat)
    requires |outcomes| == |users| && j < |ImportErrors(users, outcomes)|
    ensures exists i :: (0 <= i < |users| && outcomes[i].Some?
      && ImportErrors(users, outcomes)[j] == users[i].email + ": " + RethrownMessage(outcomes[i].value))
  {
    var n := |users| - 1;
    var init := ImportErrors(users[..n], outcomes[..n]);
    if j < |init| {
      ImportErrorsNameFailures(users[..n], outcomes[..n], j);
      var i :| 0 <= i < n && outcomes[..n][i].Some?
        && init[j] == users[..n][i].email + ": " + RethrownMessage(outcomes[..n][i].value);
      assert outcomes[i] == outcomes[..n][i] && users[i] == users[..n][i];
    } else {
      assert outcomes[n].Some?;
    }
  }

  // ---------------------------------------------------------------- profile updates

  /** `UpdateUserParams`: a field left out of the payload keeps its value. */
  datatype UpdateUserParams = UpdateUserParams(
    fullName: Option<string>, role: Option<Role>, departmentId: Option<string>, isActive: Option<bool>)

  /** A row of the `users` table; `updateUser` changes its `var` columns. */
  class User {
    const id: UserId
    const email: string
    var fullName: string
    var role: Role
    var departmentId: string
    var isActive: bool

    constructor (id: UserId, email: string, fullName: string, role: Role, departmentId: string, isActive: bool)
      ensures this.id == id && this.email == email && this.fullName == fullName
      ensures this.role == role && this.departmentId == departmentId && this.isActive == isActive
    {
      this.id, this.email, this.fullName := id, email, fullName;
      this.role, this.departmentId, this.isActive := role, departmentId, isActive;
    }

    /** `updateUser(id, params)`. */
    method Update(params: UpdateUserParams)
      modifies this
      ensures fullName == params.fullName.GetOr(old(fullName))
      ensures role == params.role.GetOr(old(role))
      ensures departmentId == params.departmentId.GetOr(old(departmentId))
      ensures isActive == params.isActive.GetOr(old(isActive))
    {
      fullName := params.fullName.GetOr(fullName);
      role := params.role.GetOr(role);
      departmentId := params.departmentId.GetOr(departmentId);
      isActive := params.isActive.GetOr(isActive);
    }

    /** `activateUser`. */
    method Activate()
      modifies this
      ensures isActive
      ensures fullName == old(fullName) && role == old(role) && departmentId == old(departmentId)
    {
      Update(UpdateUserParams(None, None, None, Some(true)));
    }

    /** `deactivateUser`. */
    method Deactivate()
      modifies this
      ensures !isActive
      ensures fullName == old(fullName) && role == old(role) && departmentId == old(departmentId)
    {
      Update(UpdateUserParams(None, None, None, Some(false)));
    }

    /** `deleteUser`: a soft delete; the row stays and only turns inactive. */
    method Delete()
      modifies this
      ensures !isActive
      ensures fullName == old(fullName) && role == old(role) && departmentId == old(departmentId)
    {
      Deactivate();
    }
  }
}
