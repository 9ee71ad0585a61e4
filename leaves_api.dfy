/** The leave-application workflow of the current API (src/api/leaves.api.ts):
    the initial status chosen by the applicant's role, the study-program check on
    creation, the two-stage approval `pending_director → pending_hr → approved`
    that refuses every other status, and the role-stamped `updateLeaveStatus`.
    The authenticated user, the role read from `users`, the clock and the row
    read back from the table are parameters. */
module LeavesApi {
  import opened Wrappers
  import opened Models
  import opened Pagination

  const NotAuthenticated := "Not authenticated"
  const StudyProgramRequired := "Study program is required for study leave"
  const CannotApprove := "Application cannot be approved in current status"

  /** A director's own application skips the director stage. */
  function InitialStatus(role: Option<Role>): (s: LeaveStatus)
    ensures s == PendingHr <==> role == Some(Director)
    ensures s == PendingDirector <==> role != Some(Director)
  {
    if role == Some(Director) then PendingHr else PendingDirector
  }

  datatype CreateParams = CreateParams(
    leaveType: LeaveType,
    startDate: string,
    endDate: string,
    workingDays: int,
    reason: string,
    studyProgram: Option<StudyProgram>)

  /** `createLeaveApplication` up to the insert: the row it inserts, or the error it throws. */
  function CreateLeaveApplication(authUser: Option<UserId>, role: Option<Role>, params: CreateParams, now: Timestamp)
    : (r: Result<NewApplication, string>)
    ensures authUser.None? ==> r == Err(NotAuthenticated)
    ensures authUser.Some? && params.leaveType == Study && params.studyProgram.None? ==> r == Err(StudyProgramRequired)
    ensures r.Ok? <==> authUser.Some? && (params.leaveType == Study ==> params.studyProgram.Some?)
    ensures r.Ok? ==> r.value.userId == authUser.value && r.value.status == InitialStatus(role) && r.value.submittedAt == now
    ensures r.Ok? ==> (r.value.leaveType == params.leaveType && r.value.startDate == params.startDate
                       && r.value.endDate == params.endDate && r.value.workingDays == params.workingDays
                       && r.value.reason == params.reason)
    ensures r.Ok? ==> (r.value.studyProgram.Some? <==> params.leaveType == Study)
    ensures r.Ok? && r.value.studyProgram.Some? ==> r.value.studyProgram == params.studyProgram
  {
    if authUser.None? then Err(NotAuthenticated)
    else if params.leaveType == Study && params.studyProgram.None? then Err(StudyProgramRequired)
    else
      var program := if params.leaveType == Study then params.studyProgram else None;
      Ok(NewApplication(authUser.value, params.leaveType, params.startDate, params.endDate,
                        params.workingDays, params.reason, program, InitialStatus(role), now))
  }

  /** `comments || null`: a missing or empty comment is stored as null. */
  function StoredComment(comments: Option<string>): (r: Option<string>)
    ensures r.None? <==> comments.None? || comments == Some("")
    ensures r.Some? ==> r == comments
  {
    if comments == Some("") then None else comments
  }

  /** The status an approval moves to, for the two statuses that can be approved. */
  function NextStage(s: LeaveStatus): LeaveStatus
    requires s == PendingDirector || s == PendingHr
  {
    if s == PendingDirector then PendingHr else Approved
  }

  /** The payload of a director's approval. */
  function DirectorApproval(user: UserId, now: Timestamp, comments: Option<string>): Patch {
    Patch(Put(PendingHr), Put(Some(user)), Put(Some(now)), Put(StoredComment(comments)), Keep, Keep, Keep, Keep)
  }

  /** The payload of HR's approval. */
  function HrApproval(user: UserId, now: Timestamp, comments: Option<string>): Patch {
    Patch(Put(Approved), Keep, Keep, Keep, Put(Some(user)), Put(Some(now)), Put(StoredComment(comments)), Keep)
  }

  /** `approveLeaveApplication`: the update for the application's current status,
      or the error thrown before any update is issued. */
  function ApprovePatch(authUser: Option<UserId>, current: LeaveStatus, comments: Option<string>, now: Timestamp)
    : (r: Result<Patch, string>)
    ensures authUser.None? ==> r == Err(NotAuthenticated)
    ensures authUser.Some? ==> (r.Ok? <==> current == PendingDirector || current == PendingHr)
    ensures authUser.Some? && r.Err? ==> r.error == CannotApprove
    ensures r.Ok? ==> r.value.status == Put(NextStage(current))
    ensures r.Ok? && current == PendingDirector ==> r.value == DirectorApproval(authUser.value, now, comments)
    ensures r.Ok? && current == PendingHr ==> r.value == HrApproval(authUser.value, now, comments)
  {
    if authUser.None? then Err(NotAuthenticated)
    else if current == PendingDirector then Ok(DirectorApproval(authUser.value, now, comments))
    else if current == PendingHr then Ok(HrApproval(authUser.value, now, comments))
    else Err(CannotApprove)
  }

  /** The approval columns after an approval, or `None` when it fails. */
  function Approve(st: ApprovalState, user: UserId, comments: Option<string>, now: Timestamp): Option<ApprovalState> {
    match ApprovePatch(Some(user), st.status, comments, now)
    case Ok(p) => Some(Patched(st, p))
    case Err(_) => None
  }

  /** An approval advances exactly one stage, stamps that stage's columns
      and leaves the other stage's columns as they were. */
  lemma ApproveAdvancesOneStage(st: ApprovalState, user: UserId, comments: Option<string>, now: Timestamp)
    ensures Approve(st, user, comments, now).Some? <==> st.status == PendingDirector || st.status == PendingHr
    ensures st.status == PendingDirector ==>
      var st' := Approve(st, user, comments, now).value;
      st'.status == PendingHr && st'.directorApprovedBy == Some(user) && st'.directorApprovedAt == Some(now)
      && st'.directorComments == StoredComment(comments)
      && st'.hrApprovedBy == st.hrApprovedBy && st'.hrApprovedAt == st.hrApprovedAt && st'.hrComments == st.hrComments
    ensures st.status == PendingHr ==>
      var st' := Approve(st, user, comments, now).value;
      st'.status == Approved && st'.hrApprovedBy == Some(user) && st'.hrApprovedAt == Some(now)
      && st'.hrComments == StoredComment(comments)
      && st'.directorApprovedBy == st.directorApprovedBy && st'.directorApprovedAt == st.directorApprovedAt
      && st'.directorComments == st.directorComments
  {
  }

  /** The whole path from submission: a staff (or hr, or admin) application needs
      the director's and then HR's approval, and ends approved with both stages
      stamped; a director's application needs HR's approval only. After that no
      further approval succeeds, so a repeated approve cannot advance twice. */
  lemma {:induction false} ApprovalPath(role: Option<Role>, director: UserId, hr: UserId, c1: Option<string>, c2: Option<string>, t1: Timestamp, t2: Timestamp, c3: Option<string>, t3: Timestamp)
    ensures role != Some(Director) ==>
      var s1 := Approve(Submitted(InitialStatus(role)), director, c1, t1);
      s1.Some? && s1.value.status == PendingHr &&
      var s2 := Approve(s1.value, hr, c2, t2);
      s2.Some? && s2.value == ApprovalState(Approved, Some(director), Some(t1), StoredComment(c1), Some(hr), Some(t2), StoredComment(c2), None) &&
      Approve(s2.value, director, c3, t3).None?
    ensures role == Some(Director) ==>
      var s1 := Approve(Submitted(InitialStatus(role)), hr, c2, t2);
      s1.Some? && s1.value == ApprovalState(Approved, None, None, None, Some(hr), Some(t2), StoredComment(c2), None) &&
      Approve(s1.value, hr, c3, t3).None?
  {
    var s0 := Submitted(InitialStatus(role));
    if role != Some(Director) {
      ApproveAdvancesOneStage(s0, director, c1, t1);
      var s1 := Approve(s0, director, c1, t1).value;
      ApproveAdvancesOneStage(s1, hr, c2, t2);
      ApproveAdvancesOneStage(Approve(s1, hr, c2, t2).value, director, c3, t3);
    } else {
      ApproveAdvancesOneStage(s0, hr, c2, t2);
      ApproveAdvancesOneStage(Approve(s0, hr, c2, t2).value, hr, c3, t3);
    }
  }

  /** Approved, rejected and draft applications cannot be approved. */
  lemma FinalStatusesCannotBeApproved(st: ApprovalState, user: UserId, comments: Option<string>, now: Timestamp)
    requires st.status in {Approved, Rejected, Draft}
    ensures ApprovePatch(Some(user), st.status, comments, now) == Err(CannotApprove)
  {
  }

  /** `approveLeaveApplication` on a fetched row: the row is updated only when the
      approval succeeds, and the new status is returned. */
  method ApproveLeaveApplication(app: LeaveApplication, authUser: Option<UserId>, comments: Option<string>, now: Timestamp)
    returns (r: Result<LeaveStatus, string>)
    modifies app
    ensures var p := ApprovePatch(authUser, old(app.status), comments, now);
      if p.Ok? then r == Ok(app.status) && app.State() == Patched(old(app.State()), p.value)
      else r == Err(p.error) && app.State() == old(app.State())
  {
    var updateData := ApprovePatch(authUser, app.status, comments, now);
    if updateData.Err? {
      return Err(updateData.error);
    }
    app.Apply(updateData.value);
    return Ok(app.status);
  }

  /** The target statuses `updateLeaveStatus` is typed to accept. */
  predicate IsStatusUpdateTarget(s: LeaveStatus) {
    s == Approved || s == Rejected || s == PendingHr
  }

  /** `updateLeaveStatus`: the status and `updated_at` are always written; a
      director stamps the director columns, hr or admin the HR columns, anyone
      else neither. The comment is stored as given, and the current status is
      not consulted. */
  function UpdateStatusPatch(authUser: Option<UserId>, role: Option<Role>, target: LeaveStatus, comments: string, now: Timestamp)
    : (r: Result<Patch, string>)
    requires IsStatusUpdateTarget(target)
    ensures authUser.None? <==> r == Err(NotAuthenticated)
    ensures r.Ok? ==> r.value.status == Put(target) && r.value.updatedAt == Put(Some(now))
    ensures r.Ok? ==> (r.value.directorApprovedBy.Put? <==> role == Some(Director))
    ensures r.Ok? ==> (r.value.hrApprovedBy.Put? <==> role == Some(Hr) || role == Some(Admin))
    ensures r.Ok? && role == Some(Director) ==>
      r.value.directorApprovedBy == Put(Some(authUser.value)) && r.value.directorApprovedAt == Put(Some(now))
      && r.value.directorComments == Put(Some(comments))
    ensures r.Ok? && (role == Some(Hr) || role == Some(Admin)) ==>
      r.value.hrApprovedBy == Put(Some(authUser.value)) && r.value.hrApprovedAt == Put(Some(now))
      && r.value.hrComments == Put(Some(comments))
    ensures r.Ok? ==> !(r.value.directorApprovedBy.Put? && r.value.hrApprovedBy.Put?)
    ensures r.Ok? && !r.value.directorApprovedBy.Put? ==>
      r.value.directorApprovedAt == Keep && r.value.directorComments == Keep
    ensures r.Ok? && !r.value.hrApprovedBy.Put? ==>
      r.value.hrApprovedAt == Keep && r.value.hrComments == Keep
  {
    if authUser.None? then Err(NotAuthenticated)
    else
      var isDirector := role == Some(Director);
      var isHR := role == Some(Hr) || role == Some(Admin);
      var base := Patch(Put(target), Keep, Keep, Keep, Keep, Keep, Keep, Put(Some(now)));
      if isDirector then
        Ok(base.(directorComments := Put(Some(comments)), directorApprovedBy := Put(Some(authUser.value)),
                 directorApprovedAt := Put(Some(now))))
      else if isHR then
        Ok(base.(hrComments := Put(Some(comments)), hrApprovedBy := Put(Some(authUser.value)),
                 hrApprovedAt := Put(Some(now))))
      else Ok(base)
  }

  /** Because `updateLeaveStatus` does not look at the current status, it can move
      an application that is already approved back to `pending_hr`, which
      `approveLeaveApplication` never does. */
  lemma UpdateStatusIgnoresCurrentStatus(st: ApprovalState, user: UserId, role: Option<Role>, comments: string, now: Timestamp)
    requires st.status == Approved
    ensures var r := UpdateStatusPatch(Some(user), role, PendingHr, comments, now);
      r.Ok? && Patched(st, r.value).status == PendingHr
    ensures Approve(st, user, Some(comments), now).None?
  {
  }

  /** `updateLeaveStatus` on a fetched row. */
  method UpdateLeaveStatus(app: LeaveApplication, authUser: Option<UserId>, role: Option<Role>,
                           target: LeaveStatus, comments: string, now: Timestamp)
    returns (r: Result<LeaveStatus, string>)
    requires IsStatusUpdateTarget(target)
    modifies app
    ensures var p := UpdateStatusPatch(authUser, role, target, comments, now);
      if p.Ok? then r == Ok(target) && app.State() == Patched(old(app.State()), p.value)
      else r == Err(p.error) && app.State() == old(app.State())
  {
    var updateData := UpdateStatusPatch(authUser, role, target, comments, now);
    if updateData.Err? {
      return Err(updateData.error);
    }
    app.Apply(updateData.value);
    return Ok(app.status);
  }
}
