/** The older leave-application API (leave-app/src/api/leaves.api.ts). Its
    approval has the same two stages as the current API but sends an empty update
    instead of failing when the status is neither pending stage; its rejection
    writes the comment into the column of the stage the application was waiting
    at. The row read back from the table is an `Option`: `None` when no row
    matched. */
module LegacyLeavesApi {
  import opened Wrappers
  import opened Models
  import opened Pagination
  import LeavesApi

  const NotAuthenticated := "Not authenticated"
  const NotFound := "Application not found"

  /** `workflowData?.initial_status || 'pending_director'`: the status the
      workflow function chose, or `pending_director` when it returned none. */
  function DefaultInitialStatus(workflowStatus: Option<LeaveStatus>): (s: LeaveStatus)
    ensures workflowStatus.None? ==> s == PendingDirector
    ensures workflowStatus.Some? ==> s == workflowStatus.value
  {
    workflowStatus.GetOr(PendingDirector)
  }

  /** Without a workflow result, the default agrees with the current API for
      every applicant except a director, whose application the current API sends
      straight to HR. */
  lemma DefaultStatusVersusCurrent(role: Option<Role>)
    ensures DefaultInitialStatus(None) == LeavesApi.InitialStatus(role) <==> role != Some(Director)
  {
  }

  /** `approveLeaveApplication`: the update it sends, or the error it throws. */
  function ApprovePatch(authUser: Option<UserId>, current: Option<LeaveStatus>, comments: Option<string>, now: Timestamp)
    : (r: Result<Patch, string>)
    ensures authUser.None? ==> r == Err(NotAuthenticated)
    ensures authUser.Some? && current.None? ==> r == Err(NotFound)
    ensures r.Ok? <==> authUser.Some? && current.Some?
    ensures r.Ok? && current.value == PendingDirector ==> r.value == LeavesApi.DirectorApproval(authUser.value, now, comments)
    ensures r.Ok? && current.value == PendingHr ==> r.value == LeavesApi.HrApproval(authUser.value, now, comments)
    ensures r.Ok? && current.value != PendingDirector && current.value != PendingHr ==> r.value == EmptyPatch
  {
    if authUser.None? then Err(NotAuthenticated)
    else if current.None? then Err(NotFound)
    else if current.value == PendingDirector then Ok(LeavesApi.DirectorApproval(authUser.value, now, comments))
    else if current.value == PendingHr then Ok(LeavesApi.HrApproval(authUser.value, now, comments))
    else Ok(EmptyPatch)
  }

  /** The two approvals agree on both pending stages; on any other status the
      current API fails while this one succeeds and leaves the row unchanged. */
  lemma ApproveVersusCurrent(st: ApprovalState, user: UserId, comments: Option<string>, now: Timestamp)
    ensures st.status == PendingDirector || st.status == PendingHr ==>
      ApprovePatch(Some(user), Some(st.status), comments, now) == LeavesApi.ApprovePatch(Some(user), st.status, comments, now)
    ensures st.status != PendingDirector && st.status != PendingHr ==>
      LeavesApi.ApprovePatch(Some(user), st.status, comments, now).Err? &&
      ApprovePatch(Some(user), Some(st.status), comments, now).Ok? &&
      Patched(st, ApprovePatch(Some(user), Some(st.status), comments, now).value) == st
  {
  }

  /** `rejectLeaveApplication`: the status becomes `rejected` whatever it was; the
      comment, stored as given, goes to the director column for an application
      waiting for the director, to the HR column for one waiting for HR, and
      nowhere otherwise. No approval stamp is written. */
  function RejectPatch(authUser: Option<UserId>, current: Option<LeaveStatus>, comments: string)
    : (r: Result<Patch, string>)
    ensures authUser.None? ==> r == Err(NotAuthenticated)
    ensures authUser.Some? && current.None? ==> r == Err(NotFound)
    ensures r.Ok? <==> authUser.Some? && current.Some?
    ensures r.Ok? ==> r.value.status == Put(Rejected)
    ensures r.Ok? ==> (r.value.directorComments == if current.value == PendingDirector then Put(Some(comments)) else Keep)
    ensures r.Ok? ==> (r.value.hrComments == if current.value == PendingHr then Put(Some(comments)) else Keep)
    ensures r.Ok? ==> (r.value.directorApprovedBy == Keep && r.value.directorApprovedAt == Keep
                       && r.value.hrApprovedBy == Keep && r.value.hrApprovedAt == Keep && r.value.updatedAt == Keep)
  {
    if authUser.None? then Err(NotAuthenticated)
    else if current.None? then Err(NotFound)
    else
      var updateData := EmptyPatch.(status := Put(Rejected));
      if current.value == PendingDirector then Ok(updateData.(directorComments := Put(Some(comments))))
      else if current.value == PendingHr then Ok(updateData.(hrComments := Put(Some(comments))))
      else Ok(updateData)
  }

  /** A rejection is final: approving a rejected application afterwards changes
      nothing, and the rejection kept the stamps of any stage that approved
      before it. */
  lemma {:induction false} RejectIsFinal(st: ApprovalState, rejecter: UserId, comments: string, approver: UserId, c: Option<string>, now: Timestamp)
    ensures var rejected := Patched(st, RejectPatch(Some(rejecter), Some(st.status), comments).value);
      rejected.status == Rejected
      && rejected.directorApprovedBy == st.directorApprovedBy && rejected.hrApprovedBy == st.hrApprovedBy
      && Patched(rejected, ApprovePatch(Some(approver), Some(rejected.status), c, now).value) == rejected
      && LeavesApi.ApprovePatch(Some(approver), rejected.status, c, now).Err?
  {
    var rejected := Patched(st, RejectPatch(Some(rejecter), Some(st.status), comments).value);
    assert ApprovePatch(Some(approver), Some(Rejected), c, now) == Ok(EmptyPatch);
  }

  /** `approveLeaveApplication` on the row found by id (`None` when there is none). */
  method ApproveLeaveApplication(app: LeaveApplication?, authUser: Option<UserId>, comments: Option<string>, now: Timestamp)
    returns (r: Result<LeaveStatus, string>)
    modifies if app == null then {} else {app}
    ensures var p := ApprovePatch(authUser, if app == null then None else Some(old(app.status)), comments, now);
      if p.Ok? then app != null && r == Ok(app.status) && app.State() == Patched(old(app.State()), p.value)
      else r == Err(p.error) && (app != null ==> app.State() == old(app.State()))
  {
    var application := if app == null then None else Some(app.status);
    var updateData := ApprovePatch(authUser, application, comments, now);
    if updateData.Err? {
      return Err(updateData.error);
    }
    app.Apply(updateData.value);
    return Ok(app.status);
  }

  /** `rejectLeaveApplication` on the row found by id (`None` when there is none). */
  method RejectLeaveApplication(app: LeaveApplication?, authUser: Option<UserId>, comments: string)
    returns (r: Result<LeaveStatus, string>)
    modifies if app == null then {} else {app}
    ensures var p := RejectPatch(authUser, if app == null then None else Some(old(app.status)), comments);
      if p.Ok? then app != null && r == Ok(Rejected) && app.State() == Patched(old(app.State()), p.value)
      else r == Err(p.error) && (app != null ==> app.State() == old(app.State()))
  {
    var application := if app == null then None else Some(app.status);
    var updateData := RejectPatch(authUser, application, comments);
    if updateData.Err? {
      return Err(updateData.error);
    }
    app.Apply(updateData.value);
    return Ok(app.status);
  }

  /** `params?.page || 1` and `params?.limit || 20`: a missing or zero parameter
      takes the default. */
  function ListParams(page: Option<int>, limit: Option<int>): (r: PageRequest)
    ensures r.page == (if page.None? || page == Some(0) then 1 else page.value)
    ensures r.limit == (if limit.None? || limit == Some(0) then 20 else limit.value)
    ensures r.page != 0 && r.limit != 0
  {
    PageRequest(if page.None? || page == Some(0) then 1 else page.value,
                          if limit.None? || limit == Some(0) then 20 else limit.value)
  }

  /** `offset = (page - 1) * limit` and `range(offset, offset + limit - 1)`: the
      same window as the current API's `from`/`to`. */
  function ListRange(req: PageRequest): (w: Window)
    ensures w == RangeFor(req.page, req.limit)
  {
    var offset := (req.page - 1) * req.limit;
    Window(offset, offset + req.limit - 1)
  }

  /** The two APIs request the same rows for the same parameters, except that an
      explicit zero page or limit falls back to the default here only. Here the
      page count is always finite. */
  lemma ListingVersusCurrent(page: Option<int>, limit: Option<int>, count: Option<nat>)
    ensures page != Some(0) && limit != Some(0) ==>
      ListParams(page, limit) == DefaultedRequest(page, limit)
      && ListRange(ListParams(page, limit)) == ListPagination(DefaultedRequest(page, limit), count).0
    ensures TotalPages(count, ListParams(page, limit).limit).Some?
    ensures limit == Some(0) ==> TotalPages(count, DefaultedRequest(page, limit).limit).None?
  {
  }
}
