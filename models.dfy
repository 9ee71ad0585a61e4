/** The enums of the data model (src/types/models.ts) and the leave-application
    row, whose approval columns the workflow updates in place. */
module Models {
  import opened Wrappers

  datatype Role = Staff | Director | Hr | Admin

  /** `study` is used by the workflow and the constants although the enum omits it. */
  datatype LeaveType = Annual | Casual | Sick | Maternity | Paternity | Study

  datatype LeaveStatus = Draft | PendingDirector | PendingHr | Approved | Rejected

  datatype StudyProgram = Bsc | Msc | Phd

  type UserId = string
  type Timestamp = string

  /** One column of an update payload: left out of the payload, or written. */
  datatype Write<T> = Keep | Put(value: T)

  function Written<T>(w: Write<T>, current: T): T {
    match w
    case Keep => current
    case Put(v) => v
  }

  /** An update payload for the `leave_applications` table, column by column. */
  datatype Patch = Patch(
    status: Write<LeaveStatus>,
    directorApprovedBy: Write<Option<UserId>>,
    directorApprovedAt: Write<Option<Timestamp>>,
    directorComments: Write<Option<string>>,
    hrApprovedBy: Write<Option<UserId>>,
    hrApprovedAt: Write<Option<Timestamp>>,
    hrComments: Write<Option<string>>,
    updatedAt: Write<Option<Timestamp>>)

  /** The payload `{}`. */
  const EmptyPatch := Patch(Keep, Keep, Keep, Keep, Keep, Keep, Keep, Keep)

  /** The row as created by an insert: everything but the approval columns. */
  datatype NewApplication = NewApplication(
    userId: UserId,
    leaveType: LeaveType,
    startDate: string,
    endDate: string,
    workingDays: int,
    reason: string,
    studyProgram: Option<StudyProgram>,
    status: LeaveStatus,
    submittedAt: Timestamp)

  /** The columns of a leave application that the approval workflow writes. */
  datatype ApprovalState = ApprovalState(
    status: LeaveStatus,
    directorApprovedBy: Option<UserId>,
    directorApprovedAt: Option<Timestamp>,
    directorComments: Option<string>,
    hrApprovedBy: Option<UserId>,
    hrApprovedAt: Option<Timestamp>,
    hrComments: Option<string>,
    updatedAt: Option<Timestamp>)

  /** The approval columns of a freshly inserted row. */
  function Submitted(status: LeaveStatus): ApprovalState {
    ApprovalState(status, None, None, None, None, None, None, None)
  }

  /** The columns after `.update(p)`: what the payload writes, and the old value elsewhere. */
  function Patched(st: ApprovalState, p: Patch): (r: ApprovalState)
    ensures p == EmptyPatch ==> r == st
  {
    ApprovalState(
      Written(p.status, st.status),
      Written(p.directorApprovedBy, st.directorApprovedBy),
      Written(p.directorApprovedAt, st.directorApprovedAt),
      Written(p.directorComments, st.directorComments),
      Written(p.hrApprovedBy, st.hrApprovedBy),
      Written(p.hrApprovedAt, st.hrApprovedAt),
      Written(p.hrComments, st.hrComments),
      Written(p.updatedAt, st.updatedAt))
  }

  /** A stored leave application. The columns an update can change are `var`s. */
  class LeaveApplication {
    const userId: UserId
    const leaveType: LeaveType
    const startDate: string
    const endDate: string
    const workingDays: int
    const reason: string
    const studyProgram: Option<StudyProgram>
    const submittedAt: Timestamp
    var status: LeaveStatus
    var directorApprovedBy: Option<UserId>
    var directorApprovedAt: Option<Timestamp>
    var directorComments: Option<string>
    var hrApprovedBy: Option<UserId>
    var hrApprovedAt: Option<Timestamp>
    var hrComments: Option<string>
    var updatedAt: Option<Timestamp>

    function State(): ApprovalState
      reads this
    {
      ApprovalState(status, directorApprovedBy, directorApprovedAt, directorComments,
                    hrApprovedBy, hrApprovedAt, hrComments, updatedAt)
    }

    /** The row the database holds after inserting `row`: no stage has acted yet. */
    constructor (row: NewApplication)
      ensures userId == row.userId && leaveType == row.leaveType
      ensures startDate == row.startDate && endDate == row.endDate
      ensures workingDays == row.workingDays && reason == row.reason
      ensures studyProgram == row.studyProgram && submittedAt == row.submittedAt
      ensures State() == Submitted(row.status)
    {
      userId, leaveType, startDate, endDate := row.userId, row.leaveType, row.startDate, row.endDate;
      workingDays, reason, studyProgram, submittedAt := row.workingDays, row.reason, row.studyProgram, row.submittedAt;
      status := row.status;
      directorApprovedBy, directorApprovedAt, directorComments := None, None, None;
      hrApprovedBy, hrApprovedAt, hrComments := None, None, None;
      updatedAt := None;
    }

    /** `.update(p).eq('id', id)` on this row. */
    method Apply(p: Patch)
      modifies this
      ensures State() == Patched(old(State()), p)
    {
      status := Written(p.status, status);
      directorApprovedBy := Written(p.directorApprovedBy, directorApprovedBy);
      directorApprovedAt := Written(p.directorApprovedAt, directorApprovedAt);
      directorComments := Written(p.directorComments, directorComments);
      hrApprovedBy := Written(p.hrApprovedBy, hrApprovedBy);
      hrApprovedAt := Written(p.hrApprovedAt, hrApprovedAt);
      hrComments := Written(p.hrComments, hrComments);
      updatedAt := Written(p.updatedAt, updatedAt);
    }
  }
}
