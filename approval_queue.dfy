/** The approver's queue (leave-app/src/components/leaves/ApprovalQueue.tsx):
    which status a director or HR queue waits on, what it asks the list endpoint
    for, how many fetched applications are pending, and on which cards the
    approve/reject actions are shown. */
module ApprovalQueue {
  import opened Models
  import opened Seqs

  /** The queue component is only rendered for these two roles. */
  datatype QueueRole = DirectorQueue | HrQueue

  /** The status filter of the drop-down: "all" or one status. */
  datatype StatusFilter = All | Only(status: LeaveStatus)

  function PendingStatus(role: QueueRole): (s: LeaveStatus)
    ensures role == DirectorQueue <==> s == PendingDirector
    ensures role == HrQueue <==> s == PendingHr
  {
    match role
    case DirectorQueue => PendingDirector
    case HrQueue => PendingHr
  }

  datatype Query = Query(statuses: seq<LeaveStatus>, page: int, limit: int)

  /** "All" means only the role's own pending status. */
  function QueryParams(role: QueueRole, filter: StatusFilter): (q: Query)
    ensures |q.statuses| == 1 && q.page == 1 && q.limit == 50
    ensures filter == All ==> q.statuses[0] == PendingStatus(role)
    ensures filter.Only? ==> q.statuses[0] == filter.status
  {
    Query([if filter == All then PendingStatus(role) else filter.status], 1, 50)
  }

  function ShowActions(role: QueueRole, status: LeaveStatus): bool {
    status == PendingStatus(role)
  }

  /** The number of fetched applications in the role's pending status. */
  function PendingCount(role: QueueRole, statuses: seq<LeaveStatus>): (n: nat)
    ensures n <= |statuses|
    ensures n == 0 <==> forall i :: 0 <= i < |statuses| ==> !ShowActions(role, statuses[i])
    ensures n == |statuses| <==> forall i :: 0 <= i < |statuses| ==> ShowActions(role, statuses[i])
  {
    CountWhere(statuses, (s: LeaveStatus) => ShowActions(role, s))
  }

  /** On rows that match the query: with the "all" filter every fetched
      application is pending and shows its actions; with a filter for another
      status none does and the pending count is 0. */
  lemma QueuedRowsMatchPendingCount(role: QueueRole, filter: StatusFilter, statuses: seq<LeaveStatus>)
    requires forall i :: 0 <= i < |statuses| ==> statuses[i] in QueryParams(role, filter).statuses
    ensures filter == All || filter == Only(PendingStatus(role)) ==> PendingCount(role, statuses) == |statuses|
    ensures filter.Only? && filter.status != PendingStatus(role) ==> PendingCount(role, statuses) == 0
  {
  }
}
