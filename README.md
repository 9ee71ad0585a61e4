# Leave application system — a verified model of its core

This project models the decision logic of a leave-management web
application. Its client is written in React and TypeScript, and its data
store is Supabase. Two generations of the code are modelled: the older
`leave-app/` tree and the newer `src/` tree. The model covers:

- **Working-day calendar.** Given a start day and a number of working
  days, the application computes the end date of a leave. It also computes
  the resumption date, the first working day after the end date. Weekends
  and a set of holidays are skipped. Days are integers: day 0 is
  1970-01-01, a Thursday. Holidays are a finite set of day numbers given as
  input.
- **Approval workflow.** An application starts in `pending_director`, or
  in `pending_hr` when the applicant is a director. It is approved in two
  stages, `pending_director → pending_hr → approved`, and can be rejected.
  The newer API (module `LeavesApi`) refuses an approval in any other
  status. The older API (module `LegacyLeavesApi`) sends an empty update
  instead. The two are kept as separate modules, and lemmas state where
  they differ. A stored application is the class `Models.LeaveApplication`.
  An update to it is a `Patch`: each column is either kept or overwritten.
- **Approval dialog and queue.** A rejection needs a non-blank comment.
  Confirming or closing clears the dialog. Each queue shows the pending
  status of its role and counts the rows awaiting action.
- **Desired leave months.** A staff member or a director submits, once,
  exactly two distinct months in 1..12. They are stored sorted and
  locked, and a second submission is refused. The two-month picker keeps
  its selection sorted and distinct. Annual leave cannot be submitted until
  the months are in.
- **Passwords and avatars.** The password strength score, its colour and
  label, and the rules of the change-password fields. The storage path that
  `deleteAvatar` derives from an avatar URL.
- **Reports.** Counting and grouping over rows already fetched:
  - the analytics summary;
  - counts by leave type, by status and by department, and the monthly
    trend;
  - leave utilization percentages;
  - user statistics;
  - the bulk user import tally;
  - user counts per designation (job title).

  It also covers offset pagination.

Each core source file becomes one module, except src/api/profile.api.ts,
which becomes `PasswordStrength` and `Avatar`, with the concrete avatar
URLs of the finding in `AvatarExample`. Seven helper modules hold what the
core files share:

- `Wrappers`: `Option` and `Result`.
- `Models`: the role, status and leave-type enums, and the application
  record.
- `Seqs` and `Text`: counting, de-duplication, sorting, searching,
  trimming and ASCII case mapping.
- `Grouping` and `Entries`: the dictionary-filling loops of the reports,
  as a group-by in first-appearance order, and the ascending sort of the
  monthly trend.
- `Pagination`: row ranges and page counts.

Groups are listed in the order their keys first occur. That is the order
in which `Object.entries` lists the string keys of a JavaScript object,
except for keys that are canonical array indices ("7", "2024"): those come
first, in ascending numeric order. The model does not make that exception;
see "## Left out".

A JavaScript default such as `x || d` is modelled as
`Option.GetOr(d)`. Where the empty string also takes the default, the
model tests for it explicitly.

## Model

| member | source | states |
|---|---|---|
| `LeaveCalendar.Weekday` | leave-app/src/components/leaves/LeaveApplicationForm.tsx:112 | `getDay()` on a day number is always in 0..6 |
| `LeaveCalendar.WeekdayNext` | leave-app/src/components/leaves/LeaveApplicationForm.tsx:104-122 | stepping one day forward advances the weekday by one, and Saturday wraps to Sunday |
| `LeaveCalendar.FirstWorkingDayFrom` | leave-app/src/components/leaves/LeaveApplicationForm.tsx:112 | the result is at or after the given day, is a working day (not Saturday, not Sunday, not a holiday), and every day before it is non-working |
| `LeaveCalendar.CalculateEndDate` | leave-app/src/components/leaves/LeaveApplicationForm.tsx:87-127 | no date exactly when the start is missing or `workingDays <= 0`; otherwise the end date is a working day at or after the start, and `[start, end]` holds exactly `workingDays` working days |
| `LeaveCalendar.FirstWorkingDayIsLeast` | leave-app/src/components/leaves/LeaveApplicationForm.tsx:146-159 | any working day with no working day between it and the start equals the computed first working day |
| `LeaveCalendar.NextWorkingDayUnchanged` | leave-app/src/components/leaves/LeaveApplicationForm.tsx:146-159 | skipping a non-working day does not change the first working day found |
| `LeaveCalendar.CalculateResumptionDate` | leave-app/src/components/leaves/LeaveApplicationForm.tsx:132-166 | no date exactly when the end date is missing; otherwise the result is after the end date and is a working day, every day strictly between them is non-working, and the result is the first working day after the end |
| `LeaveCalendar.CountWorkingSplit` | leave-app/src/components/leaves/LeaveApplicationForm.tsx:107-120 | the working-day count over a range is the sum of the counts over its two halves |
| `LeaveCalendar.EndDateUnique` | leave-app/src/components/leaves/LeaveApplicationForm.tsx:107-120 | for given start, count and holidays, at most one day satisfies the end-date property |
| `LeaveCalendar.MondayPlusFiveWorkingDays` | leave-app/src/components/leaves/LeaveApplicationForm.tsx:104-122 | five working days from a Monday with no holidays end on that week's Friday, and that Friday is the only valid end date; the leave resumes the next Monday |
| `LeaveCalendar.FirstFullWeekOf1970` | leave-app/src/components/leaves/LeaveApplicationForm.tsx:104-159 | a concrete instance: five working days from Monday 1970-01-05 end on Friday 1970-01-09, and the leave resumes on Monday 1970-01-12 |
| `LeaveCalendar.SubmitPayload` | leave-app/src/components/leaves/LeaveApplicationForm.tsx:270-283 | nothing is submitted exactly when no end date has been calculated; otherwise the payload carries the form fields with the calculated end date and working days |
| `LeaveCalendar.SubmittedDatesConsistent` | leave-app/src/components/leaves/LeaveApplicationForm.tsx:279-283 | submitting a computed end date yields a payload whose start, end and working-day count agree |
| `Models.Patched` | leave-app/src/api/leaves.api.ts:202-207 | an update that sets no column leaves the row unchanged |
| `Models.LeaveApplication.constructor` | src/api/leaves.api.ts:241-255 | the stored row holds exactly the inserted columns, with no approval stamps |
| `Models.LeaveApplication.Apply` | leave-app/src/api/leaves.api.ts:202-207 | an update writes the columns the patch sets and keeps the others |
| `LeavesApi.InitialStatus` | src/api/leaves.api.ts:235-238 | `pending_hr` exactly for a director and `pending_director` for every other role, including no role |
| `LeavesApi.CreateLeaveApplication` | src/api/leaves.api.ts:218-255 | refused when the caller is not signed in; study leave without a programme is refused before the insert; otherwise the row carries the caller, the initial status of the role, the time and the given fields, and the programme exactly for study leave |
| `LeavesApi.StoredComment` | src/api/leaves.api.ts:360 | a missing or empty comment is stored as null, and any other comment as given |
| `LeavesApi.ApprovePatch` | src/api/leaves.api.ts:353-372 | refused when not signed in; succeeds exactly from `pending_director` or `pending_hr` and fails otherwise with "cannot be approved"; moves to the next stage and stamps the approver, time and comment of that stage only |
| `LeavesApi.ApproveAdvancesOneStage` | src/api/leaves.api.ts:356-369 | approval applies exactly in the two pending states; from `pending_director` it reaches `pending_hr` with the director stamps and leaves the HR columns alone; from `pending_hr` it reaches `approved` with the HR stamps and leaves the director columns alone |
| `LeavesApi.ApprovalPath` | src/api/leaves.api.ts:356-372 | a non-director's application needs two approvals and a director's one; the final state holds exactly the expected stamps; a further approval is refused, so nothing advances twice |
| `LeavesApi.FinalStatusesCannotBeApproved` | src/api/leaves.api.ts:370-372 | approving an approved, rejected or draft application fails with "cannot be approved" |
| `LeavesApi.ApproveLeaveApplication` | src/api/leaves.api.ts:344-377 | on success the stored row becomes the old row with the approval patch applied; on failure the error is returned and the row is untouched |
| `LeavesApi.UpdateStatusPatch` | src/api/leaves.api.ts:503-521 | refused exactly when not signed in; sets the target status and update time; writes the director stamps exactly for a director and the HR stamps exactly for hr or admin, never both, and neither for staff |
| `LeavesApi.UpdateStatusIgnoresCurrentStatus` | src/api/leaves.api.ts:487-521 | a status update moves even an approved application back to `pending_hr`, while approval from that state is refused |
| `LeavesApi.UpdateLeaveStatus` | src/api/leaves.api.ts:503-527 | the stored row becomes the old row with the status patch applied, or is untouched on failure |
| `LegacyLeavesApi.DefaultInitialStatus` | leave-app/src/api/leaves.api.ts:130 | the workflow's status when one is returned, and `pending_director` otherwise |
| `LegacyLeavesApi.DefaultStatusVersusCurrent` | leave-app/src/api/leaves.api.ts:130 | with no workflow result, the older default agrees with the newer initial status exactly for non-directors |
| `LegacyLeavesApi.ApprovePatch` | leave-app/src/api/leaves.api.ts:174-207 | refused when not signed in, and "Application not found" for a missing row; otherwise succeeds; sets the director stamps from `pending_director`, the HR stamps from `pending_hr`, and nothing in any other status |
| `LegacyLeavesApi.ApproveVersusCurrent` | leave-app/src/api/leaves.api.ts:184-207 | in the two pending states both APIs write the same update; in any other state the newer API fails while the older one succeeds and leaves the row unchanged |
| `LegacyLeavesApi.RejectPatch` | leave-app/src/api/leaves.api.ts:227-236 | refused when not signed in or for a missing row; otherwise sets `rejected` from any status; writes the comment to the director column exactly from `pending_director` and to the HR column exactly from `pending_hr`; never stamps an approver or a time |
| `LegacyLeavesApi.RejectIsFinal` | leave-app/src/api/leaves.api.ts:230-236 | a rejected row keeps its approver stamps; a later approval through the older API leaves it unchanged, and the newer API refuses it |
| `LegacyLeavesApi.ApproveLeaveApplication` | leave-app/src/api/leaves.api.ts:176-207 | a missing application yields its error; otherwise the row becomes the old row with the patch applied |
| `LegacyLeavesApi.RejectLeaveApplication` | leave-app/src/api/leaves.api.ts:222-243 | a missing application yields its error; otherwise the row becomes the old row with the rejection patch applied, and the result is `rejected` |
| `LegacyLeavesApi.ListParams` | leave-app/src/api/leaves.api.ts:32-33 | page defaults to 1 and limit to 20 when absent or zero, so neither is zero |
| `LegacyLeavesApi.ListRange` | leave-app/src/api/leaves.api.ts:34 | the older listing asks for the same inclusive window as the shared row-range arithmetic |
| `LegacyLeavesApi.ListingVersusCurrent` | leave-app/src/api/leaves.api.ts:32-34 | the two listings agree on page, limit and window except when the caller passes page 0 or limit 0; there the older one falls back to the defaults and always reports a page count, while the newer one has no page count for limit 0 |
| `Pagination.RangeFor` | src/api/leaves.api.ts:135-137 | the window holds exactly `limit` rows, starts at row 0 on page 1, and never starts before row 0 for a positive page |
| `Pagination.CeilDiv` | src/api/leaves.api.ts:155 | the result `q` is the ceiling quotient: `(q-1)*d < n <= q*d` |
| `Pagination.TotalPages` | leave-app/src/api/users.api.ts:110 | undefined exactly for limit 0; for a positive limit it is the least page count covering all rows, and 0 when there are none |
| `Pagination.RowOnReportedPage` | src/api/leaves.api.ts:135-155 | every existing row lies in the window of a page between 1 and the reported page count |
| `Pagination.PagesAfterLastAreEmpty` | src/api/leaves.api.ts:135-155 | a page after the last reported one starts past the last row |
| `Pagination.PagesDisjoint` | leave-app/src/api/users.api.ts:93-95 | windows of different pages do not overlap |
| `Pagination.ListPagination` | leave-app/src/api/users.api.ts:93-110 | the window holds `limit` rows, the total is the count or 0, and the page count covers the total |
| `Pagination.DefaultListing` | src/api/leaves.api.ts:66-67 | with no page or limit given, rows 0..19 are fetched and the page count covers the total in pages of 20 |
| `ApprovalModal.ConfirmedComment` | leave-app/src/components/leaves/ApprovalModal.tsx:41-47 | nothing is confirmed exactly for a rejection whose comment is empty or all whitespace; otherwise the confirmed comment is the trimmed text; an approval is always confirmed |
| `ApprovalModal.BlankApprovalStoresNoComment` | leave-app/src/components/leaves/ApprovalModal.tsx:47 | approving with a blank comment passes the empty comment |
| `ApprovalModal.Dialog.constructor` | leave-app/src/components/leaves/ApprovalModal.tsx:38-39 | the dialog opens with no comment and no error |
| `ApprovalModal.Dialog.HandleConfirm` | leave-app/src/components/leaves/ApprovalModal.tsx:41-50 | passes the confirmed comment; when refused, keeps the text and sets the rejection error; when confirmed, clears comment and error |
| `ApprovalModal.Dialog.HandleClose` | leave-app/src/components/leaves/ApprovalModal.tsx:52-56 | clears comment and error |
| `ApprovalModal.Dialog.EditComments` | leave-app/src/components/leaves/ApprovalModal.tsx:88-91 | stores the typed text and clears any error |
| `ApprovalQueue.PendingStatus` | leave-app/src/components/leaves/ApprovalQueue.tsx:36-38 | the director queue shows exactly `pending_director` and the HR queue exactly `pending_hr` |
| `ApprovalQueue.QueryParams` | leave-app/src/components/leaves/ApprovalQueue.tsx:40-45 | one status is queried, page 1, limit 50: the role's pending status for "all", otherwise the chosen status |
| `ApprovalQueue.PendingCount` | leave-app/src/components/leaves/ApprovalQueue.tsx:81-84 | at most the rows fetched; 0 exactly when no row shows actions; all rows exactly when every row shows actions |
| `ApprovalQueue.QueuedRowsMatchPendingCount` | leave-app/src/components/leaves/ApprovalQueue.tsx:40-44 | for rows answering the queue's query, every row is pending under "all" or the role's own status, and none under any other status |
| `DesiredMonthsApi.DecimalString` | src/api/desiredLeaveMonths.api.ts:118 | a non-empty string of decimal digits, a single digit below 10 |
| `DesiredMonthsApi.NormalizeMonths` | src/api/desiredLeaveMonths.api.ts:113-137 | a missing or empty list is refused; any other length than 2 is refused with its length; a month outside 1..12 is refused, then a repeated month; otherwise the result is the two months in ascending order |
| `DesiredMonthsApi.NormalizePair` | src/api/desiredLeaveMonths.api.ts:122-137 | for two months: invalid exactly when one is outside 1..12, not distinct exactly when both are valid and equal, otherwise the pair sorted |
| `DesiredMonthsApi.TwoMonthsNormalized` | src/api/desiredLeaveMonths.api.ts:130-132 | de-duplicating and sorting two distinct months gives them in ascending order, and two equal months leave one |
| `DesiredMonthsApi.DedupPair` | src/api/desiredLeaveMonths.api.ts:130 | `new Set` on a pair keeps both distinct months or one repeated month |
| `DesiredMonthsApi.RepeatedMonthRejected` | src/api/desiredLeaveMonths.api.ts:130-137 | `[3, 3]` is refused as not distinct |
| `DesiredMonthsApi.LengthCheckedBeforeDedup` | src/api/desiredLeaveMonths.api.ts:117-119 | `[3, 3, 7]` is refused for its length 3, with the message naming 3, before duplicates are looked at |
| `DesiredMonthsApi.PairStoredAscending` | src/api/desiredLeaveMonths.api.ts:130-132 | `[9, 4]` is stored as `[4, 9]` |
| `DesiredMonthsApi.SubmitDesiredMonths` | src/api/desiredLeaveMonths.api.ts:105-157 | refused when not signed in or when the months do not normalise; "already submitted" when the user has a row; otherwise inserts one locked row for the user, with the normalised months and time, and changes no other row |
| `DesiredMonthsApi.GetMyDesiredMonths` | src/api/desiredLeaveMonths.api.ts:20-39 | an error exactly when not signed in; null for a user with no row, otherwise that row |
| `DesiredMonthsApi.SubmissionIsLocked` | src/api/desiredLeaveMonths.api.ts:139-155 | after a successful submission the user reads back the locked row of two ascending months; every later submission fails, with "already submitted" when its months are valid |
| `DesiredMonthsApi.ValidationDefaults` | src/api/desiredLeaveMonths.api.ts:195-203 | no result exactly for no data or an empty list; otherwise taken from the first row; valid only when `is_valid` is true; a missing message becomes empty |
| `DesiredMonthsForm.ToggleResult` | src/components/desiredMonths/DesiredLeaveMonthsForm.tsx:60-75 | the selection after a toggle, case by case: a selected month is removed; a new month is added in order when fewer than two are selected, and otherwise replaces the smaller month |
| `DesiredMonthsForm.ToggleKeepsSelection` | src/components/desiredMonths/DesiredLeaveMonthsForm.tsx:60-75 | a toggle keeps the selection at most two months, strictly ascending, within 1..12 |
| `DesiredMonthsForm.ResultIsSelection` | src/components/desiredMonths/DesiredLeaveMonthsForm.tsx:60-75 | every case of the toggle table yields a valid selection |
| `DesiredMonthsForm.ToggleOne` | src/components/desiredMonths/DesiredLeaveMonthsForm.tsx:62-71 | with one month selected, toggling it clears the selection, and toggling another month gives the sorted pair |
| `DesiredMonthsForm.ToggleTwo` | src/components/desiredMonths/DesiredLeaveMonthsForm.tsx:62-69 | with two months selected, toggling one removes it, and a new month replaces the first and keeps `[second, new]` sorted |
| `DesiredMonthsForm.FullSelectionAccepted` | src/components/desiredMonths/DesiredLeaveMonthsForm.tsx:77-84 | any full selection passes the server normalisation unchanged |
| `DesiredMonthsForm.MonthPicker.constructor` | src/components/desiredMonths/DesiredLeaveMonthsForm.tsx:55 | nothing is selected, and `canClose` defaults to false |
| `DesiredMonthsForm.MonthPicker.HandleMonthToggle` | src/components/desiredMonths/DesiredLeaveMonthsForm.tsx:60-75 | the selection becomes the toggled one and stays valid |
| `DesiredMonthsForm.MonthPicker.HandleSubmit` | src/components/desiredMonths/DesiredLeaveMonthsForm.tsx:77-84 | submits exactly when two months are selected, and submits that selection, which then normalises to itself |
| `DesiredMonthsForm.MonthPicker.HandleClose` | src/components/desiredMonths/DesiredLeaveMonthsForm.tsx:86-90 | closes exactly when `canClose` holds |
| `DesiredMonthsChecker.PromptAudience` | src/components/desiredMonths/DesiredMonthsChecker.tsx:17-33 | the form renders exactly for staff and directors; the prompt opens exactly for them when not loading and `hasSubmitted` is exactly false; an unknown status never opens it |
| `LeaveFormGates.OtherLeaveTypesUngated` | src/components/leaves/LeaveApplicationForm.tsx:95-108 | leave other than annual is never blocked, invalidated or checked against desired months, and can be submitted exactly when nothing is in progress and an end date exists |
| `LeaveFormGates.AnnualLeaveGate` | src/components/leaves/LeaveApplicationForm.tsx:79-108 | annual leave can be submitted only with desired months submitted, an end date, and no failed date validation; while blocked, the inputs are disabled, the summary is hidden and submission is off |
| `LeaveFormGates.PromptedUserIsBlocked` | src/components/leaves/LeaveApplicationForm.tsx:95-96 | a staff member or director who has not submitted months is prompted and cannot submit annual leave |
| `PasswordStrength.RawScore` | src/api/profile.api.ts:194-229 | the uncapped score is between 0 and 5: the number of checks passed, less 2 (floored at 0) when a common pattern occurs |
| `PasswordStrength.StrengthOf` | src/api/profile.api.ts:231-235 | the score is the raw score capped at 4; strong means a raw score of at least 3; the feedback is one message per failed check |
| `PasswordStrength.CheckPasswordStrength` | src/api/profile.api.ts:190-236 | the step-by-step scoring loop returns exactly `StrengthOf` of the password |
| `PasswordStrength.StrongMeans` | src/api/profile.api.ts:234 | without a common pattern, strong means at least 3 checks passed; with one, all 5 |
| `PasswordStrength.NoFeedbackMeansStrong` | src/api/profile.api.ts:191-229 | no feedback exactly when the password is 8 or more UTF-16 code units long, has all four character classes and no common pattern; such a password is strong |
| `PasswordStrength.ShortStrongPassword` | src/api/profile.api.ts:195-234 | "aA1!" is shorter than 8 code units yet is judged strong, with score 3 |
| `PasswordStrength.NoPatternInShort` | src/api/profile.api.ts:225-226 | a password of fewer than 5 characters contains no common pattern |
| `PasswordStrength.CommonPatternCanStillBeStrong` | src/api/profile.api.ts:225-234 | "Password123!" contains a common pattern yet is strong, with score 3 |
| `PasswordStrength.AllChecksPassed` | src/api/profile.api.ts:194-222 | 12 or more code units with lower case, upper case, a digit and a special character pass all five checks |
| `PasswordStrength.NoClassesIsWeak` | src/api/profile.api.ts:194-234 | fewer than 12 code units with no lower-case letter, digit or special character pass at most one check and are not strong |
| `ChangePasswordForm.ColorMatchesLabel` | src/components/profile/ChangePasswordForm.tsx:88-101 | on scores 0..4: red exactly for "Very Weak", orange exactly for "Weak" or "Fair", yellow exactly for "Good", green exactly for "Strong" |
| `ChangePasswordForm.DisplayedStrength` | src/components/profile/ChangePasswordForm.tsx:66-73 | an empty field shows score 0, no feedback and not strong; otherwise the strength of the password |
| `ChangePasswordForm.MeterShowsStrong` | src/components/profile/ChangePasswordForm.tsx:88-101 | the meter reads "Good" or "Strong", in yellow or green, exactly when the shown password is strong |
| `ChangePasswordForm.NewPasswordError` | src/components/profile/ChangePasswordForm.tsx:161-171 | no error exactly for a password of 8 or more UTF-16 code units judged strong; otherwise the required, too-short or not-strong message, in that order |
| `ChangePasswordForm.FourEmojiPassMinLength` | src/components/profile/ChangePasswordForm.tsx:163-170 | four emoji are four characters but eight code units: they pass the length rule and fail only on strength |
| `ChangePasswordForm.ConfirmError` | src/components/profile/ChangePasswordForm.tsx:217-220 | no error exactly when the confirmation is present and equals the new password; empty gives "Please confirm your password" |
| `ChangePasswordForm.AcceptedPasswords` | src/components/profile/ChangePasswordForm.tsx:161-220 | the form accepts exactly a matching pair of 8 or more UTF-16 code units judged strong; an accepted password scores at least 3 and is shown as computed |
| `Avatar.SplitFrom` | src/api/profile.api.ts:173 | `split` yields one piece exactly when the separator does not occur; the first piece runs up to the first occurrence, or to the end |
| `Avatar.SplitJoin` | src/api/profile.api.ts:173 | joining the pieces with the separator gives back the text |
| `Avatar.SplitPiecesFree` | src/api/profile.api.ts:173 | no piece contains the separator |
| `Avatar.AsWrittenDeletePath` | src/api/profile.api.ts:173-176 | as written: no removal exactly for a URL without "/avatars/"; otherwise "avatars/" followed by the text after the first occurrence, up to the next occurrence or the end, which holds no "/avatars/" |
| `Avatar.DeletePath` | src/api/profile.api.ts:173-176 | corrected: no removal exactly for a URL without "/avatars/"; otherwise everything after the first occurrence, so the URL is the text before it, "/avatars/", and the path |
| `Avatar.BucketSegmentFirst` | src/api/profile.api.ts:155-158 | in a public URL, the first "/avatars/" is the bucket segment |
| `Avatar.DeleteFindsUpload` | src/api/profile.api.ts:141-158 | the corrected path of an uploaded avatar's URL is exactly the path the upload stored |
| `Avatar.UploadPathHasNoSeparator` | src/api/profile.api.ts:143-144 | an upload path built from a file name without '/' contains no "/avatars/" |
| `Avatar.AsWrittenDoublesFolder` | src/api/profile.api.ts:141-176 | for any uploaded avatar, the path as written is "avatars/" plus the stored path, which is not the stored path |
| `AvatarExample.ExampleAsWrittenPath` | src/api/profile.api.ts:141-176 | on a concrete project URL, the path as written is `avatars/avatars/<file>` |
| `AvatarExample.ExampleCorrectedPath` | src/api/profile.api.ts:141-176 | on the same URL, the corrected path is `avatars/<file>`, the stored object |
| `Analytics.SummaryOf` | leave-app/src/api/analytics.api.ts:98-106 | the total is the row count; pending counts exactly `pending_director` plus `pending_hr`; approved and rejected count their own status; with drafts they add up to the total |
| `Analytics.StatusPartition` | leave-app/src/api/analytics.api.ts:98-106 | each row has exactly one of the statuses pending, approved, rejected or draft |
| `Analytics.SummaryBounded` | leave-app/src/api/analytics.api.ts:98-106 | pending plus approved plus rejected is at most the total, and equals it exactly when there are no drafts |
| `Analytics.GroupByLeaveType` | leave-app/src/api/analytics.api.ts:256-272 | the loop returns one group per leave type present, in first-appearance order, with its count and its sum of working days |
| `Analytics.ByLeaveTypeMeaning` | leave-app/src/api/analytics.api.ts:256-272 | the counts add up to the row count; every group's type occurs; its count is the number of rows of that type, and its days are their working days |
| `Analytics.MissingDaysAddNothing` | leave-app/src/api/analytics.api.ts:264 | a row without working days adds nothing to its type's days |
| `Analytics.GroupByStatus` | leave-app/src/api/analytics.api.ts:274-285 | the loop returns one group per status present, with its count |
| `Analytics.ByStatusMeaning` | leave-app/src/api/analytics.api.ts:274-285 | no status is listed twice, and the counts add up to the row count |
| `Analytics.ByStatusCovers` | leave-app/src/api/analytics.api.ts:274-285 | a status has a group exactly when some row has it |
| `Analytics.DepartmentKey` | leave-app/src/api/analytics.api.ts:300-301 | a row is grouped exactly when it has a non-empty department id |
| `Analytics.FindDepartment` | leave-app/src/api/analytics.api.ts:304 | the first department with the id (every one before it has another id), found exactly when one exists |
| `Analytics.DepartmentName` | leave-app/src/api/analytics.api.ts:304-306 | never empty; "Unknown" exactly when the departments were not loaded, the id is not found, or its name is empty or "Unknown" |
| `Analytics.DepartmentEntries` | leave-app/src/api/analytics.api.ts:317-322 | one entry per group, with its id, name and count, and utilization 0 |
| `Analytics.GroupByDepartment` | leave-app/src/api/analytics.api.ts:287-327 | the loop returns the department entries of the grouped rows |
| `Analytics.KeyedIsWithDepartment` | leave-app/src/api/analytics.api.ts:300-301 | the rows grouped are exactly those with a department |
| `Analytics.DepartmentCountsSum` | leave-app/src/api/analytics.api.ts:299-315 | the department counts add up to the number of rows with a department, at most the row count |
| `Analytics.DepartmentEntryMeaning` | leave-app/src/api/analytics.api.ts:304-322 | each entry's id is non-empty, its name is the looked-up name, its count is the department's rows, and its utilization is 0 |
| `Analytics.DepartmentDaysApprovedOnly` | leave-app/src/api/analytics.api.ts:312-314 | a row adds its days to its department exactly when it is approved |
| `Analytics.MonthlyTrend` | leave-app/src/api/analytics.api.ts:329-350 | the loop and sort return the trend: the month groups in ascending order |
| `Analytics.TrendOrdered` | leave-app/src/api/analytics.api.ts:329-350 | the trend is strictly ascending by month, a permutation of the month groups, and its counts add up to the row count |
| `Analytics.TrendEntryMeaning` | leave-app/src/api/analytics.api.ts:332-342 | every month listed occurs; its count is its rows, and its days are the approved rows' days |
| `Analytics.TrendDaysApprovedOnly` | leave-app/src/api/analytics.api.ts:338-340 | a row that is not approved adds no days to its month |
| `Analytics.UtilizationPercent` | leave-app/src/api/analytics.api.ts:180-192 | 0 when nothing is allocated; otherwise the percentage nearest `100 * used / allocated`, halves rounding up |
| `Analytics.UtilizationOf` | leave-app/src/api/analytics.api.ts:170-200 | one entry per balance, with its fields and its percentage; the total percentage is used over allocated summed over all; the department defaults to "N/A" |
| `Analytics.ZeroAllocationZeroUtilization` | leave-app/src/api/analytics.api.ts:180-192 | a type with nothing allocated, or a user with nothing allocated in total, has utilization 0 |
| `Analytics.NearestIsUnique` | leave-app/src/api/analytics.api.ts:180-183 | the rounding bounds determine the percentage uniquely |
| `Analytics.FullAndEmptyUtilization` | leave-app/src/api/analytics.api.ts:180-183 | using everything gives 100, nothing gives 0, and half gives 50 |
| `Users.DepartmentKey` | leave-app/src/api/users.api.ts:408 | every user has a non-empty department key, which is "Unassigned" exactly when the name is missing, empty or "Unassigned" |
| `Users.GetUserStatistics` | leave-app/src/api/users.api.ts:371-425 | the report has the user count, the active count, and the role and department groups of the fetched users; missing data counts as none |
| `Users.StatisticsAddUp` | leave-app/src/api/users.api.ts:392-414 | the role counts and the department counts each add up to the user count; no role or department is listed twice; active users are at most the total, and equal it exactly when everyone is active |
| `Users.UnassignedCounted` | leave-app/src/api/users.api.ts:406-410 | a user without a department name adds one to "Unassigned" |
| `Users.RethrownMessage` | leave-app/src/api/users.api.ts:262 | the rethrown message is never empty, and is the original when that is not empty |
| `Users.ErrorLine` | leave-app/src/api/users.api.ts:359-362 | a failed creation adds one error line and a successful one none |
| `Users.ImportErrorsCount` | leave-app/src/api/users.api.ts:359-362 | there is one error line per failed creation |
| `Users.OutcomesSplit` | leave-app/src/api/users.api.ts:351-363 | every creation either succeeds or fails |
| `Users.BulkImportUsers` | leave-app/src/api/users.api.ts:348-366 | successes plus failures equal the inputs; successes and failures count the outcomes; the error lines are the failures' in order, one per failure |
| `Users.ImportErrorsInOrder` | leave-app/src/api/users.api.ts:351-363 | a prefix of the inputs reports a prefix of the error lines |
| `Users.ImportErrorsNameFailures` | leave-app/src/api/users.api.ts:359-362 | every error line is a failed user's email, ": " and that failure's message |
| `Users.User.constructor` | leave-app/src/api/users.api.ts:201-212 | a created user holds the given columns |
| `Users.User.Update` | leave-app/src/api/users.api.ts:268-292 | each given field is written and each omitted one kept |
| `Users.User.Activate` | leave-app/src/api/users.api.ts:297-299 | sets active and keeps the other columns |
| `Users.User.Deactivate` | leave-app/src/api/users.api.ts:304-306 | clears active and keeps the other columns |
| `Users.User.Delete` | leave-app/src/api/users.api.ts:312-316 | a soft delete: the row stays, and only becomes inactive |
| `Designations.CreateRow` | src/api/designation.api.ts:73-78 | the row has the name, the code upper-cased character by character, active set, and a null description exactly when none or an empty one is given |
| `Designations.ToUpperIdempotent` | src/api/designation.api.ts:75 | upper-casing twice is upper-casing once |
| `Designations.CreatedCodeNormalised` | src/api/designation.api.ts:75 | a stored code is its own upper case and holds no lower-case letter |
| `Designations.UpdateData` | src/api/designation.api.ts:93-97 | every field passes through, except a non-empty code, which is upper-cased; an omitted or empty code is left as given |
| `Designations.Designation.constructor` | src/api/designation.api.ts:66-86 | the stored row holds the inserted columns |
| `Designations.Designation.Update` | src/api/designation.api.ts:89-108 | the fields of the update data are written and the others kept |
| `Designations.Designation.Deactivate` | src/api/designation.api.ts:113-115 | clears active and keeps the other columns |
| `Designations.Designation.Activate` | src/api/designation.api.ts:120-122 | sets active and keeps the other columns |
| `Designations.IsDesignationInUse` | src/api/designation.api.ts:150 | in use exactly when a count is returned and it is positive |
| `Designations.InUseIffHeld` | src/api/designation.api.ts:143-151 | with the exact count, a designation is in use exactly when some user holds it |
| `Designations.DesignationName` | src/api/designation.api.ts:174 | never empty; the designation's name when it has one |
| `Designations.CountEntries` | src/api/designation.api.ts:187 | one entry per group, with its id, name and count |
| `Designations.GetUserCountByDesignation` | src/api/designation.api.ts:156-188 | the reduce returns one entry per designation held, in first-appearance order; missing data gives none |
| `Designations.TotalCountOfEntries` | src/api/designation.api.ts:172-187 | the entry counts add up to the group counts |
| `Designations.KeyedIsDesignated` | src/api/designation.api.ts:161-167 | the users grouped are exactly those with a designation |
| `Designations.UserCountsAddUp` | src/api/designation.api.ts:161-187 | the counts add up to the number of users with a designation, and no designation is listed twice |
| `Designations.UserCountEntry` | src/api/designation.api.ts:172-185 | each entry counts its designation's users and takes its name from the first of them |
| `Grouping.GroupKeys` | leave-app/src/api/analytics.api.ts:259-265 | the dictionary's keys are distinct and are exactly the keys that occur |
| `Grouping.FirstLabel` | leave-app/src/api/analytics.api.ts:303-309 | a group's name comes from the first row with its key |
| `Grouping.GroupTally` | leave-app/src/api/analytics.api.ts:259-265 | the `forEach` loop fills a dictionary whose keys are the keys that occur, first-appearance order, and whose entry for each key is that key's count, weight sum and first name |
| `Grouping.GroupCountsSum` | leave-app/src/api/analytics.api.ts:277-279 | the counts over all keys add up to the rows that have a key |
| `Grouping.GroupsOfCover` | leave-app/src/api/analytics.api.ts:277-285 | the groups have distinct keys, there is a group for a key exactly when a row has it, and the counts add up to the rows that have a key |
| `Grouping.GroupsOfEntry` | leave-app/src/api/analytics.api.ts:259-272 | each group's count, weight total and name are those of its key |
| `Grouping.GroupEntries` | leave-app/src/api/analytics.api.ts:256-272 | the loop and `Object.entries` return the specified groups |
| `Entries.SortByKey` | leave-app/src/api/analytics.api.ts:344-350 | the sort returns its input in strictly ascending key order, as a permutation |
| `Entries.SortCountTotal` | leave-app/src/api/analytics.api.ts:344-349 | sorting keeps the total count |
| `Seqs.CountWhere` | leave-app/src/api/analytics.api.ts:98-106 | `filter(p).length`: at most the length, 0 exactly when no element matches, the length exactly when all do |
| `Seqs.Dedup` | src/api/desiredLeaveMonths.api.ts:130 | `Array.from(new Set(s))`: distinct, with the same elements, and no longer |
| `Seqs.SortAsc` | src/api/desiredLeaveMonths.api.ts:131 | `sort((a, b) => a - b)`: ascending and a permutation |
| `Seqs.RemoveAll` | src/components/desiredMonths/DesiredLeaveMonthsForm.tsx:62-64 | `filter(m => m !== x)`: keeps exactly the other elements, each as often as in the input, and is the identity when `x` is absent |
| `Text.Utf16Length` | src/api/profile.api.ts:194-200 | `length` counts UTF-16 code units: at least one and at most two per character |
| `Text.BmpLength` | src/api/profile.api.ts:194-200 | a string of characters from the Basic Multilingual Plane has exactly one code unit per character |
| `Text.IndexOf` | src/api/profile.api.ts:173 | the first occurrence at or after a position, or none |
| `Text.Trim` | leave-app/src/components/leaves/ApprovalModal.tsx:42-47 | `trim()`: a slice of the text without leading or trailing whitespace, empty exactly when the text is all whitespace |
| `Text.ToLower` | src/api/profile.api.ts:225-226 | `toLowerCase()` character by character, ASCII letters only |
| `Text.ToUpper` | src/api/designation.api.ts:75 | `toUpperCase()` character by character, ASCII letters only; no lower-case letter remains |

## Left out

- Supabase I/O is not modelled. This covers queries, inserts and updates,
  `auth.getUser`, storage calls and the `admin-create-user` edge function.
  Fetched rows, the signed-in user, the role and the clock are
  parameters. Query filters, search and ordering done by the database are
  left out.
- The server-side RPCs are not modelled, because their bodies are not
  part of the source: `validate_leave_application`,
  `check_leave_dates_in_desired_months`, `calculate_working_days`,
  `determine_approval_workflow` and `allocate_leave_for_user`. Their
  result records are opaque inputs. There is no model of overlap,
  minimum-notice, balance or ledger rules.
- JavaScript dates and time zones are replaced by integer day numbers with
  a weekday function. The form fetches holidays only for the start year;
  the model takes the holiday set as given.
- `LeaveCalendar.CalculateEndDate` takes the working-day count as a whole
  number. In the source it is an unrounded JavaScript `number` from a
  numeric input. For a fractional count such as 2.5 the loop stops on the
  working day numbered by its ceiling (the third), while the payload still
  carries 2.5, so `SubmitPayload` and
  `SubmittedDatesConsistent` do not cover that case.
- `DesiredMonthsApi.NormalizeMonths` takes months as whole numbers. The
  form only ever sends months from 1..12. In the source `preferred_months`
  holds JavaScript numbers, and the range test `m < 1 || m > 12` lets a
  fractional month such as 3.5 through, and NaN too: `[3.5, 7]` is stored,
  and `[NaN, NaN]` is refused only as not distinct.
- Floating point is left out: `Math.round` of percentages, average approval
  hours, one-decimal rounding of day totals and the approval rate.
- `Analytics.UtilizationPercent` computes on exact rationals; it does not
  model binary floating-point error in `used / allocated * 100` before
  `Math.round`.
- The monthly trend keys months as the integer `12 * year + (month - 1)`
  instead of the "YYYY-MM" string. Both orders agree for four-digit years.
  The date parsing that produces the key is not modelled.
- `Grouping.GroupEntries` keeps groups in first-appearance order for every
  key. JavaScript lists keys that are canonical array indices (decimal
  numerals such as "7" or "2024") first, in ascending numeric order. Leave
  types, statuses and roles are fixed words, months have the form
  "YYYY-MM", and department and designation ids are taken to be database
  UUIDs, so none of these is such a key.
- `Users.GetUserStatistics` lists the department groups in
  first-appearance order. The source keys them by the free-text department
  name, so a department named "7" or "2024" comes first in the source, in
  numeric order, but not in the model.
- `Analytics.GroupByDepartment` keeps the approved days of each department
  in its groups, but the entries it returns drop them, as the source does.
  The `catch` that turns a failed department fetch into an empty list is
  left out. A failed fetch reaches the model only as a missing department
  list, which gives "Unknown" names.
- `Analytics.UtilizationOf` starts from the balances already fetched; the
  query of `getLeaveUtilization` is not modelled.
- `Users.BulkImportUsers` takes the outcome of each `createUser` call as
  an input list. The internals of `createUser` are not modelled: the
  sign-up call, the two-second wait and the leave-allocation RPC.
  `getUsers` search filters, `getUserById` and `resetUserPassword` are
  plain I/O.
- `Designations`: the listing functions and `deleteDesignation` are plain
  I/O.
- Unpaired surrogates. Password lengths are counted in UTF-16 code units
  (`Text.Utf16Length`), as `length` and `minLength` count them, but a
  character is modelled as a Unicode scalar value. A JavaScript string
  holding an unpaired surrogate therefore has no counterpart in the model.
- Character classes and case mapping follow ASCII. The regular-expression
  engine and Unicode case folding are not modelled.
- CSV export, avatar upload, file names built from `Date.now`, React
  rendering, toasts, query caching and concurrency between approvers are
  not modelled.
- Some behaviours of the code look unintended. The model keeps each of
  them as written:
  - the month list's length is checked before duplicates are removed, so
    `[3, 3, 7]` fails on its count;
  - the older reject writes only the comment column and no approver or
    time stamps;
  - the older approve sends an empty update, rather than an error, in a
    status it cannot advance;
  - neither `approveLeaveApplication` checks the actor's role against the
    stage (src/api/leaves.api.ts:329-372,
    leave-app/src/api/leaves.api.ts:170-207). Any signed-in user, staff
    included, can approve a `pending_director` row. `updateLeaveStatus`
    lets any role set any target status. Authority is left to the
    database's row-level policies, which are not part of this model.

## Findings

| source | as written | input that shows it | evidently intended | confidence | as-written member | corrected member |
|---|---|---|---|---|---|---|
| src/api/profile.api.ts:173-176 | `deleteAvatar` splits the URL at "/avatars/" and prefixes the second piece with `avatars/` | an avatar stored at `avatars/<file>` in bucket `avatars` has public URL `<base>/storage/v1/object/public/avatars/avatars/<file>`, and the path derived is `avatars/avatars/<file>` | remove the stored object `avatars/<file>`, everything after the first "/avatars/" | not executed; relies on the storage client's public URL layout | `Avatar.AsWrittenDoublesFolder` (`Avatar.AsWrittenDeletePath`, `AvatarExample.ExampleAsWrittenPath`) | `Avatar.DeleteFindsUpload` (`Avatar.DeletePath`, `AvatarExample.ExampleCorrectedPath`) |
