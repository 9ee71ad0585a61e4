/** The working-day arithmetic of the leave application form
    (leave-app/src/components/leaves/LeaveApplicationForm.tsx): an end date is
    found by walking forward from the start date until the requested number of
    working days has been counted, and the resumption date is the first working
    day after the end date. A date is a day number (day 0 is 1970-01-01, a
    Thursday); the public holidays are a finite set of day numbers, and an empty
    date string is `None`. */
module LeaveCalendar {
  import opened Wrappers
  import opened Models

  /** `Date.getDay()`: 0 is Sunday, 6 is Saturday. */
  function Weekday(d: int): (w: int)
    ensures 0 <= w < 7
  {
    (d + 4) % 7
  }

  /** The day after a Saturday is a Sunday, and otherwise the weekday goes up by one. */
  lemma WeekdayNext(d: int)
    ensures Weekday(d + 1) == if Weekday(d) == 6 then 0 else Weekday(d) + 1
  {
    var q, r := (d + 4) / 7, (d + 4) % 7;
    assert d + 4 == 7 * q + r;
    if r == 6 {
      assert d + 5 == 7 * (q + 1) + 0;
    } else {
      assert d + 5 == 7 * q + (r + 1);
    }
  }

  /** Not a Sunday, not a Saturday and not a public holiday. */
  predicate IsWorkingDay(d: int, holidays: set<int>) {
    Weekday(d) != 0 && Weekday(d) != 6 && d !in holidays
  }

  /** The number of working days in `[a, b)`. */
  function CountWorking(a: int, b: int, holidays: set<int>): nat
    decreases b - a
  {
    if b <= a then 0
    else CountWorking(a, b - 1, holidays) + (if IsWorkingDay(b - 1, holidays) then 1 else 0)
  }

  /** The first working day on or after `d`. It exists because only two days a
      week are weekend days and there are finitely many holidays. */
  function FirstWorkingDayFrom(d: int, holidays: set<int>): (w: int)
    ensures d <= w && IsWorkingDay(w, holidays)
    ensures forall x :: d <= x < w ==> !IsWorkingDay(x, holidays)
    decreases |holidays|
  {
    var w0 := if Weekday(d) == 6 then d + 2 else if Weekday(d) == 0 then d + 1 else d;
    WeekdayNext(d);
    WeekdayNext(d + 1);
    if w0 !in holidays then w0
    else
      var w := FirstWorkingDayFrom(w0 + 1, holidays - {w0});
      assert forall x :: d <= x < w ==> !IsWorkingDay(x, holidays) by {
        forall x | d <= x < w ensures !IsWorkingDay(x, holidays) {
          if x > w0 {
            assert !IsWorkingDay(x, holidays - {w0});
          }
        }
      }
      w
  }

  /** `e` is the end date of a leave of `n` working days starting on `s`: it is a
      working day on or after `s`, and `[s, e]` holds exactly `n` working days. */
  predicate IsEndDate(s: int, n: int, holidays: set<int>, e: int) {
    s <= e && IsWorkingDay(e, holidays) && CountWorking(s, e + 1, holidays) == n
  }

  /** `calculateEndDate`: an empty start or a non-positive count gives no date. */
  method CalculateEndDate(startDate: Option<int>, workingDays: int, holidays: set<int>) returns (endDate: Option<int>)
    ensures endDate.None? <==> startDate.None? || workingDays <= 0
    ensures endDate.Some? ==> IsEndDate(startDate.value, workingDays, holidays, endDate.value)
  {
    if startDate.None? || workingDays <= 0 {
      return None;
    }
    var start := startDate.value;
    var currentDate := start;
    var daysAdded := 0;
    while daysAdded < workingDays
      invariant start <= currentDate
      invariant 0 <= daysAdded <= workingDays
      invariant daysAdded < workingDays ==> CountWorking(start, currentDate, holidays) == daysAdded
      invariant daysAdded == workingDays ==> IsEndDate(start, workingDays, holidays, currentDate)
      decreases workingDays - daysAdded, FirstWorkingDayFrom(currentDate, holidays) - currentDate
    {
      var dayOfWeek := Weekday(currentDate);
      if dayOfWeek != 0 && dayOfWeek != 6 && currentDate !in holidays {
        daysAdded := daysAdded + 1;
      } else {
        NextWorkingDayUnchanged(currentDate, holidays);
      }
      if daysAdded < workingDays {
        currentDate := currentDate + 1;
      }
    }
    return Some(currentDate);
  }

  /** A working day with no working day between `d` and it is the first one. */
  lemma FirstWorkingDayIsLeast(d: int, w: int, holidays: set<int>)
    requires d <= w && IsWorkingDay(w, holidays)
    requires forall x :: d <= x < w ==> !IsWorkingDay(x, holidays)
    ensures w == FirstWorkingDayFrom(d, holidays)
  {
    var f := FirstWorkingDayFrom(d, holidays);
  }

  /** Skipping a non-working day does not move the next working day. */
  lemma NextWorkingDayUnchanged(d: int, holidays: set<int>)
    requires !IsWorkingDay(d, holidays)
    ensures FirstWorkingDayFrom(d + 1, holidays) == FirstWorkingDayFrom(d, holidays)
  {
    var w := FirstWorkingDayFrom(d, holidays);
    assert d < w;
    FirstWorkingDayIsLeast(d + 1, w, holidays);
  }

  /** `calculateResumptionDate`: an empty end date gives no date. */
  method CalculateResumptionDate(endDate: Option<int>, holidays: set<int>) returns (resumption: Option<int>)
    ensures resumption.None? <==> endDate.None?
    ensures resumption.Some? ==> endDate.value < resumption.value && IsWorkingDay(resumption.value, holidays)
    ensures resumption.Some? ==> forall x :: endDate.value < x < resumption.value ==> !IsWorkingDay(x, holidays)
    ensures resumption.Some? ==> resumption.value == FirstWorkingDayFrom(endDate.value + 1, holidays)
  {
    if endDate.None? {
      return None;
    }
    var resumptionDate := endDate.value + 1;
    ghost var target := FirstWorkingDayFrom(resumptionDate, holidays);
    while true
      invariant endDate.value < resumptionDate <= target
      invariant forall x :: endDate.value < x < resumptionDate ==> !IsWorkingDay(x, holidays)
      decreases target - resumptionDate
    {
      var dayOfWeek := Weekday(resumptionDate);
      if dayOfWeek != 0 && dayOfWeek != 6 && resumptionDate !in holidays {
        break;
      }
      resumptionDate := resumptionDate + 1;
    }
    FirstWorkingDayIsLeast(endDate.value + 1, resumptionDate, holidays);
    return Some(resumptionDate);
  }

  lemma {:induction false} CountWorkingSplit(a: int, m: int, b: int, holidays: set<int>)
    requires a <= m <= b
    ensures CountWorking(a, b, holidays) == CountWorking(a, m, holidays) + CountWorking(m, b, holidays)
    decreases b - m
  {
    if m < b {
      CountWorkingSplit(a, m, b - 1, holidays);
    }
  }

  /** The end date is determined by the start date and the count: no two
      different days are both end dates of the same leave. */
  lemma EndDateUnique(s: int, n: int, holidays: set<int>, e1: int, e2: int)
    requires IsEndDate(s, n, holidays, e1) && IsEndDate(s, n, holidays, e2)
    ensures e1 == e2
  {
    if e1 < e2 {
      CountWorkingSplit(s, e1 + 1, e2 + 1, holidays);
    } else if e2 < e1 {
      CountWorkingSplit(s, e2 + 1, e1 + 1, holidays);
    }
  }

  /** A leave of 5 working days that starts on a Monday, with no holidays, ends on
      the Friday of the same week, and work resumes on the next Monday. */
  lemma MondayPlusFiveWorkingDays(m: int)
    requires Weekday(m) == 1
    ensures IsEndDate(m, 5, {}, m + 4) && Weekday(m + 4) == 5
    ensures forall e :: IsEndDate(m, 5, {}, e) ==> e == m + 4
    ensures FirstWorkingDayFrom(m + 5, {}) == m + 7 && Weekday(m + 7) == 1
  {
    assert Weekday(m + 1) == 2 && Weekday(m + 2) == 3 && Weekday(m + 3) == 4 && Weekday(m + 4) == 5;
    assert Weekday(m + 5) == 6 && Weekday(m + 6) == 0 && Weekday(m + 7) == 1;
    assert CountWorking(m, m + 1, {}) == 1;
    assert CountWorking(m, m + 3, {}) == 3;
    assert CountWorking(m, m + 5, {}) == 5;
    forall e | IsEndDate(m, 5, {}, e) ensures e == m + 4 {
      EndDateUnique(m, 5, {}, e, m + 4);
    }
    var r := FirstWorkingDayFrom(m + 5, {});
    assert !IsWorkingDay(m + 5, {}) && !IsWorkingDay(m + 6, {}) && IsWorkingDay(m + 7, {});
  }

  /** Monday 1970-01-05 (day 4) plus 5 working days ends on Friday 1970-01-09
      (day 8); work resumes on Monday 1970-01-12 (day 11). */
  lemma FirstFullWeekOf1970()
    ensures IsEndDate(4, 5, {}, 8) && FirstWorkingDayFrom(9, {}) == 11
  {
    MondayPlusFiveWorkingDays(4);
  }

  /** The fields of the form that `onSubmit` merges with the calculated state. */
  datatype FormData = FormData(leaveType: LeaveType, startDate: Option<int>, endDate: Option<int>, reason: string)

  /** The object handed to the create mutation. */
  datatype Submission = Submission(leaveType: LeaveType, startDate: Option<int>, endDate: int, reason: string, workingDays: int)

  /** `onSubmit`: nothing is sent while no end date has been calculated;
      otherwise the end date and the working-day count come from the form's
      calculated state and override whatever the form field holds. */
  function SubmitPayload(data: FormData, calculatedEndDate: Option<int>, workingDays: int): (r: Option<Submission>)
    ensures r.None? <==> calculatedEndDate.None?
    ensures r.Some? ==> r.value.endDate == calculatedEndDate.value && r.value.workingDays == workingDays
    ensures r.Some? ==> r.value.leaveType == data.leaveType && r.value.startDate == data.startDate && r.value.reason == data.reason
  {
    match calculatedEndDate
    case None => None
    case Some(e) => Some(Submission(data.leaveType, data.startDate, e, data.reason, workingDays))
  }

  /** When the calculated end date is the end date of the form's start and the
      working-day count, so is the submitted one: the server receives a
      consistent triple. */
  lemma SubmittedDatesConsistent(data: FormData, e: int, workingDays: int, holidays: set<int>)
    requires data.startDate.Some? && IsEndDate(data.startDate.value, workingDays, holidays, e)
    ensures var r := SubmitPayload(data, Some(e), workingDays);
      r.Some? && r.value.startDate.Some? && IsEndDate(r.value.startDate.value, r.value.workingDays, holidays, r.value.endDate)
  {
  }
}
