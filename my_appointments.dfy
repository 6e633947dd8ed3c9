/** The "My Appointments" screen: the upcoming and history lists it keeps, the local ids
    it gives their rows, cancelling (a move from upcoming to history), the reschedule
    dialog, and the day/month badge drawn for each row. */
module MyAppointments {
  import opened Wrappers
  import opened Text
  import opened Calendar
  import opened Lists
  import opened AppointmentService
  import DemoServer

  /** A summary row with the local id the screen gives it. */
  datatype UIAppointment = UIAppointment(item: SummaryItem, id: string)

  // ---- Local ids ----

  /** The local id of the row at position `i`: "<appointment id>-<i>". */
  function UIId(appointmentId: string, i: nat): string
  {
    appointmentId + "-" + NatToString(i)
  }

  /** Every summary row, in order, with its position-based local id. */
  function MapToUI(items: seq<SummaryItem>): (r: seq<UIAppointment>)
    ensures |r| == |items|
    ensures forall i :: 0 <= i < |r| ==> r[i].item == items[i]
  {
    seq(|items|, i requires 0 <= i < |items| => UIAppointment(items[i], UIId(items[i].appointmentId, i)))
  }

  /** A local id gives its position back, whatever the appointment ids look like: the
      digits after the last '-' are the position. */
  lemma UIIdDeterminesPosition(a: string, i: nat, b: string, j: nat)
    requires UIId(a, i) == UIId(b, j)
    ensures i == j
  {
    var s := UIId(a, i);
    var ni, nj := NatToString(i), NatToString(j);
    assert s == a + "-" + ni;
    assert s == b + "-" + nj;
    assert s[|a|] == '-' && s[|b|] == '-';
    assert forall k :: |b| < k < |s| ==> IsDigit(s[k]) by {
      forall k | |b| < k < |s| ensures IsDigit(s[k]) {
        assert s[k] == nj[k - |b| - 1];
      }
    }
    assert forall k :: |a| < k < |s| ==> IsDigit(s[k]) by {
      forall k | |a| < k < |s| ensures IsDigit(s[k]) {
        assert s[k] == ni[k - |a| - 1];
      }
    }
    assert |a| == |b|;
    assert ni == s[|a| + 1..] == nj;
    NatToStringInjective(i, j);
  }

  predicate DistinctIds(s: seq<UIAppointment>)
  {
    forall i, j :: 0 <= i < j < |s| ==> s[i].id != s[j].id
  }

  /** Local ids are distinct even when appointment ids repeat. */
  lemma UIIdsDistinct(items: seq<SummaryItem>)
    ensures DistinctIds(MapToUI(items))
  {
    var r := MapToUI(items);
    forall i, j | 0 <= i < j < |r| ensures r[i].id != r[j].id {
      if r[i].id == r[j].id {
        UIIdDeterminesPosition(items[i].appointmentId, i, items[j].appointmentId, j);
      }
    }
  }

  // ---- Cancel: move from upcoming to history ----

  function WithId(id: string): UIAppointment -> bool
  {
    (a: UIAppointment) => a.id == id
  }

  function WithoutId(id: string): UIAppointment -> bool
  {
    (a: UIAppointment) => a.id != id
  }

  function WithStatus(a: UIAppointment, status: string): UIAppointment
  {
    a.(item := a.item.(status := status))
  }

  datatype Tabs = Tabs(upcoming: seq<UIAppointment>, history: seq<UIAppointment>)

  /** The two lists after cancelling the row with local id `id`: looked up in upcoming
      only; when found, every upcoming row with that id goes and a Cancelled copy of the
      first one is appended to history. */
  function CancelMove(t: Tabs, id: string): Tabs
  {
    match FirstIndex(t.upcoming, WithId(id))
    case None => t
    case Some(k) => Tabs(Filter(t.upcoming, WithoutId(id)), t.history + [WithStatus(t.upcoming[k], "Cancelled")])
  }

  /** An id not in upcoming (a history row, say) changes neither list. */
  lemma CancelMoveUnknown(t: Tabs, id: string)
    requires forall j :: 0 <= j < |t.upcoming| ==> t.upcoming[j].id != id
    ensures CancelMove(t, id) == t
  {
  }

  /** With distinct ids, the row leaves upcoming at its place, a Cancelled copy ends
      history, and the two lists hold as many rows together as before. */
  lemma CancelMoveKnown(t: Tabs, id: string, k: nat)
    requires DistinctIds(t.upcoming)
    requires k < |t.upcoming| && t.upcoming[k].id == id
    ensures CancelMove(t, id).upcoming == t.upcoming[..k] + t.upcoming[k + 1..]
    ensures CancelMove(t, id).history == t.history + [WithStatus(t.upcoming[k], "Cancelled")]
    ensures |CancelMove(t, id).upcoming| + |CancelMove(t, id).history| == |t.upcoming| + |t.history|
  {
    FirstIndexUnique(t.upcoming, WithId(id), k);
    FilterDropsOne(t.upcoming, WithoutId(id), k);
  }

  // ---- Reschedule ----

  /** A row with the date, time and status of a reschedule answer. */
  function Rescheduled(a: UIAppointment, u: RescheduleResponse): UIAppointment
  {
    a.(item := a.item.(appointmentDate := u.appointmentDate, appointmentTime := u.appointmentTime, status := u.status))
  }

  /** Every row of appointment `appointmentId` takes the answer's date, time and status. */
  function ApplyUpdate(items: seq<UIAppointment>, appointmentId: string, u: RescheduleResponse): (r: seq<UIAppointment>)
    ensures |r| == |items|
  {
    seq(|items|, i requires 0 <= i < |items| =>
      if items[i].item.appointmentId == appointmentId then Rescheduled(items[i], u) else items[i])
  }

  /** Matching rows keep their id, doctor and type and take the new date, time and status;
      other rows are untouched. */
  lemma ApplyUpdateEffect(items: seq<UIAppointment>, appointmentId: string, u: RescheduleResponse, i: nat)
    requires i < |items|
    ensures var r := ApplyUpdate(items, appointmentId, u)[i];
      && r.id == items[i].id
      && r.item.appointmentId == items[i].item.appointmentId
      && r.item.doctorName == items[i].item.doctorName
      && r.item.kind == items[i].item.kind
      && (items[i].item.appointmentId == appointmentId ==>
            r.item.appointmentDate == u.appointmentDate && r.item.appointmentTime == u.appointmentTime
            && r.item.status == u.status)
      && (items[i].item.appointmentId != appointmentId ==> r == items[i])
  {
  }

  /** Applying the same answer twice is applying it once. */
  lemma ApplyUpdateIdempotent(items: seq<UIAppointment>, appointmentId: string, u: RescheduleResponse)
    ensures ApplyUpdate(ApplyUpdate(items, appointmentId, u), appointmentId, u) == ApplyUpdate(items, appointmentId, u)
  {
  }

  /** Rescheduling keeps the local ids, so the ids stay distinct. */
  lemma ApplyUpdateKeepsIds(items: seq<UIAppointment>, appointmentId: string, u: RescheduleResponse)
    requires DistinctIds(items)
    ensures DistinctIds(ApplyUpdate(items, appointmentId, u))
  {
  }

  // ---- Date badge ----

  /** The badge drawn beside a row: the day number and a caption. */
  datatype DateParts = DateParts(day: string, caption: string)

  const TodayLabel := "Today"
  const InvalidDateLabel := "INVALID DATE"

  /** `s.replace(/^0/, '')`: one leading zero, if any, is dropped. */
  function StripLeadingZero(s: string): (r: string)
    ensures |s| > 0 && s[0] == '0' ==> r == s[1..]
    ensures !(|s| > 0 && s[0] == '0') ==> r == s
  {
    if |s| > 0 && s[0] == '0' then s[1..] else s
  }

  /** The day, month and year numbers `parseInt` reads from the first three pieces of a
      "DD-MM-YYYY" string, when there are three pieces and each is a string of digits. */
  function BadgeFields(dateStr: string): Option<(nat, nat, nat)>
  {
    var parts := Split(dateStr, '-');
    if |parts| < 3 then None
    else
      var day := ParseNat(parts[0]);
      var month := ParseNat(parts[1]);
      var year := ParseNat(parts[2]);
      if day.None? || month.None? || year.None? then None
      else Some((day.value, month.value, year.value))
  }

  /** The year `new Date(y, ...)` uses: 0 to 99 are read as 1900 to 1999. */
  function FullYear(y: nat): nat
  {
    if y < 100 then 1900 + y else y
  }

  /** `new Date(year, month - 1, day)` on the three pieces of a "DD-MM-YYYY" string: it is
      a date exactly when the pieces read as numbers with a month from 1 to 12 and a day
      from 1 to 31, and then it is day - 1 days after the first of that month, so a day past
      the month's end rolls over into the next month. */
  function BadgeDate(dateStr: string): (r: Option<Date>)
    ensures r.Some? <==>
      BadgeFields(dateStr).Some? && 1 <= BadgeFields(dateStr).value.1 <= 12
      && 1 <= BadgeFields(dateStr).value.0 <= 31
    ensures r.Some? ==> ValidDate(r.value)
    ensures r.Some? ==>
      var (day, month, year) := BadgeFields(dateStr).value;
      DayNumber(r.value) == DayNumber(Date(FullYear(year), month, 1)) + day - 1
  {
    match BadgeFields(dateStr)
    case None => None
    case Some((day, month, year)) =>
      if !(1 <= month <= 12 && 1 <= day <= 31) then None
      else
        var first := Date(FullYear(year), month, 1);
        AddDaysNumber(first, day - 1);
        Some(AddDays(first, day - 1))
  }

  /** Three digit pieces joined by '-' are read back piece by piece. */
  lemma BadgeFieldsOfPieces(dd: string, mm: string, yy: string)
    requires |dd| > 0 && |mm| > 0 && |yy| > 0
    requires AllDigits(dd) && AllDigits(mm) && AllDigits(yy)
    ensures BadgeFields(dd + "-" + mm + "-" + yy) == Some((DigitsValue(dd), DigitsValue(mm), DigitsValue(yy)))
  {
    DigitsHaveNo(dd, '-');
    DigitsHaveNo(mm, '-');
    DigitsHaveNo(yy, '-');
    assert dd + "-" + mm + "-" + yy == dd + ['-'] + (mm + ['-'] + yy);
    SplitPiece(dd, '-', mm + ['-'] + yy);
    SplitPiece(mm, '-', yy);
    SplitNoSeparator(yy, '-');
  }

  lemma RenderTwentyTwentySix()
    ensures NatToString(2026) == "2026"
  {
    assert NatToString(2026) == NatToString(202) + "6";
    assert NatToString(202) == NatToString(20) + "2";
    assert NatToString(20) == "20";
  }

  lemma ReadTwentyTwentySix()
    ensures ParseNat("2026") == Some(2026)
  {
    RenderTwentyTwentySix();
    ParseNatOfNatToString(2026);
  }

  lemma ReadThirtyFirstFebPieces()
    ensures ParseNat("31") == Some(31) && ParseNat("02") == Some(2)
  {
    assert NatToString(31) == "31";
    ParseNatOfNatToString(31);
    assert Pad2(2) == "02";
    ParseNatOfPad2(2);
  }

  lemma FieldsOfThirtyFirstFeb()
    ensures BadgeFields("31-02-2026") == Some((31, 2, 2026))
  {
    assert "31-02-2026" == "31" + "-" + "02" + "-" + "2026";
    BadgeFieldsOfPieces("31", "02", "2026");
    ReadTwentyTwentySix();
    ReadThirtyFirstFebPieces();
  }

  lemma BadgeDateOfFields(dateStr: string, day: nat, month: nat, year: nat)
    requires BadgeFields(dateStr) == Some((day, month, year))
    requires 1 <= month <= 12 && 1 <= day <= 31
    ensures BadgeDate(dateStr) == Some(AddDays(Date(FullYear(year), month, 1), day - 1))
  {
  }

  /** The thirty-first of February 2026 is read as the third of March. */
  lemma BadgeRollsOverFebruary()
    ensures BadgeDate("31-02-2026") == Some(Date(2026, 3, 3))
  {
    FieldsOfThirtyFirstFeb();
    BadgeDateOfFields("31-02-2026", 31, 2, 2026);
    AddDaysPastMonthEnd(Date(2026, 2, 1), 30);
  }

  /** A two-digit year is read in the twentieth century. */
  lemma BadgeTwoDigitYear()
    ensures BadgeDate("05-06-26") == Some(Date(1926, 6, 5))
  {
    assert "05-06-26" == "05" + "-" + "06" + "-" + "26";
    BadgeFieldsOfPieces("05", "06", "26");
    ParseNatOfPad2(5);
    ParseNatOfPad2(6);
    ParseNatOfNatToString(26);
    assert Pad2(5) == "05" && Pad2(6) == "06" && NatToString(26) == "26";
    assert BadgeFields("05-06-26") == Some((5, 6, 26));
    AddDaysWithinMonth(Date(1926, 6, 1), 4);
  }

  /** getDisplayDateParts: the DD piece without its leading zero, and "Today" when the
      date is `today`, otherwise the upper-cased short month name. */
  function DisplayDateParts(dateStr: string, today: Date): (r: DateParts)
    ensures r.day == StripLeadingZero(DayPiece(dateStr))
    ensures BadgeDate(dateStr) == Some(today) ==> r.caption == TodayLabel
    ensures BadgeDate(dateStr).Some? && BadgeDate(dateStr) != Some(today) ==>
      r.caption == Upper(MonthAbbrev(BadgeDate(dateStr).value.month))
    ensures BadgeDate(dateStr).None? ==> r.caption == InvalidDateLabel
  {
    var caption :=
      match BadgeDate(dateStr)
      case None => InvalidDateLabel
      case Some(d) => if d == today then TodayLabel else Upper(MonthAbbrev(d.month));
    DateParts(StripLeadingZero(DayPiece(dateStr)), caption)
  }

  /** The zero-padded day loses its pad and nothing more: "04" becomes "4", "11" stays. */
  lemma StripPad2(n: nat)
    requires 1 <= n < 100
    ensures StripLeadingZero(Pad2(n)) == NatToString(n)
  {
  }

  /** The badge of a formatted date shows the day without padding, and "Today" exactly
      when the date is today, otherwise its month. */
  lemma DisplayOfFormatted(d: Date, today: Date)
    requires ValidDate(d) && d.year >= 100
    ensures DisplayDateParts(FormatDMY(d), today).day == NatToString(d.day)
    ensures DisplayDateParts(FormatDMY(d), today).caption ==
      if d == today then TodayLabel else Upper(MonthAbbrev(d.month))
  {
    ParseFormatDMY(d);
    StripPad2(d.day);
    AddDaysWithinMonth(Date(d.year, d.month, 1), d.day - 1);
    assert BadgeDate(FormatDMY(d)) == Some(d);
  }

  lemma FormatFourthFeb()
    ensures FormatDMY(Date(2026, 2, 4)) == "04-02-2026"
  {
    RenderTwentyTwentySix();
  }

  /** The first seeded row of the summary shows "4" above "Today" on its own day. */
  lemma DisplayFourthFebToday()
    ensures DisplayDateParts("04-02-2026", Date(2026, 2, 4)) == DateParts("4", "Today")
  {
    var d := Date(2026, 2, 4);
    FormatFourthFeb();
    DisplayOfFormatted(d, d);
  }

  /** On any other day it shows "4" above "FEB". */
  lemma DisplayFourthFebOtherDay(today: Date)
    requires today != Date(2026, 2, 4)
    ensures DisplayDateParts("04-02-2026", today) == DateParts("4", "FEB")
  {
    var d := Date(2026, 2, 4);
    FormatFourthFeb();
    DisplayOfFormatted(d, today);
    assert Upper("Feb") == "FEB";
  }

  // ---- The screen ----

  datatype Tab = UpcomingTab | HistoryTab

  const RescheduleSuccessMessage := "Appointment rescheduled successfully."
  const RescheduleRetryMessage := "Failed to reschedule appointment. Please try again."

  /** The state of the screen and its reschedule dialog. */
  class Screen {
    var upcoming: seq<UIAppointment>
    var history: seq<UIAppointment>
    var activeTab: Tab
    var selected: Option<UIAppointment>
    var newDate: string
    var newTime: string
    var rescheduleError: string
    var rescheduleSuccess: string

    constructor ()
      ensures upcoming == [] && history == [] && activeTab == UpcomingTab && selected == None
      ensures newDate == "" && newTime == "" && rescheduleError == "" && rescheduleSuccess == ""
    {
      upcoming, history, activeTab, selected := [], [], UpcomingTab, None;
      newDate, newTime, rescheduleError, rescheduleSuccess := "", "", "", "";
    }

    /** The rows shown: those of the active tab. */
    function Current(): seq<UIAppointment>
      reads this
    {
      if activeTab == UpcomingTab then upcoming else history
    }

    /** loadAppointments, given the summary the service answers with. */
    method Load(summaryUpcoming: seq<SummaryItem>, summaryHistory: seq<SummaryItem>)
      modifies this
      ensures upcoming == MapToUI(summaryUpcoming) && history == MapToUI(summaryHistory)
      ensures DistinctIds(upcoming) && DistinctIds(history)
      ensures activeTab == old(activeTab) && selected == old(selected)
      ensures newDate == old(newDate) && newTime == old(newTime)
      ensures rescheduleError == old(rescheduleError) && rescheduleSuccess == old(rescheduleSuccess)
    {
      upcoming := MapToUI(summaryUpcoming);
      history := MapToUI(summaryHistory);
      UIIdsDistinct(summaryUpcoming);
      UIIdsDistinct(summaryHistory);
    }

    method SelectTab(tab: Tab)
      modifies this
      ensures activeTab == tab && Current() == (if tab == UpcomingTab then upcoming else history)
      ensures upcoming == old(upcoming) && history == old(history) && selected == old(selected)
      ensures newDate == old(newDate) && newTime == old(newTime)
      ensures rescheduleError == old(rescheduleError) && rescheduleSuccess == old(rescheduleSuccess)
    {
      activeTab := tab;
    }

    /** handleCancelAppointment. */
    method CancelAppointment(id: string)
      modifies this
      ensures Tabs(upcoming, history) == CancelMove(Tabs(old(upcoming), old(history)), id)
      ensures activeTab == old(activeTab) && selected == old(selected)
      ensures newDate == old(newDate) && newTime == old(newTime)
      ensures rescheduleError == old(rescheduleError) && rescheduleSuccess == old(rescheduleSuccess)
    {
      var k := FindFirst(upcoming, WithId(id));
      if k.Some? {
        var row := upcoming[k.value];
        upcoming := Filter(upcoming, WithoutId(id));
        history := history + [WithStatus(row, "Cancelled")];
      }
    }

    /** handleRescheduleAppointment: looks the row up in the active tab only and, when
        found, opens the dialog prefilled with its date and time. */
    method RescheduleAppointment(id: string)
      modifies this
      ensures var k := FirstIndex(old(Current()), WithId(id));
        && (k.None? ==> selected == old(selected) && newDate == old(newDate) && newTime == old(newTime)
                        && rescheduleError == old(rescheduleError) && rescheduleSuccess == old(rescheduleSuccess))
        && (k.Some? ==> selected == Some(old(Current())[k.value])
                        && newDate == old(Current())[k.value].item.appointmentDate
                        && newTime == old(Current())[k.value].item.appointmentTime
                        && rescheduleError == "" && rescheduleSuccess == "")
      ensures upcoming == old(upcoming) && history == old(history) && activeTab == old(activeTab)
    {
      var source := if activeTab == UpcomingTab then upcoming else history;
      var k := FindFirst(source, WithId(id));
      if k.None? {
        return;
      }
      var row := source[k.value];
      selected := Some(row);
      newDate := row.item.appointmentDate;
      newTime := row.item.appointmentTime;
      rescheduleError := "";
      rescheduleSuccess := "";
    }

    /** The body of handleConfirmReschedule's `try` once the reschedule call has settled:
        a resolved answer is applied to the rows of the selected appointment in both
        lists, the success message shows and the dialog closes; a rejection shows its
        message and leaves the lists and the dialog as they were. */
    method Settle(outcome: Result<RescheduleResponse>)
      requires selected.Some?
      modifies this
      ensures var aid := old(selected).value.item.appointmentId;
        && (outcome.Ok? ==>
              upcoming == ApplyUpdate(old(upcoming), aid, outcome.value)
              && history == ApplyUpdate(old(history), aid, outcome.value)
              && rescheduleSuccess == RescheduleSuccessMessage && rescheduleError == ""
              && selected == None)
        && (outcome.Err? ==>
              upcoming == old(upcoming) && history == old(history)
              && rescheduleError == (if outcome.message != "" then outcome.message else RescheduleRetryMessage)
              && rescheduleSuccess == old(rescheduleSuccess) && selected == old(selected))
      ensures activeTab == old(activeTab) && newDate == old(newDate) && newTime == old(newTime)
    {
      rescheduleError := "";
      match outcome
      case Ok(u) =>
        var aid := selected.value.item.appointmentId;
        upcoming := ApplyUpdate(upcoming, aid, u);
        history := ApplyUpdate(history, aid, u);
        rescheduleSuccess := RescheduleSuccessMessage;
        selected := None;
      case Err(m) =>
        rescheduleError := if m != "" then m else RescheduleRetryMessage;
    }

    /** handleConfirmReschedule as written, given what the server answered (None when it
        could not be reached). The call as written never rejects, so every answer is
        applied: an error answer, such as the 404 for an unknown id, moves the rows to the
        requested date and time as Rescheduled and reports success. */
    method ConfirmReschedule(reply: Option<DemoServer.RescheduleReply>)
      modifies this
      ensures old(selected).None? ==>
        upcoming == old(upcoming) && history == old(history) && selected == None
        && rescheduleError == old(rescheduleError) && rescheduleSuccess == old(rescheduleSuccess)
      ensures old(selected).Some? ==>
        var answer := RescheduleCallAsWritten(reply, old(newDate), old(newTime));
        var aid := old(selected).value.item.appointmentId;
        && upcoming == ApplyUpdate(old(upcoming), aid, answer)
        && history == ApplyUpdate(old(history), aid, answer)
        && rescheduleSuccess == RescheduleSuccessMessage && rescheduleError == ""
        && selected == None
      ensures old(selected).Some? && !(reply.Some? && reply.value.Success?) ==>
        var aid := old(selected).value.item.appointmentId;
        && upcoming == ApplyUpdate(old(upcoming), aid, RescheduleFallback(old(newDate), old(newTime)))
        && history == ApplyUpdate(old(history), aid, RescheduleFallback(old(newDate), old(newTime)))
      ensures activeTab == old(activeTab) && newDate == old(newDate) && newTime == old(newTime)
    {
      if selected.None? {
        return;
      }
      Settle(Ok(RescheduleCallAsWritten(reply, newDate, newTime)));
    }

    /** handleConfirmReschedule with the corrected reschedule call: an error answer is
        shown as the reschedule error and changes no row; only an unreachable server falls
        back to the requested date and time. */
    method ConfirmRescheduleCorrected(reply: Option<DemoServer.RescheduleReply>)
      modifies this
      ensures old(selected).None? ==>
        upcoming == old(upcoming) && history == old(history) && selected == None
        && rescheduleError == old(rescheduleError) && rescheduleSuccess == old(rescheduleSuccess)
      ensures old(selected).Some? ==>
        var outcome := RescheduleCall(reply, old(newDate), old(newTime));
        var aid := old(selected).value.item.appointmentId;
        && (outcome.Ok? ==>
              upcoming == ApplyUpdate(old(upcoming), aid, outcome.value)
              && history == ApplyUpdate(old(history), aid, outcome.value)
              && rescheduleSuccess == RescheduleSuccessMessage && rescheduleError == ""
              && selected == None)
        && (outcome.Err? ==>
              upcoming == old(upcoming) && history == old(history)
              && rescheduleError == outcome.message
              && rescheduleSuccess == old(rescheduleSuccess) && selected == old(selected))
      ensures activeTab == old(activeTab) && newDate == old(newDate) && newTime == old(newTime)
    {
      if selected.None? {
        return;
      }
      Settle(RescheduleCall(reply, newDate, newTime));
    }
  }
}
