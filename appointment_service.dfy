/** The mock appointment service: completing an appointment (with the one-week follow-up
    it may synthesize into the global store), cancelling, booking, and the offline
    fallback of the reschedule call. */
module AppointmentService {
  import opened Wrappers
  import opened Text
  import opened Calendar
  import opened Records
  import opened Lists
  import DemoServer

  const NotFoundMessage := "Appointment not found"
  const FollowUpLabel := "Follow-up Visit (Doctor Suggested)"
  /** What `toLocaleDateString` renders for a date that could not be parsed. */
  const InvalidDateText := "Invalid Date"

  // ---- Looking records up ----

  function HasId(id: string): Appointment -> bool
  {
    (a: Appointment) => a.id == id
  }

  /** The position of the first record with `id`, as `Array.prototype.find` picks it. */
  function IndexOf(s: seq<Appointment>, id: string): (r: Option<nat>)
    ensures r.Some? ==> r.value < |s| && s[r.value].id == id
    ensures r.Some? ==> forall j :: 0 <= j < r.value ==> s[j].id != id
    ensures r.None? ==> forall j :: 0 <= j < |s| ==> s[j].id != id
  {
    FirstIndex(s, HasId(id))
  }

  lemma IndexOfUnique(s: seq<Appointment>, id: string, k: nat)
    requires k < |s| && s[k].id == id
    requires forall j :: 0 <= j < k ==> s[j].id != id
    ensures IndexOf(s, id) == Some(k)
  {
    FirstIndexUnique(s, HasId(id), k);
  }

  /** Appending records never changes which record an id already found refers to. */
  lemma IndexOfAppend(s: seq<Appointment>, t: seq<Appointment>, id: string)
    requires IndexOf(s, id).Some?
    ensures IndexOf(s + t, id) == IndexOf(s, id)
  {
    var k := IndexOf(s, id).value;
    IndexOfUnique(s + t, id, k);
  }

  // ---- The follow-up rule ----

  /** The follow-up's date string: the parent's "D MMM" date, read in `year`, plus seven
      calendar days, rendered "D MMM" again; "Invalid Date" when the date cannot be read. */
  function FollowUpDate(date: string, year: nat): string
  {
    match ParseDayMonth(date, year)
    case None => InvalidDateText
    case Some(d) => FormatDayMonth(AddDays(d, 7))
  }

  predicate IsFollowUp(a: Appointment)
  {
    a.kind == FollowUpVisit && a.isFollowUp
  }

  /** The test of the duplicate check: same doctor, same date string, a follow-up. */
  predicate MatchesFollowUp(a: Appointment, doctorId: string, date: string)
  {
    a.doctorId == doctorId && a.date == date && IsFollowUp(a)
  }

  function FollowUpExists(s: seq<Appointment>, doctorId: string, date: string): bool
  {
    exists i :: 0 <= i < |s| && MatchesFollowUp(s[i], doctorId, date)
  }

  /** The linear scan behind `some`. */
  method ScanForFollowUp(s: seq<Appointment>, doctorId: string, date: string) returns (found: bool)
    ensures found == FollowUpExists(s, doctorId, date)
  {
    var i := 0;
    while i < |s|
      invariant 0 <= i <= |s|
      invariant forall j :: 0 <= j < i ==> !MatchesFollowUp(s[j], doctorId, date)
    {
      if MatchesFollowUp(s[i], doctorId, date) {
        return true;
      }
      i := i + 1;
    }
    return false;
  }

  /** The record synthesized for `parent`. */
  function FollowUpRecord(parent: Appointment, date: string, newId: string): Appointment
  {
    Appointment(newId, parent.doctorId, parent.doctorName, date, parent.time,
                FollowUpVisit, Completed, PaymentPending, Some(FollowUpLabel), true)
  }

  /** What one call of completeAppointment returns and leaves in the store. */
  datatype Completion = Completion(result: Result<Appointment>, store: seq<Appointment>)

  /** completeAppointment on store `s`, in `year`, with `newId` as the fresh follow-up id. */
  function Complete(s: seq<Appointment>, id: string, year: nat, newId: string): Completion
  {
    match IndexOf(s, id)
    case None => Completion(Err(NotFoundMessage), s)
    case Some(i) =>
      var parent := s[i];
      var done := Ok(parent.(status := Completed));
      if parent.kind != ClinicVisit then Completion(done, s)
      else
        var date := FollowUpDate(parent.date, year);
        if FollowUpExists(s, parent.doctorId, date) then Completion(done, s)
        else Completion(done, s + [FollowUpRecord(parent, date, newId)])
  }

  // ---- Store invariants ----

  ghost predicate UniqueIds(s: seq<Appointment>)
  {
    forall i, j :: 0 <= i < j < |s| ==> s[i].id != s[j].id
  }

  /** No two follow-ups share a doctor and a date. */
  ghost predicate NoDuplicateFollowUps(s: seq<Appointment>)
  {
    forall i, j :: 0 <= i < j < |s| && IsFollowUp(s[i]) && IsFollowUp(s[j]) ==>
      s[i].doctorId != s[j].doctorId || s[i].date != s[j].date
  }

  /** The global `MOCK_APPOINTMENTS` array that completeAppointment appends to. */
  class MockStore {
    var records: seq<Appointment>

    ghost predicate Valid()
      reads this
    {
      UniqueIds(records) && NoDuplicateFollowUps(records)
    }

    constructor ()
      ensures records == SeedAppointments && Valid()
    {
      records := SeedAppointments;
    }

    /** completeAppointment: look the record up, and for a clinic visit append a
        follow-up a week later unless one for that doctor and date is already stored. */
    method CompleteAppointment(id: string, currentYear: nat, newId: string) returns (r: Result<Appointment>)
      requires Valid()
      requires forall k :: 0 <= k < |records| ==> records[k].id != newId
      modifies this
      ensures Valid()
      ensures Completion(r, records) == Complete(old(records), id, currentYear, newId)
    {
      var found := FindFirst(records, HasId(id));
      if found.None? {
        return Err(NotFoundMessage);
      }
      var parent := records[found.value];
      r := Ok(parent.(status := Completed));
      if parent.kind == ClinicVisit {
        var date := FollowUpDate(parent.date, currentYear);
        var followUpExists := ScanForFollowUp(records, parent.doctorId, date);
        if !followUpExists {
          CompleteKeepsInvariants(records, id, currentYear, newId);
          records := records + [FollowUpRecord(parent, date, newId)];
        }
      }
    }
  }

  // ---- What completeAppointment promises ----

  /** An unknown id fails with "Appointment not found" and leaves the store as it was. */
  lemma CompleteUnknownId(s: seq<Appointment>, id: string, year: nat, newId: string)
    requires forall k :: 0 <= k < |s| ==> s[k].id != id
    ensures Complete(s, id, year, newId) == Completion(Err(NotFoundMessage), s)
  {
  }

  /** The returned record is the stored one with only its status set to Completed, and the
      stored record itself keeps its status. */
  lemma CompleteReturnsCompletedCopy(s: seq<Appointment>, id: string, year: nat, newId: string)
    requires exists k :: 0 <= k < |s| && s[k].id == id
    ensures var c := Complete(s, id, year, newId);
      var i := IndexOf(s, id).value;
      c.result == Ok(s[i].(status := Completed)) && c.store[i] == s[i]
  {
  }

  /** The store only ever grows at its end, by at most one record, and only when the
      record is a clinic visit whose follow-up is not stored yet; that record is the
      synthesized follow-up. */
  lemma CompleteAppendsAtMostOne(s: seq<Appointment>, id: string, year: nat, newId: string)
    ensures var c := Complete(s, id, year, newId);
      |s| <= |c.store| <= |s| + 1 && c.store[..|s|] == s
    ensures var c := Complete(s, id, year, newId);
      |c.store| == |s| + 1 <==>
        IndexOf(s, id).Some? && s[IndexOf(s, id).value].kind == ClinicVisit &&
        !FollowUpExists(s, s[IndexOf(s, id).value].doctorId, FollowUpDate(s[IndexOf(s, id).value].date, year))
    ensures var c := Complete(s, id, year, newId);
      |c.store| == |s| + 1 ==>
        var parent := s[IndexOf(s, id).value];
        c.store[|s|] == FollowUpRecord(parent, FollowUpDate(parent.date, year), newId)
  {
    var c := Complete(s, id, year, newId);
    assert c.store == s || c.store[..|s|] == s;
  }

  /** Only a clinic visit can produce a follow-up: any other type leaves the store alone. */
  lemma CompleteOtherTypesKeepStore(s: seq<Appointment>, id: string, year: nat, newId: string)
    requires IndexOf(s, id).Some? && s[IndexOf(s, id).value].kind != ClinicVisit
    ensures Complete(s, id, year, newId).store == s
  {
  }

  /** A synthesized follow-up copies doctor and time from its parent and is a completed,
      unpaid, doctor-suggested follow-up visit. */
  lemma FollowUpRecordFields(parent: Appointment, date: string, newId: string)
    ensures var f := FollowUpRecord(parent, date, newId);
      && f.doctorId == parent.doctorId && f.doctorName == parent.doctorName
      && f.time == parent.time && f.date == date && f.id == newId
      && f.kind == FollowUpVisit && f.status == Completed && f.paymentStatus == PaymentPending
      && f.labelText == Some(FollowUpLabel) && f.isFollowUp
      && MatchesFollowUp(f, parent.doctorId, date)
  {
  }

  /** The follow-up date is exactly seven calendar days after the parent's date: reading
      it back gives the date whose day count is seven more. */
  lemma FollowUpDateIsAWeekLater(date: string, year: nat)
    requires ParseDayMonth(date, year).Some?
    ensures var d := ParseDayMonth(date, year).value;
      var f := AddDays(d, 7);
      && FollowUpDate(date, year) == FormatDayMonth(f)
      && ParseDayMonth(FollowUpDate(date, year), f.year) == Some(f)
      && DayNumber(f) == DayNumber(d) + 7
  {
    var d := ParseDayMonth(date, year).value;
    ParseFormatDayMonth(AddDays(d, 7));
    AddDaysNumber(d, 7);
  }

  /** 7 Dec gives 14 Dec. */
  lemma FollowUpOfSevenDec()
    ensures FollowUpDate("7 Dec", 2026) == "14 Dec"
  {
    WeekLater(Date(2026, 12, 7), "7 Dec", Date(2026, 12, 14), "14 Dec");
  }

  /** 28 Dec rolls over into the next year: 4 Jan. */
  lemma FollowUpOfTwentyEighthDec()
    ensures FollowUpDate("28 Dec", 2026) == "4 Jan"
  {
    WeekLater(Date(2026, 12, 28), "28 Dec", Date(2027, 1, 4), "4 Jan");
  }

  /** 28 Feb of a leap year gives 6 Mar. */
  lemma FollowUpOfTwentyEighthFebLeap()
    ensures FollowUpDate("28 Feb", 2028) == "6 Mar"
  {
    WeekLater(Date(2028, 2, 28), "28 Feb", Date(2028, 3, 6), "6 Mar");
  }

  lemma WeekLater(d: Date, text: string, f: Date, ftext: string)
    requires ValidDate(d) && ValidDate(f)
    requires FormatDayMonth(d) == text && FormatDayMonth(f) == ftext
    requires f == AddDays(d, 7)
    ensures FollowUpDate(text, d.year) == ftext
  {
    ParseFormatDayMonth(d);
  }

  /** After a completion the follow-up for that record is in the store, so completing the
      same record again finds it and adds nothing. */
  lemma CompleteTwiceIsOnce(s: seq<Appointment>, id: string, year: nat, id1: string, id2: string)
    ensures var c1 := Complete(s, id, year, id1);
      Complete(c1.store, id, year, id2) == c1
  {
    var c1 := Complete(s, id, year, id1);
    match IndexOf(s, id)
    case None =>
    case Some(i) =>
      IndexOfAppend(s, c1.store[|s|..], id);
      CompleteAppendsAtMostOne(s, id, year, id1);
      assert c1.store == s + c1.store[|s|..];
      var parent := s[i];
      if parent.kind == ClinicVisit {
        var date := FollowUpDate(parent.date, year);
        if !FollowUpExists(s, parent.doctorId, date) {
          assert MatchesFollowUp(c1.store[|s|], parent.doctorId, date);
        } else {
          var k :| 0 <= k < |s| && MatchesFollowUp(s[k], parent.doctorId, date);
          assert MatchesFollowUp(c1.store[k], parent.doctorId, date);
        }
      }
  }

  /** Two records (a1, a2) of the same doctor on the same day, at different times, share
      one follow-up: completing both from the seed adds a single 14 Dec follow-up. */
  lemma SeedCompletionsShareFollowUp(newId1: string, newId2: string)
    ensures var c1 := Complete(SeedAppointments, "a1", 2026, newId1);
      var c2 := Complete(c1.store, "a2", 2026, newId2);
      && c1.store == SeedAppointments + [FollowUpRecord(SeedA1, "14 Dec", newId1)]
      && c2.store == c1.store
      && c2.result == Ok(SeedA2.(status := Completed))
  {
    var s := SeedAppointments;
    FollowUpOfSevenDec();
    IndexOfUnique(s, "a1", 0);
    var f := FollowUpRecord(SeedA1, "14 Dec", newId1);
    assert !FollowUpExists(s, "d1", "14 Dec") by {
      forall k | 0 <= k < 3 ensures !MatchesFollowUp(s[k], "d1", "14 Dec") {
        assert !IsFollowUp(s[k]);
      }
    }
    var c1 := Complete(s, "a1", 2026, newId1);
    assert c1.store == s + [f];
    assert c1.store[0].id != "a2";
    IndexOfUnique(c1.store, "a2", 1);
    assert MatchesFollowUp(c1.store[3], "d1", "14 Dec");
    assert FollowUpExists(c1.store, "d1", "14 Dec");
  }

  /** Completion keeps ids unique (given a fresh id) and never stores a second follow-up
      for a doctor and date, so no sequence of completions duplicates a follow-up. */
  lemma CompleteKeepsInvariants(s: seq<Appointment>, id: string, year: nat, newId: string)
    requires UniqueIds(s) && NoDuplicateFollowUps(s)
    requires forall k :: 0 <= k < |s| ==> s[k].id != newId
    ensures UniqueIds(Complete(s, id, year, newId).store)
    ensures NoDuplicateFollowUps(Complete(s, id, year, newId).store)
  {
    var c := Complete(s, id, year, newId);
    CompleteAppendsAtMostOne(s, id, year, newId);
    if |c.store| == |s| + 1 {
      var parent := s[IndexOf(s, id).value];
      var date := FollowUpDate(parent.date, year);
      var t := c.store;
      forall i, j | 0 <= i < j < |t| && IsFollowUp(t[i]) && IsFollowUp(t[j])
        ensures t[i].doctorId != t[j].doctorId || t[i].date != t[j].date
      {
        if j == |s| {
          assert !MatchesFollowUp(s[i], parent.doctorId, date);
        } else {
          assert t[i] == s[i] && t[j] == s[j];
        }
      }
    }
  }

  /** The seed store satisfies both invariants. */
  lemma SeedIsValid()
    ensures UniqueIds(SeedAppointments) && NoDuplicateFollowUps(SeedAppointments)
  {
  }

  // ---- cancelAppointment ----

  /** cancelAppointment: a copy of the first record with `id`, marked Cancelled whatever
      its status was; the store itself is not touched. */
  function Cancel(s: seq<Appointment>, id: string): (r: Result<Appointment>)
    ensures r.Err? <==> forall k :: 0 <= k < |s| ==> s[k].id != id
    ensures r.Err? ==> r.message == NotFoundMessage
    ensures r.Ok? ==> r.value.status == Cancelled
    ensures r.Ok? ==> IndexOf(s, id).Some? && r.value == s[IndexOf(s, id).value].(status := Cancelled)
  {
    match IndexOf(s, id)
    case None => Err(NotFoundMessage)
    case Some(i) => Ok(s[i].(status := Cancelled))
  }

  // ---- bookAppointment ----

  datatype BookingRequest = BookingRequest(doctorId: string, doctorName: string, date: string, time: string, visitType: string)

  /** The record bookAppointment returns (`UpcomingAppointment`). */
  datatype UpcomingAppointment = UpcomingAppointment(
    appointmentId: string,
    doctorName: string,
    date: string,
    time: string,
    currentDate: string,
    visitType: string,
    status: string)

  /** `APT` followed by the last six digits of the clock reading in milliseconds. */
  function AppointmentIdFrom(nowMillis: nat): (id: string)
    ensures 4 <= |id| <= 9 && id[..3] == "APT" && AllDigits(id[3..])
    ensures DigitsValue(id[3..]) == nowMillis % 1000000
    ensures nowMillis >= 100000 ==> |id| == 9
  {
    var digits := NatToString(nowMillis);
    LastSixDigits(nowMillis);
    DigitsValueOfNatToString(nowMillis);
    "APT" + (if |digits| <= 6 then digits else digits[|digits| - 6..])
  }

  /** bookAppointment: a Confirmed record carrying the request's doctor name, date, time and
      visit type, stamped with today's date as "DD-MM-YYYY". The doctor id is not kept. */
  function Book(req: BookingRequest, nowMillis: nat, today: Date): (r: UpcomingAppointment)
    requires ValidDate(today)
    ensures r.status == "Confirmed"
    ensures r.doctorName == req.doctorName && r.date == req.date && r.time == req.time
    ensures r.visitType == req.visitType
    ensures r.appointmentId == AppointmentIdFrom(nowMillis)
    ensures ParseDMY(r.currentDate) == Some(today)
  {
    ParseFormatDMY(today);
    UpcomingAppointment(AppointmentIdFrom(nowMillis), req.doctorName, req.date, req.time,
                        FormatDMY(today), req.visitType, "Confirmed")
  }

  // ---- Reschedule call ----

  /** A row of the appointment summary (`AppointmentSummaryItem`). */
  datatype SummaryItem = SummaryItem(
    appointmentId: string,
    doctorName: string,
    appointmentDate: string,
    appointmentTime: string,
    status: string,
    kind: string)

  datatype RescheduleResponse = RescheduleResponse(doctorName: string, appointmentDate: string, appointmentTime: string, status: string)

  /** The answer rescheduleAppointmentAPI gives when the server cannot be reached: the
      requested date and time, reported as Rescheduled, with no doctor name. */
  function RescheduleFallback(newDate: string, newTime: string): (r: RescheduleResponse)
    ensures r.appointmentDate == newDate && r.appointmentTime == newTime
    ensures r.status == "Rescheduled" && r.doctorName == ""
  {
    RescheduleResponse("", newDate, newTime, "Rescheduled")
  }

  /** The response body of a successful server answer, as the client reads it. */
  function FromServer(d: DemoServer.RescheduleData): RescheduleResponse
  {
    RescheduleResponse(d.doctorName, d.appointmentDate, d.appointmentTime, d.status)
  }

  /** rescheduleAppointmentAPI as written. `reply` is what the fetch yields: None when the
      server cannot be reached or its body cannot be read, otherwise the server's answer.
      The error thrown for an unsuccessful answer is raised inside the same `try`, so the
      `catch` turns it into the fallback as well. */
  function RescheduleCallAsWritten(reply: Option<DemoServer.RescheduleReply>, newDate: string, newTime: string): (r: RescheduleResponse)
    ensures reply.Some? && reply.value.Success? ==> r == FromServer(reply.value.data)
    ensures !(reply.Some? && reply.value.Success?) ==> r == RescheduleFallback(newDate, newTime)
  {
    match reply
    case Some(Success(d)) => FromServer(d)
    case _ => RescheduleFallback(newDate, newTime)
  }

  /** The discrepancy: the server's 404 for an unknown id reaches the caller as a
      successful reschedule to the requested date and time. */
  lemma AsWrittenMasksNotFound(newDate: string, newTime: string)
    ensures RescheduleCallAsWritten(Some(DemoServer.Failure(404, DemoServer.NotFoundMessage)), newDate, newTime)
      == RescheduleResponse("", newDate, newTime, "Rescheduled")
  {
  }

  const RescheduleFailedMessage := "Failed to reschedule appointment"

  /** rescheduleAppointmentAPI as its comment intends: only an unreachable server falls
      back to the requested values; an unsuccessful answer rejects with the server's error
      message, or a default one when that is empty. */
  function RescheduleCall(reply: Option<DemoServer.RescheduleReply>, newDate: string, newTime: string): (r: Result<RescheduleResponse>)
    ensures r.Err? <==> reply.Some? && reply.value.Failure?
    ensures r.Err? ==> r.message == if reply.value.error != "" then reply.value.error else RescheduleFailedMessage
    ensures reply.None? ==> r == Ok(RescheduleFallback(newDate, newTime))
    ensures reply.Some? && reply.value.Success? ==> r == Ok(FromServer(reply.value.data))
  {
    match reply
    case None => Ok(RescheduleFallback(newDate, newTime))
    case Some(Success(d)) => Ok(FromServer(d))
    case Some(Failure(_, e)) => Err(if e != "" then e else RescheduleFailedMessage)
  }

  /** Against the demo server, an unknown id is now reported as not found, and a known id
      comes back with the server's new date, time and Rescheduled status. */
  lemma RescheduleCallAgainstServer(s: seq<DemoServer.ServerAppointment>, id: string, newDate: string, newTime: string)
    ensures var r := RescheduleCall(Some(DemoServer.RescheduleReplyFor(s, id, newDate, newTime)), newDate, newTime);
      && (DemoServer.FirstWithId(s, id).None? ==> r == Err(NotFoundMessage))
      && (DemoServer.FirstWithId(s, id).Some? ==>
            r.Ok? && r.value.appointmentDate == newDate && r.value.appointmentTime == newTime
            && r.value.status == "Rescheduled")
  {
  }
}
