/** The two-route demonstration server: a module-level list of appointments, a GET that
    returns it, and a PUT that reschedules one appointment in place. */
module DemoServer {
  import opened Wrappers
  import opened Lists

  datatype ServerAppointment = ServerAppointment(
    id: string,
    doctorName: string,
    appointmentDate: string,
    appointmentTime: string,
    status: string,
    kind: string)

  const SeedServerAppointments: seq<ServerAppointment> := [
    ServerAppointment("APT-001", "Dr. Aarav Patel", "04-02-2026", "09:00 AM", "Confirmed", "Clinic Visit"),
    ServerAppointment("APT-002", "Dr. Rajesh Iyer", "04-02-2026", "10:00 AM", "Confirmed", "Clinic Visit")
  ]

  const NotFoundMessage := "Appointment not found"

  /** The `data` object of a successful reschedule response. */
  datatype RescheduleData = RescheduleData(doctorName: string, appointmentDate: string, appointmentTime: string, status: string)

  /** The JSON answers of the reschedule route. */
  datatype RescheduleReply =
    | Failure(httpStatus: nat, error: string)    // { success: false, error }
    | Success(data: RescheduleData)             // { success: true, data }

  function HasId(id: string): ServerAppointment -> bool
  {
    (a: ServerAppointment) => a.id == id
  }

  /** The position of the first appointment with `id`, as `findIndex` finds it. */
  function FirstWithId(s: seq<ServerAppointment>, id: string): Option<nat>
  {
    FirstIndex(s, HasId(id))
  }

  /** The three assignments of the handler. */
  function Moved(a: ServerAppointment, newDate: string, newTime: string): ServerAppointment
  {
    a.(appointmentDate := newDate, appointmentTime := newTime, status := "Rescheduled")
  }

  /** The list after `PUT /api/appointments/:id/reschedule`. */
  function RescheduledList(s: seq<ServerAppointment>, id: string, newDate: string, newTime: string): seq<ServerAppointment>
  {
    match FirstWithId(s, id)
    case None => s
    case Some(i) => s[i := Moved(s[i], newDate, newTime)]
  }

  /** The response of `PUT /api/appointments/:id/reschedule`. */
  function RescheduleReplyFor(s: seq<ServerAppointment>, id: string, newDate: string, newTime: string): RescheduleReply
  {
    match FirstWithId(s, id)
    case None => Failure(404, NotFoundMessage)
    case Some(i) =>
      var a := Moved(s[i], newDate, newTime);
      Success(RescheduleData(a.doctorName, a.appointmentDate, a.appointmentTime, a.status))
  }

  class Server {
    var appointments: seq<ServerAppointment>

    constructor ()
      ensures appointments == SeedServerAppointments
    {
      appointments := SeedServerAppointments;
    }

    /** `GET /api/appointments`: the current list. */
    method GetAppointments() returns (data: seq<ServerAppointment>)
      ensures data == appointments
    {
      data := appointments;
    }

    /** `PUT /api/appointments/:id/reschedule`: find the record, answer 404 when there is
        none, otherwise set its date, time and status and answer with its new values. */
    method Reschedule(id: string, newDate: string, newTime: string) returns (reply: RescheduleReply)
      modifies this
      ensures appointments == RescheduledList(old(appointments), id, newDate, newTime)
      ensures reply == RescheduleReplyFor(old(appointments), id, newDate, newTime)
    {
      var i := 0;
      while i < |appointments|
        invariant 0 <= i <= |appointments|
        invariant forall j :: 0 <= j < i ==> appointments[j].id != id
      {
        if appointments[i].id == id {
          FirstIndexUnique(appointments, HasId(id), i);
          var a := appointments[i];
          a := a.(appointmentDate := newDate);
          a := a.(appointmentTime := newTime);
          a := a.(status := "Rescheduled");
          appointments := appointments[i := a];
          return Success(RescheduleData(a.doctorName, a.appointmentDate, a.appointmentTime, a.status));
        }
        i := i + 1;
      }
      return Failure(404, NotFoundMessage);
    }
  }

  /** An unknown id answers 404 "Appointment not found" and changes no record. */
  lemma RescheduleUnknownId(s: seq<ServerAppointment>, id: string, newDate: string, newTime: string)
    requires forall j :: 0 <= j < |s| ==> s[j].id != id
    ensures RescheduleReplyFor(s, id, newDate, newTime) == Failure(404, NotFoundMessage)
    ensures RescheduledList(s, id, newDate, newTime) == s
  {
  }

  /** For a known id only the first record with that id changes: its date, time and status
      take the new values, whatever its status was, and its id, doctor and type stay. The
      list keeps its length, and the reply reports the updated record. */
  lemma RescheduleKnownId(s: seq<ServerAppointment>, id: string, newDate: string, newTime: string, i: nat)
    requires i < |s| && s[i].id == id
    requires forall j :: 0 <= j < i ==> s[j].id != id
    ensures var t := RescheduledList(s, id, newDate, newTime);
      && |t| == |s|
      && t[i].appointmentDate == newDate && t[i].appointmentTime == newTime && t[i].status == "Rescheduled"
      && t[i].id == s[i].id && t[i].doctorName == s[i].doctorName && t[i].kind == s[i].kind
      && (forall j :: 0 <= j < |s| && j != i ==> t[j] == s[j])
    ensures RescheduleReplyFor(s, id, newDate, newTime) ==
      Success(RescheduleData(s[i].doctorName, newDate, newTime, "Rescheduled"))
  {
    FirstIndexUnique(s, HasId(id), i);
  }

  /** Sending the same reschedule twice leaves the list as sending it once, and gets the
      same answer. */
  lemma RescheduleIdempotent(s: seq<ServerAppointment>, id: string, newDate: string, newTime: string)
    ensures var t := RescheduledList(s, id, newDate, newTime);
      RescheduledList(t, id, newDate, newTime) == t &&
      RescheduleReplyFor(t, id, newDate, newTime) == RescheduleReplyFor(s, id, newDate, newTime)
  {
    match FirstWithId(s, id)
    case None =>
    case Some(i) =>
      var t := RescheduledList(s, id, newDate, newTime);
      FirstIndexUnique(t, HasId(id), i);
  }

  /** No route adds or removes records; a GET after a PUT for a known id shows the moved
      record at its old position. */
  lemma RescheduleThenGet(s: seq<ServerAppointment>, id: string, newDate: string, newTime: string)
    ensures |RescheduledList(s, id, newDate, newTime)| == |s|
    ensures forall j :: 0 <= j < |s| ==> RescheduledList(s, id, newDate, newTime)[j].id == s[j].id
  {
  }

  /** A cancelled record is rescheduled like any other: there is no status guard. */
  lemma CancelledIsRescheduled(newDate: string, newTime: string)
    ensures var s := [ServerAppointment("APT-009", "Dr. Meera Reddy", "04-02-2026", "02:00 PM", "Cancelled", "Clinic Visit")];
      RescheduledList(s, "APT-009", newDate, newTime)[0].status == "Rescheduled"
  {
  }
}
