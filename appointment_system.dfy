/** The doctor's appointment system screen: the doctor search, booking a week ahead after
    payment, and the list of upcoming appointments with its cancel action. */
module AppointmentSystem {
  import opened Wrappers
  import opened Text
  import opened Calendar
  import opened Lists
  import opened Records
  import opened AppointmentService
  import PaymentService
  import Modals

  // ---- Doctor search ----

  /** A doctor matches a search term when the term occurs, ignoring case, in the name,
      the speciality or the location. */
  predicate DoctorMatches(d: Doctor, term: string)
  {
    IncludesIgnoringCase(d.name, term) || IncludesIgnoringCase(d.speciality, term)
    || IncludesIgnoringCase(d.location, term)
  }

  function MatchingTerm(term: string): Doctor -> bool
  {
    (d: Doctor) => DoctorMatches(d, term)
  }

  /** The doctors shown for a search term, in their original order. The doctors view
      searches its doctor list with the same test. */
  function FilterDoctors(doctors: seq<Doctor>, term: string): (r: seq<Doctor>)
    ensures forall d :: d in r <==> d in doctors && DoctorMatches(d, term)
  {
    Filter(doctors, MatchingTerm(term))
  }

  /** A match means the lower-cased term occurs in one of the three lower-cased fields. */
  lemma DoctorMatchesMeaning(d: Doctor, term: string)
    ensures DoctorMatches(d, term) <==>
      OccursIn(Lower(term), Lower(d.name)) || OccursIn(Lower(term), Lower(d.speciality))
      || OccursIn(Lower(term), Lower(d.location))
  {
  }

  /** An empty search shows every doctor, in order. */
  lemma EmptySearchKeepsAll(doctors: seq<Doctor>)
    ensures FilterDoctors(doctors, "") == doctors
  {
    forall d | d in doctors ensures MatchingTerm("")(d) {
      IncludesEmpty(Lower(d.name));
    }
    FilterKeepsAll(doctors, MatchingTerm(""));
  }

  /** Searching within a search result for the same term changes nothing. */
  lemma SearchAgainIsSame(doctors: seq<Doctor>, term: string)
    ensures FilterDoctors(FilterDoctors(doctors, term), term) == FilterDoctors(doctors, term)
  {
    FilterIdempotent(doctors, MatchingTerm(term));
  }

  /** Searching a longer list searches each part: the kept doctors keep their order. */
  lemma SearchSplits(a: seq<Doctor>, b: seq<Doctor>, term: string)
    ensures FilterDoctors(a + b, term) == FilterDoctors(a, term) + FilterDoctors(b, term)
  {
    FilterAppend(a, b, MatchingTerm(term));
  }

  // ---- Booking ----

  /** The appointment date a booking asks for: seven days after today, as "DD-MM-YYYY". */
  function BookingDate(today: Date): (s: string)
    requires ValidDate(today)
  {
    FormatDMY(AddDays(today, 7))
  }

  /** The booking date reads back as the date whose day count is today's plus seven. */
  lemma BookingDateIsAWeekAhead(today: Date)
    requires ValidDate(today)
    ensures ParseDMY(BookingDate(today)).Some?
    ensures DayNumber(ParseDMY(BookingDate(today)).value) == DayNumber(today) + 7
  {
    ParseFormatDMY(AddDays(today, 7));
    AddDaysNumber(today, 7);
  }

  /** The request handleBookAppointment sends for a doctor, a slot and a visit type. */
  function BookingRequestFor(doctor: Doctor, slot: string, visitType: string, today: Date): BookingRequest
    requires ValidDate(today)
  {
    BookingRequest(doctor.id, doctor.name, BookingDate(today), slot, visitType)
  }

  /** The appointment a booking adds is Confirmed, is for the chosen doctor and slot, and
      falls a week after the date it was booked on. */
  lemma BookedAppointment(doctor: Doctor, slot: string, visitType: string, nowMillis: nat, today: Date)
    requires ValidDate(today)
    ensures var a := Book(BookingRequestFor(doctor, slot, visitType, today), nowMillis, today);
      && a.status == "Confirmed" && CanModify(a)
      && a.doctorName == doctor.name && a.time == slot && a.visitType == visitType
      && ParseDMY(a.currentDate) == Some(today)
      && ParseDMY(a.date).Some?
      && DayNumber(ParseDMY(a.date).value) == DayNumber(ParseDMY(a.currentDate).value) + 7
  {
    BookingDateIsAWeekAhead(today);
  }

  // ---- Cancel ----

  /** Cancel and Reschedule are offered only on Confirmed appointments. */
  predicate CanModify(a: UpcomingAppointment)
  {
    a.status == "Confirmed"
  }

  function WithStatus(a: UpcomingAppointment, status: string): UpcomingAppointment
  {
    a.(status := status)
  }

  /** Every appointment with this id is marked Cancelled; the rest are left alone. */
  function CancelById(s: seq<UpcomingAppointment>, appointmentId: string): (r: seq<UpcomingAppointment>)
    ensures |r| == |s|
  {
    seq(|s|, i requires 0 <= i < |s| =>
      if s[i].appointmentId == appointmentId then WithStatus(s[i], "Cancelled") else s[i])
  }

  /** Cancelled entries lose their Cancel and Reschedule actions; only the status of
      matching entries changes. */
  lemma CancelByIdEffect(s: seq<UpcomingAppointment>, appointmentId: string, i: nat)
    requires i < |s|
    ensures s[i].appointmentId == appointmentId ==>
      CancelById(s, appointmentId)[i] == s[i].(status := "Cancelled") && !CanModify(CancelById(s, appointmentId)[i])
    ensures s[i].appointmentId != appointmentId ==> CancelById(s, appointmentId)[i] == s[i]
  {
  }

  lemma CancelByIdUnknown(s: seq<UpcomingAppointment>, appointmentId: string)
    requires forall i :: 0 <= i < |s| ==> s[i].appointmentId != appointmentId
    ensures CancelById(s, appointmentId) == s
  {
  }

  lemma CancelByIdTwice(s: seq<UpcomingAppointment>, appointmentId: string)
    ensures CancelById(CancelById(s, appointmentId), appointmentId) == CancelById(s, appointmentId)
  {
  }

  // ---- The screen ----

  const SelectSlotMessage := "Please select a time slot before proceeding to payment."
  const PaymentFailedMessage := "Payment failed. Please try again."

  /** The booking waiting for its payment. */
  datatype PendingBooking = PendingBooking(doctor: Doctor, slot: string, visitType: string)

  class Screen {
    var appointments: seq<UpcomingAppointment>
    var selectedDoctor: Option<Doctor>
    var pending: Option<PendingBooking>
    var showPaymentModal: bool
    var error: string
    var paymentError: string
    var bookingSuccess: string

    constructor ()
      ensures appointments == [] && selectedDoctor == None && pending == None && !showPaymentModal
      ensures error == "" && paymentError == "" && bookingSuccess == ""
    {
      appointments, selectedDoctor, pending, showPaymentModal := [], None, None, false;
      error, paymentError, bookingSuccess := "", "", "";
    }

    /** loadAppointments, given the list the service answers with. */
    method Load(data: seq<UpcomingAppointment>)
      modifies this
      ensures appointments == data && error == ""
      ensures selectedDoctor == old(selectedDoctor) && pending == old(pending)
      ensures showPaymentModal == old(showPaymentModal)
      ensures paymentError == old(paymentError) && bookingSuccess == old(bookingSuccess)
    {
      error := "";
      appointments := data;
    }

    method SelectDoctor(d: Doctor)
      modifies this
      ensures selectedDoctor == Some(d)
      ensures appointments == old(appointments) && pending == old(pending)
      ensures showPaymentModal == old(showPaymentModal)
      ensures error == old(error) && paymentError == old(paymentError) && bookingSuccess == old(bookingSuccess)
    {
      selectedDoctor := Some(d);
    }

    /** "Proceed to Pay": with no slot chosen it only reports an error; otherwise the
        booking for the selected doctor waits for payment and the payment dialog opens. */
    method ProceedToPay(timeSlot: string, visitType: string)
      modifies this
      ensures timeSlot == "" ==>
        error == SelectSlotMessage && pending == old(pending) && showPaymentModal == old(showPaymentModal)
        && paymentError == old(paymentError)
      ensures timeSlot != "" && old(selectedDoctor).Some? ==>
        pending == Some(PendingBooking(old(selectedDoctor).value, timeSlot, visitType))
        && showPaymentModal && paymentError == "" && error == old(error)
      ensures timeSlot != "" && old(selectedDoctor).None? ==>
        pending == old(pending) && showPaymentModal == old(showPaymentModal)
        && paymentError == old(paymentError) && error == old(error)
      ensures appointments == old(appointments) && selectedDoctor == old(selectedDoctor)
      ensures bookingSuccess == old(bookingSuccess)
    {
      if timeSlot == "" {
        error := SelectSlotMessage;
        return;
      }
      if selectedDoctor.Some? {
        pending := Some(PendingBooking(selectedDoctor.value, timeSlot, visitType));
        showPaymentModal := true;
        paymentError := "";
      }
    }

    /** The payment dialog's onPayment: charges the doctor's fee; a failure is shown as the
        payment error and handed back to the dialog. */
    method Pay(card: PaymentService.CardDetails, declined: bool) returns (r: Result<()>)
      requires pending.Some?
      modifies this
      ensures r == PaymentService.HandlePayment(old(pending).value.doctor.consultationFee, card, declined)
      ensures r.Err? ==> paymentError == r.message
      ensures r.Ok? ==> paymentError == old(paymentError)
      ensures appointments == old(appointments) && selectedDoctor == old(selectedDoctor)
      ensures pending == old(pending) && showPaymentModal == old(showPaymentModal)
      ensures error == old(error) && bookingSuccess == old(bookingSuccess)
    {
      r := PaymentService.HandlePayment(pending.value.doctor.consultationFee, card, declined);
      if r.Err? {
        paymentError := if r.message != "" then r.message else PaymentFailedMessage;
      }
    }

    /** The payment dialog's onSuccess: books the pending appointment, appends it, and
        closes the dialogs. The clock reading and today's date are parameters. */
    method PaymentSucceeded(nowMillis: nat, today: Date)
      requires pending.Some? && ValidDate(today)
      modifies this
      ensures var p := old(pending).value;
        appointments == old(appointments) + [Book(BookingRequestFor(p.doctor, p.slot, p.visitType, today), nowMillis, today)]
        && bookingSuccess == "Appointment booked successfully with " + p.doctor.name + "!"
      ensures selectedDoctor == None && pending == None && !showPaymentModal
      ensures error == old(error) && paymentError == old(paymentError)
    {
      var p := pending.value;
      var booked := Book(BookingRequestFor(p.doctor, p.slot, p.visitType, today), nowMillis, today);
      appointments := appointments + [booked];
      selectedDoctor := None;
      bookingSuccess := "Appointment booked successfully with " + p.doctor.name + "!";
      pending := None;
      showPaymentModal := false;
    }

    /** One pay attempt through the payment dialog: the dialog hands the card typed into
        it to onPayment, which charges the fee and rethrows a failure, and only a settled
        payment lets the dialog call onSuccess, which books the appointment. So a booking
        is added exactly when the payment of that card succeeds, and a failed payment
        leaves the list as it was and shows its error in both the screen and the dialog. */
    method PayThroughDialog(modal: Modals.PaymentModal, declined: bool, nowMillis: nat, today: Date)
      returns (r: Result<()>)
      requires pending.Some? && ValidDate(today)
      modifies this, modal
      ensures r == PaymentService.HandlePayment(old(pending).value.doctor.consultationFee,
        PaymentService.CardDetails(old(modal.cardNumber), old(modal.expiry), old(modal.cvv)), declined)
      ensures r.Ok? ==>
        var p := old(pending).value;
        && appointments == old(appointments) + [Book(BookingRequestFor(p.doctor, p.slot, p.visitType, today), nowMillis, today)]
        && modal.successCalls == old(modal.successCalls) + 1 && !showPaymentModal
      ensures r.Err? ==>
        && appointments == old(appointments) && pending == old(pending)
        && modal.successCalls == old(modal.successCalls)
        && paymentError == r.message && modal.error == r.message
    {
      r := Pay(PaymentService.CardDetails(modal.cardNumber, modal.expiry, modal.cvv), declined);
      modal.PayAndWait(if r.Ok? then Modals.Resolved else Modals.Rejected(r.message));
      if r.Ok? {
        PaymentSucceeded(nowMillis, today);
      }
    }

    /** handleCancelAppointment. */
    method CancelAppointment(appointmentId: string)
      modifies this
      ensures appointments == CancelById(old(appointments), appointmentId)
      ensures selectedDoctor == old(selectedDoctor) && pending == old(pending)
      ensures showPaymentModal == old(showPaymentModal)
      ensures error == old(error) && paymentError == old(paymentError) && bookingSuccess == old(bookingSuccess)
    {
      appointments := CancelById(appointments, appointmentId);
    }
  }
}
