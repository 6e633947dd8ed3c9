/** The dialogs: the payment dialog's step machine, and the guards of the reschedule
    and booking dialogs. */
module Modals {
  import opened Wrappers

  // ---- Payment dialog ----

  datatype Step = Details | Processing | Success

  /** How the optional onPayment handler settles: absent, resolved, or rejected with an
      error message. */
  datatype PayOutcome = NoHandler | Resolved | Rejected(message: string)

  const PaymentFailed := "Payment failed"

  /** The error shown after a pay attempt: the rejection's message, or a default one. */
  function PayError(outcome: PayOutcome): (e: string)
    ensures outcome.Rejected? && outcome.message != "" ==> e == outcome.message
    ensures outcome.Rejected? && outcome.message == "" ==> e == PaymentFailed
    ensures !outcome.Rejected? ==> e == ""
  {
    match outcome
    case Rejected(m) => if m != "" then m else PaymentFailed
    case _ => ""
  }

  /** The payment dialog. `successCalls` and `closeCalls` count the calls it makes to its
      onSuccess and onClose callbacks. */
  class PaymentModal {
    var step: Step
    var loading: bool
    var error: string
    var cardNumber: string
    var expiry: string
    var cvv: string
    var successCalls: nat
    var closeCalls: nat

    constructor ()
      ensures step == Details && !loading && error == ""
      ensures cardNumber == "" && expiry == "" && cvv == ""
      ensures successCalls == 0 && closeCalls == 0
    {
      step, loading, error := Details, false, "";
      cardNumber, expiry, cvv := "", "", "";
      successCalls, closeCalls := 0, 0;
    }

    method EnterCard(number: string, exp: string, code: string)
      modifies this
      ensures cardNumber == number && expiry == exp && cvv == code
      ensures step == old(step) && loading == old(loading) && error == old(error)
      ensures successCalls == old(successCalls) && closeCalls == old(closeCalls)
    {
      cardNumber, expiry, cvv := number, exp, code;
    }

    /** handlePay up to the first timer: the previous error is cleared; a rejection shows
        its message and keeps the card form; otherwise the dialog starts processing. */
    method HandlePay(outcome: PayOutcome)
      modifies this
      ensures error == PayError(outcome)
      ensures outcome.Rejected? ==> step == Details && loading == old(loading)
      ensures !outcome.Rejected? ==> step == Processing && loading
      ensures cardNumber == old(cardNumber) && expiry == old(expiry) && cvv == old(cvv)
      ensures successCalls == old(successCalls) && closeCalls == old(closeCalls)
    {
      error := "";
      match outcome
      case Rejected(m) =>
        error := if m != "" then m else PaymentFailed;
        step := Details;
      case _ =>
        loading := true;
        step := Processing;
    }

    /** The first timer: processing is over and the success view shows. */
    method ProcessingElapsed()
      modifies this
      ensures step == Success && !loading
      ensures error == old(error)
      ensures cardNumber == old(cardNumber) && expiry == old(expiry) && cvv == old(cvv)
      ensures successCalls == old(successCalls) && closeCalls == old(closeCalls)
    {
      loading := false;
      step := Success;
    }

    /** The second timer: onSuccess and onClose run once each and the form is reset. */
    method SuccessElapsed()
      modifies this
      ensures successCalls == old(successCalls) + 1 && closeCalls == old(closeCalls) + 1
      ensures step == Details && cardNumber == "" && expiry == "" && cvv == ""
      ensures loading == old(loading) && error == old(error)
    {
      successCalls := successCalls + 1;
      closeCalls := closeCalls + 1;
      step := Details;
      cardNumber, expiry, cvv := "", "", "";
    }

    /** A pay attempt followed by both timers when it was not rejected. A rejection leaves
        onSuccess uncalled and the card details in place; otherwise onSuccess and onClose
        run once each and the dialog is back at an empty card form. */
    method PayAndWait(outcome: PayOutcome)
      modifies this
      ensures outcome.Rejected? ==>
        step == Details && error == PayError(outcome)
        && successCalls == old(successCalls) && closeCalls == old(closeCalls)
        && cardNumber == old(cardNumber) && expiry == old(expiry) && cvv == old(cvv)
      ensures !outcome.Rejected? ==>
        step == Details && error == "" && !loading
        && successCalls == old(successCalls) + 1 && closeCalls == old(closeCalls) + 1
        && cardNumber == "" && expiry == "" && cvv == ""
    {
      HandlePay(outcome);
      if !outcome.Rejected? {
        ProcessingElapsed();
        SuccessElapsed();
      }
    }
  }

  // ---- Reschedule dialog ----

  /** One call of the onReschedule callback. */
  datatype RescheduleRequest = RescheduleRequest(appointmentId: string, date: string, time: string)

  class RescheduleModal {
    var selectedDate: string
    var selectedTime: string
    var requests: seq<RescheduleRequest>
    var closeCalls: nat

    constructor ()
      ensures selectedDate == "" && selectedTime == "" && requests == [] && closeCalls == 0
    {
      selectedDate, selectedTime, requests, closeCalls := "", "", [], 0;
    }

    method Choose(date: string, time: string)
      modifies this
      ensures selectedDate == date && selectedTime == time
      ensures requests == old(requests) && closeCalls == old(closeCalls)
    {
      selectedDate, selectedTime := date, time;
    }

    /** handleReschedule: with both a date and a time chosen, onReschedule runs once for
        this appointment and the dialog closes; otherwise nothing happens. */
    method HandleReschedule(appointmentId: string)
      modifies this
      ensures selectedDate != "" && selectedTime != "" ==>
        requests == old(requests) + [RescheduleRequest(appointmentId, selectedDate, selectedTime)]
        && closeCalls == old(closeCalls) + 1
      ensures selectedDate == "" || selectedTime == "" ==>
        requests == old(requests) && closeCalls == old(closeCalls)
      ensures selectedDate == old(selectedDate) && selectedTime == old(selectedTime)
    {
      if selectedDate != "" && selectedTime != "" {
        requests := requests + [RescheduleRequest(appointmentId, selectedDate, selectedTime)];
        closeCalls := closeCalls + 1;
      }
    }
  }

  // ---- Booking dialog ----

  const InClinic := "In-Clinic"

  /** One call of the onBook callback. */
  datatype BookRequest = BookRequest(slot: string, consultationType: string)

  class BookingModal {
    var selectedSlot: Option<string>

    constructor ()
      ensures selectedSlot == None
    {
      selectedSlot := None;
    }

    method SelectSlot(slot: string)
      modifies this
      ensures selectedSlot == Some(slot)
    {
      selectedSlot := Some(slot);
    }

    /** "Proceed to Pay": onBook runs only when a (non-empty) slot is selected, and always
        with the In-Clinic type. */
    method ProceedToPay() returns (call: Option<BookRequest>)
      ensures call.Some? <==> selectedSlot.Some? && selectedSlot.value != ""
      ensures call.Some? ==> call.value.slot == selectedSlot.value && call.value.consultationType == InClinic
    {
      if selectedSlot.Some? && selectedSlot.value != "" {
        call := Some(BookRequest(selectedSlot.value, InClinic));
      } else {
        call := None;
      }
    }
  }
}
