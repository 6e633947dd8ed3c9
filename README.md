# health-app-mini appointment ledger, in Dafny

This project models the appointment and payment core of health-app-mini, a React
front end for booking doctors, with a small Express back end. The model covers:

- the mock appointment service: complete with a week-later follow-up, cancel, book,
  and the reschedule call;
- the back end's two routes over its module-level appointment list;
- the mock payment check;
- the application's ledger and cart updaters;
- the "My Appointments" screen: local row ids, cancel-to-history, reschedule, and the
  date badge;
- the appointment system screen: doctor search, booking a week ahead, and cancel;
- the views' filters, tab partition, totals, booking record, and consultation history;
- the payment dialog's step machine and the guards of the reschedule and booking dialogs.

Modules follow the source files: `AppointmentService`, `DemoServer`,
`PaymentService`, `AppState`, `MyAppointments`, `AppointmentSystem`, `Views` and
`Modals`. Helper modules hold the JavaScript runtime behaviour the code relies on:
`Text` (decimal rendering, `parseInt`, `split`, `includes`, ASCII case), `Calendar`
(dates, adding days, the "D MMM" and "DD-MM-YYYY" formats), `Lists` (`find`,
`filter`), `Records` (the entities and the seed ledger) and `Wrappers`.

Where the code updates state in place, the model uses a class whose methods are proved
against functions on sequences. This covers the service's global store, the server's
list, the app's ledger and cart, the two screens and the dialogs. The functions carry
the properties, as lemmas.

The code has no terminal-state machine and the model follows the code:

- cancelling a Completed appointment makes it Cancelled (`AppState.CompletedCanBeCancelled`);
- the server reschedules a Cancelled appointment (`DemoServer.CancelledIsRescheduled`);
- the service's cancel ignores the prior status.

Today's date, the current year, clock readings, fresh ids, the bank's random decline
and the server's answer are all parameters.

## Model

| member | source | states |
|---|---|---|
| AppointmentService.IndexOf | src/service/appointmentService.ts:15 | the position `find` picks: the first record with the id, or none when no record has it |
| AppointmentService.ScanForFollowUp | src/service/appointmentService.ts:44-49 | the loop's answer equals whether some record has the doctor, the date string, type Follow-up Visit and isFollowUp set |
| AppointmentService.MockStore.CompleteAppointment | src/service/appointmentService.ts:11-71 | the returned result and the new store are those of `Complete` on the old store, and the store keeps unique ids and no duplicate follow-ups |
| AppointmentService.CompleteUnknownId | src/service/appointmentService.ts:15-18 | an id not in the store fails with "Appointment not found" and leaves the store unchanged |
| AppointmentService.CompleteReturnsCompletedCopy | src/service/appointmentService.ts:15-20 | the result is the first matching record with only its status set to Completed, and the stored record is not changed |
| AppointmentService.CompleteAppendsAtMostOne | src/service/appointmentService.ts:43-67 | the store grows by at most one record, the old records keep their places, and it grows exactly when the record is a clinic visit with no matching follow-up; the added record is that follow-up |
| AppointmentService.CompleteOtherTypesKeepStore | src/service/appointmentService.ts:23 | a record that is not a clinic visit leaves the store unchanged |
| AppointmentService.FollowUpRecordFields | src/service/appointmentService.ts:52-63 | the follow-up copies doctor id, doctor name and time; it is a Follow-up Visit, Completed, payment Pending, with the doctor-suggested label and isFollowUp set |
| AppointmentService.FollowUpDateIsAWeekLater | src/service/appointmentService.ts:25-41 | for a parseable "D MMM" date, the follow-up date is the date whose day count is seven more, rendered as "D MMM", and reads back as that date |
| AppointmentService.FollowUpOfSevenDec | src/service/appointmentService.ts:25-41 | "7 Dec" is followed up on "14 Dec" |
| AppointmentService.FollowUpOfTwentyEighthDec | src/service/appointmentService.ts:25-41 | "28 Dec" is followed up on "4 Jan" (the year rolls over) |
| AppointmentService.FollowUpOfTwentyEighthFebLeap | src/service/appointmentService.ts:25-41 | "28 Feb" in the leap year 2028 is followed up on "6 Mar" |
| AppointmentService.CompleteTwiceIsOnce | src/service/appointmentService.ts:44-51 | completing the same appointment twice adds no second follow-up and returns the same result |
| AppointmentService.SeedCompletionsShareFollowUp | src/service/appointmentService.ts:44-51 | completing seed a1 and then a2 (same doctor, same day, different times) adds a single "14 Dec" follow-up |
| AppointmentService.CompleteKeepsInvariants | src/service/appointmentService.ts:43-66 | with a fresh follow-up id, completion keeps record ids unique and never stores two equal follow-ups |
| AppointmentService.SeedIsValid | src/constants.ts:19-50 | the seed ledger has unique ids and no duplicate follow-ups |
| AppointmentService.Cancel | src/service/appointmentService.ts:73-83 | an unknown id fails with "Appointment not found"; otherwise the result is the first matching record with status Cancelled, whatever its prior status |
| AppointmentService.AppointmentIdFrom | src/service/appointmentService.ts:238 | the id is "APT" followed by the last six digits of the clock reading: one to six digits that spell the reading modulo 1000000, exactly six once the reading reaches 100000 |
| AppointmentService.Book | src/service/appointmentService.ts:226-257 | the record is Confirmed, carries the request's doctor name, date, time and visit type, and its booking date reads back as today |
| AppointmentService.RescheduleFallback | src/service/appointmentService.ts:159-169 | the offline answer is the requested date and time, status Rescheduled, with no doctor name |
| AppointmentService.RescheduleCallAsWritten | src/service/appointmentService.ts:139-170 | as written, every answer other than a successful one, including the server's 404, becomes the offline fallback |
| AppointmentService.AsWrittenMasksNotFound | src/service/appointmentService.ts:154-169 | as written, the server's "Appointment not found" reaches the caller as a successful reschedule |
| AppointmentService.RescheduleCall | src/service/appointmentService.ts:139-170 | corrected call: it fails exactly on an unsuccessful answer, with the server's message or the default one; only an unreachable server gives the fallback |
| AppointmentService.RescheduleCallAgainstServer | src/service/appointmentService.ts:141-158 | against the demo server, an unknown id now fails with "Appointment not found", and a known id returns the new date and time with status Rescheduled |
| DemoServer.Server.GetAppointments | backend/server.js:31-33 | the GET route returns the current list |
| DemoServer.Server.Reschedule | backend/server.js:35-58 | the loop leaves the list and the answer equal to `RescheduledList` and `RescheduleReplyFor` of the old list |
| DemoServer.RescheduleUnknownId | backend/server.js:39-42 | an unknown id answers 404 "Appointment not found" and changes no record |
| DemoServer.RescheduleKnownId | backend/server.js:44-57 | for a known id, the first match takes the new date, time and status Rescheduled; its id, doctor and type and every other record stay as they were; the answer carries the doctor and the new values |
| DemoServer.RescheduleIdempotent | backend/server.js:44-47 | repeating the same request changes nothing more and gets the same answer |
| DemoServer.RescheduleThenGet | backend/server.js:31-33 | rescheduling keeps the list's length and every record's id at its position |
| DemoServer.CancelledIsRescheduled | backend/server.js:44-47 | a Cancelled record is rescheduled like any other |
| PaymentService.HandlePayment | src/service/paymentService.ts:16-40 | each error happens exactly when its check is the first to fail, in the order card number, expiry, CVV, then the bank's decline; success exactly when all pass and the bank accepts |
| PaymentService.AmountIgnored | src/service/paymentService.ts:16-39 | the amount never changes the outcome |
| PaymentService.ExpiryIsOnlyAPattern | src/service/paymentService.ts:25 | "13/99" and "00/00" pass the expiry check; "1/25" and "12/2025" fail it |
| PaymentService.ChecksAreOnlyLengths | src/service/paymentService.ts:21-31 | sixteen letters pass as a card number; empty input fails on the card number; a four-digit expiry without a slash fails on the expiry |
| AppState.App.constructor | src/App.tsx:26-28 | the ledger starts as the seed list and the cart empty |
| AppState.App.AddToCart | src/App.tsx:30-31 | the cart gains the item at its end; the ledger is unchanged |
| AppState.App.RemoveFromCart | src/App.tsx:39-41 | the cart becomes the items whose id differs; the ledger is unchanged |
| AppState.App.AddAppointment | src/App.tsx:43-45 | the ledger gains the appointment at its end; the cart is unchanged |
| AppState.App.CancelAppointment | src/App.tsx:47-51 | the ledger becomes `CancelEvery` of the old ledger; the cart is unchanged |
| AppState.CancelEveryEffect | src/App.tsx:47-51 | the length is kept; records with the id become Cancelled with nothing else changed; the others are unchanged |
| AppState.CancelUnknownIsNoOp | src/App.tsx:47-51 | cancelling an unknown id changes nothing |
| AppState.CancelTwiceIsOnce | src/App.tsx:47-51 | cancelling twice is cancelling once |
| AppState.CompletedCanBeCancelled | src/App.tsx:48-50 | the Completed seed record a3 becomes Cancelled |
| AppState.WithoutItemEffect | src/App.tsx:39-41 | every remaining item has another id and was in the cart; every item with another id remains; removal distributes over concatenation, so order is kept |
| AppState.RemoveSingleItem | src/App.tsx:39-41 | when one item has the id, removal takes out exactly that position |
| AppState.RemoveTwiceIsOnce | src/App.tsx:39-41 | removing twice is removing once |
| MyAppointments.MapToUI | src/Components/MyAppointments.tsx:34-39 | one row per summary item, same length and order, each carrying its item |
| MyAppointments.UIIdDeterminesPosition | src/Components/MyAppointments.tsx:37 | a local id determines its position, whatever the appointment ids are |
| MyAppointments.UIIdsDistinct | src/Components/MyAppointments.tsx:34-39 | local ids are pairwise distinct even when appointment ids repeat |
| MyAppointments.CancelMoveUnknown | src/Components/MyAppointments.tsx:56-59 | an id not in upcoming (a history row, say) leaves both lists unchanged |
| MyAppointments.CancelMoveKnown | src/Components/MyAppointments.tsx:55-69 | with distinct ids, the row leaves upcoming at its place, a Cancelled copy ends history, and the two lists together keep their total size |
| MyAppointments.ApplyUpdate | src/Components/MyAppointments.tsx:96-106 | the list keeps its length |
| MyAppointments.ApplyUpdateEffect | src/Components/MyAppointments.tsx:96-106 | rows of the appointment take the answer's date, time and status and keep id, doctor and type; other rows are unchanged |
| MyAppointments.ApplyUpdateIdempotent | src/Components/MyAppointments.tsx:96-109 | applying the same answer twice is applying it once |
| MyAppointments.ApplyUpdateKeepsIds | src/Components/MyAppointments.tsx:96-109 | distinct local ids stay distinct |
| MyAppointments.BadgeDate | src/Components/MyAppointments.tsx:122-127 | a date exactly when the three pieces read as numbers with a month from 1 to 12 and a day from 1 to 31; it is then a valid date whose day count is that of the first of the month plus day - 1, so days past the month end roll over, and years 0 to 99 are read as 1900 to 1999 |
| MyAppointments.BadgeRollsOverFebruary | src/Components/MyAppointments.tsx:122-127 | "31-02-2026" is read as 3 March 2026 |
| MyAppointments.BadgeTwoDigitYear | src/Components/MyAppointments.tsx:122-127 | "05-06-26" is read as 5 June 1926 |
| MyAppointments.DisplayDateParts | src/Components/MyAppointments.tsx:120-139 | the day is the DD piece with one leading zero stripped; the caption is "Today" when the date is today, otherwise the upper-cased short month name, or "INVALID DATE" when unreadable |
| MyAppointments.StripPad2 | src/Components/MyAppointments.tsx:134 | stripping a padded day gives the plain number |
| MyAppointments.DisplayOfFormatted | src/Components/MyAppointments.tsx:120-139 | for a formatted date: the unpadded day, and "Today" exactly when it is today, otherwise its month |
| MyAppointments.DisplayFourthFebToday | src/Components/MyAppointments.tsx:131-136 | "04-02-2026" shows "4" and "Today" on that day |
| MyAppointments.DisplayFourthFebOtherDay | src/Components/MyAppointments.tsx:131-137 | "04-02-2026" shows "4" and "FEB" on any other day |
| MyAppointments.Screen.Load | src/Components/MyAppointments.tsx:41-53 | both lists become the mapped summary lists, with distinct local ids |
| MyAppointments.Screen.CancelAppointment | src/Components/MyAppointments.tsx:55-69 | the two lists become `CancelMove` of the old ones; the dialog state is unchanged |
| MyAppointments.Screen.RescheduleAppointment | src/Components/MyAppointments.tsx:71-81 | only the active tab is searched; an unknown id changes nothing; otherwise the dialog opens on that row with its date and time and cleared messages |
| MyAppointments.Screen.Settle | src/Components/MyAppointments.tsx:86-114 | a resolved answer is applied to the selected appointment's rows in both lists, the success message shows and the dialog closes; a rejection shows its message, or the retry message when empty, and leaves the lists and the dialog |
| MyAppointments.Screen.ConfirmReschedule | src/Components/MyAppointments.tsx:83-118 | with the call as written: no selection does nothing; otherwise every answer is applied to both lists with the success message and the dialog closes; an error answer such as the 404 for an unknown id applies the requested date and time as Rescheduled |
| MyAppointments.Screen.ConfirmRescheduleCorrected | src/Components/MyAppointments.tsx:83-118 | with the corrected call: a successful or offline answer is applied as above; an error answer shows the server's message and changes no row, and the dialog stays open |
| AppointmentSystem.FilterDoctors | src/Components/AppointmentSystem.tsx:33-40 | a doctor is shown exactly when it is in the list and matches the term; it also stands for the doctors view search (src/Components/Views.tsx lines 606-610), which uses the same test on name, speciality and location |
| AppointmentSystem.DoctorMatchesMeaning | src/Components/AppointmentSystem.tsx:34-38 | a match means the lower-cased term occurs in the lower-cased name, speciality or location |
| AppointmentSystem.EmptySearchKeepsAll | src/Components/AppointmentSystem.tsx:33-40 | an empty search shows every doctor in order |
| AppointmentSystem.SearchAgainIsSame | src/Components/AppointmentSystem.tsx:34-38 | searching a result again for the same term changes nothing |
| AppointmentSystem.SearchSplits | src/Components/AppointmentSystem.tsx:34-38 | searching a concatenation searches each part, so order is kept |
| AppointmentSystem.BookingDateIsAWeekAhead | src/Components/AppointmentSystem.tsx:60-63 | the booking date reads back as the day seven days after today |
| AppointmentSystem.BookedAppointment | src/Components/AppointmentSystem.tsx:55-76 | a booking is Confirmed (so it offers Cancel and Reschedule), for the chosen doctor, slot and type, and falls a week after its booking date |
| AppointmentSystem.CancelById | src/Components/AppointmentSystem.tsx:90-99 | the list keeps its length |
| AppointmentSystem.CancelByIdEffect | src/Components/AppointmentSystem.tsx:90-99 | matching entries become Cancelled and lose their actions; the others are unchanged |
| AppointmentSystem.CancelByIdUnknown | src/Components/AppointmentSystem.tsx:90-99 | an unknown id changes nothing |
| AppointmentSystem.CancelByIdTwice | src/Components/AppointmentSystem.tsx:90-99 | cancelling twice is cancelling once |
| AppointmentSystem.Screen.Load | src/Components/AppointmentSystem.tsx:42-53 | the list becomes the service's list and the error is cleared |
| AppointmentSystem.Screen.ProceedToPay | src/Components/AppointmentSystem.tsx:342-355 | with no slot it only sets the error; with a slot and a selected doctor the booking waits for payment and the payment dialog opens |
| AppointmentSystem.Screen.Pay | src/Components/AppointmentSystem.tsx:388-395 | the result is the payment check for the doctor's fee; a failure becomes the payment error and is handed back |
| AppointmentSystem.Screen.PayThroughDialog | src/Components/AppointmentSystem.tsx:367-395 | through the payment dialog, the card checked is the card number, expiry and CVV typed into the dialog (Modals.tsx line 51); the pending booking is added exactly when that payment check succeeds, with onSuccess called once; a failed payment adds nothing, calls no onSuccess, and shows its message in the screen and the dialog |
| AppointmentSystem.Screen.PaymentSucceeded | src/Components/AppointmentSystem.tsx:55-88 | the booked appointment is appended, the success message names the doctor, and the doctor, pending booking and dialog are cleared |
| AppointmentSystem.Screen.CancelAppointment | src/Components/AppointmentSystem.tsx:90-99 | the list becomes `CancelById` of the old list; nothing else changes |
| Views.TabContents | src/Components/Views.tsx:813-816 | an appointment is listed under a tab exactly when it is in the ledger with one of that tab's statuses |
| Views.TabsPartition | src/Components/Views.tsx:813-816 | every appointment is listed under exactly one tab, and the two tabs' sizes add up to the ledger's |
| Views.CancelledGoesToHistory | src/Components/Views.tsx:813-816 | after the app cancels an appointment, it is listed under history and not under upcoming |
| Views.FilterUsers | src/Components/Views.tsx:108-114 | a user is listed exactly when the name or e-mail matches and the role fits the tab |
| Views.RoleTabNarrowsAll | src/Components/Views.tsx:108-114 | the Doctors and Patients tabs are the All tab's list narrowed to that role |
| Views.EmptyUserSearchKeepsAll | src/Components/Views.tsx:108-111 | an empty search under All lists every user |
| Views.FilterClinics | src/Components/Views.tsx:888-891 | a facility is listed exactly when its name matches and the type filter is All Types, its type plus "s", or its type |
| Views.PluralTypeFilters | src/Components/Views.tsx:888-891 | "Hospitals" keeps exactly the matching hospitals and "Clinics" exactly the matching clinics |
| Views.AllTypesIgnoresKind | src/Components/Views.tsx:888-891 | "All Types" filters by name only |
| Views.SubtotalAppend | src/Components/Views.tsx:1561 | the subtotal of a concatenation is the sum of the subtotals |
| Views.AddToCartSubtotal | src/Components/Views.tsx:1561 | adding an item raises the subtotal by price times quantity |
| Views.Tax | src/Components/Views.tsx:1562 | the tax is the integer nearest to 5% of the total, a half rounding up |
| Views.FinalTotal | src/Components/Views.tsx:1561-1562 | the final total is the integer nearest to 105% of the subtotal, a half rounding up |
| Views.AddToCartMedicineTotal | src/Components/Views.tsx:1052 | adding a medicine raises the sidebar total by its price; adding a test leaves it |
| Views.MedicineTotalIsMedicineSubtotal | src/Components/Views.tsx:1026 | with every quantity 1, as the views add items, the sidebar total is the medicine items' subtotal |
| Views.BookingRecord | src/Components/Views.tsx:689-712 | the record is Confirmed and Paid, for the doctor, the slot and the fresh id; it is a clinic visit exactly when the dialog type is In-Clinic, otherwise a video consult |
| Views.DialogBookingIsUpcomingClinicVisit | src/Components/Views.tsx:689-712 | a booking made through the booking dialog is a clinic visit at the chosen slot, listed under upcoming |
| Views.DurationMinutes | src/Components/Views.tsx:1661-1663 | the duration is the nearest whole minute, a half rounding up |
| Views.InsertByDate | src/Components/Views.tsx:1672 | insertion adds exactly the new entry |
| Views.InsertKeepsNewestFirst | src/Components/Views.tsx:1672 | insertion keeps a newest-first list newest first |
| Views.SortByDate | src/Components/Views.tsx:1672 | the sort is a permutation and its result is newest first |
| Views.SortKeepsSorted | src/Components/Views.tsx:1672 | sorting a newest-first list changes nothing |
| Views.EndConsultationPlacesEntry | src/Components/Views.tsx:1672 | on a newest-first history, the new entry goes after the strictly newer entries and before the rest; old entries keep their order; the result is newest first and a permutation |
| Views.NewChatEntry | src/Components/Views.tsx:1660-1671 | the new entry is a completed chat dated today, with the rounded duration in minutes |
| Views.TodaysChatGoesFirst | src/Components/Views.tsx:1660-1672 | a chat ended today on a history of earlier days goes to the top |
| Modals.PayError | src/Components/Modals.tsx:67-68 | the error is the rejection's message, "Payment failed" when that is empty, and empty otherwise |
| Modals.PaymentModal.HandlePay | src/Components/Modals.tsx:47-71 | the old error is cleared first; a rejection shows its error and keeps the details step; otherwise the dialog moves to processing |
| Modals.PaymentModal.ProcessingElapsed | src/Components/Modals.tsx:55-57 | the first timer moves to success |
| Modals.PaymentModal.SuccessElapsed | src/Components/Modals.tsx:58-64 | the second timer calls onSuccess and onClose once each, resets to details and clears the card fields |
| Modals.PaymentModal.PayAndWait | src/Components/Modals.tsx:47-71 | a rejected attempt never calls onSuccess; an accepted one calls onSuccess and onClose once each and ends on an empty details form |
| Modals.RescheduleModal.HandleReschedule | src/Components/Modals.tsx:164-169 | with a date and a time, onReschedule runs once for this appointment and the dialog closes; otherwise nothing happens |
| Modals.BookingModal.ProceedToPay | src/Components/Modals.tsx:241-283 | onBook runs exactly when a slot is selected, always with the In-Clinic type |
| Calendar.AddDaysCharacterized | src/service/appointmentService.ts:34-35 | adding n days gives the one valid date whose day count is n more |
| Calendar.AddWeek | src/service/appointmentService.ts:34-35 | a week later in closed form, rolling over month and year ends |
| Calendar.ParseFormatDayMonth | src/service/appointmentService.ts:25-41 | reading back a "D MMM" rendering in the same year gives the date |
| Calendar.ParseFormatDMY | src/service/appointmentService.ts:241 | reading back a "DD-MM-YYYY" rendering gives the date, and its day piece is the padded day |
| Text.Includes | src/Components/AppointmentSystem.tsx:35-37 | `includes` holds exactly when the needle occurs at some offset |
| Lists.FilterDropsOne | src/App.tsx:40 | when exactly one element fails the test, filtering removes exactly that position |

## Left out

- Network and server plumbing: `fetch`, JSON bodies, CORS, `listen` and the health route. The server's answer is a parameter of the client models, and the server keeps its records as values in a list.
- Timers and promises: `setTimeout` delays, `await` and loading flags. Each handler is one synchronous step; the payment dialog's two timers are separate methods.
- `Math.random`, `crypto.randomUUID`, `Date.now` and `new Date()` are parameters: the decline flag, fresh ids, the clock reading, today and the current year.
- Locale formatting: month names come from a fixed three-letter English table. Some en-GB locale data abbreviates September as "Sept"; that is not modelled.
- Case-insensitive matching folds ASCII letters only.
- Floating point: `Math.round(total * 0.05)` is modelled on whole-number totals as `(5 * total + 50) / 100`, and the duration rounding on whole milliseconds.
- MyAppointments.BadgeDate: digit pieces only. `parseInt` prefix leniency, days 0 or above 31, and months outside 1 to 12 give "INVALID DATE" in the model, where JavaScript would roll them into another date.
- Calendar.ParseDayMonth: the month word must be exactly one of "Jan" to "Dec" and the day piece all digits. V8 also reads the month word in any case and by its first three letters ("dec", "December", "Sept"), and `parseInt` reads a leading digit prefix ("7th"); those dates get the follow-up date "Invalid Date" in the model.
- PaymentService.HandlePayment: string lengths count characters. JavaScript's `length` counts UTF-16 code units, so a card number or CVV with characters outside the Basic Multilingual Plane, such as emoji, is measured differently.
- The literal date "Today" that the doctors view writes cannot be read by the "D MMM" parser; completing such a record yields the follow-up date "Invalid Date", as JavaScript renders it.
- `fetchUpcomingAppointments`, `getAppointmentSummary` and `fetchAppointments` return constant lists. The screens' load methods take those lists as parameters, and their never-taken error paths are left out.
- `bookAppointment` never rejects, so the booking screen's catch path is left out.
- The booking dialog shows a fixed slot list and a fixed fee instead of the doctor's; only its guard and the call it makes are modelled.
- The App ledger and the service's global store are the same array in the source. The model keeps them as two separate states and does not model that aliasing.
- The consultation history stores ISO date strings; the model stores the day they name. The JavaScript sort is modelled by a stable insertion sort.
- The Gemini service, the layout, all JSX rendering, the DOM toast, `alert` and `console` output are not part of this model.

## Findings

| source | as written | input that shows it | evidently intended | confidence | as-written member | corrected member |
|---|---|---|---|---|---|---|
| src/service/appointmentService.ts:154-169 | the error thrown for a non-ok or unsuccessful answer is raised inside the same `try`, so the `catch` meant for an unreachable server turns it into a successful "Rescheduled" answer | reschedule of an id the server does not know: the server answers 404 "Appointment not found", and the screen shows the requested date and time as rescheduled | only an unreachable server falls back; an error answer rejects with the server's message, which the screen shows as the reschedule error (MyAppointments.Screen.ConfirmRescheduleCorrected) | high, not executed | AppointmentService.RescheduleCallAsWritten | AppointmentService.RescheduleCall |
