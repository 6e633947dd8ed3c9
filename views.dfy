/** The computations behind the patient and admin views: the appointment tabs, the
    search filters, the cart and pharmacy totals, the record a doctor booking creates,
    and the consultation history kept newest first. */
module Views {
  import opened Wrappers
  import opened Text
  import opened Calendar
  import opened Lists
  import opened Records
  import AppState
  import Modals

  // ---- Appointment tabs ----

  datatype AppointmentTab = UpcomingTab | HistoryTab

  predicate IsUpcoming(a: Appointment)
  {
    a.status == Confirmed || a.status == Pending
  }

  predicate IsPast(a: Appointment)
  {
    a.status == Completed || a.status == Cancelled
  }

  function InTab(tab: AppointmentTab): Appointment -> bool
  {
    match tab
    case UpcomingTab => (a: Appointment) => IsUpcoming(a)
    case HistoryTab => (a: Appointment) => IsPast(a)
  }

  /** The appointments listed under a tab, in ledger order. */
  function TabContents(s: seq<Appointment>, tab: AppointmentTab): (r: seq<Appointment>)
    ensures forall a :: a in r <==> a in s && InTab(tab)(a)
  {
    Filter(s, InTab(tab))
  }

  /** Every appointment is listed under exactly one tab, so the two tabs together list
      the whole ledger once. */
  lemma TabsPartition(s: seq<Appointment>)
    ensures forall a :: a in s ==> (a in TabContents(s, UpcomingTab) <==> a !in TabContents(s, HistoryTab))
    ensures |TabContents(s, UpcomingTab)| + |TabContents(s, HistoryTab)| == |s|
  {
    FilterPartition(s, InTab(UpcomingTab), InTab(HistoryTab));
  }

  /** Cancelling an appointment in the ledger moves it to the history tab. */
  lemma CancelledGoesToHistory(s: seq<Appointment>, id: string, i: nat)
    requires i < |s| && s[i].id == id
    ensures AppState.CancelEvery(s, id)[i] in TabContents(AppState.CancelEvery(s, id), HistoryTab)
    ensures AppState.CancelEvery(s, id)[i] !in TabContents(AppState.CancelEvery(s, id), UpcomingTab)
  {
    AppState.CancelEveryEffect(s, id);
  }

  // ---- User management filter ----

  datatype UserTab = AllUsers | DoctorUsers | PatientUsers

  predicate UserMatches(u: AdminUser, term: string)
  {
    IncludesIgnoringCase(u.name, term) || IncludesIgnoringCase(u.email, term)
  }

  function RoleOf(tab: UserTab): AdminUser -> bool
  {
    match tab
    case AllUsers => (u: AdminUser) => true
    case DoctorUsers => (u: AdminUser) => u.role == DoctorRole
    case PatientUsers => (u: AdminUser) => u.role == PatientRole
  }

  function UserShown(term: string, tab: UserTab): AdminUser -> bool
  {
    (u: AdminUser) => UserMatches(u, term) && RoleOf(tab)(u)
  }

  /** The users listed for a search term under a tab. */
  function FilterUsers(users: seq<AdminUser>, term: string, tab: UserTab): (r: seq<AdminUser>)
    ensures forall u :: u in r <==> u in users && UserMatches(u, term) && RoleOf(tab)(u)
  {
    Filter(users, UserShown(term, tab))
  }

  /** The Doctors and Patients tabs are the All tab's list narrowed to one role. */
  lemma RoleTabNarrowsAll(users: seq<AdminUser>, term: string, tab: UserTab)
    ensures FilterUsers(users, term, tab) == Filter(FilterUsers(users, term, AllUsers), RoleOf(tab))
  {
    forall u ensures UserShown(term, tab)(u) == (UserShown(term, AllUsers)(u) && RoleOf(tab)(u)) {
      assert RoleOf(AllUsers)(u);
    }
    FilterFilter(users, UserShown(term, AllUsers), RoleOf(tab), UserShown(term, tab));
  }

  /** An empty search under All lists every user. */
  lemma EmptyUserSearchKeepsAll(users: seq<AdminUser>)
    ensures FilterUsers(users, "", AllUsers) == users
  {
    forall u | u in users ensures UserShown("", AllUsers)(u) {
      IncludesEmpty(Lower(u.name));
      assert Lower("") == "";
      assert UserMatches(u, "");
      assert RoleOf(AllUsers)(u);
    }
    FilterKeepsAll(users, UserShown("", AllUsers));
  }

  // ---- Clinic finder filter ----

  const AllTypes := "All Types"

  predicate ClinicShown(c: Facility, term: string, typeFilter: string)
  {
    IncludesIgnoringCase(c.name, term)
    && (typeFilter == AllTypes || c.kind + "s" == typeFilter || c.kind == typeFilter)
  }

  function ClinicFilter(term: string, typeFilter: string): Facility -> bool
  {
    (c: Facility) => ClinicShown(c, term, typeFilter)
  }

  function FilterClinics(clinics: seq<Facility>, term: string, typeFilter: string): (r: seq<Facility>)
    ensures forall c :: c in r <==> c in clinics && ClinicShown(c, term, typeFilter)
  {
    Filter(clinics, ClinicFilter(term, typeFilter))
  }

  /** A facility is a Hospital or a Clinic. */
  predicate KnownKind(c: Facility)
  {
    c.kind == "Hospital" || c.kind == "Clinic"
  }

  /** The plural type filters pick out their own kind: "Hospitals" keeps exactly the
      name-matching hospitals and "Clinics" exactly the name-matching clinics. */
  lemma PluralTypeFilters(c: Facility, term: string)
    requires KnownKind(c)
    ensures ClinicShown(c, term, "Hospitals") <==> IncludesIgnoringCase(c.name, term) && c.kind == "Hospital"
    ensures ClinicShown(c, term, "Clinics") <==> IncludesIgnoringCase(c.name, term) && c.kind == "Clinic"
  {
    assert "Hospital" + "s" == "Hospitals";
    assert "Clinic" + "s" == "Clinics";
  }

  /** "All Types" narrows by name only. */
  lemma AllTypesIgnoresKind(clinics: seq<Facility>, term: string)
    ensures forall c :: c in FilterClinics(clinics, term, AllTypes) <==> c in clinics && IncludesIgnoringCase(c.name, term)
  {
  }

  // ---- Cart and pharmacy totals ----

  /** The cart subtotal: the sum of price times quantity. */
  function Subtotal(cart: seq<CartItem>): nat
    decreases |cart|
  {
    if cart == [] then 0 else cart[0].price * cart[0].quantity + Subtotal(cart[1..])
  }

  lemma {:induction false} SubtotalAppend(a: seq<CartItem>, b: seq<CartItem>)
    ensures Subtotal(a + b) == Subtotal(a) + Subtotal(b)
    decreases |a|
  {
    if a == [] {
      assert a + b == b;
    } else {
      assert (a + b)[0] == a[0];
      assert (a + b)[1..] == a[1..] + b;
      SubtotalAppend(a[1..], b);
    }
  }

  /** Adding an item to the cart raises the subtotal by its price times its quantity. */
  lemma AddToCartSubtotal(cart: seq<CartItem>, item: CartItem)
    ensures Subtotal(cart + [item]) == Subtotal(cart) + item.price * item.quantity
  {
    SubtotalAppend(cart, [item]);
    assert [item][1..] == [];
  }

  /** `Math.round(total * 0.05)`: the integer nearest to a twentieth of the total, a half
      rounding up. */
  function Tax(total: nat): (t: nat)
    ensures 20 * t <= total + 10 < 20 * t + 20
  {
    (5 * total + 50) / 100
  }

  /** The amount charged for the cart: the subtotal plus its rounded 5% tax. */
  function FinalTotal(cart: seq<CartItem>): (r: nat)
    ensures 20 * r <= 21 * Subtotal(cart) + 10 < 20 * r + 20
  {
    Subtotal(cart) + Tax(Subtotal(cart))
  }

  function IsMedicine(): CartItem -> bool
  {
    (i: CartItem) => i.kind == MedicineItem
  }

  /** The sum of the prices, quantity not counted. */
  function PriceSum(items: seq<CartItem>): nat
    decreases |items|
  {
    if items == [] then 0 else items[0].price + PriceSum(items[1..])
  }

  lemma {:induction false} PriceSumAppend(a: seq<CartItem>, b: seq<CartItem>)
    ensures PriceSum(a + b) == PriceSum(a) + PriceSum(b)
    decreases |a|
  {
    if a == [] {
      assert a + b == b;
    } else {
      assert (a + b)[0] == a[0];
      assert (a + b)[1..] == a[1..] + b;
      PriceSumAppend(a[1..], b);
    }
  }

  /** The pharmacy sidebar total: the prices of the medicine items only. */
  function MedicineTotal(cart: seq<CartItem>): nat
  {
    PriceSum(Filter(cart, IsMedicine()))
  }

  /** Adding a medicine raises the sidebar total by its price; adding a test leaves it. */
  lemma AddToCartMedicineTotal(cart: seq<CartItem>, item: CartItem)
    ensures MedicineTotal(cart + [item]) == MedicineTotal(cart) + (if item.kind == MedicineItem then item.price else 0)
  {
    FilterAppend(cart, [item], IsMedicine());
    PriceSumAppend(Filter(cart, IsMedicine()), Filter([item], IsMedicine()));
    assert [item][1..] == [];
  }

  /** The views add every item with quantity 1, and then the sidebar total is the cart
      subtotal of the medicine items. */
  lemma {:induction false} PriceSumIsSubtotalForSingles(items: seq<CartItem>)
    requires forall i :: i in items ==> i.quantity == 1
    ensures PriceSum(items) == Subtotal(items)
    decreases |items|
  {
    if items != [] {
      assert items[0] in items;
      PriceSumIsSubtotalForSingles(items[1..]);
    }
  }

  lemma MedicineTotalIsMedicineSubtotal(cart: seq<CartItem>)
    requires forall i :: i in cart ==> i.quantity == 1
    ensures MedicineTotal(cart) == Subtotal(Filter(cart, IsMedicine()))
  {
    PriceSumIsSubtotalForSingles(Filter(cart, IsMedicine()));
  }

  // ---- Doctor booking record ----

  /** The visit type a booking records for the dialog's consultation type. */
  function VisitTypeFor(consultationType: string): VisitType
  {
    if consultationType == Modals.InClinic then ClinicVisit else VideoConsult
  }

  const TodayText := "Today"

  /** The appointment the doctors view adds after payment, for a fresh id. */
  function BookingRecord(doctor: Doctor, slot: string, consultationType: string, newId: string): (r: Appointment)
    ensures r.id == newId && r.doctorId == doctor.id && r.doctorName == doctor.name
    ensures r.date == TodayText && r.time == slot
    ensures r.status == Confirmed && r.paymentStatus == Paid
    ensures r.kind == ClinicVisit <==> consultationType == Modals.InClinic
    ensures r.kind != FollowUpVisit && !r.isFollowUp && r.labelText.None?
  {
    Appointment(newId, doctor.id, doctor.name, TodayText, slot, VisitTypeFor(consultationType),
                Confirmed, Paid, None, false)
  }

  /** A booking made through the booking dialog is always a clinic visit, and it is listed
      under the upcoming tab. */
  lemma DialogBookingIsUpcomingClinicVisit(doctor: Doctor, call: Modals.BookRequest, newId: string)
    requires call.consultationType == Modals.InClinic
    ensures BookingRecord(doctor, call.slot, call.consultationType, newId).kind == ClinicVisit
    ensures BookingRecord(doctor, call.slot, call.consultationType, newId).time == call.slot
    ensures InTab(UpcomingTab)(BookingRecord(doctor, call.slot, call.consultationType, newId))
  {
  }

  // ---- Consultation history ----

  /** A calendar day that exists. */
  type Day = d: Date | ValidDate(d) witness Date(2024, 1, 15)

  /** A consultation history entry; `date` is the day the ISO date string names. */
  datatype Consultation = Consultation(id: string, doctor: string, date: Day, kind: string, status: string, duration: string)

  function Key(c: Consultation): nat
  {
    DayNumber(c.date)
  }

  predicate NewestFirst(s: seq<Consultation>)
  {
    forall i, j :: 0 <= i < j < |s| ==> Key(s[i]) >= Key(s[j])
  }

  /** `Math.round(ms / 60000)` for a non-negative duration: the nearest whole minute, a
      half rounding up. */
  function DurationMinutes(ms: nat): (m: nat)
    ensures 60000 * m <= ms + 30000 < 60000 * m + 60000
  {
    (ms + 30000) / 60000
  }

  /** Places `e` before the first entry that is not newer than it, so that among entries
      of the same day it stays in front (a stable sort keeps its leading position). */
  function InsertByDate(e: Consultation, s: seq<Consultation>): (r: seq<Consultation>)
    ensures multiset(r) == multiset(s) + multiset{e}
    decreases |s|
  {
    if s == [] || Key(s[0]) <= Key(e) then [e] + s
    else
      assert s == [s[0]] + s[1..];
      [s[0]] + InsertByDate(e, s[1..])
  }

  /** A newest-first list stays newest first with an entry no newer than its head in front. */
  lemma ConsNewestFirst(a: Consultation, t: seq<Consultation>)
    requires NewestFirst(t)
    requires forall x :: x in t ==> Key(x) <= Key(a)
    ensures NewestFirst([a] + t)
  {
    forall i, j | 0 <= i < j < |[a] + t| ensures Key(([a] + t)[i]) >= Key(([a] + t)[j]) {
      if i == 0 {
        assert ([a] + t)[j] == t[j - 1];
        assert t[j - 1] in t;
      }
    }
  }

  lemma {:induction false} InsertKeepsNewestFirst(e: Consultation, s: seq<Consultation>)
    requires NewestFirst(s)
    ensures NewestFirst(InsertByDate(e, s))
    decreases |s|
  {
    if s == [] || Key(s[0]) <= Key(e) {
      forall x | x in s ensures Key(x) <= Key(e) {
        var j :| 0 <= j < |s| && s[j] == x;
        assert Key(s[j]) <= Key(s[0]);
      }
      ConsNewestFirst(e, s);
    } else {
      var rest := InsertByDate(e, s[1..]);
      InsertKeepsNewestFirst(e, s[1..]);
      forall x | x in rest ensures Key(x) <= Key(s[0]) {
        assert x in multiset(rest);
        if x != e {
          assert x in multiset(s[1..]);
          var j :| 0 <= j < |s[1..]| && s[1..][j] == x;
          assert s[1..][j] == s[j + 1];
        }
      }
      ConsNewestFirst(s[0], rest);
    }
  }

  /** A stable sort, newest first (insertion sort). */
  function SortByDate(s: seq<Consultation>): (r: seq<Consultation>)
    ensures multiset(r) == multiset(s)
    ensures NewestFirst(r)
    decreases |s|
  {
    if s == [] then []
    else
      assert s == [s[0]] + s[1..];
      InsertKeepsNewestFirst(s[0], SortByDate(s[1..]));
      InsertByDate(s[0], SortByDate(s[1..]))
  }

  /** Sorting a list that is already newest first changes nothing. */
  lemma {:induction false} SortKeepsSorted(s: seq<Consultation>)
    requires NewestFirst(s)
    ensures SortByDate(s) == s
    decreases |s|
  {
    if s != [] {
      SortKeepsSorted(s[1..]);
      assert s == [s[0]] + s[1..];
    }
  }

  /** endConsultation's update of the history. */
  function EndConsultation(history: seq<Consultation>, e: Consultation): seq<Consultation>
  {
    SortByDate([e] + history)
  }

  /** How many entries at the front are strictly newer than `e`. */
  function NewerCount(s: seq<Consultation>, e: Consultation): (k: nat)
    ensures k <= |s|
    ensures forall i :: 0 <= i < k ==> Key(s[i]) > Key(e)
    decreases |s|
  {
    if s == [] || Key(s[0]) <= Key(e) then 0 else 1 + NewerCount(s[1..], e)
  }

  lemma {:induction false} InsertAtNewerCount(e: Consultation, s: seq<Consultation>)
    ensures InsertByDate(e, s) == s[..NewerCount(s, e)] + [e] + s[NewerCount(s, e)..]
    decreases |s|
  {
    if s != [] && Key(s[0]) > Key(e) {
      InsertAtNewerCount(e, s[1..]);
      assert s == [s[0]] + s[1..];
    }
  }

  /** Ending a consultation on a history kept newest first inserts the new entry after
      the strictly newer entries and before all others, keeps every old entry in its
      order, and leaves the history newest first. */
  lemma EndConsultationPlacesEntry(history: seq<Consultation>, e: Consultation)
    requires NewestFirst(history)
    ensures var k := NewerCount(history, e);
      && EndConsultation(history, e) == history[..k] + [e] + history[k..]
      && (forall i :: k <= i < |history| ==> Key(history[i]) <= Key(e))
    ensures NewestFirst(EndConsultation(history, e))
    ensures multiset(EndConsultation(history, e)) == multiset(history) + multiset{e}
  {
    SortKeepsSorted(history);
    assert [e] + history == [([e] + history)[0]] + ([e] + history)[1..];
    assert ([e] + history)[1..] == history;
    InsertAtNewerCount(e, history);
    var k := NewerCount(history, e);
    if k < |history| {
      assert Key(history[k]) <= Key(e) by {
        NewerCountStops(history, e);
      }
    }
  }

  lemma {:induction false} NewerCountStops(s: seq<Consultation>, e: Consultation)
    ensures NewerCount(s, e) < |s| ==> Key(s[NewerCount(s, e)]) <= Key(e)
    decreases |s|
  {
    if s != [] && Key(s[0]) > Key(e) {
      NewerCountStops(s[1..], e);
    }
  }

  /** The entry endConsultation adds: a completed chat with today's date. */
  function NewChatEntry(id: string, doctorName: string, today: Day, durationMs: nat): (c: Consultation)
    ensures c.date == today && c.doctor == doctorName && c.kind == "Chat" && c.status == "Completed"
    ensures c.duration == NatToString(DurationMinutes(durationMs)) + " min"
  {
    Consultation(id, doctorName, today, "Chat", "Completed", NatToString(DurationMinutes(durationMs)) + " min")
  }

  /** A consultation ended today on a history of earlier days goes to the top. */
  lemma TodaysChatGoesFirst(history: seq<Consultation>, id: string, doctorName: string, today: Day, durationMs: nat)
    requires NewestFirst(history)
    requires forall i :: 0 <= i < |history| ==> Key(history[i]) <= DayNumber(today)
    ensures EndConsultation(history, NewChatEntry(id, doctorName, today, durationMs))[0]
      == NewChatEntry(id, doctorName, today, durationMs)
  {
    var e := NewChatEntry(id, doctorName, today, durationMs);
    EndConsultationPlacesEntry(history, e);
    assert NewerCount(history, e) == 0;
  }
}
