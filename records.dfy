/** The application's record types and the seed data the mock layer starts from. */
module Records {
  import opened Wrappers

  /** `Appointment.type`, with the `Follow-up Visit` value the mock service writes. */
  datatype VisitType = ClinicVisit | VideoConsult | FollowUpVisit

  datatype Status = Confirmed | Completed | Cancelled | Pending

  datatype PaymentStatus = Paid | PaymentPending

  /** One appointment of the patient ledger. `label` (here `labelText`, since `label` is a Dafny keyword) and `isFollowUp` are written only on
      synthesized follow-ups; on every other record they are absent (None, false). */
  datatype Appointment = Appointment(
    id: string,
    doctorId: string,
    doctorName: string,
    date: string,
    time: string,
    kind: VisitType,
    status: Status,
    paymentStatus: PaymentStatus,
    labelText: Option<string>,
    isFollowUp: bool)

  datatype CartKind = MedicineItem | TestItem

  datatype CartItem = CartItem(id: string, kind: CartKind, itemId: string, quantity: nat, price: nat, name: string)

  datatype Doctor = Doctor(
    id: string,
    name: string,
    speciality: string,
    location: string,
    consultationFee: nat,
    availableSlots: seq<string>)

  datatype Role = DoctorRole | PatientRole | AdminRole

  datatype AdminUser = AdminUser(id: string, name: string, role: Role, email: string)

  /** A clinic or hospital; `kind` is "Hospital" or "Clinic". */
  datatype Facility = Facility(id: string, name: string, kind: string)

  /** The three seed appointments the application starts with. */
  const SeedA1 := Appointment("a1", "d1", "Dr. Aarav Patel", "7 Dec", "06:00 PM", ClinicVisit, Confirmed, Paid, None, false)
  const SeedA2 := Appointment("a2", "d1", "Dr. Aarav Patel", "7 Dec", "11:30 AM", ClinicVisit, Confirmed, Paid, None, false)
  const SeedA3 := Appointment("a3", "d2", "Dr. Priya Sharma", "15 Nov", "09:00 AM", VideoConsult, Completed, Paid, None, false)

  const SeedAppointments: seq<Appointment> := [SeedA1, SeedA2, SeedA3]
}
