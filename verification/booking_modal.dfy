/**
 The booking dialog on a service page: the date check, the booking record it
 sends, and how the dialog's state follows the outcome.
 */
module BookingModal {
  import opened Values
  import opened Backend
  import opened Schema
  import Bookings
  import Services

  datatype ModalState = ModalState(bookingDate: string, notes: string, loading: bool, error: string, success: bool)

  const InitialState: ModalState := ModalState("", "", false, "", false)

  const MissingDate: string := "Please select a booking date and time"
  const BookingFallback: string := "Failed to create booking. Please try again."

  /** `toISOString()` on an unparseable date throws this. */
  const InvalidTime: string := "Invalid time value"

  /** What the submit leaves behind: the dialog state, the backend, and
      whether the success timer (which calls `onBookingSuccess` and then
      `onClose`) was started. */
  datatype SubmitResult = SubmitResult(st: ModalState, db: Store, closing: bool)

  /** The record `handleSubmit` sends. `iso` is the ISO rendering of the
      picked date. */
  function BookingPayload(user: Row, service: Row, iso: string, notes: string): (p: Row)
    ensures p.Keys == {"user_id", "service_id", "booking_date", "booking_notes", "booking_status"}
    ensures p["user_id"] == Get(user, "id") && p["service_id"] == Get(service, "id")
    ensures p["booking_notes"] == Str(notes) && p["booking_status"] == Str("pending")
    ensures p["booking_date"] == Str(iso)
  {
    map["user_id" := Get(user, "id"), "service_id" := Get(service, "id"), "booking_date" := Str(iso),
        "booking_notes" := Str(notes), "booking_status" := Str("pending")]
  }

  /** `err.message || 'Failed to create booking. Please try again.'`. */
  function Failed(st: ModalState, message: string): (next: ModalState)
    ensures next.error != "" && !next.loading && !next.success
  {
    st.(error := if message != "" then message else BookingFallback, loading := false, success := false)
  }

  /** `handleSubmit`. A closed dialog renders no form and so cannot submit.
      `iso` is the date's ISO string, absent when the date does not parse;
      the remaining parameters are the backend's outcomes. */
  function Submit(isOpen: bool, st: ModalState, db: Store, user: Option<Row>, service: Row, iso: Option<string>,
                  serviceFault: Option<DbError>, profileFault: Option<DbError>,
                  defaults: Row, insertFault: Option<DbError>): (r: SubmitResult)
    ensures !isOpen ==> r == SubmitResult(st, db, false)
    ensures isOpen && st.bookingDate == "" ==> r == SubmitResult(st.(loading := false, error := MissingDate, success := false), db, false)
    ensures isOpen && st.bookingDate != "" && user.None? ==> r == SubmitResult(Failed(st, Services.NoUserMessage), db, false)
    ensures isOpen && st.bookingDate != "" && user.Some? && iso.None? ==> r == SubmitResult(Failed(st, InvalidTime), db, false)
    ensures isOpen ==> (r.closing <==> r.st.success)
    ensures r.closing ==> r.st.loading && r.st.error == ""
    ensures !r.closing ==> r.db == db
    ensures isOpen && st.bookingDate != "" && user.Some? && iso.Some? ==>
              var s := Bookings.CreateServiceBooking(db, BookingPayload(user.value, service, iso.value, st.notes),
                                                     serviceFault, profileFault, defaults, insertFault);
              (r.closing <==> !(s.reply.error.Some? && s.reply.error.value != ""))
              && (r.closing ==> r.db == s.db)
              && (!r.closing ==> r.st == Failed(st, s.reply.error.value))
  {
    if !isOpen then SubmitResult(st, db, false)
    else if st.bookingDate == "" then SubmitResult(st.(loading := false, error := MissingDate, success := false), db, false)
    else match (user, iso)
      case (None, _) => SubmitResult(Failed(st, Services.NoUserMessage), db, false)
      case (Some(_), None) => SubmitResult(Failed(st, InvalidTime), db, false)
      case (Some(u), Some(date)) =>
        var s := Bookings.CreateServiceBooking(db, BookingPayload(u, service, date, st.notes),
                                               serviceFault, profileFault, defaults, insertFault);
        if s.reply.error.Some? && s.reply.error.value != "" then SubmitResult(Failed(st, s.reply.error.value), db, false)
        else SubmitResult(st.(loading := true, error := "", success := true), s.db, true)
  }

  /** The fields the dialog sends are not contact-snapshot columns. */
  lemma {:induction false} PayloadOutsideSnapshot(p: Row)
    requires p.Keys == {"user_id", "service_id", "booking_date", "booking_notes", "booking_status"}
    ensures forall k :: k in p ==> k !in Bookings.SnapshotColumns && k != "service_provider_id"
  {
  }

  /** A booking made through the dialog is stored pending, for the signed-in
      customer and the chosen service, owned by the service's provider, with
      the notes as typed. */
  lemma {:induction false} BookedThroughModal(st: ModalState, db: Store, user: Row, service: Row, iso: string,
                           profileFault: Option<DbError>, defaults: Row, i: nat)
    requires st.bookingDate != ""
    requires UniqueIds(db.services) && i < |db.services| && Get(db.services[i], "id") == Get(service, "id")
    ensures var r := Submit(true, st, db, Some(user), service, Some(iso), None, profileFault, defaults, None);
            && r.closing
            && |r.db.bookings| == |db.bookings| + 1
            && var row := r.db.bookings[|db.bookings|];
            && Get(row, "booking_status") == Str("pending")
            && Get(row, "user_id") == Get(user, "id")
            && Get(row, "service_id") == Get(service, "id")
            && Get(row, "booking_notes") == Str(st.notes)
            && Get(row, "service_provider_id") == Get(db.services[i], "user_id")
  {
    var p := BookingPayload(user, service, iso, st.notes);
    Bookings.BookingProviderIsOwner(db, p, i, profileFault, defaults);
    PayloadOutsideSnapshot(p);
  }
}
