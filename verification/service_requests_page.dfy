/**
 The provider's service-requests page: loading the requests, the status
 buttons offered per booking, the local update after a status change, and
 the status badge's colour and label.
 */
module ServiceRequestsPage {
  import opened Values
  import opened Text
  import opened Backend
  import opened Schema
  import Bookings

  const Pending: Value := Str("pending")
  const Confirmed: Value := Str("confirmed")
  const Completed: Value := Str("completed")
  const Cancelled: Value := Str("cancelled")

  /** The page's state: the request list, the error banner and the spinner. */
  datatype RequestsState = RequestsState(requests: seq<Row>, error: Option<string>, loading: bool)

  const InitialState: RequestsState := RequestsState([], None, true)

  /** The fetch effect: nothing happens without a user (the spinner stays);
      otherwise an error is shown, or the list replaced by the bookings. */
  function LoadRequests(st: RequestsState, db: Store, user: Option<Row>,
                        bookingsFault: Option<DbError>, servicesFault: Option<DbError>): (next: RequestsState)
    ensures user.None? ==> next == st
    ensures user.Some? ==> !next.loading
    ensures user.Some? && bookingsFault.Some? && bookingsFault.value.message != ""
            ==> next.requests == st.requests && next.error == Some(bookingsFault.value.message)
    ensures user.Some? && bookingsFault.Some? && bookingsFault.value.message == ""
            ==> next.requests == [] && next.error == st.error
    ensures user.Some? && bookingsFault.None? ==>
              next.error == st.error
              && next.requests == Bookings.GetProviderBookings(db, Get(user.value, "id"), None, servicesFault).data.value
  {
    match user
    case None => st
    case Some(u) =>
      var r := Bookings.GetProviderBookings(db, Get(u, "id"), bookingsFault, servicesFault);
      if r.error.Some? && r.error.value != "" then st.(error := r.error, loading := false)
      else if r.data.Some? then st.(requests := r.data.value, loading := false)
      else st.(requests := [], loading := false)
  }

  /** The buttons rendered for a booking's status, as the statuses they set. */
  function Actions(status: Value): (targets: seq<Value>)
    ensures |targets| <= 2
    ensures status != Pending && status != Confirmed ==> targets == []
  {
    if status == Pending then [Confirmed, Cancelled]
    else if status == Confirmed then [Completed, Cancelled]
    else []
  }

  /** How far along the booking life cycle a status is. */
  function Stage(status: Value): nat {
    if status == Pending then 0
    else if status == Confirmed then 1
    else 2
  }

  /** Every offered action moves the booking forward: never back to pending,
      never to the status it already has. */
  lemma {:induction false} ActionsMoveForward(status: Value)
    ensures forall t :: t in Actions(status) ==> Stage(t) > Stage(status) && t != status && t != Pending
    ensures Actions(Pending) == [Confirmed, Cancelled]
    ensures Actions(Confirmed) == [Completed, Cancelled]
    ensures Actions(Completed) == [] && Actions(Cancelled) == []
  {
  }

  /** A run of button presses, each one offered for the status it was
      pressed in. */
  predicate OfferedPath(start: Value, path: seq<Value>)
    decreases |path|
  {
    path == [] || (path[0] in Actions(start) && OfferedPath(path[0], path[1..]))
  }

  /** Through the buttons alone a booking changes status at most twice, and
      a completed or cancelled booking not at all. */
  lemma {:induction false} OfferedPathsAreShort(start: Value, path: seq<Value>)
    requires OfferedPath(start, path)
    ensures |path| + Stage(start) <= 2
    ensures path != [] ==> Stage(start) + |path| <= Stage(path[|path| - 1])
    decreases |path|
  {
    if path != [] {
      ActionsMoveForward(start);
      OfferedPathsAreShort(path[0], path[1..]);
      if path[1..] != [] {
        assert path[1..][|path[1..]| - 1] == path[|path| - 1];
      }
    }
  }

  /** The local update: the request with the matching id gets the new
      status, every other request and field stays as it was. */
  function MarkStatus(requests: seq<Row>, bookingId: Value, status: Value): (next: seq<Row>)
    ensures |next| == |requests|
    ensures forall i :: 0 <= i < |requests| && Get(requests[i], "id") != bookingId ==> next[i] == requests[i]
    ensures forall i :: 0 <= i < |requests| && Get(requests[i], "id") == bookingId ==>
              next[i].Keys == requests[i].Keys + {"booking_status"}
              && next[i]["booking_status"] == status
              && forall k :: k in requests[i] && k != "booking_status" ==> next[i][k] == requests[i][k]
  {
    seq(|requests|, i requires 0 <= i < |requests| =>
      if Get(requests[i], "id") == bookingId then requests[i]["booking_status" := status] else requests[i])
  }

  /** Marking twice is marking once. */
  lemma {:induction false} MarkStatusIdempotent(requests: seq<Row>, bookingId: Value, status: Value)
    ensures MarkStatus(MarkStatus(requests, bookingId, status), bookingId, status) == MarkStatus(requests, bookingId, status)
  {
    var once := MarkStatus(requests, bookingId, status);
    var twice := MarkStatus(once, bookingId, status);
    forall i | 0 <= i < |requests| ensures twice[i] == once[i] {
      assert Get(once[i], "id") == Get(requests[i], "id");
    }
  }

  /** `handleStatusChange`: the list changes only when the backend reports
      no error; otherwise the failure alert is raised. */
  function HandleStatusChange(requests: seq<Row>, db: Store, bookingId: Value, status: Value,
                              stamp: string, fault: Option<DbError>): (res: (seq<Row>, Store, bool))
    ensures res.2 ==> res.0 == requests && res.1 == db
    ensures !res.2 ==> res.0 == MarkStatus(requests, bookingId, status)
    ensures res.1 == Bookings.UpdateBookingStatus(db, bookingId, status, stamp, fault).db
    ensures fault.Some? && fault.value.message != "" ==> res.2
  {
    var s := Bookings.UpdateBookingStatus(db, bookingId, status, stamp, fault);
    if s.reply.error.Some? && s.reply.error.value != "" then (requests, s.db, true)
    else (MarkStatus(requests, bookingId, status), s.db, false)
  }

  /** After a successful change the page and the backend agree on the
      booking's status. */
  lemma {:induction false} LocalAgreesWithStore(requests: seq<Row>, db: Store, i: nat, j: nat, status: Value, stamp: string)
    requires UniqueIds(db.bookings)
    requires i < |requests| && j < |db.bookings|
    requires Get(requests[i], "id") == Get(db.bookings[j], "id")
    ensures var res := HandleStatusChange(requests, db, Get(db.bookings[j], "id"), status, stamp, None);
            && !res.2
            && Get(res.0[i], "booking_status") == Get(res.1.bookings[j], "booking_status") == status
  {
    var id := Get(db.bookings[j], "id");
    SingleById(db.bookings, id, j);
    var s := Bookings.UpdateBookingStatus(db, id, status, stamp, None);
    assert s.db.bookings[j] == db.bookings[j] + Bookings.StatusPatch(status, stamp);
  }

  /** Whatever made it fail (a backend fault, no booking with that id, or
      several), a change the backend reports with an error message leaves
      both the list and the backend as they were and raises the alert. */
  lemma {:induction false} FailedChangeKeepsList(requests: seq<Row>, db: Store, bookingId: Value, status: Value,
                                                 stamp: string, fault: Option<DbError>)
    requires var s := Bookings.UpdateBookingStatus(db, bookingId, status, stamp, fault);
             s.reply.error.Some? && s.reply.error.value != ""
    ensures HandleStatusChange(requests, db, bookingId, status, stamp, fault) == (requests, db, true)
  {
  }

  /** A change for a booking the backend does not hold is such a failure. */
  lemma {:induction false} UnknownBookingKeepsList(requests: seq<Row>, db: Store, bookingId: Value, status: Value, stamp: string)
    requires forall j :: 0 <= j < |db.bookings| ==> Get(db.bookings[j], "id") != bookingId
    ensures HandleStatusChange(requests, db, bookingId, status, stamp, None) == (requests, db, true)
  {
    FilterNone(db.bookings, Eq("id", bookingId));
  }

  const PendingColor: string := "bg-yellow-100 text-yellow-800 dark:bg-yellow-900 dark:text-yellow-200"

  /** `getStatusColor`. */
  function StatusColor(status: Value): (classes: string)
    ensures status != Confirmed && status != Completed && status != Cancelled ==> classes == PendingColor
  {
    if status == Confirmed then "bg-green-100 text-green-800 dark:bg-green-900 dark:text-green-200"
    else if status == Completed then "bg-blue-100 text-blue-800 dark:bg-blue-900 dark:text-blue-200"
    else if status == Cancelled then "bg-destructive/10 text-destructive dark:bg-destructive/20 dark:text-destructive"
    else PendingColor
  }

  /** `s.charAt(0).toUpperCase() + s.slice(1)`. */
  function Capitalize(s: string): (r: string)
    ensures |r| == |s|
    ensures s != [] ==> r[0] == UpperChar(s[0]) && r[1..] == s[1..]
  {
    if s == [] then [] else [UpperChar(s[0])] + s[1..]
  }

  /** Capitalising a label twice changes nothing more. */
  lemma {:induction false} CapitalizeIdempotent(s: string)
    ensures Capitalize(Capitalize(s)) == Capitalize(s)
  {
  }
}
