/**
 Booking operations of the user context: `createServiceBooking`,
 `getUserBookings`, `getProviderBookings` and `updateBookingStatus`.
 */
module Bookings {
  import opened Values
  import opened Seqs
  import opened Backend
  import opened Schema

  const ServiceNotFound: string := "Service not found"
  const EmailNotAvailable: string := "Email not available"

  /** The columns of the service summary attached to each listed booking. */
  const SummaryColumns: set<string> := {"id", "name", "price", "category"}

  /** The profile columns snapshotted onto a new booking, by booking column. */
  const SnapshotColumns: set<string> := {"user_email", "user_full_name", "user_phone", "user_location"}

  /** The customer's contact data copied onto a booking: each profile value,
      or null when it is falsy; all null when the profile lookup failed. */
  function ContactSnapshot(profile: Answer<Row>): (m: Row)
    ensures m.Keys == SnapshotColumns
    ensures profile.Fault? ==> forall k :: k in m ==> m[k] == Null
    ensures profile.Ok? ==> && m["user_email"] == OrNull(Get(profile.value, "email"))
                            && m["user_full_name"] == OrNull(Get(profile.value, "name"))
                            && m["user_phone"] == OrNull(Get(profile.value, "phone"))
                            && m["user_location"] == OrNull(Get(profile.value, "location"))
  {
    match profile
    case Ok(p) =>
      map["user_email" := OrNull(Get(p, "email")), "user_full_name" := OrNull(Get(p, "name")),
          "user_phone" := OrNull(Get(p, "phone")), "user_location" := OrNull(Get(p, "location"))]
    case Fault(_) =>
      map["user_email" := Null, "user_full_name" := Null, "user_phone" := Null, "user_location" := Null]
  }

  /** The row handed to the insert: the form's booking data, then the
      provider id, then the contact snapshot, later keys winning. */
  function BookingRow(bookingData: Row, providerId: Value, snapshot: Row): (full: Row)
    requires snapshot.Keys == SnapshotColumns
    ensures Get(full, "service_provider_id") == providerId
    ensures forall k :: k in SnapshotColumns ==> k in full && full[k] == snapshot[k]
    ensures forall k :: k in bookingData && k != "service_provider_id" && k !in SnapshotColumns
                        ==> k in full && full[k] == bookingData[k]
  {
    bookingData + map["service_provider_id" := providerId] + snapshot
  }

  /** The service lookup of `createServiceBooking`: by id alone, with no
      status check. */
  function FindService(db: Store, bookingData: Row, fault: Option<DbError>): Answer<Row> {
    SelectSingle(db.services, Eq("id", Get(bookingData, "service_id")), fault)
  }

  /** The best-effort profile lookup of `createServiceBooking`. */
  function FindCustomer(db: Store, bookingData: Row, fault: Option<DbError>): Answer<Row> {
    SelectSingle(db.profiles, Eq("id", Get(bookingData, "user_id")), fault)
  }

  /** `createServiceBooking(bookingData)`. Any error of the service lookup
      reads as "not found"; the profile lookup is best effort. */
  function CreateServiceBooking(db: Store, bookingData: Row, serviceFault: Option<DbError>,
                                profileFault: Option<DbError>, defaults: Row, insertFault: Option<DbError>): (s: Step<Row>)
    ensures FindService(db, bookingData, serviceFault).Fault? ==> s == Step(Failure(ServiceNotFound), db)
    ensures FindService(db, bookingData, serviceFault).Ok? && insertFault.Some?
            ==> s == Step(Failure(insertFault.value.message), db)
    ensures s.reply.Failed() ==> s.db == db
    ensures !s.reply.Failed() ==> s.reply.data.Some? && s.db == db.(bookings := db.bookings + [s.reply.data.value])
    ensures !s.reply.Failed() <==> FindService(db, bookingData, serviceFault).Ok? && insertFault.None?
  {
    match FindService(db, bookingData, serviceFault)
    case Fault(_) => Step(Failure(ServiceNotFound), db)
    case Ok(service) =>
      var full := BookingRow(bookingData, Get(service, "user_id"), ContactSnapshot(FindCustomer(db, bookingData, profileFault)));
      match Insert(db.bookings, full, defaults, insertFault)
      case (Ok(row), t) => Step(Success(row), db.(bookings := t))
      case (Fault(e), _) => Step(Failure(e.message), db)
  }

  /** What a new booking holds: the form's data, the provider resolved from
      the service, and the customer's contact snapshot. */
  lemma {:induction false} CreatedBookingContents(db: Store, bookingData: Row, serviceFault: Option<DbError>,
                               profileFault: Option<DbError>, defaults: Row)
    requires FindService(db, bookingData, serviceFault).Ok?
    ensures var s := CreateServiceBooking(db, bookingData, serviceFault, profileFault, defaults, None);
            && s.reply.data.Some?
            && var row := s.reply.data.value;
            && Get(row, "service_provider_id") == Get(FindService(db, bookingData, serviceFault).value, "user_id")
            && (forall k :: k in bookingData && k != "service_provider_id" && k !in SnapshotColumns
                  ==> Get(row, k) == bookingData[k])
            && (forall k :: k in SnapshotColumns
                  ==> Get(row, k) == ContactSnapshot(FindCustomer(db, bookingData, profileFault))[k])
  {
    var service := FindService(db, bookingData, serviceFault).value;
    var snapshot := ContactSnapshot(FindCustomer(db, bookingData, profileFault));
    var full := BookingRow(bookingData, Get(service, "user_id"), snapshot);
    var row := CreateServiceBooking(db, bookingData, serviceFault, profileFault, defaults, None).reply.data.value;
    assert row == defaults + full;
  }

  /** A booking for a service nobody has is refused and nothing is inserted. */
  lemma {:induction false} BookingUnknownService(db: Store, bookingData: Row, profileFault: Option<DbError>, defaults: Row, insertFault: Option<DbError>)
    requires forall j :: 0 <= j < |db.services| ==> Get(db.services[j], "id") != Get(bookingData, "service_id")
    ensures CreateServiceBooking(db, bookingData, None, profileFault, defaults, insertFault) == Step(Failure(ServiceNotFound), db)
  {
    FilterNone(db.services, Eq("id", Get(bookingData, "service_id")));
  }

  /** With unique ids, a booking for an existing service is appended; its
      provider is the owner of that service, whatever the service's status,
      and the form's other fields are kept. */
  lemma {:induction false} BookingProviderIsOwner(db: Store, bookingData: Row, i: nat, profileFault: Option<DbError>, defaults: Row)
    requires UniqueIds(db.services)
    requires i < |db.services| && Get(db.services[i], "id") == Get(bookingData, "service_id")
    ensures var s := CreateServiceBooking(db, bookingData, None, profileFault, defaults, None);
            && s.reply.data.Some?
            && s.db.bookings == db.bookings + [s.reply.data.value]
            && Get(s.reply.data.value, "service_provider_id") == Get(db.services[i], "user_id")
            && (forall k :: k in bookingData && k != "service_provider_id" && k !in SnapshotColumns
                  ==> Get(s.reply.data.value, k) == bookingData[k])
  {
    SingleById(db.services, Get(bookingData, "service_id"), i);
    CreatedBookingContents(db, bookingData, None, profileFault, defaults);
  }

  // ---------------------------------------------------------------------------
  // Listing bookings with their service summaries
  // ---------------------------------------------------------------------------

  /** The reference meaning of a booking's `service` field: the summary of the
      first service in the table with that id, or null when there is none. */
  function ServiceSummary(services: Table, id: Value): (v: Value)
    ensures v == Null <==> forall j :: 0 <= j < |services| ==> Get(services[j], "id") != id
    ensures v != Null ==> v.Obj? && v.fields.Keys == SummaryColumns && Get(v.fields, "id") == id
  {
    if services == [] then Null
    else if Get(services[0], "id") == id then Obj(Project(services[0], SummaryColumns))
    else
      var v := ServiceSummary(services[1..], id);
      assert forall j :: 1 <= j < |services| ==> services[j] == services[1..][j - 1];
      v
  }

  /** `servicesData.find(s => s.id === booking.service_id) || null`. */
  function FindSummary(summaries: Table, id: Value): Value {
    if summaries == [] then Null
    else if Get(summaries[0], "id") == id then Obj(summaries[0])
    else FindSummary(summaries[1..], id)
  }

  function ProjectAll(t: Table, columns: set<string>): (u: Table)
    ensures |u| == |t|
  {
    if t == [] then [] else [Project(t[0], columns)] + ProjectAll(t[1..], columns)
  }

  /** The batched `select('id, name, price, category').in('id', ids)`. */
  function Summaries(services: Table, ids: set<Value>): Table {
    ProjectAll(Select(services, In("id", ids)), SummaryColumns)
  }

  /** The distinct service ids of a list of bookings. */
  function ServiceIds(rows: Table): set<Value> {
    set r | r in rows :: Get(r, "service_id")
  }

  /** Searching the batched summaries finds what the reference definition
      names, for every id the batch asked for. */
  lemma {:induction false} FindInSummaries(services: Table, ids: set<Value>, id: Value)
    requires id in ids
    ensures FindSummary(Summaries(services, ids), id) == ServiceSummary(services, id)
  {
    if services != [] {
      var p := (r: Row) => Holds(In("id", ids), r);
      assert Select(services, In("id", ids)) == Filter(services, p);
      FindInSummaries(services[1..], ids, id);
      assert Select(services[1..], In("id", ids)) == Filter(services[1..], p);
      if p(services[0]) {
        assert Filter(services, p) == [services[0]] + Filter(services[1..], p);
        assert Summaries(services, ids) == [Project(services[0], SummaryColumns)] + Summaries(services[1..], ids);
      } else {
        assert Get(services[0], "id") != id;
        assert Filter(services, p) == Filter(services[1..], p);
      }
    }
  }

  /** For every listed booking, the batch built from the listed service ids
      holds the summary of that booking's service. */
  lemma {:induction false} SummariesAgree(services: Table, rows: Table)
    ensures forall i :: 0 <= i < |rows| ==>
              FindSummary(Summaries(services, ServiceIds(rows)), Get(rows[i], "service_id"))
              == ServiceSummary(services, Get(rows[i], "service_id"))
  {
    forall i | 0 <= i < |rows|
      ensures FindSummary(Summaries(services, ServiceIds(rows)), Get(rows[i], "service_id"))
              == ServiceSummary(services, Get(rows[i], "service_id"))
    {
      assert rows[i] in rows;
      FindInSummaries(services, ServiceIds(rows), Get(rows[i], "service_id"));
    }
  }

  /** The bookings whose `column` equals `id`, newest `booking_date` first. */
  function BookingsBy(db: Store, column: string, id: Value): (rows: Table)
    ensures SortedDesc(rows, "booking_date")
    ensures multiset(rows) == multiset(Select(db.bookings, Eq(column, id)))
    ensures forall r :: r in rows <==> r in db.bookings && Get(r, column) == id
  {
    var rows := SortDesc(Select(db.bookings, Eq(column, id)), "booking_date");
    SortKeepsRows(Select(db.bookings, Eq(column, id)), "booking_date");
    rows
  }

  /** The batched lookup for the user's listing: each booking with the
      summary of its service attached. */
  function AttachSummaries(services: Table, rows: Table): (data: Table)
    ensures |data| == |rows|
    ensures forall i :: 0 <= i < |rows| ==>
              data[i] == rows[i]["service" := ServiceSummary(services, Get(rows[i], "service_id"))]
  {
    var summaries := Summaries(services, ServiceIds(rows));
    SummariesAgree(services, rows);
    seq(|rows|, i requires 0 <= i < |rows| => rows[i]["service" := FindSummary(summaries, Get(rows[i], "service_id"))])
  }

  /** `getUserBookings(userId)`. A failed service lookup still returns the
      bookings, without the `service` field. */
  function GetUserBookings(db: Store, userId: Value, bookingsFault: Option<DbError>, servicesFault: Option<DbError>): (r: Response<Table>)
    ensures bookingsFault.Some? ==> r == Failure(bookingsFault.value.message)
    ensures bookingsFault.None? ==> r.data.Some? && !r.Failed()
    ensures bookingsFault.None? ==>
              var rows := BookingsBy(db, "user_id", userId);
              var data := r.data.value;
              && |data| == |rows|
              && (servicesFault.Some? ==> data == rows)
              && (servicesFault.None? ==> forall i :: 0 <= i < |rows| ==>
                    data[i] == rows[i]["service" := ServiceSummary(db.services, Get(rows[i], "service_id"))])
  {
    if bookingsFault.Some? then Failure(bookingsFault.value.message)
    else
      var rows := BookingsBy(db, "user_id", userId);
      if rows == [] then Success([])
      else if servicesFault.Some? then Success(rows)
      else Success(AttachSummaries(db.services, rows))
  }

  /** The contact object the provider view builds from a booking's snapshot. */
  function Customer(booking: Row): (v: Value)
    ensures v.Obj? && Get(v.fields, "email") == Or(Get(booking, "user_email"), Str(EmailNotAvailable))
    ensures Truthy(Get(v.fields, "email"))
    ensures v.fields.Keys == {"email", "user_metadata"}
    ensures var meta := Get(v.fields, "user_metadata");
            && meta.Obj? && meta.fields.Keys == {"full_name", "phone", "location"}
            && meta.fields["full_name"] == OrNull(Get(booking, "user_full_name"))
            && meta.fields["phone"] == OrNull(Get(booking, "user_phone"))
            && meta.fields["location"] == OrNull(Get(booking, "user_location"))
  {
    Obj(map["email" := Or(Get(booking, "user_email"), Str(EmailNotAvailable)),
            "user_metadata" := Obj(map["full_name" := OrNull(Get(booking, "user_full_name")),
                                       "phone" := OrNull(Get(booking, "user_phone")),
                                       "location" := OrNull(Get(booking, "user_location"))])])
  }

  /** Read back through the provider view, a booking created with a found
      customer profile shows that profile's name, phone and location (or
      null), and its email or the placeholder: the snapshot loses nothing
      the contact object shows. */
  lemma {:induction false} CustomerShowsProfile(booking: Row, profile: Row)
    requires forall k :: k in SnapshotColumns ==> k in booking && booking[k] == ContactSnapshot(Ok(profile))[k]
    ensures var meta := Get(Customer(booking).fields, "user_metadata").fields;
            && Get(Customer(booking).fields, "email") == Or(Get(profile, "email"), Str(EmailNotAvailable))
            && meta["full_name"] == OrNull(Get(profile, "name"))
            && meta["phone"] == OrNull(Get(profile, "phone"))
            && meta["location"] == OrNull(Get(profile, "location"))
  {
  }

  /** With the profile lookup failed, the contact object shows the
      placeholder email and null for the rest. */
  lemma {:induction false} CustomerWithoutProfile(booking: Row, fault: DbError)
    requires forall k :: k in SnapshotColumns ==> k in booking && booking[k] == ContactSnapshot(Fault(fault))[k]
    ensures var meta := Get(Customer(booking).fields, "user_metadata").fields;
            && Get(Customer(booking).fields, "email") == Str(EmailNotAvailable)
            && meta["full_name"] == Null && meta["phone"] == Null && meta["location"] == Null
  {
  }

  /** A booking as the provider view lists it. */
  function ProviderView(booking: Row, service: Value): Row {
    booking["service" := service]["user" := Customer(booking)]
  }

  /** The provider's listing: each booking as the provider sees it, with
      the summary of its service, or null when the lookup failed. */
  function ProviderViews(services: Table, rows: Table, servicesFault: Option<DbError>): (data: Table)
    ensures |data| == |rows|
    ensures servicesFault.Some? ==> forall i :: 0 <= i < |rows| ==> data[i] == ProviderView(rows[i], Null)
    ensures servicesFault.None? ==> forall i :: 0 <= i < |rows| ==>
              data[i] == ProviderView(rows[i], ServiceSummary(services, Get(rows[i], "service_id")))
  {
    // with the lookup failed, `servicesData` stays `[]` and every find misses
    if servicesFault.Some? then seq(|rows|, i requires 0 <= i < |rows| => ProviderView(rows[i], Null))
    else
      var summaries := Summaries(services, ServiceIds(rows));
      SummariesAgree(services, rows);
      seq(|rows|, i requires 0 <= i < |rows| => ProviderView(rows[i], FindSummary(summaries, Get(rows[i], "service_id"))))
  }

  /** `getProviderBookings(providerId)`. A failed service lookup leaves every
      `service` null; the customer object comes from the booking's snapshot. */
  function GetProviderBookings(db: Store, providerId: Value, bookingsFault: Option<DbError>, servicesFault: Option<DbError>): (r: Response<Table>)
    ensures bookingsFault.Some? ==> r == Failure(bookingsFault.value.message)
    ensures bookingsFault.None? ==> r.data.Some? && !r.Failed()
    ensures bookingsFault.None? ==> r.data.value == ProviderViews(db.services, BookingsBy(db, "service_provider_id", providerId), servicesFault)
  {
    if bookingsFault.Some? then Failure(bookingsFault.value.message)
    else
      var rows := BookingsBy(db, "service_provider_id", providerId);
      if rows == [] then Success([])
      else Success(ProviderViews(db.services, rows, servicesFault))
  }

  /** Attaching a field other than the sort column keeps a sorted list sorted. */
  lemma {:induction false} SortedAfterAttach(rows: Table, data: Table, col: string)
    requires SortedDesc(rows, col) && |data| == |rows|
    requires forall i :: 0 <= i < |rows| ==> Get(data[i], col) == Get(rows[i], col)
    ensures SortedDesc(data, col)
  {
  }

  /** The listing built from sorted bookings of one customer keeps their
      order and owner, and attaches to each the summary of its own service. */
  lemma {:induction false} AttachedShape(services: Table, rows: Table, userId: Value)
    requires SortedDesc(rows, "booking_date")
    requires forall i :: 0 <= i < |rows| ==> Get(rows[i], "user_id") == userId
    ensures var data := AttachSummaries(services, rows);
            && SortedDesc(data, "booking_date")
            && (forall i :: 0 <= i < |data| ==> Get(data[i], "user_id") == userId)
            && (forall i :: 0 <= i < |data| ==>
                  Get(data[i], "service") == ServiceSummary(services, Get(data[i], "service_id")))
  {
    var data := AttachSummaries(services, rows);
    forall i | 0 <= i < |data|
      ensures Get(data[i], "booking_date") == Get(rows[i], "booking_date")
    {
      assert data[i] == rows[i]["service" := ServiceSummary(services, Get(rows[i], "service_id"))];
    }
    SortedAfterAttach(rows, data, "booking_date");
  }

  /** Every listed booking is the customer's, newest first, and its `service`
      is the reference summary of the very service it names (null when no
      service has that id). */
  lemma {:induction false} UserBookingsShape(db: Store, userId: Value)
    ensures var data := GetUserBookings(db, userId, None, None).data.value;
            && SortedDesc(data, "booking_date")
            && (forall i :: 0 <= i < |data| ==> Get(data[i], "user_id") == userId)
            && (forall i :: 0 <= i < |data| ==>
                  Get(data[i], "service") == ServiceSummary(db.services, Get(data[i], "service_id")))
  {
    var rows := BookingsBy(db, "user_id", userId);
    forall i | 0 <= i < |rows| ensures Get(rows[i], "user_id") == userId {
      assert rows[i] in rows;
    }
    if rows != [] {
      AttachedShape(db.services, rows, userId);
    }
  }

  /** Every booking of the customer is listed, and nothing else. */
  lemma {:induction false} UserBookingsComplete(db: Store, userId: Value, b: Row)
    requires b in db.bookings && Get(b, "user_id") == userId
    ensures exists i :: 0 <= i < |BookingsBy(db, "user_id", userId)| && BookingsBy(db, "user_id", userId)[i] == b
  {
    var rows := BookingsBy(db, "user_id", userId);
    assert b in rows;
  }

  // ---------------------------------------------------------------------------
  // Status updates
  // ---------------------------------------------------------------------------

  /** `{ booking_status: status, updated_at }`. */
  function StatusPatch(status: Value, stamp: string): (p: Row)
    ensures p.Keys == {"booking_status", "updated_at"}
    ensures p["booking_status"] == status && p["updated_at"] == Str(stamp)
  {
    map["booking_status" := status, "updated_at" := Str(stamp)]
  }

  /** `updateBookingStatus(bookingId, status)`: any status value is accepted;
      only the targeted row changes, in its status and `updated_at` alone. */
  function UpdateBookingStatus(db: Store, bookingId: Value, status: Value, stamp: string, fault: Option<DbError>): (s: Step<Row>)
    ensures s.db == db.(bookings := s.db.bookings)
    ensures !s.reply.Failed() <==> fault.None? && |Select(db.bookings, Eq("id", bookingId))| == 1
    ensures s.reply.Failed() ==> s.db == db
    ensures !s.reply.Failed() ==>
              && s.reply.data.Some?
              && Get(s.reply.data.value, "booking_status") == status
              && |s.db.bookings| == |db.bookings|
              && forall i :: 0 <= i < |db.bookings| ==>
                   s.db.bookings[i] == (if Get(db.bookings[i], "id") == bookingId
                                        then db.bookings[i] + StatusPatch(status, stamp)
                                        else db.bookings[i])
  {
    match UpdateOne(db.bookings, Eq("id", bookingId), StatusPatch(status, stamp), fault)
    case (Ok(row), t) => Step(Success(row), db.(bookings := t))
    case (Fault(e), _) => Step(Failure(e.message), db)
  }

  /** Patching with a patch that leaves the key column alone selects the same
      number of rows as before. */
  lemma {:induction false} PatchKeepsMatches(t: Table, id: Value, patch: Row)
    requires "id" !in patch
    ensures |Select(Patch(t, Eq("id", id), patch), Eq("id", id))| == |Select(t, Eq("id", id))|
  {
    if t != [] {
      var u := Patch(t, Eq("id", id), patch);
      assert u[1..] == Patch(t[1..], Eq("id", id), patch);
      PatchKeepsMatches(t[1..], id, patch);
      assert Holds(Eq("id", id), u[0]) <==> Holds(Eq("id", id), t[0]);
    }
  }

  /** A later overlay that writes every key of an earlier one hides it. */
  lemma {:induction false} OverlayShadowed(r: Row, first: Row, second: Row)
    requires first.Keys <= second.Keys
    ensures r + first + second == r + second
  {
    assert (r + first + second).Keys == (r + second).Keys;
  }

  /** Patching with `first` and then with `second`, where `second` writes
      every column `first` does and neither touches the key column, is
      patching with `second` alone. */
  lemma {:induction false} PatchShadowed(t: Table, id: Value, first: Row, second: Row)
    requires "id" !in first && first.Keys <= second.Keys
    ensures Patch(Patch(t, Eq("id", id), first), Eq("id", id), second) == Patch(t, Eq("id", id), second)
  {
    var c := Eq("id", id);
    var u := Patch(t, c, first);
    var v := Patch(t, c, second);
    forall i | 0 <= i < |u| ensures Patch(u, c, second)[i] == v[i] {
      if Holds(c, t[i]) {
        OverlayShadowed(t[i], first, second);
      }
    }
  }

  /** Each call stamps `updated_at` afresh, so two status updates of the
      same booking leave the store exactly as the second one alone would:
      the last write wins, whatever the first status and stamp were. */
  lemma {:induction false} UpdateBookingStatusLastWriteWins(db: Store, bookingId: Value, status1: Value, stamp1: string,
                                                          status2: Value, stamp2: string)
    ensures var once := UpdateBookingStatus(db, bookingId, status1, stamp1, None);
            var twice := UpdateBookingStatus(once.db, bookingId, status2, stamp2, None);
            var direct := UpdateBookingStatus(db, bookingId, status2, stamp2, None);
            twice.db == direct.db && twice.reply.Failed() == direct.reply.Failed()
  {
    var first := StatusPatch(status1, stamp1);
    PatchKeepsMatches(db.bookings, bookingId, first);
    PatchShadowed(db.bookings, bookingId, first, StatusPatch(status2, stamp2));
  }
}
