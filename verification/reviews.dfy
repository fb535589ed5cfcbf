/**
 Review operations of the user context: the inline `createReview`, the three
 review listings, `updateReview` and `deleteReview`. No rule about who may
 review, how often, or until when is checked at this layer.
 */
module Reviews {
  import opened Values
  import opened Seqs
  import opened Backend
  import opened Schema

  /** `reviewer_id: user?.id`. With no user the value is `undefined`. The
      array insert names every key of the row as a column, and the backend
      stores null in a named column the JSON body leaves out, so the stored
      reviewer is then null rather than the column default. */
  function ReviewerField(user: Option<Row>): (m: Row)
    ensures m.Keys == {"reviewer_id"}
    ensures user.Some? && "id" in user.value ==> m["reviewer_id"] == user.value["id"]
    ensures !(user.Some? && "id" in user.value) ==> m["reviewer_id"] == Null
  {
    map["reviewer_id" := if user.Some? then Get(user.value, "id") else Null]
  }

  /** The booking lookup of `createReview`. */
  function FindBooking(db: Store, reviewData: Row, fault: Option<DbError>): Answer<Row> {
    SelectSingle(db.bookings, Eq("id", Get(reviewData, "booking_id")), fault)
  }

  /** The row handed to the insert: the review, then the booking's service and
      provider, then the reviewer. The `reviewer_id` key is always written, so
      one the review data carries never survives: it is the user's id, or
      null when nobody is signed in. */
  function ReviewRow(reviewData: Row, booking: Row, user: Option<Row>): (full: Row)
    ensures Get(full, "service_id") == Get(booking, "service_id")
    ensures Get(full, "service_provider_id") == Get(booking, "service_provider_id")
    ensures "reviewer_id" in full
    ensures full["reviewer_id"] == (if user.Some? && "id" in user.value then user.value["id"] else Null)
    ensures forall k :: k in reviewData && k !in {"service_id", "service_provider_id", "reviewer_id"}
                        ==> k in full && full[k] == reviewData[k]
    ensures full.Keys == reviewData.Keys + {"service_id", "service_provider_id", "reviewer_id"}
  {
    reviewData + map["service_id" := Get(booking, "service_id"),
                     "service_provider_id" := Get(booking, "service_provider_id")]
      + ReviewerField(user)
  }

  /** `createReview(reviewData)`: a missing booking fails with the backend's
      no-rows error before anything is inserted. */
  function CreateReview(db: Store, user: Option<Row>, reviewData: Row, bookingFault: Option<DbError>,
                        defaults: Row, insertFault: Option<DbError>): (s: Step<Row>)
    ensures FindBooking(db, reviewData, bookingFault).Fault?
            ==> s == Step(Failure(FindBooking(db, reviewData, bookingFault).error.message), db)
    ensures s.reply.Failed() ==> s.db == db
    ensures !s.reply.Failed() <==> FindBooking(db, reviewData, bookingFault).Ok? && insertFault.None?
    ensures !s.reply.Failed() ==> s.reply.data.Some? && s.db == db.(reviews := db.reviews + [s.reply.data.value])
  {
    match FindBooking(db, reviewData, bookingFault)
    case Fault(e) => Step(Failure(e.message), db)
    case Ok(booking) =>
      match Insert(db.reviews, ReviewRow(reviewData, booking, user), defaults, insertFault)
      case (Ok(row), t) => Step(Success(row), db.(reviews := t))
      case (Fault(e), _) => Step(Failure(e.message), db)
  }

  /** A created review names the booking's service and provider, and the
      signed-in user as reviewer. */
  lemma {:induction false} CreatedReviewContents(db: Store, user: Row, reviewData: Row, defaults: Row, i: nat)
    requires UniqueIds(db.bookings)
    requires i < |db.bookings| && Get(db.bookings[i], "id") == Get(reviewData, "booking_id")
    requires "id" in user && "booking_id" in reviewData
    ensures var s := CreateReview(db, Some(user), reviewData, None, defaults, None);
            && s.reply.data.Some?
            && var row := s.reply.data.value;
            && Get(row, "service_id") == Get(db.bookings[i], "service_id")
            && Get(row, "service_provider_id") == Get(db.bookings[i], "service_provider_id")
            && Get(row, "reviewer_id") == user["id"]
            && Get(row, "booking_id") == Get(reviewData, "booking_id")
  {
    SingleById(db.bookings, Get(reviewData, "booking_id"), i);
    var full := ReviewRow(reviewData, db.bookings[i], Some(user));
    assert CreateReview(db, Some(user), reviewData, None, defaults, None).reply.data.value == defaults + full;
    assert full["booking_id"] == reviewData["booking_id"];
  }

  /** With nobody signed in the review data cannot name its own reviewer:
      the stored reviewer is null, whatever the review data or the column
      default say. */
  lemma {:induction false} AnonymousReviewHasNoReviewer(db: Store, reviewData: Row, defaults: Row, i: nat)
    requires UniqueIds(db.bookings)
    requires i < |db.bookings| && Get(db.bookings[i], "id") == Get(reviewData, "booking_id")
    ensures var s := CreateReview(db, None, reviewData, None, defaults, None);
            && s.reply.data.Some?
            && Get(s.reply.data.value, "reviewer_id") == Null
  {
    SingleById(db.bookings, Get(reviewData, "booking_id"), i);
    var full := ReviewRow(reviewData, db.bookings[i], None);
    assert CreateReview(db, None, reviewData, None, defaults, None).reply.data.value == defaults + full;
  }

  /** Reviewing a booking that does not exist fails with the no-rows error. */
  lemma {:induction false} ReviewWithoutBooking(db: Store, user: Option<Row>, reviewData: Row, defaults: Row, insertFault: Option<DbError>)
    requires forall j :: 0 <= j < |db.bookings| ==> Get(db.bookings[j], "id") != Get(reviewData, "booking_id")
    ensures CreateReview(db, user, reviewData, None, defaults, insertFault) == Step(Failure(NoRowsError.message), db)
  {
    FilterNone(db.bookings, Eq("id", Get(reviewData, "booking_id")));
  }

  /** The reviews whose `column` equals `v`, newest `created_at` first. */
  function ReviewsBy(db: Store, column: string, v: Value, fault: Option<DbError>): (r: Response<Table>)
    ensures fault.Some? ==> r == Failure(fault.value.message)
    ensures fault.None? ==> r.data.Some? && !r.Failed()
                            && SortedDesc(r.data.value, "created_at")
                            && multiset(r.data.value) == multiset(Select(db.reviews, Eq(column, v)))
                            && forall x :: x in r.data.value <==> x in db.reviews && Get(x, column) == v
  {
    if fault.Some? then Failure(fault.value.message)
    else
      SortKeepsRows(Select(db.reviews, Eq(column, v)), "created_at");
      Success(SortDesc(Select(db.reviews, Eq(column, v)), "created_at"))
  }

  /** `getServiceReviews(serviceId)`. */
  function GetServiceReviews(db: Store, serviceId: Value, fault: Option<DbError>): (r: Response<Table>)
    ensures fault.Some? ==> r == Failure(fault.value.message)
    ensures fault.None? ==> r.data.Some? && !r.Failed()
                            && SortedDesc(r.data.value, "created_at")
                            && multiset(r.data.value) == multiset(Select(db.reviews, Eq("service_id", serviceId)))
                            && forall x :: x in r.data.value <==> x in db.reviews && Get(x, "service_id") == serviceId
  {
    ReviewsBy(db, "service_id", serviceId, fault)
  }

  /** `getProviderReviews(providerId)`. */
  function GetProviderReviews(db: Store, providerId: Value, fault: Option<DbError>): (r: Response<Table>)
    ensures fault.Some? ==> r == Failure(fault.value.message)
    ensures fault.None? ==> r.data.Some? && !r.Failed()
                            && SortedDesc(r.data.value, "created_at")
                            && multiset(r.data.value) == multiset(Select(db.reviews, Eq("service_provider_id", providerId)))
                            && forall x :: x in r.data.value <==> x in db.reviews && Get(x, "service_provider_id") == providerId
  {
    ReviewsBy(db, "service_provider_id", providerId, fault)
  }

  /** `getUserReviews(userId)`: the reviews the user wrote. */
  function GetUserReviews(db: Store, userId: Value, fault: Option<DbError>): (r: Response<Table>)
    ensures fault.Some? ==> r == Failure(fault.value.message)
    ensures fault.None? ==> r.data.Some? && !r.Failed()
                            && SortedDesc(r.data.value, "created_at")
                            && multiset(r.data.value) == multiset(Select(db.reviews, Eq("reviewer_id", userId)))
                            && forall x :: x in r.data.value <==> x in db.reviews && Get(x, "reviewer_id") == userId
  {
    ReviewsBy(db, "reviewer_id", userId, fault)
  }

  /** `{ ...reviewData, updated_at }`: the edit plus the time of the edit. */
  function ReviewPatch(data: Row, stamp: string): (p: Row)
    ensures p.Keys == data.Keys + {"updated_at"}
    ensures p["updated_at"] == Str(stamp)
    ensures forall k :: k in data && k != "updated_at" ==> p[k] == data[k]
  {
    data + map["updated_at" := Str(stamp)]
  }

  /** `updateReview(reviewId, reviewData)`: the given fields and a fresh
      `updated_at` on the one targeted row. */
  function UpdateReview(db: Store, reviewId: Value, data: Row, stamp: string, fault: Option<DbError>): (s: Step<Row>)
    ensures s.db == db.(reviews := s.db.reviews)
    ensures !s.reply.Failed() <==> fault.None? && |Select(db.reviews, Eq("id", reviewId))| == 1
    ensures s.reply.Failed() ==> s.db == db
    ensures !s.reply.Failed() ==>
              && |s.db.reviews| == |db.reviews|
              && forall i :: 0 <= i < |db.reviews| ==>
                   s.db.reviews[i] == (if Get(db.reviews[i], "id") == reviewId
                                       then db.reviews[i] + ReviewPatch(data, stamp)
                                       else db.reviews[i])
  {
    match UpdateOne(db.reviews, Eq("id", reviewId), ReviewPatch(data, stamp), fault)
    case (Ok(row), t) => Step(Success(row), db.(reviews := t))
    case (Fault(e), _) => Step(Failure(e.message), db)
  }

  /** `deleteReview(reviewId)`. */
  function DeleteReview(db: Store, reviewId: Value, fault: Option<DbError>): (s: Step<Row>)
    ensures fault.Some? ==> s == Step(Failure(fault.value.message), db)
    ensures fault.None? ==> s.reply == Response(None, None)
    ensures fault.None? ==> forall x :: x in s.db.reviews <==> x in db.reviews && Get(x, "id") != reviewId
    ensures s.db == db.(reviews := s.db.reviews)
  {
    match Delete(db.reviews, Eq("id", reviewId), fault)
    case (Some(e), _) => Step(Failure(e.message), db)
    case (None, t) => Step(Response(None, None), db.(reviews := t))
  }

  /** Updating the review at index `i` by its id succeeds and rewrites exactly
      that position. */
  lemma {:induction false} UpdateReviewAt(db: Store, i: nat, data: Row, stamp: string)
    requires UniqueIds(db.reviews)
    requires i < |db.reviews|
    ensures var s := UpdateReview(db, Get(db.reviews[i], "id"), data, stamp, None);
            && !s.reply.Failed()
            && i < |s.db.reviews|
            && s.db.reviews[i] == db.reviews[i] + ReviewPatch(data, stamp)
  {
    SingleById(db.reviews, Get(db.reviews[i], "id"), i);
  }

  /** An edited review reads back with the edited fields from its author's
      review list. */
  lemma {:induction false} UpdateReviewReadBack(db: Store, i: nat, data: Row, stamp: string)
    requires UniqueIds(db.reviews)
    requires i < |db.reviews|
    requires "id" !in data && "reviewer_id" !in data
    ensures var id := Get(db.reviews[i], "id");
            var s := UpdateReview(db, id, data, stamp, None);
            && !s.reply.Failed()
            && var mine := GetUserReviews(s.db, Get(db.reviews[i], "reviewer_id"), None).data.value;
            exists x :: x in mine && Get(x, "id") == id
                        && (forall k :: k in data && k != "updated_at" ==> Get(x, k) == data[k])
                        && Get(x, "updated_at") == Str(stamp)
  {
    var id := Get(db.reviews[i], "id");
    var author := Get(db.reviews[i], "reviewer_id");
    UpdateReviewAt(db, i, data, stamp);
    var s := UpdateReview(db, id, data, stamp, None);
    var x := s.db.reviews[i];
    assert x in s.db.reviews;
    assert Get(x, "reviewer_id") == author && Get(x, "id") == id;
    assert forall k :: k in data && k != "updated_at" ==> Get(x, k) == data[k];
    assert Get(x, "updated_at") == Str(stamp);
    var mine := GetUserReviews(s.db, author, None).data.value;
    assert x in mine;
  }
}
