/**
 The backend state the context reads and writes: the four tables and the two
 storage buckets, and the `{ data, error }` reply paired with the state a call
 leaves behind.
 */
module Schema {
  import opened Values
  import opened Backend

  /** A storage bucket: object path to the uploaded file. */
  type Bucket = map<string, Value>

  datatype Store = Store(
    profiles: Table,
    services: Table,
    bookings: Table,
    reviews: Table,
    profileImages: Bucket,   // bucket `profile-images`
    serviceImages: Bucket    // bucket `service-images`
  )

  /** What one context operation returns, and the backend state after it. */
  datatype Step<T> = Step(reply: Response<T>, db: Store)

  /** The message a caught backend error carries (`error.message`). */
  function Message(e: DbError): string { e.message }

  /** Every table keeps its primary key unique. */
  ghost predicate WellKeyed(db: Store) {
    UniqueIds(db.profiles) && UniqueIds(db.services) && UniqueIds(db.bookings) && UniqueIds(db.reviews)
  }
}
