/**
 The review dialog: the star picker, its caption, the review record it sends
 and how the outcome is reported to the page.
 */
module ReviewModal {
  import opened Values
  import opened Text
  import opened Backend
  import opened Schema
  import Reviews

  const StarCount: nat := 5
  const ReviewFallback: string := "Failed to submit review. Please try again."

  datatype ReviewState = ReviewState(rating: int, reviewText: string, loading: bool, error: string)

  const InitialState: ReviewState := ReviewState(5, "", false, "")

  predicate ValidRating(r: int) { 1 <= r <= StarCount }

  /** Clicking the star at `index`: only the five rendered stars exist, and
      each sets the rating to its position counted from one. */
  function ClickStar(st: ReviewState, index: nat): (next: ReviewState)
    ensures index < StarCount ==> next.rating == index + 1
    ensures index >= StarCount ==> next == st
    ensures next.reviewText == st.reviewText
  {
    if index < StarCount then st.(rating := index + 1) else st
  }

  function ClickStars(st: ReviewState, clicks: seq<nat>): ReviewState
    decreases |clicks|
  {
    if clicks == [] then st else ClickStars(ClickStar(st, clicks[0]), clicks[1..])
  }

  /** Whatever is clicked, the rating stays between one and five. */
  lemma {:induction false} RatingStaysValid(clicks: seq<nat>, st: ReviewState)
    requires ValidRating(st.rating)
    ensures ValidRating(ClickStars(st, clicks).rating)
    decreases |clicks|
  {
    if clicks != [] {
      RatingStaysValid(clicks[1..], ClickStar(st, clicks[0]));
    }
  }

  /** Which of the five stars are drawn highlighted (`index < rating`). */
  function Highlighted(rating: int): (lit: seq<bool>)
    ensures |lit| == StarCount
    ensures forall i :: 0 <= i < StarCount ==> lit[i] == (i < rating)
  {
    seq(StarCount, i => i < rating)
  }

  /** The number of `true`s in a row of stars. */
  function CountLit(lit: seq<bool>): nat {
    if lit == [] then 0 else (if lit[0] then 1 else 0) + CountLit(lit[1..])
  }

  /** For a valid rating exactly `rating` stars are highlighted, and they
      are the first ones. */
  lemma {:induction false} HighlightedCount(rating: int)
    requires ValidRating(rating)
    ensures CountLit(Highlighted(rating)) == rating
  {
    var lit := Highlighted(rating);
    PrefixCount(lit, rating);
  }

  lemma {:induction false} PrefixCount(lit: seq<bool>, k: nat)
    requires k <= |lit|
    requires forall i :: 0 <= i < |lit| ==> lit[i] == (i < k)
    ensures CountLit(lit) == k
    decreases |lit|
  {
    if lit != [] {
      var rest := lit[1..];
      if k > 0 {
        assert lit[0];
        PrefixCount(rest, k - 1);
      } else {
        assert !lit[0];
        PrefixCount(rest, 0);
      }
    }
  }

  /** `${rating} Star${rating !== 1 ? 's' : ''}`. */
  function Caption(rating: int): (c: string)
    ensures IntToString(rating) + " Star" <= c
  {
    IntToString(rating) + " Star" + (if rating != 1 then "s" else "")
  }

  /** The caption is singular exactly at one star. */
  lemma {:induction false} CaptionSingular(rating: int)
    ensures Caption(rating) == IntToString(rating) + " Star" <==> rating == 1
  {
    if rating != 1 {
      assert |Caption(rating)| == |IntToString(rating) + " Star"| + 1;
    }
  }

  /** The record `handleSubmit` sends to `createReview`. */
  function ReviewPayload(booking: Row, st: ReviewState): (p: Row)
    ensures p.Keys == {"booking_id", "rating", "review_text"}
    ensures p["booking_id"] == Get(booking, "id") && p["rating"] == Num(st.rating)
    ensures p["review_text"] == Str(st.reviewText)
  {
    map["booking_id" := Get(booking, "id"), "rating" := Num(st.rating), "review_text" := Str(st.reviewText)]
  }

  /** The parent callbacks a submit invokes, in order. */
  datatype Callback = ReviewSuccess | Close

  /** `handleSubmit`: on success the page is told and the dialog closed, in
      that order; on a truthy error the message is shown and the dialog stays
      open. The spinner is off afterwards either way. */
  function Submit(st: ReviewState, db: Store, user: Option<Row>, booking: Row,
                  bookingFault: Option<DbError>, defaults: Row, insertFault: Option<DbError>): (res: (ReviewState, Store, seq<Callback>))
    ensures !res.0.loading && res.0.rating == st.rating && res.0.reviewText == st.reviewText
    ensures res.2 == [] || res.2 == [ReviewSuccess, Close]
    ensures res.2 == [] <==> res.0.error != ""
    ensures res.2 == [] ==> res.1 == db
    ensures var s := Reviews.CreateReview(db, user, ReviewPayload(booking, st), bookingFault, defaults, insertFault);
            && (res.2 == [ReviewSuccess, Close] <==> !(s.reply.error.Some? && s.reply.error.value != ""))
            && (res.2 != [] ==> res.1 == s.db)
            && (res.2 == [] ==> res.0.error == s.reply.error.value)
  {
    var s := Reviews.CreateReview(db, user, ReviewPayload(booking, st), bookingFault, defaults, insertFault);
    if s.reply.error.Some? && s.reply.error.value != "" then (st.(loading := false, error := s.reply.error.value), db, [])
    else (st.(loading := false, error := ""), s.db, [ReviewSuccess, Close])
  }

  /** A review submitted for an existing booking is stored with the booking,
      the chosen rating and text, and the signed-in user as reviewer. */
  lemma {:induction false} ReviewedThroughModal(st: ReviewState, db: Store, user: Row, booking: Row, defaults: Row, i: nat)
    requires UniqueIds(db.bookings) && i < |db.bookings| && Get(db.bookings[i], "id") == Get(booking, "id")
    requires "id" in user
    ensures var res := Submit(st, db, Some(user), booking, None, defaults, None);
            && res.2 == [ReviewSuccess, Close]
            && |res.1.reviews| == |db.reviews| + 1
            && var row := res.1.reviews[|db.reviews|];
            && Get(row, "booking_id") == Get(booking, "id")
            && Get(row, "reviewer_id") == user["id"]
            && Get(row, "service_id") == Get(db.bookings[i], "service_id")
  {
    var p := ReviewPayload(booking, st);
    Reviews.CreatedReviewContents(db, user, p, defaults, i);
  }
}
