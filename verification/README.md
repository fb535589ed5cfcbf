# LocalServiceHub core in Dafny

LocalServiceHub is a marketplace where providers list local services and
customers book and review them. This project models its domain layer. That
layer is the user context: profiles, services, bookings and reviews against a
hosted Postgres backend with two storage buckets. The project also models the
small rules the pages apply around it:

- the create-service form (price formatting and the composed description);
- the provider's request list (status buttons and status labels);
- the profile page (display fallbacks, editing and saving);
- the provider's own service list (delete by id and the count line);
- the public catalogue filter;
- the booking and review dialogs;
- the category tables and the slugged category links;
- the route guard.

The backend is an explicit value, `Schema.Store`: four tables of rows plus
the two image buckets. Each context operation is a pure function from a store
to a `Step`, which holds the operation's `{ data, error }` reply and the
store afterwards. Every backend outcome is a parameter: a fault the backend
may report, the columns it fills in on insert, the public URL it hands back.
JavaScript objects are `Values.Row` maps from keys to `Values.Value`. Missing
keys read as null, and truthiness, `||` and object spread are written out.
The backend semantics the code relies on live in `Backend`:

- `.eq` filters;
- `.single()`, which fails with `PGRST116` unless exactly one row matches;
- insert, update, upsert and delete;
- descending order with nulls first.

Modules follow the source: `Session`, `Profiles`, `Services`, `Bookings` and
`Reviews` model the context file. `CreateServicePage`, `ServiceRequestsPage`,
`ProfilePage`, `MyServicesPage`, `ServicesPage`, `BookingModal`,
`ReviewModal`, `Categories`, `CategoryLinks` and `PrivateRoute` model the
pages and components. `Values`, `Text`, `Seqs`, `Backend` and `Schema` are
the shared ground.

`UpdateReview` and `UpdateBookingStatus` accept any edit and any status: the
context checks no status transition. The only status rules are the buttons
the requests page offers.

## Model

| member | source | states |
|---|---|---|
| Session.MergeProfile | src/context/UserContext.jsx:33-39 | the merged user keeps every auth field but `user_metadata`; its metadata holds the profile's fields, and the auth metadata only where the profile has no such key |
| Session.SessionUser | src/context/UserContext.jsx:16-44 | no session gives no user; exactly one profile row gives the merge with that row; a missing row or a failed fetch keeps the plain auth user |
| Session.SessionUserFindsRow | src/context/UserContext.jsx:50-77 | with unique profile ids, the row carrying the user's id is the one merged |
| Session.SessionUserKeepsIdentity | src/context/UserContext.jsx:16-44 | a signed-in user keeps their id and email whatever the profile row holds |
| Session.ListenersAsWritten | src/context/UserContext.jsx:48-87 | as written, the live auth listeners number exactly the provider mounts so far: each mount adds one and no unmount removes one |
| Session.ListenersLeak | src/context/UserContext.jsx:80-87 | two mount/unmount cycles leave two live listeners |
| Session.Listeners | src/context/UserContext.jsx:80-84 | with the cleanup wired, never more listeners than as written |
| Session.ListenersBalanced | src/context/UserContext.jsx:80-84 | with the cleanup wired, alternating mounts and unmounts leave one listener while mounted and none after |
| Profiles.GetProfile | src/context/UserContext.jsx:151-167 | the error is reported exactly when the backend fails with a code other than `PGRST116`; data comes back exactly when one row has the id, and it is that row |
| Profiles.GetProfileMissing | src/context/UserContext.jsx:151-167 | a user without a row gets neither data nor an error |
| Profiles.ProfilePayload | src/context/UserContext.jsx:175-179 | the upserted row is the given fields plus the id (unless the fields carry one) and the fresh `updated_at` |
| Profiles.UpdateProfile | src/context/UserContext.jsx:171-188 | a fault is reported and changes nothing; success replies with no data and touches only the profiles table |
| Profiles.UpdateThenGetProfile | src/context/UserContext.jsx:151-188 | after a save, fetching the profile returns every saved field and the ids stay unique |
| Profiles.ProfileImagePath | src/context/UserContext.jsx:194 | the object path is the owner id, a slash, then the timestamp, `_` and the file name |
| Profiles.UploadProfileImage | src/context/UserContext.jsx:191-217 | success stores the file under that path and replies with the public URL; a fault changes nothing |
| Profiles.DeleteProfileImage | src/context/UserContext.jsx:220-234 | success removes the path and nothing else is added; a fault changes nothing |
| Services.ServiceImagePath | src/context/UserContext.jsx:275 | the object path is `services/`, the owner id, a slash, then the timestamp, `_` and the file name |
| Services.UploadServiceImage | src/context/UserContext.jsx:272-298 | success stores the file under that path and replies with the public URL; a fault changes nothing |
| Services.WithImageUrl | src/context/UserContext.jsx:240-253 | the stored payload has the given URL (or null) as `image_url`, no `image_file`, and every other field unchanged |
| Services.InsertService | src/context/UserContext.jsx:255-265 | a fault is reported; otherwise the inserted row comes back |
| Services.CreateService | src/context/UserContext.jsx:237-269 | a falsy `image_file` inserts the payload as given; with a file, no user or an upload error with a message fails before any insert (it reads `Image upload failed: ...`), while an upload error with an empty message is falsy and the insert goes ahead with a null `image_url`; a success appends exactly the returned row |
| Services.CreatedServiceListed | src/context/UserContext.jsx:237-332 | a created service appears in its owner's list, and in the public listing exactly when its status is active |
| Services.GetUserServices | src/context/UserContext.jsx:301-315 | exactly the owner's services, whatever their status, in table order |
| Services.GetAllServices | src/context/UserContext.jsx:318-332 | exactly the active services, in table order |
| Services.GetServiceById | src/context/UserContext.jsx:335-351 | data only for the active service with that id; a missing or inactive one is the no-rows error |
| Services.ActiveServiceFound | src/context/UserContext.jsx:335-351 | with unique ids, an active service is always found by its id, and the reply is exactly that row with no error |
| Services.InactiveServiceHidden | src/context/UserContext.jsx:335-351 | an existing inactive service cannot be fetched by id |
| Services.UpdateService | src/context/UserContext.jsx:639-655 | succeeds exactly when one row has the id, and then patches only that row; a failure changes nothing |
| Services.DeleteService | src/context/UserContext.jsx:658-671 | success keeps exactly the services with another id; a fault changes nothing |
| Services.DeletedServiceGone | src/context/UserContext.jsx:658-671 | after a delete the service can no longer be fetched by id |
| Bookings.ContactSnapshot | src/context/UserContext.jsx:368-388 | the four contact columns are the profile's values with falsy ones as null, and all null when the lookup failed |
| Bookings.BookingRow | src/context/UserContext.jsx:390-397 | the inserted row has the service's owner as provider, the snapshot columns, and every other form field unchanged |
| Bookings.CreateServiceBooking | src/context/UserContext.jsx:354-412 | a failed service lookup is `Service not found` and inserts nothing; otherwise the insert's outcome decides; a success appends exactly the returned row |
| Bookings.CreatedBookingContents | src/context/UserContext.jsx:354-405 | the stored booking has the provider, the form's fields and the contact snapshot |
| Bookings.BookingUnknownService | src/context/UserContext.jsx:357-365 | a booking for a service nobody has fails with `Service not found` and leaves the store unchanged |
| Bookings.BookingProviderIsOwner | src/context/UserContext.jsx:357-397 | a booking for an existing service, active or not, is appended with that service's owner as provider |
| Bookings.ServiceSummary | src/context/UserContext.jsx:428-449 | the reference meaning of a listed booking's `service`: the summary columns of the service with that id, or null |
| Bookings.FindInSummaries | src/context/UserContext.jsx:442-445 | searching the batched summaries for a listed id finds exactly the reference summary |
| Bookings.SummariesAgree | src/context/UserContext.jsx:425-449 | for every listed booking, the batch built from the listed ids gives the reference summary |
| Bookings.BookingsBy | src/context/UserContext.jsx:417-422 | exactly the bookings with that column value, newest `booking_date` first |
| Bookings.GetUserBookings | src/context/UserContext.jsx:415-459 | a bookings fault is reported; no bookings gives `[]`; a failed service lookup returns the bookings as they are; otherwise each booking gets its service summary |
| Bookings.UserBookingsShape | src/context/UserContext.jsx:415-451 | every listed booking is the customer's, the list is newest first, and each `service` is the reference summary |
| Bookings.UserBookingsComplete | src/context/UserContext.jsx:417-422 | a booking is listed exactly when it belongs to the customer |
| Bookings.Customer | src/context/UserContext.jsx:493-500 | the contact object has exactly an email and a `user_metadata` object; the email is the stored one or `Email not available`, and the metadata holds exactly the stored name, phone and location, each null when falsy |
| Bookings.CustomerShowsProfile | src/context/UserContext.jsx:368-397 | a booking whose snapshot was taken from a found profile shows, through the provider view, that profile's email (or the placeholder), name, phone and location (or null) |
| Bookings.CustomerWithoutProfile | src/context/UserContext.jsx:368-388 | a booking created while the profile lookup failed shows the placeholder email and null name, phone and location |
| Bookings.ProviderViews | src/context/UserContext.jsx:474-509 | each listed booking keeps its fields and gets its service summary (null if the lookup failed) and its contact object |
| Bookings.GetProviderBookings | src/context/UserContext.jsx:462-519 | a bookings fault is reported; otherwise the provider's bookings, newest first, each as the provider view |
| Bookings.StatusPatch | src/context/UserContext.jsx:526-529 | the patch is exactly the new status and the fresh `updated_at` |
| Bookings.UpdateBookingStatus | src/context/UserContext.jsx:522-541 | any status value is accepted; success needs exactly one row with the id, which becomes that row overlaid with the patch; every other row, and every table on failure, is unchanged |
| Bookings.UpdateBookingStatusLastWriteWins | src/context/UserContext.jsx:522-541 | every call writes its own status and a fresh `updated_at`, so after two updates of one booking the store is what the second update alone leaves, and the two succeed or fail alike |
| Reviews.ReviewerField | src/context/UserContext.jsx:712 | the reviewer column is always written: the signed-in user's id, or null with no user |
| Reviews.ReviewRow | src/context/UserContext.jsx:708-713 | the inserted review copies the booking's service and provider and keeps every other field of the review data; `reviewer_id` is always present, the signed-in user's id or null, so one in the review data never survives |
| Reviews.AnonymousReviewHasNoReviewer | src/context/UserContext.jsx:708-719 | with nobody signed in, a `reviewer_id` in the review data is overridden and the stored reviewer is null, not the column default |
| Reviews.CreateReview | src/context/UserContext.jsx:693-728 | a missing booking or a lookup fault fails before any insert; a success appends exactly the returned row |
| Reviews.CreatedReviewContents | src/context/UserContext.jsx:693-723 | a review of an existing booking stores that booking's service and provider and the user as reviewer |
| Reviews.ReviewWithoutBooking | src/context/UserContext.jsx:695-702 | reviewing a booking that does not exist fails with the no-rows error and changes nothing |
| Reviews.ReviewsBy | src/context/UserContext.jsx:546-561 | exactly the reviews with that column value, newest `created_at` first |
| Reviews.GetServiceReviews | src/context/UserContext.jsx:546-561 | a fault replies with no data and its message; otherwise exactly the service's reviews, each as often as stored, newest `created_at` first |
| Reviews.GetProviderReviews | src/context/UserContext.jsx:564-579 | a fault replies with no data and its message; otherwise exactly the provider's reviews, each as often as stored, newest `created_at` first |
| Reviews.GetUserReviews | src/context/UserContext.jsx:582-597 | a fault replies with no data and its message; otherwise exactly the reviews the user wrote, each as often as stored, newest `created_at` first |
| Reviews.ReviewPatch | src/context/UserContext.jsx:604-607 | the patch is the edit plus the fresh `updated_at` |
| Reviews.UpdateReview | src/context/UserContext.jsx:600-619 | success needs exactly one row with the id, which is overlaid with the patch; nothing else changes |
| Reviews.UpdateReviewAt | src/context/UserContext.jsx:600-619 | updating a stored review by its id succeeds and rewrites exactly that position |
| Reviews.UpdateReviewReadBack | src/context/UserContext.jsx:582-619 | an edited review reads back with the edited fields from its author's review list |
| Reviews.DeleteReview | src/context/UserContext.jsx:622-636 | success keeps exactly the reviews with another id; a fault changes nothing |
| Backend.SelectSingle | src/context/UserContext.jsx:151-157 | one matching row is returned; zero or several are the `PGRST116` error |
| Backend.SingleById | src/context/UserContext.jsx:335-342 | with unique ids, a lookup by id finds the row holding it |
| Backend.UpsertStores | src/context/UserContext.jsx:173-179 | an upsert keyed on id keeps ids unique and stores every payload field in one row |
| Backend.SortDesc | src/context/UserContext.jsx:417-422 | the ordered result is sorted newest first, nulls first, and holds the same rows |
| Backend.SortKeepsRows | src/context/UserContext.jsx:466-469 | sorting keeps exactly the rows it was given, each as often |
| CreateServicePage.InitialForm | src/app/services/create/page.jsx:26-37 | the form starts empty with price type `hourly` and status `active` |
| CreateServicePage.Change | src/app/services/create/page.jsx:48-54 | the named input takes the typed value and the other fields keep theirs |
| CreateServicePage.PickImage | src/app/services/create/page.jsx:56-69 | a picked file replaces the stored one; an empty pick keeps it |
| CreateServicePage.PriceTypeStaysValid | src/app/services/create/page.jsx:41-54 | edits through the select keep the price type one of its four options |
| CreateServicePage.FormatPrice | src/app/services/create/page.jsx:71-86 | empty exactly for an empty price; otherwise starts with `$` and the price as typed |
| CreateServicePage.FormatPriceByType | src/app/services/create/page.jsx:74-85 | the suffix is `/hr`, `/day`, none, ` (project)`, and none for any other type |
| CreateServicePage.RawDescription | src/app/services/create/page.jsx:97-109 | the text comes first; with no extras it is the text alone |
| CreateServicePage.DescriptionOrder | src/app/services/create/page.jsx:101-109 | the extras follow in the order location, contact, availability |
| CreateServicePage.DescriptionMentions | src/app/services/create/page.jsx:101-109 | each filled-in extra appears under its label |
| CreateServicePage.ComposeDescription | src/app/services/create/page.jsx:115 | the sent description has no surrounding whitespace |
| CreateServicePage.ServiceData | src/app/services/create/page.jsx:111-120 | the record has the current user as owner, rating 0, the form's status, the formatted price and the composed description |
| CreateServicePage.Submit | src/app/services/create/page.jsx:88-142 | no user fails before any backend call; an error shows its message or the fallback; success shows the banner and queues `/my-services` |
| CreateServicePage.SubmittedService | src/app/services/create/page.jsx:111-133 | a submit without an image adds one service owned by the user with rating 0 and the form's fields |
| CreateServicePage.SubmittedServiceWithImage | src/app/services/create/page.jsx:111-133 | with an image the stored service has the public URL and no file field |
| ServiceRequestsPage.LoadRequests | src/app/service-requests/page.jsx:23-45 | no user leaves the state as it was; an error is shown; otherwise the provider's bookings are listed |
| ServiceRequestsPage.Actions | src/app/service-requests/page.jsx:263-299 | at most two buttons, and none for a status other than pending or confirmed |
| ServiceRequestsPage.ActionsMoveForward | src/app/service-requests/page.jsx:263-299 | pending offers confirm/cancel, confirmed offers complete/cancel, the rest nothing; no button returns to pending or keeps the status |
| ServiceRequestsPage.OfferedPathsAreShort | src/app/service-requests/page.jsx:263-299 | through the buttons a booking changes status at most twice, and a finished one not at all |
| ServiceRequestsPage.MarkStatus | src/app/service-requests/page.jsx:56-62 | only requests with the id get the new status; all other requests and fields are unchanged |
| ServiceRequestsPage.MarkStatusIdempotent | src/app/service-requests/page.jsx:56-62 | marking twice is marking once |
| ServiceRequestsPage.HandleStatusChange | src/app/service-requests/page.jsx:47-70 | the list changes only after the backend reports success, and then as the local mark |
| ServiceRequestsPage.LocalAgreesWithStore | src/app/service-requests/page.jsx:47-62 | after a successful change the listed request and the stored booking carry the same new status |
| ServiceRequestsPage.FailedChangeKeepsList | src/app/service-requests/page.jsx:49-69 | whatever the cause (a backend fault, a missing id or a duplicated one), a change answered with an error message leaves the list and the store as they were and raises the alert |
| ServiceRequestsPage.UnknownBookingKeepsList | src/app/service-requests/page.jsx:49-69 | a change for a booking the backend does not hold is rejected, with the list and the store unchanged |
| ServiceRequestsPage.StatusColor | src/app/service-requests/page.jsx:72-84 | any unrecognised status gets the pending colours |
| ServiceRequestsPage.Capitalize | src/app/service-requests/page.jsx:191 | the first character is upper-cased and the rest is unchanged |
| ProfilePage.EmailLocalPart | src/app/profile/page.jsx:38 | a string email gives its part before the first `@`; anything else gives nothing |
| ProfilePage.DisplayFound | src/app/profile/page.jsx:36-46 | name, phone, location and bio fall back from the row to the metadata to `''` (the name through the email's local part); the email is the auth user's |
| ProfilePage.DisplayFallback | src/app/profile/page.jsx:48-56 | with no row, each field falls back from the metadata to `''`; the email is the auth user's |
| ProfilePage.FallbackIsEmptyRow | src/app/profile/page.jsx:36-56 | the no-row view equals the view of a row with no fields |
| ProfilePage.EmailFromAuthUser | src/app/profile/page.jsx:39 | the displayed email is the same whatever the profile row holds |
| ProfilePage.FetchProfile | src/app/profile/page.jsx:25-70 | no user changes nothing; an error other than the no-rows code shows `Failed to load profile data`; otherwise the found or fallback view is shown |
| ProfilePage.MissingProfileShowsFallback | src/app/profile/page.jsx:30-58 | a user without a row sees the fallback view and no error |
| ProfilePage.EditToggle | src/app/profile/page.jsx:72-81 | entering and leaving edit mode both copy the saved data into the working copy |
| ProfilePage.CancelDiscardsEdits | src/app/profile/page.jsx:72-81 | cancelling discards whatever was typed since editing began |
| ProfilePage.SavePayload | src/app/profile/page.jsx:88-94 | the body is exactly name, email, phone, location and bio from the working copy |
| ProfilePage.Save | src/app/profile/page.jsx:83-107 | success makes the working copy the saved data and ends editing; failure keeps the saved data and shows `Failed to save profile data` |
| ProfilePage.SaveThenReload | src/app/profile/page.jsx:25-107 | saving and then loading the page again shows the saved name, phone, location and bio |
| MyServicesPage.MountEffect | src/app/my-services/page.jsx:49-60 | redirect to login exactly when signed out and not loading; load exactly when a user is known |
| MyServicesPage.DeleteService | src/app/my-services/page.jsx:62-66 | unconfirmed changes nothing; confirmed keeps exactly the services with another id, in order |
| MyServicesPage.DeleteRemovesExactly | src/app/my-services/page.jsx:64 | each service with the id is dropped, every other one keeps its multiplicity and order |
| MyServicesPage.DeleteAbsent | src/app/my-services/page.jsx:64 | deleting an id no service has leaves the list unchanged |
| MyServicesPage.DeleteTwice | src/app/my-services/page.jsx:64 | deleting twice is deleting once |
| MyServicesPage.CountLineSingular | src/app/my-services/page.jsx:109 | the line reads `service` exactly when there is one service |
| ServicesPage.Filtered | src/app/services/page.jsx:85-90 | a service is listed exactly when it matches the chip and the search; the result is an order-preserving subsequence |
| ServicesPage.SearchIgnoresCase | src/app/services/page.jsx:87-88 | lower-casing the query does not change which services match |
| ServicesPage.NoFilterListsAll | src/app/services/page.jsx:82-90 | the catch-all chip with an empty query lists every service in order |
| BookingModal.BookingPayload | src/components/BookingModal.jsx:29-35 | the booking names the current user and the service, carries the notes and the ISO date, and is pending |
| BookingModal.Submit | src/components/BookingModal.jsx:14-57 | closed does nothing; no date sets the date message with no backend call; an error shows its message and leaves success off; success starts the closing timer |
| BookingModal.BookedThroughModal | src/components/BookingModal.jsx:16-50 | a booking made through the dialog is stored pending, for the user and service, with the notes, owned by the service's provider |
| ReviewModal.ClickStar | src/components/ReviewModal.jsx:46-51 | the star at index 0 to 4 sets the rating to index + 1 |
| ReviewModal.RatingStaysValid | src/components/ReviewModal.jsx:6-51 | whatever is clicked, the rating stays between 1 and 5 |
| ReviewModal.Highlighted | src/components/ReviewModal.jsx:52 | five stars, the ones below the rating highlighted |
| ReviewModal.HighlightedCount | src/components/ReviewModal.jsx:47-52 | exactly `rating` stars are highlighted |
| ReviewModal.CaptionSingular | src/components/ReviewModal.jsx:83 | the caption reads `Star` exactly at rating 1 |
| ReviewModal.ReviewPayload | src/components/ReviewModal.jsx:19-23 | the review is exactly the booking id, rating and text |
| ReviewModal.Submit | src/components/ReviewModal.jsx:13-39 | success calls the page and then closes; a truthy error is shown and the dialog stays open with the store unchanged |
| ReviewModal.ReviewedThroughModal | src/components/ReviewModal.jsx:13-33 | a review submitted for an existing booking is stored with that booking's service and the user as reviewer |
| Categories.TablesAgree | src/components/ExploreCategories.js:3-52 | the home page's table, the categories page's table and `categoryObjects` are equal |
| Categories.CategoryListsConsistent | src/utils/categories.js:1-62 | the form's choices are distinct, every card's name is one of them, and `Other` has no card |
| Categories.CategoryIds | src/utils/categories.js:13-62 | the card ids are 1 to 8 in order, with no repeats |
| Categories.Slug | src/app/categories/page.jsx:71 | the slug is lower-case and has no whitespace |
| Categories.Href | src/components/ExploreCategories.js:69 | a link is `/category/` followed by a whitespace-free slug |
| Categories.RunsCollapse | src/app/categories/page.jsx:71 | a maximal whitespace run becomes a single dash and the text around it is kept in order |
| Categories.DashNoSpace | src/app/categories/page.jsx:71 | text without whitespace is kept as it is |
| Categories.SlugIdempotent | src/app/categories/page.jsx:71 | slugging a slug changes nothing |
| Categories.SlugTwoWords | src/app/categories/page.jsx:71 | two words joined by a space slug to their lower-case forms joined by a dash |
| CategoryLinks.FoodAndDiningCard | src/app/categories/page.jsx:40-71 | `Food & Dining` slugs to `food-&-dining` |
| CategoryLinks.CardSlugsAreSlugs | src/app/categories/page.jsx:3-71 | the eight cards slug to `home-services` ... `entertainment`, in table order |
| CategoryLinks.CardSlugsDistinct | src/app/categories/page.jsx:3-71 | no two cards link to the same page |
| CategoryLinks.FooterLinksMatchCards | src/components/Footer.js:40-44 | each footer category link is the link the card of the same name builds |
| PrivateRoute.RedirectsToLogin | src/components/PrivateRoute.jsx:11-16 | the guard redirects exactly when not loading and nobody is signed in |
| PrivateRoute.Render | src/components/PrivateRoute.jsx:19-31 | the page is shown exactly when not loading and a user is known |
| PrivateRoute.NeverBoth | src/components/PrivateRoute.jsx:11-31 | a redirected visitor never sees the page; while loading there is neither a redirect nor the page |
| PrivateRoute.GuardAgreesWithMyServices | src/components/PrivateRoute.jsx:11-16 | the guard and the service list redirect in exactly the same auth states |
| Text.Trim | src/app/services/create/page.jsx:115 | the result is a slice of the input with only whitespace cut from both ends, and it neither starts nor ends with whitespace |
| Text.NatToStringRoundTrip | src/app/my-services/page.jsx:109 | the decimal rendering of a count reads back as that count |

## Left out

- Sign-in, registration, Google sign-in and sign-out (`login`, `register`, `googleLogin`, `logout`). They are thin calls into the hosted auth service with no logic of their own.
- Async ordering, the `loading` flags set around awaits, and updates that arrive after an unmount. These are event-loop concurrency. Only the subscription count across mounts is modelled (see Findings).
- `Date.now()`, `toISOString()`, `new Date(...)` parsing and `toLocaleString`. These are clock and locale calls; they enter as opaque parameters (a number, an ISO string, or absence when a date does not parse).
- Case mapping covers the ASCII letters only. Full Unicode `toLowerCase`/`toUpperCase` is not modelled.
- Which row order the backend returns for equal sort keys. The model picks one stable order; the backend may pick another.
- Who may update or delete a service, booking or review. These are the backend's row policies, which are not part of this model. The context itself checks nothing.
- The my-bookings page. It is rendering only and reads `booking.services` where the context sets `booking.service`.
- The placeholder services the my-services page seeds its list with before loading. They are demo data, and the delete rule is modelled for any list.
- The `confirm()` and `alert()` dialogs, router pushes, timers and object-URL previews. These are UI I/O; confirmation enters as a boolean and navigation as a returned path.
- Reviews.ReviewerField: with nobody signed in, `user?.id` is `undefined`. The model follows database clients that name every key of an inserted array element as a column, so the backend stores null there. A client that leaves such keys out of the column list would let the column default apply instead; that variant is not modelled.
- The texts of two foreign error messages are pinned to one version each: `Services.NoUserMessage` is the TypeError wording of the V8 engine for reading `id` of null, and `Backend.NoRowsError` carries the PGRST116 message of one PostgREST release. Other engines and releases word them differently.
- ServiceRequestsPage.StatusColor: states only that unknown statuses get the pending colours, not that the four known colours differ.
- Categories.Slug: the whole `replace(/\s+/g, '-')` is proved for the shapes the tables use (single words, and words joined by single spaces) and for a run between two words, not as one closed formula for every input.

## Findings

| source | as written | input that shows it | evidently intended | confidence | as-written member | corrected member |
|---|---|---|---|---|---|---|
| src/context/UserContext.jsx:13-87 | the unsubscribe function is returned from the async `checkInitialSession`, so the effect itself returns nothing and React never runs a cleanup | mount, unmount, mount, unmount the provider (React's development double mount): two auth listeners stay live | each unmount unsubscribes the listener of its mount, leaving none once unmounted | not executed; read from the code | Session.ListenersLeak | Session.ListenersBalanced |
