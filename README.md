# Vehicle rental backend: booking ledger, middleware and catalog

A model in Dafny of the logic of a small vehicle-rental REST backend. The backend keeps
vehicles, bookings, reviews and users in a document database. It authenticates requests
with a bearer token and guards routes by role. Booking a vehicle marks it unavailable, and
cancelling the booking marks it available again. Admins can ask for a vehicle's rental
history and a rental report.

The database is modelled as maps from ids to records, held by the class `Ledger.Store`:

- `users`: name, email, password hash, optional token and role (`Admin` or `Regular`, the
  schema's "admin" and "user").
- `vehicles`: make, model, year, price per day, an `available` flag and an optional image.
  The flag defaults to true.
- `bookings`: vehicle, user, `approved` (default false), start and end dates and a total price.
- `reviews`: user, vehicle, rating and comment.

The store hands out ids in increasing order, so ascending id order is creation order. This
order stands for the natural order in which the database returns documents.

Representation choices:

- Dates are integer milliseconds.
- Numbers that the source keeps as JavaScript numbers (a vehicle's year and price per day, a booking's
  price, a rating) are exact `real`s.
- A number of days is the exact quotient `ms / 86400000`.
- A reply is `Ok(status, message, body)` or `Err(status, message)`. The message is empty when
  the source sends a bare document.

Modules, one per part of the program:

- `Types`: the records (models/*.js).
- `Text`: JavaScript's `split` on one character and its inverse `join`.
- `Auth`: the authentication and admin middleware, and the booking controller's
  `authorizeAdmin`. Token verification is a foreign library. It enters as an oracle
  `verify: string -> Verified`, which returns a payload (its `_id` claim) or the name of the
  error it throws.
- `Routes`: which middleware each route runs, and what the chain decides.
- `Collections`: a collection read in creation order, `Select`.
- `Reports`: the booking controller's reads: all bookings, a booking by id, a vehicle's rental
  history and its rental report.
- `Catalog`: listing vehicles and the reviews of a vehicle.
- `Ledger`: the store and the controllers that write to it: create a vehicle, create and
  cancel a booking, create a review. It also holds the invariant `Consistent`: every booking's
  vehicle exists and is unavailable, and no vehicle is booked twice. All four writes preserve it.

Read-only controllers are functions of the store's maps and its id bound `nextId`. Each
requires `Below(m, nextId)`: every id of the collection it reads lies below `nextId`. The
store's invariant `Store.Valid` guarantees this, so each read returns every stored document.
Controllers that write are methods of `Store`. Their `ensures` give the whole new state in
terms of the old one. The method `Ledger.BookingLifecycle` walks a store through one
lifecycle, each step checked by an assertion. It lists a vehicle and books it. A second booking
of the same vehicle gets 400. A non-admin's cancel gets 403. An admin's cancel deletes the
booking and makes the vehicle available again.

In these places the model follows the code as written:

- `getBookingById` serves only admins (controllers/bookingController.js:85; see Findings).
- `getBookings` is preceded by the comment "Admin-only" (controllers/bookingController.js:61).
  Its route runs the authentication middleware alone (routes/bookingRoutes.js:22), so any
  authenticated caller gets every booking.
- `createVehicle` is mounted without middleware (routes/vehicleRoutes.js:10), so it needs no
  credentials.
- `createBooking` answers 400 "Vehicle not available" for a missing vehicle as well as for an
  unavailable one (controllers/bookingController.js:37-39).
- `createBooking` stores the requested dates and price unchecked
  (controllers/bookingController.js:41-47). An end date before the start date, or a negative
  price, is accepted.
- `cancelBooking` checks the id's form, then existence, then the role
  (controllers/bookingController.js:191-204). On its route the admin middleware runs first
  (routes/bookingRoutes.js:42), so a non-admin gets 403 whatever the id.
- Booking a vehicle clears its `available` flag (controllers/bookingController.js:52-53).
  Creating a vehicle stores whatever flag the request gives (controllers/vehicleController.js:18-25).
  So every booked vehicle is unavailable, but an unavailable vehicle need not have a booking.

## Model

| member | source | states |
|---|---|---|
| `Text.Split` | middleware/authMiddleware.js:15 | `split(" ")` gives at least one field. No field holds the separator. The first field is the longest separator-free prefix. |
| `Text.JoinSplit` | middleware/authMiddleware.js:15 | Joining the fields of a split with the separator gives back the original text. |
| `Text.SplitJoin` | middleware/authMiddleware.js:15 | Splitting the join of separator-free fields gives back those fields, so split and join are inverse. |
| `Auth.BearerToken` | middleware/authMiddleware.js:15 | The token is the second space-separated field of a "Bearer " header: the text after "Bearer " up to the next space or the end. |
| `Auth.BearerTokenOf` | middleware/authMiddleware.js:15 | The header "Bearer abc" yields the token "abc" whenever the token holds no space. |
| `Auth.AuthMiddleware` | middleware/authMiddleware.js:8-42 | No header, or none starting with "Bearer ": 401 "Token Missing or Invalid". A verify error named TokenExpiredError: 401 "Token Expired". One named JsonWebTokenError: 401 "Invalid Token". Any other error: 500. A verified token whose `_id` names no stored user: 404 "User Not Found". The handler is called exactly when every check passes. It receives the stored user's id, name, email and role, and no password. |
| `Auth.AuthenticatesStoredUser` | middleware/authMiddleware.js:15-32 | A bearer header whose token verifies to a stored user's id passes with that user's projection. |
| `Auth.AdminMiddleware` | middleware/authMiddleware.js:45-55 | No user: 401 "User Not Authenticated". A user without the admin role: 403 "Access Denied: Admins Only". Otherwise it passes, and only then. |
| `Auth.AuthorizeAdmin` | controllers/bookingController.js:23-28 | The controller's unused admin check decides exactly as the admin middleware does for an authenticated caller. |
| `Routes.AdminEndpointsAdmitOnlyAdmins` | routes/bookingRoutes.js:27-42 | Rental history, rental report and cancel-booking pass an authentication failure through unchanged. An authenticated non-admin gets 403 before the controller runs. Only an admin reaches the controller. |
| `Routes.AuthenticatedEndpointsAdmitAnyRole` | routes/bookingRoutes.js:19-25 | Creating a booking, listing all bookings and showing one booking pass an authentication failure through unchanged, and admit every authenticated caller of either role. |
| `Routes.PublicEndpointsAdmitEveryone` | routes/vehicleRoutes.js:9-10 | Listing vehicles and creating a vehicle admit any request, without credentials. |
| `Routes.ReviewEndpoints` | routes/reviewRoutes.js:7-8 | Posting a review takes exactly the authentication middleware's decision and admits either role. Listing a vehicle's reviews admits any request, without credentials. |
| `Collections.Select` | controllers/bookingController.js:64 | A filtered `find` returns exactly the stored documents that pass the filter, each once, in ascending id (creation) order. |
| `Reports.Populate` | controllers/bookingController.js:65 | A populated booking keeps its own fields. Its vehicle is the referenced vehicle document, or null when that vehicle is gone. Its user is the referenced user without the password, or null when that user is gone. |
| `Reports.GetBookings` | controllers/bookingController.js:62-71 | Status 200 with one populated view per stored booking, oldest first, and no others. |
| `Reports.GetBookingById` | controllers/bookingController.js:74-93 | An absent booking: 404 before any check. A booking whose user is gone: 500. Otherwise a non-admin gets 403 "Access Denied" and an admin gets 200 with the populated booking. The owner test on `req.user._id` never passes. |
| `Reports.OwnerRefused` | controllers/bookingController.js:85 | Every owner of a booking who is not an admin, and whose user record exists, gets 403 "Access Denied" for their own booking. The corrected lookup serves that same caller. |
| `Reports.GetBookingByIdIntended` | controllers/bookingController.js:84-89 | Corrected lookup: after the 404 for an absent booking, the owner or an admin gets 200 and anyone else gets 403. |
| `Reports.GetRentalHistory` | controllers/bookingController.js:96-131 | No bookings for the vehicle: 404, not an empty list. Otherwise 500 when the vehicle or some booking's user is gone. Otherwise, and only then, 200 with one entry per booking of the vehicle, oldest first. Each entry carries the booking's id, the booker's name, the vehicle's model, the booking's dates and price, and a duration of (end - start) / 86400000 days. |
| `Reports.GenerateRentalReport` | controllers/bookingController.js:134-184 | A missing vehicle: 404 "Vehicle not found", checked first. An existing vehicle with no bookings: 404 "No rental data available for this vehicle.", not a report of zeros. Otherwise 200 with at least one rental. |
| `Reports.TotalsOfReport` | controllers/bookingController.js:148-173 | For an existing vehicle, the report's count, earnings and days are the number of its bookings, the sum of their prices, and their summed length in milliseconds divided by 86400000. "No data" reads as zeros. |
| `Reports.ReportAgreesWithHistory` | controllers/bookingController.js:148-173 | Whenever the history lists, the report counts its entries, and its earnings and days are the sums of their prices and durations. The duration is summed in milliseconds and divided once. |
| `Reports.NoDataAgreement` | controllers/bookingController.js:160-164 | For an existing vehicle, the report finds no data exactly when the history finds none. |
| `Reports.ReportAfterBooking` | controllers/bookingController.js:41-53 | A successful booking adds one rental to its vehicle's report, plus its price and its length in days. The availability flag it clears does not affect the report. |
| `Reports.ReportExample` | controllers/bookingController.js:148-173 | Bookings of 2 days at 100 and 1 day at 50 report 2 rentals, earnings 150 and 3 days. |
| `Catalog.GetVehicles` | controllers/vehicleController.js:4-11 | Status 200 with every stored vehicle, oldest first, and no others. Nothing changes. |
| `Catalog.ViewOf` | controllers/reviewController.js:32-34 | A populated review keeps its fields. Its user is the reviewer's id and name, or null when the reviewer is gone. |
| `Catalog.GetReviews` | controllers/reviewController.js:30-39 | Status 200 with exactly the reviews whose vehicle is the parameter, oldest first. The vehicle itself is never looked up. |
| `Catalog.UnreviewedVehicle` | controllers/reviewController.js:32-35 | A vehicle with no reviews, known or unknown, gives 200 with an empty list. |
| `Ledger.BookingKeepsConsistent` | controllers/bookingController.js:37-53 | Booking a bookable vehicle under a fresh id and marking it unavailable preserves `Consistent`. |
| `Ledger.CancelKeepsConsistent` | controllers/bookingController.js:207-214 | Deleting a booking and marking its vehicle available, if it exists, preserves `Consistent`. |
| `Ledger.NewVehicleKeepsConsistent` | controllers/vehicleController.js:18-27 | Adding a vehicle under a fresh id, with either flag, preserves `Consistent`. |
| `Ledger.BookedIsNotBookable` | controllers/bookingController.js:37-39 | When the records are consistent, a vehicle that has a booking cannot be booked again. |
| `Ledger.Store.CreateVehicle` | controllers/vehicleController.js:14-32 | Stores exactly one new vehicle with the given fields and answers 201. `available` is true when not supplied. No role is checked. Bookings and reviews are unchanged. |
| `Ledger.Store.CreateBooking` | controllers/bookingController.js:31-59 | A missing or unavailable vehicle: 400 "Vehicle not available" and nothing changes. Otherwise it adds exactly one booking under a fresh id. The booking's user is the caller's id, and the vehicle, dates and price come from the request. The vehicle becomes unavailable and the reply is 201. Other vehicles, other bookings and reviews are unchanged. |
| `Ledger.Store.CancelBooking` | controllers/bookingController.js:188-224 | Checks run in order: a malformed id gives 400, an absent booking 404, a non-admin 403. No failure changes anything. On success exactly that booking is deleted, its vehicle is marked available if it still exists, and nothing else changes. |
| `Ledger.Store.CreateReview` | controllers/reviewController.js:5-27 | A missing vehicle: 404 and nothing is stored. Otherwise it stores exactly one review with the caller's id and the requested vehicle, rating (any number) and comment, and answers 201. Vehicles, bookings and the other reviews are unchanged. |
| `Ledger.Store.CreateThenCancel` | controllers/bookingController.js:207-216 | An admin who books a vehicle and then cancels that booking leaves the bookings and the vehicles exactly as they were, and the vehicle is available again. The cancel runs exactly when the booking was made, and then succeeds. Only the id counter moves, by one, and only when the booking was made. |

## Findings

| source | as written | input that shows it | evidently intended | confidence | as-written member | corrected member |
|---|---|---|---|---|---|---|
| controllers/bookingController.js:85 | the owner test compares `req.user._id`, but the authentication middleware sets `req.user.id` only | a non-admin user asks for their own booking and gets 403 "Access Denied" | the booking's owner or an admin is served | high; not executed | `Reports.OwnerRefused` | `Reports.GetBookingByIdIntended` |

## Left out

- `authenticateUser` (controllers/bookingController.js:7-20) is not modelled. No route uses it: routes/bookingRoutes.js:10-13 imports only `authMiddleware` and `adminMiddleware`.
- Token signing and verification (`jwt.verify`, utils/generateToken.js) belong to a foreign crypto library. Verification is an oracle argument. Signing is not modelled.
- Id format is checked only where the code checks it, in `cancelBooking` (`IdParam`), where a malformed id gives 400. Elsewhere ids are well-formed by type. So the cast errors a malformed id raises elsewhere, each answered with 500, are not modelled. They arise in the `findById` calls at controllers/bookingController.js:35, 76 and 139 and controllers/reviewController.js:9. They arise in the `find` calls at controllers/bookingController.js:101 and controllers/reviewController.js:32. And they arise at middleware/authMiddleware.js:20, for a token whose `_id` claim is not an id.
- Database failures and required-field validation failures, all answered with 500 by the catch blocks, are not modelled. Neither are the error objects those replies embed, nor `console.error`.
- The two writes of `createBooking` and of `cancelBooking` happen as one step. A failure between them, and concurrent requests (the double-booking race), are not modelled. The model is sequential.
- Timestamps, and fields a populate projection drops, are not modelled.
- Prices, ratings and day counts are exact rationals, so floating-point rounding is not modelled.
- The database's natural order is taken to be creation (ascending id) order.
- Users are given to the store when it is built. Registration, login and password reset belong to a controller that is not part of this model. Express start-up, CORS and database connection (index.js) are framework plumbing.
