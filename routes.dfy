/** Which middleware guards each endpoint (the files under routes/), and what running that chain
    decides before a controller is reached. */
module Routes {
  import opened Types
  import opened Auth

  datatype Endpoint =
    | ListVehicles | AddVehicle
    | ListReviews | AddReview
    | AddBooking | ListBookings | ShowBooking | RentalHistory | RentalReport | DeleteBooking

  datatype Guard = Authenticate | RequireAdmin

  /** The middleware each route runs before its controller, in order. */
  function Guards(e: Endpoint): seq<Guard> {
    match e
    case ListVehicles | AddVehicle | ListReviews => []
    case AddReview | AddBooking | ListBookings | ShowBooking => [Authenticate]
    case RentalHistory | RentalReport | DeleteBooking => [Authenticate, RequireAdmin]
  }

  /** Runs a middleware chain; `user` is what earlier middleware attached to the request. */
  function RunGuards(gs: seq<Guard>, header: Option<string>, verify: string -> Verified,
                     users: map<Id, UserRecord>, user: Option<Caller>): (r: Gate<Option<Caller>>)
    decreases |gs|
  {
    if gs == [] then Next(user)
    else
      match gs[0]
      case Authenticate =>
        (match AuthMiddleware(header, verify, users)
         case Stop(status, message) => Stop(status, message)
         case Next(caller) => RunGuards(gs[1..], header, verify, users, Some(caller)))
      case RequireAdmin =>
        (match AdminMiddleware(user)
         case Stop(status, message) => Stop(status, message)
         case Next(_) => RunGuards(gs[1..], header, verify, users, user))
  }

  /** What the guards of an endpoint decide for a request with the given header. */
  function Admit(e: Endpoint, header: Option<string>, verify: string -> Verified, users: map<Id, UserRecord>)
    : Gate<Option<Caller>>
  {
    RunGuards(Guards(e), header, verify, users, None)
  }

  /** The admin-only endpoints reach their controller only with an authenticated admin,
      and an authenticated non-admin is refused with 403 before the controller runs (so
      cancelling a booking refuses a non-admin before looking at the id). */
  lemma AdminEndpointsAdmitOnlyAdmins(e: Endpoint, header: Option<string>, verify: string -> Verified, users: map<Id, UserRecord>)
    requires e == RentalHistory || e == RentalReport || e == DeleteBooking
    ensures var auth := AuthMiddleware(header, verify, users);
      && (auth.Stop? ==> Admit(e, header, verify, users) == Stop(auth.status, auth.message))
      && (auth.Next? && auth.value.role != Admin ==>
            Admit(e, header, verify, users) == Stop(403, "Access Denied: Admins Only"))
      && (auth.Next? && auth.value.role == Admin ==> Admit(e, header, verify, users) == Next(Some(auth.value)))
  {
    var gs := Guards(e);
    var auth := AuthMiddleware(header, verify, users);
    assert gs[1..] == [RequireAdmin] && gs[1..][1..] == [];
    if auth.Next? {
      assert Admit(e, header, verify, users) == RunGuards(gs[1..], header, verify, users, Some(auth.value));
      if auth.value.role == Admin {
        assert RunGuards(gs[1..], header, verify, users, Some(auth.value))
            == RunGuards(gs[1..][1..], header, verify, users, Some(auth.value));
      }
    }
  }

  /** The booking endpoints behind authentication alone admit every authenticated caller,
      whatever the role; listing all bookings is one of them. */
  lemma AuthenticatedEndpointsAdmitAnyRole(e: Endpoint, header: Option<string>, verify: string -> Verified, users: map<Id, UserRecord>)
    requires e == AddBooking || e == ListBookings || e == ShowBooking
    ensures var auth := AuthMiddleware(header, verify, users);
      && (auth.Stop? ==> Admit(e, header, verify, users) == Stop(auth.status, auth.message))
      && (auth.Next? ==> Admit(e, header, verify, users) == Next(Some(auth.value)))
  {
    var gs := Guards(e);
    var auth := AuthMiddleware(header, verify, users);
    assert gs[1..] == [];
    if auth.Next? {
      assert Admit(e, header, verify, users) == RunGuards(gs[1..], header, verify, users, Some(auth.value));
    }
  }

  /** Listing vehicles and creating a vehicle need no credentials at all. */
  lemma PublicEndpointsAdmitEveryone(e: Endpoint, header: Option<string>, verify: string -> Verified, users: map<Id, UserRecord>)
    requires e == ListVehicles || e == AddVehicle
    ensures Admit(e, header, verify, users) == Next(None)
  {
  }

  /** Posting a review takes exactly the authentication middleware's decision, any role
      included; reading a vehicle's reviews needs no credentials. */
  lemma ReviewEndpoints(header: Option<string>, verify: string -> Verified, users: map<Id, UserRecord>)
    ensures var auth := AuthMiddleware(header, verify, users);
      && (auth.Stop? ==> Admit(AddReview, header, verify, users) == Stop(auth.status, auth.message))
      && (auth.Next? ==> Admit(AddReview, header, verify, users) == Next(Some(auth.value)))
    ensures Admit(ListReviews, header, verify, users) == Next(None)
  {
    assert Guards(AddReview)[1..] == [];
  }
}
