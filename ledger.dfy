/** The store the controllers write to, and the controllers that write to it: creating a
    vehicle (controllers/vehicleController.js), creating and cancelling a booking
    (controllers/bookingController.js), and creating a review (controllers/reviewController.js).
    Each collection maps ids to documents; the store hands out ids in increasing order. */
module Ledger {
  import opened Types
  import opened Collections

  /** A vehicle that exists and is marked available can be booked. */
  predicate Bookable(vehicles: map<Id, Vehicle>, vehicleId: Id) {
    vehicleId in vehicles && vehicles[vehicleId].available
  }

  /** Booking and vehicle records agree: every booking's vehicle exists and is marked
      unavailable, and no vehicle is booked twice. */
  ghost predicate Consistent(vehicles: map<Id, Vehicle>, bookings: map<Id, Booking>) {
    && (forall k | k in bookings :: bookings[k].vehicle in vehicles && !vehicles[bookings[k].vehicle].available)
    && (forall j, k | j in bookings && k in bookings && bookings[j].vehicle == bookings[k].vehicle :: j == k)
  }

  /** Booking a bookable vehicle under a fresh id, and marking it unavailable, keeps the
      records consistent. */
  lemma BookingKeepsConsistent(vehicles: map<Id, Vehicle>, bookings: map<Id, Booking>, id: Id, b: Booking)
    requires Consistent(vehicles, bookings)
    requires id !in bookings && Bookable(vehicles, b.vehicle)
    ensures Consistent(vehicles[b.vehicle := vehicles[b.vehicle].(available := false)], bookings[id := b])
  {
  }

  /** Deleting a booking and marking its vehicle available keeps the records consistent. */
  lemma CancelKeepsConsistent(vehicles: map<Id, Vehicle>, bookings: map<Id, Booking>, id: Id)
    requires Consistent(vehicles, bookings)
    requires id in bookings
    ensures
      var v := bookings[id].vehicle;
      var vehicles' := if v in vehicles then vehicles[v := vehicles[v].(available := true)] else vehicles;
      Consistent(vehicles', bookings - {id})
  {
  }

  /** Adding a vehicle under a fresh id keeps the records consistent, whatever its flag. */
  lemma NewVehicleKeepsConsistent(vehicles: map<Id, Vehicle>, bookings: map<Id, Booking>, id: Id, x: Vehicle)
    requires Consistent(vehicles, bookings)
    requires id !in vehicles
    ensures Consistent(vehicles[id := x], bookings)
  {
  }

  /** In consistent records a booked vehicle cannot be booked again. */
  lemma BookedIsNotBookable(vehicles: map<Id, Vehicle>, bookings: map<Id, Booking>, id: Id)
    requires Consistent(vehicles, bookings)
    requires id in bookings
    ensures !Bookable(vehicles, bookings[id].vehicle)
  {
  }

  class Store {
    var users: map<Id, UserRecord>
    var vehicles: map<Id, Vehicle>
    var bookings: map<Id, Booking>
    var reviews: map<Id, Review>
    var nextId: nat

    /** Every stored id was handed out already. */
    ghost predicate Valid()
      reads this
    {
      Below(vehicles, nextId) && Below(bookings, nextId) && Below(reviews, nextId)
    }

    /** An empty store over the given users (users are registered elsewhere). */
    constructor (users: map<Id, UserRecord>)
      ensures Valid()
      ensures this.users == users && vehicles == map[] && bookings == map[] && reviews == map[]
      ensures nextId == 0
    {
      this.users := users;
      vehicles, bookings, reviews := map[], map[], map[];
      nextId := 0;
    }

    /** Hands out the next id. */
    method FreshId() returns (id: Id)
      requires Valid()
      modifies this`nextId
      ensures Valid() && id == old(nextId) && nextId == id + 1
      ensures id !in vehicles && id !in bookings && id !in reviews
    {
      id := nextId;
      nextId := nextId + 1;
    }

    /** createVehicle: stores a new vehicle, available unless the request says otherwise.
        No role is checked. */
    method CreateVehicle(make: string, model: string, year: real, pricePerDay: real,
                         available: Option<bool>, image: Option<string>) returns (r: Response<Doc<Vehicle>>)
      requires Valid()
      modifies this
      ensures Valid()
      ensures r.Ok? && r.status == 201 && r.body.id == old(nextId)
      ensures r.body.fields == Vehicle(make, model, year, pricePerDay, available.GetOr(true), image)
      ensures available.None? ==> r.body.fields.available
      ensures vehicles == old(vehicles)[r.body.id := r.body.fields] && r.body.id !in old(vehicles)
      ensures nextId == old(nextId) + 1
      ensures users == old(users) && bookings == old(bookings) && reviews == old(reviews)
      ensures Consistent(old(vehicles), old(bookings)) ==> Consistent(vehicles, bookings)
    {
      var id := FreshId();
      var v := Vehicle(make, model, year, pricePerDay, available.GetOr(true), image);
      if Consistent(vehicles, bookings) {
        NewVehicleKeepsConsistent(vehicles, bookings, id, v);
      }
      vehicles := vehicles[id := v];
      r := Ok(201, "", Doc(id, v));
    }

    /** createBooking: refuses a vehicle that is missing or unavailable; otherwise stores a
        booking owned by the caller with the requested vehicle, dates and price (neither the
        dates' order nor the price's sign is checked) and marks the vehicle unavailable. */
    method CreateBooking(caller: Caller, vehicle: Id, startDate: int, endDate: int, totalPrice: real)
      returns (r: Response<Doc<Booking>>)
      requires Valid()
      modifies this
      ensures Valid()
      ensures users == old(users) && reviews == old(reviews)
      ensures !Bookable(old(vehicles), vehicle) ==>
        && r == Err(400, "Vehicle not available")
        && vehicles == old(vehicles) && bookings == old(bookings) && nextId == old(nextId)
      ensures Bookable(old(vehicles), vehicle) ==>
        var placed := Booking(vehicle, caller.id, false, startDate, endDate, totalPrice);
        && r == Ok(201, "Booking created successfully", Doc(old(nextId), placed))
        && old(nextId) !in old(bookings)
        && bookings == old(bookings)[old(nextId) := placed]
        && vehicles == old(vehicles)[vehicle := old(vehicles)[vehicle].(available := false)]
        && nextId == old(nextId) + 1
      ensures Consistent(old(vehicles), old(bookings)) ==> Consistent(vehicles, bookings)
    {
      if !Bookable(vehicles, vehicle) {
        return Err(400, "Vehicle not available");
      }
      var id := FreshId();
      var placed := Booking(vehicle, caller.id, false, startDate, endDate, totalPrice);
      if Consistent(vehicles, bookings) {
        BookingKeepsConsistent(vehicles, bookings, id, placed);
      }
      bookings := bookings[id := placed];
      vehicles := vehicles[vehicle := vehicles[vehicle].(available := false)];
      r := Ok(201, "Booking created successfully", Doc(id, placed));
    }

    /** cancelBooking: checks the id's form, then that the booking exists, then the role;
        on success marks the booking's vehicle available if it still exists and deletes
        the booking. No failure changes anything. */
    method CancelBooking(caller: Caller, param: IdParam) returns (r: Response<()>)
      requires Valid()
      modifies this
      ensures Valid()
      ensures users == old(users) && reviews == old(reviews) && nextId == old(nextId)
      ensures param.Malformed? ==> r == Err(400, "Invalid booking ID")
      ensures param.WellFormed? && param.id !in old(bookings) ==> r == Err(404, "Booking not found")
      ensures param.WellFormed? && param.id in old(bookings) && caller.role != Admin ==>
        r == Err(403, "Access Denied: Admins Only")
      ensures r.Err? ==> vehicles == old(vehicles) && bookings == old(bookings)
      ensures r.Ok? <==> param.WellFormed? && param.id in old(bookings) && caller.role == Admin
      ensures r.Ok? ==>
        var v := old(bookings)[param.id].vehicle;
        && r == Ok(200, "Booking cancelled successfully", ())
        && bookings == old(bookings) - {param.id}
        && vehicles == (if v in old(vehicles) then old(vehicles)[v := old(vehicles)[v].(available := true)] else old(vehicles))
      ensures Consistent(old(vehicles), old(bookings)) ==> Consistent(vehicles, bookings)
    {
      if param.Malformed? {
        return Err(400, "Invalid booking ID");
      }
      var id := param.id;
      if id !in bookings {
        return Err(404, "Booking not found");
      }
      if caller.role != Admin {
        return Err(403, "Access Denied: Admins Only");
      }
      var v := bookings[id].vehicle;
      if Consistent(vehicles, bookings) {
        CancelKeepsConsistent(vehicles, bookings, id);
      }
      if v in vehicles {
        vehicles := vehicles[v := vehicles[v].(available := true)];
      }
      bookings := bookings - {id};
      r := Ok(200, "Booking cancelled successfully", ());
    }

    /** createReview: refuses a missing vehicle; otherwise stores a review by the caller with
        the requested vehicle, rating (any number) and comment. */
    method CreateReview(caller: Caller, vehicleId: Id, rating: real, comment: string) returns (r: Response<Doc<Review>>)
      requires Valid()
      modifies this
      ensures Valid()
      ensures users == old(users) && vehicles == old(vehicles) && bookings == old(bookings)
      ensures vehicleId !in old(vehicles) ==> r == Err(404, "Vehicle not found") && reviews == old(reviews) && nextId == old(nextId)
      ensures vehicleId in old(vehicles) ==>
        var written := Review(caller.id, vehicleId, rating, comment);
        && r == Ok(201, "", Doc(old(nextId), written))
        && old(nextId) !in old(reviews)
        && reviews == old(reviews)[old(nextId) := written]
        && nextId == old(nextId) + 1
    {
      if vehicleId !in vehicles {
        return Err(404, "Vehicle not found");
      }
      var id := FreshId();
      var written := Review(caller.id, vehicleId, rating, comment);
      reviews := reviews[id := written];
      r := Ok(201, "", Doc(id, written));
    }

    /** An admin who books a vehicle and then cancels that booking leaves the bookings and
        the vehicles as they were; only the id counter has moved on. When the booking is
        refused, no cancel is attempted (`cancelled` is `None`). */
    method CreateThenCancel(caller: Caller, vehicle: Id, startDate: int, endDate: int, totalPrice: real)
      returns (created: Response<Doc<Booking>>, cancelled: Option<Response<()>>)
      requires Valid() && caller.role == Admin
      modifies this
      ensures Valid()
      ensures created.Ok? <==> Bookable(old(vehicles), vehicle)
      ensures cancelled.None? <==> created.Err?
      ensures created.Ok? ==> cancelled == Some(Ok(200, "Booking cancelled successfully", ()))
      ensures bookings == old(bookings) && vehicles == old(vehicles)
      ensures users == old(users) && reviews == old(reviews)
      ensures nextId == if created.Ok? then old(nextId) + 1 else old(nextId)
    {
      created := CreateBooking(caller, vehicle, startDate, endDate, totalPrice);
      if created.Err? {
        return created, None;
      }
      var placed := created.body.id;
      var reply := CancelBooking(caller, WellFormed(placed));
      cancelled := Some(reply);
      assert bookings == old(bookings);
      assert vehicles == old(vehicles);
    }
  }

  /** The end-to-end walk through the booking lifecycle: list a vehicle, book it, find it
      unavailable to a second booking, cancel the first, and find it available again. */
  method BookingLifecycle()
  {
    var ann := UserRecord("ann", "ann@example.com", "hash", None, Regular);
    var root := UserRecord("root", "root@example.com", "hash", None, Admin);
    var store := new Store(map[1 := ann, 2 := root]);
    var customer := Caller(1, "ann", "ann@example.com", Regular);
    var admin := Caller(2, "root", "root@example.com", Admin);

    var listed := store.CreateVehicle("Toyota", "Corolla", 2020.0, 45.0, None, None);
    var car := listed.body.id;
    assert store.vehicles[car].available;

    var first := store.CreateBooking(customer, car, 0, 86400000, 45.0);
    assert first.Ok? && !store.vehicles[car].available;

    var second := store.CreateBooking(customer, car, 0, 86400000, 45.0);
    assert second == Err(400, "Vehicle not available");

    var refused := store.CancelBooking(customer, WellFormed(first.body.id));
    assert refused == Err(403, "Access Denied: Admins Only");

    var cancelled := store.CancelBooking(admin, WellFormed(first.body.id));
    assert cancelled.Ok? && store.vehicles[car].available && store.bookings == map[];
  }
}
