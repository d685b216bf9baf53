/** The read-only side of the booking controller (controllers/bookingController.js):
    listing, lookup by id, a vehicle's rental history and its rental report. Each reads
    the store's collections as they stand; `nextId` bounds every id in them. */
module Reports {
  import opened Types
  import opened Collections

  /** 1000 * 3600 * 24 milliseconds make a day. */
  const MsPerDay: int := 86400000

  /** A duration in milliseconds as a (fractional) number of days, exactly. */
  function Days(ms: int): real {
    ms as real / MsPerDay as real
  }

  function ForVehicle(vehicleId: Id): Booking -> bool {
    (b: Booking) => b.vehicle == vehicleId
  }

  /** The bookings of one vehicle, oldest first. */
  function BookingsOf(bookings: map<Id, Booking>, vehicleId: Id, bound: nat): (ks: seq<Id>)
    ensures Ascending(ks)
    ensures forall i :: 0 <= i < |ks| ==> ks[i] < bound && ks[i] in bookings && bookings[ks[i]].vehicle == vehicleId
    ensures forall k :: k < bound && k in bookings && bookings[k].vehicle == vehicleId ==> k in ks
  {
    Select(bookings, ForVehicle(vehicleId), bound)
  }

  /** Some booking is for the vehicle. */
  predicate HasBookings(bookings: map<Id, Booking>, vehicleId: Id) {
    exists k :: k in bookings && bookings[k].vehicle == vehicleId
  }

  // ---------------------------------------------------------------------------
  // Populated views

  /** A populated user: the stored user without its password. */
  datatype UserView = UserView(id: Id, name: string, email: string, token: Option<string>, role: Role)

  /** A booking with its vehicle and user populated; a reference that resolves to no
      document populates as null (`None`). */
  datatype BookingView = BookingView(
    id: Id,
    vehicle: Option<Doc<Vehicle>>,
    user: Option<UserView>,
    approved: bool,
    startDate: int,
    endDate: int,
    totalPrice: real)

  function Populate(users: map<Id, UserRecord>, vehicles: map<Id, Vehicle>, id: Id, b: Booking): (v: BookingView)
    ensures v.id == id && v.approved == b.approved
    ensures v.startDate == b.startDate && v.endDate == b.endDate && v.totalPrice == b.totalPrice
    ensures v.vehicle.Some? <==> b.vehicle in vehicles
    ensures v.vehicle.Some? ==> v.vehicle.value == Doc(b.vehicle, vehicles[b.vehicle])
    ensures v.user.Some? <==> b.user in users
    ensures v.user.Some? ==>
      var u := users[b.user];
      v.user.value == UserView(b.user, u.name, u.email, u.token, u.role)
  {
    BookingView(
      id,
      if b.vehicle in vehicles then Some(Doc(b.vehicle, vehicles[b.vehicle])) else None,
      if b.user in users
        then var u := users[b.user]; Some(UserView(b.user, u.name, u.email, u.token, u.role))
        else None,
      b.approved, b.startDate, b.endDate, b.totalPrice)
  }

  // ---------------------------------------------------------------------------
  // getBookings

  /** Every booking, oldest first, populated. No role is checked here (nor on its route). */
  function GetBookings(users: map<Id, UserRecord>, vehicles: map<Id, Vehicle>, bookings: map<Id, Booking>, nextId: nat)
    : (r: Response<seq<BookingView>>)
    requires Below(bookings, nextId)
    ensures r.Ok? && r.status == 200
    ensures forall i :: 0 <= i < |r.body| ==>
      r.body[i].id < nextId && r.body[i].id in bookings
      && r.body[i] == Populate(users, vehicles, r.body[i].id, bookings[r.body[i].id])
    ensures forall i, j :: 0 <= i < j < |r.body| ==> r.body[i].id < r.body[j].id
    ensures forall k :: k in bookings ==> exists i :: 0 <= i < |r.body| && r.body[i].id == k
  {
    var ks := Select(bookings, Everything(), nextId);
    var views := seq(|ks|, i requires 0 <= i < |ks| => Populate(users, vehicles, ks[i], bookings[ks[i]]));
    assert forall i :: 0 <= i < |ks| ==> views[i].id == ks[i];
    Ok(200, "", views)
  }

  // ---------------------------------------------------------------------------
  // getBookingById

  /** Lookup by id as written. The ownership test compares `req.user._id`, a field the
      authentication middleware never sets, so it never succeeds: only admins are served.
      A booking whose user no longer exists populates its user as null, and taking that
      null's string form fails the request with 500. */
  function GetBookingById(users: map<Id, UserRecord>, vehicles: map<Id, Vehicle>, bookings: map<Id, Booking>, caller: Caller, id: Id)
    : (r: Response<BookingView>)
    ensures id !in bookings ==> r == Err(404, "Booking not found")
    ensures id in bookings && bookings[id].user !in users ==> r == Err(500, "Error fetching booking")
    ensures id in bookings && bookings[id].user in users && caller.role != Admin ==> r == Err(403, "Access Denied")
    ensures r.Ok? <==> id in bookings && bookings[id].user in users && caller.role == Admin
    ensures r.Ok? ==> r.status == 200 && r.body == Populate(users, vehicles, id, bookings[id])
  {
    if id !in bookings then Err(404, "Booking not found")
    else
      var b := bookings[id];
      if b.user !in users then Err(500, "Error fetching booking")
      else if caller.role != Admin then Err(403, "Access Denied")
      else Ok(200, "", Populate(users, vehicles, id, b))
  }

  /** Every owner who is not an admin is refused their own booking, which the intended
      lookup serves. */
  lemma OwnerRefused(users: map<Id, UserRecord>, vehicles: map<Id, Vehicle>, bookings: map<Id, Booking>, caller: Caller, id: Id)
    requires id in bookings && bookings[id].user in users
    requires caller.id == bookings[id].user && caller.role == Regular
    ensures GetBookingById(users, vehicles, bookings, caller, id) == Err(403, "Access Denied")
    ensures GetBookingByIdIntended(users, vehicles, bookings, caller, id).Ok?
  {
  }

  /** Lookup by id as the comment above the check intends: the booking's owner or an
      admin is served, anyone else is refused. */
  function GetBookingByIdIntended(users: map<Id, UserRecord>, vehicles: map<Id, Vehicle>, bookings: map<Id, Booking>, caller: Caller, id: Id)
    : (r: Response<BookingView>)
    ensures id !in bookings ==> r == Err(404, "Booking not found")
    ensures id in bookings && caller.id != bookings[id].user && caller.role != Admin ==> r == Err(403, "Access Denied")
    ensures r.Ok? <==> id in bookings && (caller.id == bookings[id].user || caller.role == Admin)
    ensures r.Ok? ==> r.status == 200 && r.body == Populate(users, vehicles, id, bookings[id])
  {
    if id !in bookings then Err(404, "Booking not found")
    else
      var b := bookings[id];
      if caller.id != b.user && caller.role != Admin then Err(403, "Access Denied")
      else Ok(200, "", Populate(users, vehicles, id, b))
  }

  // ---------------------------------------------------------------------------
  // getRentalHistory

  datatype HistoryEntry = HistoryEntry(
    bookingId: Id,
    user: string,
    vehicle: string,
    startDate: int,
    endDate: int,
    duration: real,
    totalPrice: real)

  function EntryOf(users: map<Id, UserRecord>, vehicles: map<Id, Vehicle>, id: Id, b: Booking): (e: HistoryEntry)
    requires b.user in users && b.vehicle in vehicles
  {
    HistoryEntry(id, users[b.user].name, vehicles[b.vehicle].model, b.startDate, b.endDate,
                 Days(b.endDate - b.startDate), b.totalPrice)
  }

  /** One history entry per booking of `ks`, in the same order. */
  function Entries(users: map<Id, UserRecord>, vehicles: map<Id, Vehicle>, bookings: map<Id, Booking>, ks: seq<Id>)
    : (h: seq<HistoryEntry>)
    requires forall k | k in ks :: k in bookings && bookings[k].user in users && bookings[k].vehicle in vehicles
    ensures |h| == |ks|
    ensures forall i :: 0 <= i < |ks| ==> h[i] == EntryOf(users, vehicles, ks[i], bookings[ks[i]])
  {
    seq(|ks|, i requires 0 <= i < |ks| => EntryOf(users, vehicles, ks[i], bookings[ks[i]]))
  }

  /** Some booking of the vehicle names a user that no longer exists. */
  predicate HasOrphanUser(users: map<Id, UserRecord>, bookings: map<Id, Booking>, vehicleId: Id) {
    exists k :: k in bookings && bookings[k].vehicle == vehicleId && bookings[k].user !in users
  }

  /** The vehicle's bookings, oldest first, each with its length in days. No bookings is
      reported as 404; a booking whose user or vehicle does not populate fails the request. */
  function GetRentalHistory(users: map<Id, UserRecord>, vehicles: map<Id, Vehicle>, bookings: map<Id, Booking>, nextId: nat, vehicleId: Id)
    : (r: Response<seq<HistoryEntry>>)
    requires Below(bookings, nextId)
    ensures r == Err(404, "No rental history found for this vehicle.") <==> !HasBookings(bookings, vehicleId)
    ensures r == Err(500, "Error fetching rental history") <==>
      HasBookings(bookings, vehicleId) && (vehicleId !in vehicles || HasOrphanUser(users, bookings, vehicleId))
    ensures r.Ok? <==>
      HasBookings(bookings, vehicleId) && vehicleId in vehicles && !HasOrphanUser(users, bookings, vehicleId)
    ensures r.Ok? ==> r.status == 200 && |r.body| > 0
    ensures r.Ok? ==> forall i, j :: 0 <= i < j < |r.body| ==> r.body[i].bookingId < r.body[j].bookingId
    ensures r.Ok? ==> forall i :: 0 <= i < |r.body| ==>
      var k := r.body[i].bookingId;
      && k in bookings && bookings[k].vehicle == vehicleId
      && r.body[i].user == users[bookings[k].user].name && r.body[i].vehicle == vehicles[vehicleId].model
      && r.body[i].startDate == bookings[k].startDate && r.body[i].endDate == bookings[k].endDate
      && r.body[i].totalPrice == bookings[k].totalPrice
      && r.body[i].duration == Days(bookings[k].endDate - bookings[k].startDate)
    ensures r.Ok? ==> forall k :: k in bookings && bookings[k].vehicle == vehicleId ==>
      exists i :: 0 <= i < |r.body| && r.body[i].bookingId == k
  {
    var ks := BookingsOf(bookings, vehicleId, nextId);
    if ks == [] then
      Err(404, "No rental history found for this vehicle.")
    else
      assert bookings[ks[0]].vehicle == vehicleId;
      if vehicleId !in vehicles || HasOrphanUser(users, bookings, vehicleId) then
      Err(500, "Error fetching rental history")
    else
      Ok(200, "", Entries(users, vehicles, bookings, ks))
  }

  // ---------------------------------------------------------------------------
  // generateRentalReport

  datatype Report = Report(totalRentals: nat, totalEarnings: real, totalDurationInDays: real)

  /** The sum of the prices of the bookings `ks`. */
  function TotalPrice(bookings: map<Id, Booking>, ks: seq<Id>): real
    requires forall k | k in ks :: k in bookings
  {
    if ks == [] then 0.0
    else TotalPrice(bookings, ks[..|ks| - 1]) + bookings[ks[|ks| - 1]].totalPrice
  }

  /** The sum of the lengths (end minus start, in milliseconds) of the bookings `ks`. */
  function TotalDurationMs(bookings: map<Id, Booking>, ks: seq<Id>): int
    requires forall k | k in ks :: k in bookings
  {
    if ks == [] then 0
    else TotalDurationMs(bookings, ks[..|ks| - 1]) + (bookings[ks[|ks| - 1]].endDate - bookings[ks[|ks| - 1]].startDate)
  }

  /** Count, total price and total length of a vehicle's bookings. A missing vehicle is
      404, and so is an existing vehicle without bookings (not a report of zeros). The
      total length is summed in milliseconds and converted to days at the end. */
  function GenerateRentalReport(vehicles: map<Id, Vehicle>, bookings: map<Id, Booking>, nextId: nat, vehicleId: Id)
    : (r: Response<Report>)
    requires Below(bookings, nextId)
    ensures vehicleId !in vehicles <==> r == Err(404, "Vehicle not found")
    ensures r == Err(404, "No rental data available for this vehicle.") <==>
      vehicleId in vehicles && !HasBookings(bookings, vehicleId)
    ensures r.Ok? <==> vehicleId in vehicles && HasBookings(bookings, vehicleId)
    ensures r.Ok? ==> r.status == 200 && r.body.totalRentals > 0
  {
    if vehicleId !in vehicles then
      Err(404, "Vehicle not found")
    else
      var ks := BookingsOf(bookings, vehicleId, nextId);
      if ks == [] then
        Err(404, "No rental data available for this vehicle.")
      else
        Ok(200, "", Report(|ks|, TotalPrice(bookings, ks), Days(TotalDurationMs(bookings, ks))))
  }

  /** Sums over the entries of a rental history. */
  function HistoryPrice(h: seq<HistoryEntry>): real {
    if h == [] then 0.0 else HistoryPrice(h[..|h| - 1]) + h[|h| - 1].totalPrice
  }

  function HistoryDays(h: seq<HistoryEntry>): real {
    if h == [] then 0.0 else HistoryDays(h[..|h| - 1]) + h[|h| - 1].duration
  }

  /** Days distribute over a sum of milliseconds. */
  lemma DaysAdd(a: int, b: int)
    ensures Days(a + b) == Days(a) + Days(b)
  {
  }

  /** The entries built from `ks` sum to the totals of `ks`. */
  lemma {:induction false} HistorySums(users: map<Id, UserRecord>, vehicles: map<Id, Vehicle>, bookings: map<Id, Booking>,
                                       ks: seq<Id>, h: seq<HistoryEntry>)
    requires forall k | k in ks :: k in bookings && bookings[k].user in users && bookings[k].vehicle in vehicles
    requires |h| == |ks|
    requires forall i :: 0 <= i < |ks| ==> h[i] == EntryOf(users, vehicles, ks[i], bookings[ks[i]])
    ensures HistoryPrice(h) == TotalPrice(bookings, ks)
    ensures HistoryDays(h) == Days(TotalDurationMs(bookings, ks))
    decreases |ks|
  {
    if ks != [] {
      var n := |ks| - 1;
      HistorySums(users, vehicles, bookings, ks[..n], h[..n]);
      var b := bookings[ks[n]];
      DaysAdd(TotalDurationMs(bookings, ks[..n]), b.endDate - b.startDate);
    }
  }

  /** The report and the history of a vehicle agree: whenever the history can be listed,
      the report counts its entries and sums their prices and their durations. */
  lemma ReportAgreesWithHistory(users: map<Id, UserRecord>, vehicles: map<Id, Vehicle>, bookings: map<Id, Booking>,
                                nextId: nat, vehicleId: Id)
    requires Below(bookings, nextId)
    requires GetRentalHistory(users, vehicles, bookings, nextId, vehicleId).Ok?
    ensures
      var h := GetRentalHistory(users, vehicles, bookings, nextId, vehicleId).body;
      var r := GenerateRentalReport(vehicles, bookings, nextId, vehicleId);
      && r.Ok?
      && r.body.totalRentals == |h|
      && r.body.totalEarnings == HistoryPrice(h)
      && r.body.totalDurationInDays == HistoryDays(h)
  {
    var ks := BookingsOf(bookings, vehicleId, nextId);
    var h := GetRentalHistory(users, vehicles, bookings, nextId, vehicleId).body;
    forall k | k in ks
      ensures k in bookings && bookings[k].user in users && bookings[k].vehicle in vehicles
    {
    }
    HistorySums(users, vehicles, bookings, ks, h);
  }

  /** For an existing vehicle, the report finds no data exactly when the history finds none. */
  lemma NoDataAgreement(users: map<Id, UserRecord>, vehicles: map<Id, Vehicle>, bookings: map<Id, Booking>,
                        nextId: nat, vehicleId: Id)
    requires Below(bookings, nextId) && vehicleId in vehicles
    ensures GenerateRentalReport(vehicles, bookings, nextId, vehicleId) == Err(404, "No rental data available for this vehicle.")
        <==> GetRentalHistory(users, vehicles, bookings, nextId, vehicleId) == Err(404, "No rental history found for this vehicle.")
  {
  }

  /** The report's totals, with "no data" read as zeros. */
  function Totals(r: Response<Report>): Report {
    if r.Ok? then r.body else Report(0, 0.0, 0.0)
  }

  /** Booking a vehicle under a fresh id appends that id to the vehicle's bookings. */
  lemma BookingsOfAfterInsert(bookings: map<Id, Booking>, nextId: nat, b: Booking)
    requires nextId !in bookings
    ensures BookingsOf(bookings[nextId := b], b.vehicle, nextId + 1) == BookingsOf(bookings, b.vehicle, nextId) + [nextId]
  {
    SelectInsert(bookings, ForVehicle(b.vehicle), nextId, b);
  }

  /** The totals of an existing vehicle's report are those of its bookings, zeros when it has none. */
  lemma TotalsOfReport(vehicles: map<Id, Vehicle>, bookings: map<Id, Booking>, nextId: nat, vehicleId: Id)
    requires Below(bookings, nextId) && vehicleId in vehicles
    ensures
      var ks := BookingsOf(bookings, vehicleId, nextId);
      Totals(GenerateRentalReport(vehicles, bookings, nextId, vehicleId))
        == Report(|ks|, TotalPrice(bookings, ks), Days(TotalDurationMs(bookings, ks)))
  {
  }

  /** Booking a vehicle adds that booking to its report: one more rental, its price, and its
      length. The availability flag the booking clears plays no part in the report. */
  lemma ReportAfterBooking(vehicles: map<Id, Vehicle>, bookings: map<Id, Booking>, nextId: nat, b: Booking)
    requires Below(bookings, nextId)
    requires b.vehicle in vehicles
    ensures
      var before := Totals(GenerateRentalReport(vehicles, bookings, nextId, b.vehicle));
      var vehicles' := vehicles[b.vehicle := vehicles[b.vehicle].(available := false)];
      var after := GenerateRentalReport(vehicles', bookings[nextId := b], nextId + 1, b.vehicle);
      && after.Ok?
      && after.body.totalRentals == before.totalRentals + 1
      && after.body.totalEarnings == before.totalEarnings + b.totalPrice
      && after.body.totalDurationInDays == before.totalDurationInDays + Days(b.endDate - b.startDate)
  {
    var v := b.vehicle;
    assert nextId !in bookings;
    assert Below(bookings[nextId := b], nextId + 1);
    var ks := BookingsOf(bookings, v, nextId);
    var ks' := BookingsOf(bookings[nextId := b], v, nextId + 1);
    TotalsAfterInsert(bookings, nextId, b);
    DaysAdd(TotalDurationMs(bookings, ks), b.endDate - b.startDate);
    TotalsOfReport(vehicles, bookings, nextId, v);
    TotalsOfReport(vehicles[v := vehicles[v].(available := false)], bookings[nextId := b], nextId + 1, v);
  }

  /** The totals of a vehicle's bookings after booking it under a fresh id. */
  lemma TotalsAfterInsert(bookings: map<Id, Booking>, nextId: nat, b: Booking)
    requires nextId !in bookings
    ensures
      var ks := BookingsOf(bookings, b.vehicle, nextId);
      var ks' := BookingsOf(bookings[nextId := b], b.vehicle, nextId + 1);
      && |ks'| == |ks| + 1
      && TotalPrice(bookings[nextId := b], ks') == TotalPrice(bookings, ks) + b.totalPrice
      && TotalDurationMs(bookings[nextId := b], ks') == TotalDurationMs(bookings, ks) + (b.endDate - b.startDate)
  {
    var ks := BookingsOf(bookings, b.vehicle, nextId);
    BookingsOfAfterInsert(bookings, nextId, b);
    TotalsInsert(bookings, ks, nextId, b);
  }

  /** Adding booking `n` to the stored bookings and to the end of `ks` adds its price and length. */
  lemma TotalsInsert(bookings: map<Id, Booking>, ks: seq<Id>, n: Id, b: Booking)
    requires forall k | k in ks :: k in bookings && k != n
    ensures TotalPrice(bookings[n := b], ks + [n]) == TotalPrice(bookings, ks) + b.totalPrice
    ensures TotalDurationMs(bookings[n := b], ks + [n]) == TotalDurationMs(bookings, ks) + (b.endDate - b.startDate)
  {
    var ks' := ks + [n];
    assert ks'[..|ks'| - 1] == ks;
    TotalsFrame(bookings, bookings[n := b], ks);
  }

  /** Totals over `ks` depend only on the bookings `ks` names. */
  lemma {:induction false} TotalsFrame(bookings: map<Id, Booking>, bookings': map<Id, Booking>, ks: seq<Id>)
    requires forall k | k in ks :: k in bookings && k in bookings' && bookings'[k] == bookings[k]
    ensures TotalPrice(bookings', ks) == TotalPrice(bookings, ks)
    ensures TotalDurationMs(bookings', ks) == TotalDurationMs(bookings, ks)
    decreases |ks|
  {
    if ks != [] {
      TotalsFrame(bookings, bookings', ks[..|ks| - 1]);
    }
  }

  /** The worked example: a two-day booking at 100 and a one-day booking at 50 report two
      rentals, earnings of 150 and three days. */
  lemma ReportExample()
    ensures
      var car := Vehicle("Toyota", "Corolla", 2020.0, 50.0, false, None);
      var bookings := map[1 := Booking(0, 9, false, 0, 2 * MsPerDay, 100.0),
                          2 := Booking(0, 9, false, 5 * MsPerDay, 6 * MsPerDay, 50.0)];
      GenerateRentalReport(map[0 := car], bookings, 3, 0) == Ok(200, "", Report(2, 150.0, 3.0))
  {
    var bookings := map[1 := Booking(0, 9, false, 0, 2 * MsPerDay, 100.0),
                        2 := Booking(0, 9, false, 5 * MsPerDay, 6 * MsPerDay, 50.0)];
    assert Select(bookings, ForVehicle(0), 1) == [];
    assert Select(bookings, ForVehicle(0), 2) == [1];
    assert Select(bookings, ForVehicle(0), 3) == [1, 2];
    var ks := BookingsOf(bookings, 0, 3);
    assert ks[..1] == [1] && ks[..1][..0] == [];
    assert TotalPrice(bookings, [1]) == 100.0;
    assert TotalDurationMs(bookings, [1]) == 2 * MsPerDay;
    assert TotalPrice(bookings, ks) == 150.0;
    assert TotalDurationMs(bookings, ks) == 3 * MsPerDay;
  }
}
