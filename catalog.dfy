/** The read-only side of the vehicle and review controllers
    (controllers/vehicleController.js, controllers/reviewController.js). */
module Catalog {
  import opened Types
  import opened Collections

  /** Every stored vehicle, oldest first, with status 200. */
  function GetVehicles(vehicles: map<Id, Vehicle>, nextId: nat): (r: Response<seq<Doc<Vehicle>>>)
    requires Below(vehicles, nextId)
    ensures r.Ok? && r.status == 200
    ensures forall i :: 0 <= i < |r.body| ==> r.body[i].id < nextId && r.body[i].id in vehicles && r.body[i].fields == vehicles[r.body[i].id]
    ensures forall i, j :: 0 <= i < j < |r.body| ==> r.body[i].id < r.body[j].id
    ensures forall k :: k in vehicles ==> Doc(k, vehicles[k]) in r.body
  {
    var ks := Select(vehicles, Everything(), nextId);
    var docs := seq(|ks|, i requires 0 <= i < |ks| => Doc(ks[i], vehicles[ks[i]]));
    assert forall i :: 0 <= i < |ks| ==> docs[i].id == ks[i];
    Ok(200, "", docs)
  }

  /** A reviewer populated with its name only. */
  datatype Reviewer = Reviewer(id: Id, name: string)

  /** A review with its user populated; a user that no longer exists populates as null. */
  datatype ReviewView = ReviewView(id: Id, user: Option<Reviewer>, vehicle: Id, rating: real, comment: string)

  function ViewOf(users: map<Id, UserRecord>, id: Id, r: Review): (v: ReviewView)
    ensures v.id == id && v.vehicle == r.vehicle && v.rating == r.rating && v.comment == r.comment
    ensures v.user.Some? <==> r.user in users
    ensures v.user.Some? ==> v.user.value == Reviewer(r.user, users[r.user].name)
  {
    ReviewView(id, if r.user in users then Some(Reviewer(r.user, users[r.user].name)) else None,
               r.vehicle, r.rating, r.comment)
  }

  function OnVehicle(vehicleId: Id): Review -> bool {
    (r: Review) => r.vehicle == vehicleId
  }

  /** The reviews of a vehicle, oldest first, each with its reviewer's name. The vehicle
      itself is not looked up: an unknown vehicle simply has no reviews. */
  function GetReviews(users: map<Id, UserRecord>, reviews: map<Id, Review>, nextId: nat, vehicleId: Id)
    : (r: Response<seq<ReviewView>>)
    requires Below(reviews, nextId)
    ensures r.Ok? && r.status == 200
    ensures forall i :: 0 <= i < |r.body| ==>
      var k := r.body[i].id;
      k < nextId && k in reviews && reviews[k].vehicle == vehicleId && r.body[i] == ViewOf(users, k, reviews[k])
    ensures forall i, j :: 0 <= i < j < |r.body| ==> r.body[i].id < r.body[j].id
    ensures forall k :: k in reviews && reviews[k].vehicle == vehicleId ==>
      ViewOf(users, k, reviews[k]) in r.body
  {
    var ks := Select(reviews, OnVehicle(vehicleId), nextId);
    var views := seq(|ks|, i requires 0 <= i < |ks| => ViewOf(users, ks[i], reviews[ks[i]]));
    assert forall i :: 0 <= i < |ks| ==> views[i].id == ks[i];
    Ok(200, "", views)
  }

  /** A vehicle nobody has reviewed, known or not, lists as 200 with no reviews. */
  lemma UnreviewedVehicle(users: map<Id, UserRecord>, reviews: map<Id, Review>, nextId: nat, vehicleId: Id)
    requires Below(reviews, nextId)
    requires forall k | k in reviews :: reviews[k].vehicle != vehicleId
    ensures GetReviews(users, reviews, nextId, vehicleId) == Ok(200, "", [])
  {
    SelectNone(reviews, OnVehicle(vehicleId), nextId);
    assert |GetReviews(users, reviews, nextId, vehicleId).body| == 0;
  }
}
