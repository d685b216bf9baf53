/** The records of the rental store, as the schemas under models/ define them. */
module Types {

  /** A document id. The store hands ids out in increasing order, so ascending
      id order is creation order. */
  type Id = nat

  datatype Option<T> = None | Some(value: T) {
    /** The value, or `default` when absent (a schema default). */
    function GetOr(default: T): T {
      if Some? then value else default
    }
  }

  /** The two roles the user schema admits: "admin" and the default "user". */
  datatype Role = Admin | Regular

  datatype UserRecord = UserRecord(
    name: string,
    email: string,
    password: string,
    token: Option<string>,
    role: Role)

  /** What the authentication middleware attaches to a request as `req.user`. */
  datatype Caller = Caller(id: Id, name: string, email: string, role: Role)

  datatype Vehicle = Vehicle(
    make: string,
    model: string,
    year: real,
    pricePerDay: real,
    available: bool,
    image: Option<string>)

  /** Dates are milliseconds since the epoch. */
  datatype Booking = Booking(
    vehicle: Id,
    user: Id,
    approved: bool,
    startDate: int,
    endDate: int,
    totalPrice: real)

  datatype Review = Review(user: Id, vehicle: Id, rating: real, comment: string)

  /** A stored document together with its id. */
  datatype Doc<T> = Doc(id: Id, fields: T)

  /** A route parameter meant to be an id: either a well-formed id or text that is not one. */
  datatype IdParam = WellFormed(id: Id) | Malformed(raw: string)

  /** An HTTP reply: a status with a message (empty when the reply is a bare document) and a
      body, or an error status with its message. */
  datatype Response<T> = Ok(status: nat, message: string, body: T) | Err(status: nat, message: string)
}
