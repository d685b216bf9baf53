/** The authentication and admin middleware (middleware/authMiddleware.js) and the
    admin check that the booking controller also declares. Token verification is a
    foreign library: it enters as the oracle `verify`. */
module Auth {
  import opened Types
  import opened Text

  const BearerPrefix: string := "Bearer "

  /** The decoded token payload; only its `_id` claim is read. */
  datatype Payload = Payload(userId: Option<Id>)

  /** What verifying a token gives: its payload, or the name of the error thrown. */
  datatype Verified = Decoded(payload: Payload) | Thrown(errorName: string)

  /** A middleware's verdict: call the next handler with a value, or answer and stop. */
  datatype Gate<T> = Next(value: T) | Stop(status: nat, message: string)

  /** The header is present and carries the bearer scheme. */
  predicate Presented(header: Option<string>) {
    header.Some? && BearerPrefix <= header.value
  }

  /** `authHeader.split(" ")[1]`: the text after "Bearer " up to the next space or the end. */
  function BearerToken(header: string): (token: string)
    requires BearerPrefix <= header
    ensures ' ' !in token
    ensures BearerPrefix + token <= header
    ensures |header| == |BearerPrefix| + |token| || header[|BearerPrefix| + |token|] == ' '
  {
    var rest := header[|BearerPrefix|..];
    assert header == "Bearer" + [' '] + rest;
    SplitAfterWord("Bearer", rest, ' ');
    Split(header, ' ')[1]
  }

  /** A header "Bearer t" yields the token t when t holds no space. */
  lemma BearerTokenOf(token: string)
    requires ' ' !in token
    ensures BearerToken(BearerPrefix + token) == token
  {
    var h := BearerPrefix + token;
    assert h[|BearerPrefix|..] == token;
  }

  /** `req.user` as the middleware builds it: the stored user without its password. */
  function Project(id: Id, user: UserRecord): Caller {
    Caller(id, user.name, user.email, user.role)
  }

  /** The authentication middleware: bearer check, token extraction, verification,
      user lookup, and the projection attached to the request. */
  function AuthMiddleware(header: Option<string>, verify: string -> Verified, users: map<Id, UserRecord>): (r: Gate<Caller>)
    ensures !Presented(header) ==> r == Stop(401, "Token Missing or Invalid")
    ensures Presented(header) ==>
      var outcome := verify(BearerToken(header.value));
      && (outcome == Thrown("TokenExpiredError") <==> r == Stop(401, "Token Expired"))
      && (outcome == Thrown("JsonWebTokenError") <==> r == Stop(401, "Invalid Token"))
      && (r == Stop(500, "Internal Server Error") <==>
            outcome.Thrown? && outcome.errorName != "TokenExpiredError" && outcome.errorName != "JsonWebTokenError")
      && (r == Stop(404, "User Not Found") <==>
            outcome.Decoded? && (outcome.payload.userId.None? || outcome.payload.userId.value !in users))
    ensures r.Next? <==>
      && Presented(header)
      && verify(BearerToken(header.value)).Decoded?
      && verify(BearerToken(header.value)).payload.userId.Some?
      && verify(BearerToken(header.value)).payload.userId.value in users
    ensures r.Next? ==>
      && verify(BearerToken(header.value)).payload.userId == Some(r.value.id)
      && r.value.id in users
      && var u := users[r.value.id];
      r.value.name == u.name && r.value.email == u.email && r.value.role == u.role
  {
    if header.None? || !(BearerPrefix <= header.value) then Stop(401, "Token Missing or Invalid")
    else
      match verify(BearerToken(header.value))
      case Thrown(name) =>
        if name == "TokenExpiredError" then Stop(401, "Token Expired")
        else if name == "JsonWebTokenError" then Stop(401, "Invalid Token")
        else Stop(500, "Internal Server Error")
      case Decoded(payload) =>
        if payload.userId.None? || payload.userId.value !in users then Stop(404, "User Not Found")
        else Next(Project(payload.userId.value, users[payload.userId.value]))
  }

  /** The admin middleware: an authenticated caller with the admin role passes. */
  function AdminMiddleware(user: Option<Caller>): (r: Gate<Caller>)
    ensures user.None? ==> r == Stop(401, "User Not Authenticated")
    ensures user.Some? && user.value.role != Admin ==> r == Stop(403, "Access Denied: Admins Only")
    ensures r.Next? <==> user.Some? && user.value.role == Admin
    ensures r.Next? ==> r.value == user.value
  {
    if user.None? then Stop(401, "User Not Authenticated")
    else if user.value.role != Admin then Stop(403, "Access Denied: Admins Only")
    else Next(user.value)
  }

  /** The booking controller's own admin check, which no route uses; on an authenticated
      caller it decides exactly as the admin middleware does. */
  function AuthorizeAdmin(user: Caller): (r: Gate<Caller>)
    ensures r == AdminMiddleware(Some(user))
  {
    if user.role != Admin then Stop(403, "Access Denied: Admins Only")
    else Next(user)
  }

  /** A well-formed bearer header whose token verifies to a stored user's id lets that
      user through, and nothing else about the header matters. */
  lemma AuthenticatesStoredUser(token: string, verify: string -> Verified, users: map<Id, UserRecord>, id: Id)
    requires ' ' !in token
    requires verify(token) == Decoded(Payload(Some(id)))
    requires id in users
    ensures AuthMiddleware(Some(BearerPrefix + token), verify, users) == Next(Project(id, users[id]))
  {
    BearerTokenOf(token);
  }
}
