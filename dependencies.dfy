/** The authentication guard every protected handler runs first: the token's
    verified payload is resolved to a user, and a role check may follow. The
    token check itself (signature, expiry) is foreign; its outcome is the
    `payload` argument, None when verification failed. */
module Dependencies {
  import opened Wrappers
  import opened Text
  import opened Enums
  import opened Models
  import opened Query

  /** The claims of a token that verified. `sub` is the user id as text. */
  datatype Payload = Payload(sub: Option<string>, email: Option<string>, role: Option<string>)

  const Unauthorized: nat := 401
  const Forbidden: nat := 403
  const InvalidCredentials: string := "Invalid authentication credentials"
  const UserNotFound: string := "User not found"

  /** `get_current_user`: 401 for a failed verification, a payload without
      `sub`, or a `sub` naming no user; otherwise the user whose id it names. */
  function GetCurrentUser(users: seq<User>, payload: Option<Payload>): (r: Result<User>)
    ensures payload.None? ==> r == Err(Unauthorized, InvalidCredentials)
    ensures payload.Some? && payload.value.sub.None? ==> r == Err(Unauthorized, InvalidCredentials)
    ensures payload.Some? && payload.value.sub.Some? ==>
              ((exists u :: u in users && NatToString(u.id) == payload.value.sub.value) <==> r.Ok?)
    ensures payload.Some? && payload.value.sub.Some? && r.Err? ==> r == Err(Unauthorized, UserNotFound)
    ensures r.Ok? ==> r.value in users && payload.Some? && payload.value.sub == Some(NatToString(r.value.id))
  {
    if payload.None? then Err(Unauthorized, InvalidCredentials)
    else if payload.value.sub.None? then Err(Unauthorized, InvalidCredentials)
    else
      var sub := payload.value.sub.value;
      match First(users, (u: User) => NatToString(u.id) == sub)
      case None => Err(Unauthorized, UserNotFound)
      case Some(u) => Ok(u)
  }

  /** When ids are unique, a payload whose `sub` is the text of a user's id
      authenticates exactly that user. */
  lemma GetCurrentUserIsSubject(users: seq<User>, u: User, email: Option<string>, role: Option<string>)
    requires forall i, j :: 0 <= i < j < |users| ==> users[i].id != users[j].id
    requires u in users
    ensures GetCurrentUser(users, Some(Payload(Some(NatToString(u.id)), email, role))) == Ok(u)
  {
    var r := GetCurrentUser(users, Some(Payload(Some(NatToString(u.id)), email, role)));
    assert r.Ok?;
    var v := r.value;
    NatToStringInjective(v.id, u.id);
    var i :| 0 <= i < |users| && users[i] == u;
    var k :| 0 <= k < |users| && users[k] == v;
    assert i == k;
  }

  /** Python's rendering of the list of role values, e.g. "['CUSTOMER']". */
  function RolesRepr(roles: seq<UserRole>): string {
    "[" + QuotedValues(roles) + "]"
  }

  function QuotedValues(roles: seq<UserRole>): string {
    if roles == [] then ""
    else if |roles| == 1 then "'" + UserRoleValue(roles[0]) + "'"
    else "'" + UserRoleValue(roles[0]) + "', " + QuotedValues(roles[1..])
  }

  /** `require_role(allowed)`: authentication first, so a caller without a
      valid token sees its 401 and never a 403; an authenticated user whose
      role is not allowed gets 403; anyone else is returned unchanged. */
  function RequireRole(users: seq<User>, payload: Option<Payload>, allowed: seq<UserRole>): (r: Result<User>)
    ensures GetCurrentUser(users, payload).Err? ==> r == GetCurrentUser(users, payload)
    ensures GetCurrentUser(users, payload).Ok? ==>
              (r.Ok? <==> GetCurrentUser(users, payload).value.role in allowed)
    ensures r.Ok? ==> r == GetCurrentUser(users, payload)
    ensures GetCurrentUser(users, payload).Ok? && r.Err? ==>
              r == Err(Forbidden, "Access denied. Required roles: " + RolesRepr(allowed))
  {
    match GetCurrentUser(users, payload)
    case Err(s, d) => Err(s, d)
    case Ok(u) =>
      if u.role !in allowed then Err(Forbidden, "Access denied. Required roles: " + RolesRepr(allowed))
      else Ok(u)
  }

  /** A 403 from the guard always concerns an authenticated user; the 401
      cases never turn into 403. */
  lemma ForbiddenOnlyAfterAuthentication(users: seq<User>, payload: Option<Payload>, allowed: seq<UserRole>)
    requires RequireRole(users, payload, allowed).Err?
    ensures RequireRole(users, payload, allowed).status == Forbidden <==> GetCurrentUser(users, payload).Ok?
    ensures RequireRole(users, payload, allowed).status == Unauthorized <==> GetCurrentUser(users, payload).Err?
  {
  }
}
