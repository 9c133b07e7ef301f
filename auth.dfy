/** Login, signup and logout. Users are identified by email alone; there is
    no password. The access token is kept abstract as the claims it is
    signed over, since signing and expiry belong to the token library. */
module Auth {
  import opened Wrappers
  import opened Text
  import opened Enums
  import opened Models
  import opened Schemas
  import opened Query
  import opened Store
  import opened Dependencies

  const NotFound: nat := 404
  const BadRequest: nat := 400
  const UserNotFoundSignUp: string := "User not found. Please sign up."
  const RoleMismatch: string := "Role mismatch. Please use the correct role for your account."
  const EmailTaken: string := "User with this email already exists. Please log in instead."
  const CompanyNameRequired: string := "company_name is required for CUSTOMER role signup"

  /** The claims a token carries: the user id as text, the email and the
      role's string value. */
  datatype AccessToken = AccessToken(sub: string, email: string, role: string)
  datatype UserResponse = UserResponse(id: nat, uuid: string, email: string, role: string, created_at: int)
  datatype LoginResponse = LoginResponse(access_token: AccessToken, token_type: string, user: UserResponse)
  datatype LogoutResponse = LogoutResponse(message: string)

  /** The token and body both login and signup answer with for `u`: a
      bearer token whose subject reads back as the user's id and whose role
      claim parses back as its role, with a body describing the same user. */
  function Issue(u: User): (r: LoginResponse)
    ensures r.token_type == "bearer"
    ensures r.access_token.sub != [] && forall i :: 0 <= i < |r.access_token.sub| ==> IsDigit(r.access_token.sub[i])
    ensures DigitsValue(r.access_token.sub) == u.id
    ensures ParseUserRole(r.access_token.role) == Some(u.role)
    ensures r.access_token.email == u.email && r.user.email == u.email && r.user.role == r.access_token.role
    ensures r.user.id == u.id && r.user.uuid == u.uuid && r.user.created_at == u.created_at
  {
    NatToStringRoundTrip(u.id);
    UserRoleRoundTrip(u.role);
    LoginResponse(AccessToken(NatToString(u.id), u.email, UserRoleValue(u.role)), "bearer",
                  UserResponse(u.id, u.uuid, u.email, UserRoleValue(u.role), u.created_at))
  }

  /** The claims of an issued token, as the token check hands them back. */
  function ClaimsOf(t: AccessToken): Payload {
    Payload(Some(t.sub), Some(t.email), Some(t.role))
  }

  predicate HasEmail(users: seq<User>, email: string) {
    exists u :: u in users && u.email == email
  }

  /** `login`: 404 for an unknown email; 400 when a role is given and is not
      the user's; otherwise a bearer token for the user with that email. */
  function Login(users: seq<User>, req: LoginRequest): (r: Result<LoginResponse>)
    ensures !HasEmail(users, req.email) <==> r == Err(NotFound, UserNotFoundSignUp)
    ensures r.Ok? ==> exists u :: u in users && u.email == req.email &&
                                  (req.role.None? || req.role.value == u.role) && r.value == Issue(u)
    ensures r.Err? && HasEmail(users, req.email) ==> req.role.Some? && r == Err(BadRequest, RoleMismatch)
  {
    match First(users, (u: User) => u.email == req.email)
    case None => Err(NotFound, UserNotFoundSignUp)
    case Some(u) =>
      if req.role.Some? && u.role != req.role.value then Err(BadRequest, RoleMismatch)
      else Ok(Issue(u))
  }

  /** With unique emails the outcome depends only on the role: login for an
      existing user succeeds exactly when no role or the user's role is given,
      and then issues that user's token. */
  lemma LoginSucceedsIff(users: seq<User>, u: User, req: LoginRequest)
    requires forall i, j :: 0 <= i < j < |users| ==> users[i].email != users[j].email
    requires u in users && u.email == req.email
    ensures Login(users, req).Ok? <==> (req.role.None? || req.role == Some(u.role))
    ensures Login(users, req).Ok? ==> Login(users, req).value == Issue(u)
  {
    var p := (v: User) => v.email == req.email;
    var v := First(users, p).value;
    var i :| 0 <= i < |users| && users[i] == u;
    var k :| 0 <= k < |users| && users[k] == v;
    assert i == k;
  }

  /** The token a login issues authenticates, through the guard every
      protected route runs, the very user who logged in. */
  lemma LoginTokenAuthenticates(users: seq<User>, req: LoginRequest)
    requires forall i, j :: 0 <= i < j < |users| ==> users[i].id != users[j].id
    requires Login(users, req).Ok?
    ensures GetCurrentUser(users, Some(ClaimsOf(Login(users, req).value.access_token))).Ok?
    ensures GetCurrentUser(users, Some(ClaimsOf(Login(users, req).value.access_token))).value.email == req.email
  {
    var resp := Login(users, req).value;
    var u :| u in users && u.email == req.email && resp == Issue(u);
    assert Issue(u).access_token == AccessToken(NatToString(u.id), u.email, UserRoleValue(u.role));
    assert resp.access_token == Issue(u).access_token;
    GetCurrentUserIsSubject(users, u, Some(u.email), Some(UserRoleValue(u.role)));
  }

  /** `logout`: behind the authentication guard; otherwise only a message. */
  function Logout(users: seq<User>, payload: Option<Payload>): (r: Result<LogoutResponse>)
    ensures r.Ok? <==> GetCurrentUser(users, payload).Ok?
    ensures r.Ok? ==> r.value.message == "Successfully logged out"
    ensures r.Err? ==> r == Err(GetCurrentUser(users, payload).status, GetCurrentUser(users, payload).detail)
  {
    match GetCurrentUser(users, payload)
    case Err(s, d) => Err(s, d)
    case Ok(_) => Ok(LogoutResponse("Successfully logged out"))
  }

  /** Appending a user with the next id, a fresh uuid and an unused email
      keeps the users table valid. */
  lemma AppendUserValid(users: seq<User>, nextId: nat, u: User)
    requires UsersValid(users, nextId)
    requires u.id == nextId && !HasEmail(users, u.email)
    requires forall v :: v in users ==> v.uuid != u.uuid
    ensures UsersValid(users + [u], nextId + 1)
  {
    var s := users + [u];
    forall i, j | 0 <= i < j < |s|
      ensures s[i].id != s[j].id && s[i].uuid != s[j].uuid && s[i].email != s[j].email
    {
      if j == |users| {
        assert s[i] in users;
      }
    }
  }

  /** Appending a customer profile with the next id, a fresh uuid and an
      unused company name keeps the customer_profiles table valid. */
  lemma AppendCustomerProfileValid(profiles: seq<CustomerProfile>, nextId: nat, p: CustomerProfile)
    requires CustomerProfilesValid(profiles, nextId)
    requires p.id == nextId
    requires forall q :: q in profiles ==> q.uuid != p.uuid && q.company_name != p.company_name
    ensures CustomerProfilesValid(profiles + [p], nextId + 1)
  {
    var s := profiles + [p];
    forall i, j | 0 <= i < j < |s|
      ensures s[i].id != s[j].id && s[i].uuid != s[j].uuid && s[i].company_name != s[j].company_name
    {
      if j == |profiles| {
        assert s[i] in profiles;
      }
    }
  }

  /** A user appended with an email nobody had logs in, with its own role,
      to the response issued for it. */
  lemma AppendedUserLogsIn(users: seq<User>, u: User)
    requires forall i, j :: 0 <= i < j < |users| ==> users[i].email != users[j].email
    requires !HasEmail(users, u.email)
    ensures Login(users + [u], LoginRequest(u.email, Some(u.role))) == Ok(Issue(u))
  {
    var s := users + [u];
    forall i, j | 0 <= i < j < |s| ensures s[i].email != s[j].email {
      if j == |users| {
        assert s[i] in users;
      }
    }
    assert u == s[|users|];
    LoginSucceedsIff(s, u, LoginRequest(u.email, Some(u.role)));
  }

  /** The customer profile a signing-up customer joins: the one with that
      company name, else a new one with only the name set, appended with the
      next id. Other profiles and every other table stay as they were. */
  method JoinOrCreateCustomerProfile(db: Database, name: string, profileUuid: string, now: int)
    returns (id: nat)
    requires CustomerProfilesValid(db.customerProfiles, db.nextCustomerProfileId)
    requires forall p :: p in db.customerProfiles ==> p.uuid != profileUuid
    modifies db`customerProfiles, db`nextCustomerProfileId
    ensures CustomerProfilesValid(db.customerProfiles, db.nextCustomerProfileId)
    ensures exists p :: p in db.customerProfiles && p.id == id && p.company_name == name
    ensures if exists p :: p in old(db.customerProfiles) && p.company_name == name
            then db.customerProfiles == old(db.customerProfiles) &&
                 db.nextCustomerProfileId == old(db.nextCustomerProfileId)
            else db.customerProfiles == old(db.customerProfiles) +
                   [CustomerProfile(old(db.nextCustomerProfileId), profileUuid, name, None, None, None, now)] &&
                 db.nextCustomerProfileId == old(db.nextCustomerProfileId) + 1
  {
    var found := First(db.customerProfiles, (p: CustomerProfile) => p.company_name == name);
    if found.None? {
      var profile := CustomerProfile(db.nextCustomerProfileId, profileUuid, name, None, None, None, now);
      AppendCustomerProfileValid(db.customerProfiles, db.nextCustomerProfileId, profile);
      db.customerProfiles := db.customerProfiles + [profile];
      db.nextCustomerProfileId := db.nextCustomerProfileId + 1;
      assert profile in db.customerProfiles;
      id := profile.id;
    } else {
      id := found.value.id;
    }
  }

  /** Inserts the signing-up user with the next id. The new user can log in
      with its own role at once, and is answered as that login would be. */
  method AddUser(db: Database, email: string, role: UserRole, profileId: Option<nat>, userUuid: string, now: int)
    returns (user: User)
    requires UsersValid(db.users, db.nextUserId)
    requires !HasEmail(db.users, email)
    requires forall u :: u in db.users ==> u.uuid != userUuid
    modifies db`users, db`nextUserId
    ensures user == User(old(db.nextUserId), userUuid, email, role, profileId, now)
    ensures db.users == old(db.users) + [user] && db.nextUserId == old(db.nextUserId) + 1
    ensures UsersValid(db.users, db.nextUserId)
    ensures Login(db.users, LoginRequest(email, Some(role))) == Ok(Issue(user))
  {
    user := User(db.nextUserId, userUuid, email, role, profileId, now);
    AppendUserValid(db.users, db.nextUserId, user);
    AppendedUserLogsIn(db.users, user);
    db.users := db.users + [user];
    db.nextUserId := db.nextUserId + 1;
  }

  /** The write half of `signup`, once both checks have passed: the customer
      profile is joined or created and the user inserted. The answer is the
      one a later login with the same email and role gives. */
  method Register(db: Database, req: SignupRequest, userUuid: string, profileUuid: string, now: int)
    returns (resp: LoginResponse)
    requires UsersValid(db.users, db.nextUserId)
    requires CustomerProfilesValid(db.customerProfiles, db.nextCustomerProfileId)
    requires !HasEmail(db.users, req.email)
    requires req.role == CUSTOMER ==> req.company_name.Some? && req.company_name.value != ""
    requires forall u :: u in db.users ==> u.uuid != userUuid
    requires forall p :: p in db.customerProfiles ==> p.uuid != profileUuid
    modifies db`users, db`nextUserId, db`customerProfiles, db`nextCustomerProfileId
    ensures UsersValid(db.users, db.nextUserId)
    ensures CustomerProfilesValid(db.customerProfiles, db.nextCustomerProfileId)
    ensures |db.users| == |old(db.users)| + 1 && db.users[..|old(db.users)|] == old(db.users)
    ensures var u := db.users[|old(db.users)|];
            u.id == old(db.nextUserId) && u.uuid == userUuid && u.email == req.email &&
            u.role == req.role && u.created_at == now && db.nextUserId == old(db.nextUserId) + 1 &&
            (req.role == PRINTER <==> u.customer_profile_id.None?)
    ensures Login(db.users, LoginRequest(req.email, Some(req.role))) == Ok(resp)
    ensures req.role == PRINTER ==>
              db.customerProfiles == old(db.customerProfiles) &&
              db.nextCustomerProfileId == old(db.nextCustomerProfileId)
    ensures req.role == CUSTOMER ==>
              var u := db.users[|old(db.users)|];
              u.customer_profile_id.Some? &&
              exists p :: p in db.customerProfiles && p.id == u.customer_profile_id.value &&
                          p.company_name == req.company_name.value
    ensures req.role == CUSTOMER ==>
              if exists p :: p in old(db.customerProfiles) && p.company_name == req.company_name.value
              then db.customerProfiles == old(db.customerProfiles) &&
                   db.nextCustomerProfileId == old(db.nextCustomerProfileId)
              else db.customerProfiles == old(db.customerProfiles) +
                     [CustomerProfile(old(db.nextCustomerProfileId), profileUuid, req.company_name.value,
                                      None, None, None, now)] &&
                   db.nextCustomerProfileId == old(db.nextCustomerProfileId) + 1
  {
    var profileId: Option<nat> := None;
    if req.role == CUSTOMER {
      var id := JoinOrCreateCustomerProfile(db, req.company_name.value, profileUuid, now);
      profileId := Some(id);
    }
    var user := AddUser(db, req.email, req.role, profileId, userUuid, now);
    assert db.users[..|old(db.users)|] == old(db.users) && db.users[|old(db.users)|] == user;
    resp := Issue(user);
  }

  /** `signup`. An email already in use gives 400; a customer without a
      company name (absent or empty) gives 400; both leave the database as it
      was. Otherwise the user is appended with the next id, a printer with no
      profile and the profiles untouched, a customer linked to the profile of
      that company name, joined or newly appended; the answer is what logging
      in as that user returns. */
  method Signup(db: Database, req: SignupRequest, userUuid: string, profileUuid: string, now: int)
    returns (r: Result<LoginResponse>)
    requires db.Valid()
    requires forall u :: u in db.users ==> u.uuid != userUuid
    requires forall p :: p in db.customerProfiles ==> p.uuid != profileUuid
    modifies db`users, db`nextUserId, db`customerProfiles, db`nextCustomerProfileId
    ensures db.Valid()
    ensures HasEmail(old(db.users), req.email) ==>
              r == Err(BadRequest, EmailTaken) && unchanged(db)
    ensures !HasEmail(old(db.users), req.email) && req.role == CUSTOMER &&
            (req.company_name.None? || req.company_name.value == "") ==>
              r == Err(BadRequest, CompanyNameRequired) && unchanged(db)
    ensures r.Ok? <==> !HasEmail(old(db.users), req.email) &&
                       (req.role == PRINTER || (req.company_name.Some? && req.company_name.value != ""))
    ensures r.Ok? ==> r == Login(db.users, LoginRequest(req.email, Some(req.role)))
    ensures r.Ok? ==> |db.users| == |old(db.users)| + 1 && db.users[..|old(db.users)|] == old(db.users)
    ensures r.Ok? ==>
              var u := db.users[|old(db.users)|];
              u.id == old(db.nextUserId) && u.uuid == userUuid && u.email == req.email &&
              u.role == req.role && u.created_at == now && db.nextUserId == old(db.nextUserId) + 1 &&
              (req.role == PRINTER <==> u.customer_profile_id.None?)
    ensures r.Ok? && req.role == PRINTER ==>
              db.customerProfiles == old(db.customerProfiles) &&
              db.nextCustomerProfileId == old(db.nextCustomerProfileId)
    ensures r.Ok? && req.role == CUSTOMER ==>
              var u := db.users[|old(db.users)|];
              u.customer_profile_id.Some? &&
              exists p :: p in db.customerProfiles && p.id == u.customer_profile_id.value &&
                          p.company_name == req.company_name.value
    ensures r.Ok? && req.role == CUSTOMER ==>
              if exists p :: p in old(db.customerProfiles) && p.company_name == req.company_name.value
              then db.customerProfiles == old(db.customerProfiles) &&
                   db.nextCustomerProfileId == old(db.nextCustomerProfileId)
              else db.customerProfiles == old(db.customerProfiles) +
                     [CustomerProfile(old(db.nextCustomerProfileId), profileUuid, req.company_name.value,
                                      None, None, None, now)] &&
                   db.nextCustomerProfileId == old(db.nextCustomerProfileId) + 1
  {
    var existing := First(db.users, (u: User) => u.email == req.email);
    if existing.Some? {
      return Err(BadRequest, EmailTaken);
    }
    if req.role == CUSTOMER && (req.company_name.None? || req.company_name.value == "") {
      return Err(BadRequest, CompanyNameRequired);
    }
    var resp := Register(db, req, userUuid, profileUuid, now);
    r := Ok(resp);
  }
}
