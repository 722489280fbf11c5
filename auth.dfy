/** The authentication service: the response of a sign-in, registration of
    a new patient, and the username and email probes.

    The authentication manager that checks a password, the token generator
    and the password encoder are outside the model: the authenticated
    principal, the token and the encoded password are parameters.
 */
module AuthService {
  import opened Wrappers
  import opened Text
  import opened Dates
  import opened Tables
  import opened ClinicDb
  import opened UserDetailsService

  const ROLE_PREFIX: string := "ROLE_"

  /** An authority's role name: the authority without a leading "ROLE_". */
  function StripRolePrefix(authority: string): (r: string)
    ensures StartsWith(authority, ROLE_PREFIX) ==> authority == ROLE_PREFIX + r
    ensures !StartsWith(authority, ROLE_PREFIX) ==> r == authority
  {
    if StartsWith(authority, ROLE_PREFIX) then authority[5..] else authority
  }

  /** Stripping undoes adding the prefix. */
  lemma StripAddedPrefix(role: string)
    ensures StripRolePrefix(ROLE_PREFIX + role) == role
  {
    assert (ROLE_PREFIX + role)[..5] == ROLE_PREFIX;
  }

  /** A printed number, such as a role id, has no prefix to strip. */
  lemma NumbersKeptAsIs(id: int)
    ensures StripRolePrefix(IntToString(id)) == IntToString(id)
  {
    var s := IntToString(id);
    assert s[0] != 'R';
    assert |s| < 5 || s[..5][0] != ROLE_PREFIX[0];
  }

  /** The role list of a sign-in: each authority, in order, stripped of its
      prefix. */
  method CollectRoles(authorities: seq<string>) returns (roles: seq<string>)
    ensures |roles| == |authorities|
    ensures forall i :: 0 <= i < |roles| ==> roles[i] == StripRolePrefix(authorities[i])
  {
    roles := [];
    var i := 0;
    while i < |authorities|
      invariant 0 <= i <= |authorities| && |roles| == i
      invariant forall j :: 0 <= j < i ==> roles[j] == StripRolePrefix(authorities[j])
    {
      roles := roles + [StripRolePrefix(authorities[i])];
      i := i + 1;
    }
  }

  /** The sign-in response. */
  datatype AuthResponse = AuthResponse(
    id: int, username: string, email: Option<string>, fullName: Option<string>,
    roles: seq<string>, token: string,
    phoneNumber: Option<string>, gender: Option<string>, dateOfBirth: Option<Date>,
    address: Option<string>, isActive: Option<bool>, roleId: Option<int>, roleName: Option<string>)

  /** `authenticateUser`, after the manager has authenticated `principal`
      and `jwt` was generated: the response carries the principal, its roles
      and the token, and the stored user of that name adds its profile and
      role; a stored user without a role throws. */
  method AuthenticateUser(users: Table<UserRow>, roles: Table<RoleRow>, principal: UserDetails, jwt: string)
    returns (r: Result<AuthResponse>)
    requires users.Issued() && RolesKnown(users, roles)
    ensures var found := FindByUsername(users, principal.username);
      r.Err? <==> found.Some? && users.rows[found.value].roleId.None?
    ensures r.Err? ==> r.error == NullPointerException
    ensures r.Ok? ==> (
      && r.value.id == principal.id && r.value.username == principal.username
      && r.value.email == principal.email && r.value.fullName == principal.fullName && r.value.token == jwt
      && |r.value.roles| == |principal.authorities|
      && forall i :: 0 <= i < |r.value.roles| ==> r.value.roles[i] == StripRolePrefix(principal.authorities[i]))
    ensures r.Ok? && FindByUsername(users, principal.username).None? ==> (
      && r.value.phoneNumber.None? && r.value.gender.None? && r.value.dateOfBirth.None? && r.value.address.None?
      && r.value.isActive.None? && r.value.roleId.None? && r.value.roleName.None?)
    ensures r.Ok? && FindByUsername(users, principal.username).Some? ==>
      var u := users.rows[FindByUsername(users, principal.username).value];
      && r.value.phoneNumber == u.phoneNumber && r.value.gender == u.gender && r.value.dateOfBirth == u.dateOfBirth
      && r.value.address == u.address && r.value.isActive == u.isActive && r.value.roleId == u.roleId
      && r.value.roleName == Some(roles.rows[u.roleId.value].name)
  {
    var names := CollectRoles(principal.authorities);
    var response := AuthResponse(principal.id, principal.username, principal.email, principal.fullName, names, jwt,
                                 None, None, None, None, None, None, None);
    var found := FindByUsername(users, principal.username);
    if found.Some? {
      var u := users.rows[found.value];
      if u.roleId.None? {
        return Err(NullPointerException);
      }
      response := response.(phoneNumber := u.phoneNumber, gender := u.gender, dateOfBirth := u.dateOfBirth,
                            address := u.address, isActive := u.isActive, roleId := u.roleId,
                            roleName := Some(roles.rows[u.roleId.value].name));
    }
    r := Ok(response);
  }

  /** Signing in a principal loaded by name keeps its role id as its one
      role. */
  method SignInLoaded(users: Table<UserRow>, roles: Table<RoleRow>, username: string, jwt: string)
    returns (r: Result<AuthResponse>)
    requires users.Issued() && RolesKnown(users, roles) && LoadUserByUsername(users, username).Ok?
    ensures r.Ok? && r.value.roles == LoadUserByUsername(users, username).value.authorities
    ensures r.value.roleId == users.rows[LoadUserByUsername(users, username).value.id].roleId
  {
    var principal := LoadUserByUsername(users, username).value;
    LoadedIsEnabledUser(users, username);
    NumbersKeptAsIs(users.rows[principal.id].roleId.value);
    r := AuthenticateUser(users, roles, principal, jwt);
  }

  /** `RegisterRequest`; the username, password and full name are required
      by its validation. */
  datatype RegisterRequest = RegisterRequest(
    username: string, password: string, fullName: string, email: Option<string>,
    phoneNumber: Option<string>, gender: Option<string>, address: Option<string>, dateOfBirth: Option<Date>)

  /** The role of every registered user: the patient role. */
  const PATIENT_ROLE: int := 1

  predicate EmailStored(users: Table<UserRow>, email: string) {
    exists k :: k in users.rows && users.rows[k].email == Some(email)
  }

  /** `checkUsernameExists`. */
  function CheckUsernameExists(users: Table<UserRow>, username: string): (r: bool)
    ensures r <==> exists k :: k in users.rows && users.rows[k].username == username
  {
    exists k :: k in users.rows && users.rows[k].username == username
  }

  /** `checkEmailExists`: a null or empty email is never reported, without
      a lookup. */
  function CheckEmailExists(users: Table<UserRow>, email: Option<string>): (r: bool)
    ensures r <==> email.Some? && email.value != "" && EmailStored(users, email.value)
  {
    if email.None? || email.value == "" then false else EmailStored(users, email.value)
  }

  /** The checks of `registerUser`, in order: a free username, an email not
      in use (checked only when given and not empty), the patient role, and
      at the save the unique email column, which also rejects a second
      empty email. */
  function RegisterError(users: Table<UserRow>, roles: Table<RoleRow>, req: RegisterRequest): (e: Option<Exception>)
    ensures CheckUsernameExists(users, req.username) ==> e == Some(RuntimeException)
    ensures !CheckUsernameExists(users, req.username) && CheckEmailExists(users, req.email) ==> e == Some(RuntimeException)
    ensures e.None? <==> (!CheckUsernameExists(users, req.username) && PATIENT_ROLE in roles.rows
      && (req.email.Some? ==> !EmailStored(users, req.email.value)))
  {
    if CheckUsernameExists(users, req.username) then Some(RuntimeException)
    else if CheckEmailExists(users, req.email) then Some(RuntimeException)
    else if PATIENT_ROLE !in roles.rows then Some(RuntimeException)
    else if req.email.Some? && EmailStored(users, req.email.value) then Some(DataIntegrityViolationException)
    else None
  }

  /** The user `registerUser` saves: the request's fields, the encoded
      password, the patient role, and active. */
  function Registered(req: RegisterRequest, hash: string): (u: UserRow)
    ensures u.username == req.username && u.password == hash && u.fullName == Some(req.fullName)
    ensures u.email == req.email && u.phoneNumber == req.phoneNumber && u.gender == req.gender
    ensures u.address == req.address && u.dateOfBirth == req.dateOfBirth
    ensures u.isActive == Some(true) && u.roleId == Some(PATIENT_ROLE)
  {
    UserRow(req.username, hash, Some(req.fullName), req.email, req.phoneNumber, req.gender, req.address,
            req.dateOfBirth, Some(true), Some(PATIENT_ROLE))
  }

  /** `registerUser` up to the save; `hash` is the encoded password. The
      sign-in that follows is `AuthenticateUser`. */
  method RegisterUser(db: Database, req: RegisterRequest, hash: string) returns (r: Result<int>)
    requires db.users.Issued() && UsernamesUnique(db.users)
    modifies db`users
    ensures db.users.Issued() && UsernamesUnique(db.users)
    ensures r.Err? <==> old(RegisterError(db.users, db.roles, req)).Some?
    ensures r.Err? ==> r.error == old(RegisterError(db.users, db.roles, req)).value && db.users == old(db.users)
    ensures r.Ok? ==> r.value == old(db.users.next) && db.users == old(db.users).Insert(Registered(req, hash))
  {
    var e := RegisterError(db.users, db.roles, req);
    if e.Some? {
      return Err(e.value);
    }
    r := Ok(db.users.next);
    db.users := db.users.Insert(Registered(req, hash));
  }

  /** A registered user loads by its name as an enabled patient whose one
      authority is the patient role. */
  lemma RegisteredUserLoads(users: Table<UserRow>, roles: Table<RoleRow>, req: RegisterRequest, hash: string)
    requires users.Issued() && UsernamesUnique(users) && RegisterError(users, roles, req).None?
    ensures LoadUserByUsername(users.Insert(Registered(req, hash)), req.username)
      == Ok(UserDetails(users.next, req.username, req.email, Some(req.fullName), hash, [IntToString(PATIENT_ROLE)]))
  {
    var t := users.Insert(Registered(req, hash));
    assert t.rows[users.next].username == req.username;
  }

  /** After a registration the username is taken, and so is a given
      non-empty email. */
  lemma RegisteredIsTaken(users: Table<UserRow>, req: RegisterRequest, hash: string)
    requires users.Issued()
    ensures CheckUsernameExists(users.Insert(Registered(req, hash)), req.username)
    ensures req.email.Some? && req.email.value != "" ==> CheckEmailExists(users.Insert(Registered(req, hash)), req.email)
  {
    var t := users.Insert(Registered(req, hash));
    assert t.rows[users.next].username == req.username;
    assert t.rows[users.next].email == req.email;
  }
}
