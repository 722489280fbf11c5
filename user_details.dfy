/** Loading the security principal of a user by name: the user must exist
    and must not be disabled, and its one authority is its role id. */
module UserDetailsService {
  import opened Wrappers
  import opened Text
  import opened Tables
  import opened ClinicDb

  /** `UserDetailsImpl`: what the security layer knows of a user. */
  datatype UserDetails = UserDetails(
    id: int, username: string, email: Option<string>, fullName: Option<string>,
    password: string, authorities: seq<string>)

  function HasUsername(username: string): UserRow -> bool {
    (u: UserRow) => u.username == username
  }

  /** Usernames are unique (a unique column). */
  predicate UsernamesUnique(users: Table<UserRow>) {
    forall j, k :: j in users.rows && k in users.rows && users.rows[j].username == users.rows[k].username ==> j == k
  }

  /** `findByUsername`. */
  function FindByUsername(users: Table<UserRow>, username: string): (r: Option<int>)
    requires users.Issued()
    ensures r.None? <==> forall k :: k in users.rows ==> users.rows[k].username != username
    ensures r.Some? ==> r.value in users.rows && users.rows[r.value].username == username
    ensures r.Some? && UsernamesUnique(users) ==> forall k :: k in users.rows && users.rows[k].username == username ==> k == r.value
  {
    users.First(HasUsername(username))
  }

  /** `UserDetailsImpl.build`: reading the role id of a user without a role
      throws. */
  function Build(id: int, u: UserRow): (r: Result<UserDetails>)
    ensures r.Err? <==> u.roleId.None?
    ensures r.Err? ==> r.error == NullPointerException
    ensures r.Ok? ==> (
      && r.value.id == id && r.value.username == u.username && r.value.email == u.email
      && r.value.fullName == u.fullName && r.value.password == u.password
      && r.value.authorities == [IntToString(u.roleId.value)])
  {
    if u.roleId.None? then Err(NullPointerException)
    else Ok(UserDetails(id, u.username, u.email, u.fullName, u.password, [IntToString(u.roleId.value)]))
  }

  /** A user may sign in unless its active flag is false; a null flag counts
      as active. */
  predicate Enabled(u: UserRow) {
    u.isActive != Some(false)
  }

  /** `loadUserByUsername`. */
  function LoadUserByUsername(users: Table<UserRow>, username: string): (r: Result<UserDetails>)
    requires users.Issued()
    ensures FindByUsername(users, username).None? ==> r == Err(UsernameNotFoundException)
    ensures FindByUsername(users, username).Some? ==>
      var k := FindByUsername(users, username).value;
      r == if !Enabled(users.rows[k]) then Err(UsernameNotFoundException) else Build(k, users.rows[k])
  {
    match FindByUsername(users, username)
    case None => Err(UsernameNotFoundException)
    case Some(k) =>
      if !Enabled(users.rows[k]) then Err(UsernameNotFoundException) else Build(k, users.rows[k])
  }

  /** A loaded principal is an enabled stored user of that name, with that
      user's fields and its role id as its only authority; and every
      enabled user with a role loads. */
  lemma LoadedIsEnabledUser(users: Table<UserRow>, username: string)
    requires users.Issued()
    ensures LoadUserByUsername(users, username).Ok? ==>
      var d := LoadUserByUsername(users, username).value;
      && d.id in users.rows && d.username == username && users.rows[d.id].username == username
      && Enabled(users.rows[d.id]) && users.rows[d.id].roleId.Some?
      && d.authorities == [IntToString(users.rows[d.id].roleId.value)]
      && d.password == users.rows[d.id].password
    ensures UsernamesUnique(users) ==> forall k :: (k in users.rows && users.rows[k].username == username
      && Enabled(users.rows[k]) && users.rows[k].roleId.Some?) ==> LoadUserByUsername(users, username).Ok?
  {
  }

  /** A disabled user never loads, whatever else is stored. */
  lemma DisabledNeverLoads(users: Table<UserRow>, k: int)
    requires users.Issued() && UsernamesUnique(users) && k in users.rows && users.rows[k].isActive == Some(false)
    ensures LoadUserByUsername(users, users.rows[k].username) == Err(UsernameNotFoundException)
  {
  }

  /** The only authority of a principal is a decimal number, the role id,
      which reads back as that id. */
  lemma AuthorityIsRoleId(users: Table<UserRow>, username: string)
    requires users.Issued() && LoadUserByUsername(users, username).Ok?
    ensures var d := LoadUserByUsername(users, username).value;
      var roleId := users.rows[d.id].roleId.value;
      |d.authorities| == 1 && ParseInteger(d.authorities[0]) == Some(roleId)
  {
    var d := LoadUserByUsername(users, username).value;
    IntToStringRoundTrip(users.rows[d.id].roleId.value);
  }
}
