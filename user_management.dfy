/** The administrators' user management service: listing and counting users
    under filters, and creating, updating and deleting users.

    A filter map comes from the request: each entry may be absent, null, or
    a number, a string or a boolean. Passwords arrive already hashed: the
    hash the password encoder returns is a parameter.
 */
module UserManagement {
  import opened Wrappers
  import opened Text
  import opened Dates
  import opened Tables
  import opened ClinicDb

  // ---- filters ----

  /** A non-null value of the filter map. */
  datatype FilterValue = IntValue(i: int) | TextValue(s: string) | BoolValue(b: bool)

  type Filters = map<string, Option<FilterValue>>

  /** `filters.get(key)`: null when absent. */
  function Lookup(filters: Filters, key: string): Option<FilterValue> {
    if key in filters then filters[key] else None
  }

  /** `toString()` of a filter value. */
  function TextOfValue(v: FilterValue): string {
    match v
    case IntValue(i) => IntToString(i)
    case TextValue(s) => s
    case BoolValue(b) => if b then "true" else "false"
  }

  datatype FilterCriteria = FilterCriteria(roleId: Option<int>, isActive: Option<bool>, search: Option<string>)

  /** `Integer.parseInt(value.toString())`. */
  function RoleIdOf(v: FilterValue): (r: Result<int>)
    ensures r.Err? <==> ParseJavaInt(TextOfValue(v)).None?
    ensures r.Err? ==> r.error == NumberFormatException
    ensures r.Ok? ==> Some(r.value) == ParseJavaInt(TextOfValue(v))
  {
    match ParseJavaInt(TextOfValue(v))
    case Some(n) => Ok(n)
    case None => Err(NumberFormatException)
  }

  /** A number within the 32-bit range is read back as itself. */
  lemma IntRoleIdRead(i: int)
    requires INT_MIN <= i <= INT_MAX
    ensures RoleIdOf(IntValue(i)) == Ok(i)
  {
    IntToStringRoundTrip(i);
  }

  /** The role id of the filters: "roleId" when it is set, else "role". */
  function RoleFilter(filters: Filters): Option<FilterValue> {
    if Lookup(filters, "roleId").Some? then Lookup(filters, "roleId") else Lookup(filters, "role")
  }

  /** `extractFilterCriteria`: the role id is parsed from the text of
      "roleId", or of "role" when "roleId" is not set; "isActive" is cast to
      a boolean and "search" turned into text, each only when set. */
  function ExtractFilterCriteria(filters: Filters): (r: Result<FilterCriteria>)
    ensures r.Err? <==>
      (RoleFilter(filters).Some? && RoleIdOf(RoleFilter(filters).value).Err?)
      || (Lookup(filters, "isActive").Some? && !Lookup(filters, "isActive").value.BoolValue?)
    ensures r.Err? ==> (r.error ==
      (if RoleFilter(filters).Some? && RoleIdOf(RoleFilter(filters).value).Err? then NumberFormatException
       else ClassCastException))
    ensures r.Ok? ==> (r.value.roleId.Some? <==> RoleFilter(filters).Some?)
    ensures r.Ok? && r.value.roleId.Some? ==> RoleIdOf(RoleFilter(filters).value) == Ok(r.value.roleId.value)
    ensures r.Ok? ==> (r.value.isActive.Some? <==> Lookup(filters, "isActive").Some?)
    ensures r.Ok? && r.value.isActive.Some? ==> Lookup(filters, "isActive") == Some(BoolValue(r.value.isActive.value))
    ensures r.Ok? ==> (r.value.search.Some? <==> Lookup(filters, "search").Some?)
    ensures r.Ok? && r.value.search.Some? ==> r.value.search.value == TextOfValue(Lookup(filters, "search").value)
  {
    var roleId: Result<Option<int>> :=
      match RoleFilter(filters)
      case None => Ok(None)
      case Some(v) => if RoleIdOf(v).Err? then Err(NumberFormatException) else Ok(Some(RoleIdOf(v).value));
    var isActive: Result<Option<bool>> :=
      match Lookup(filters, "isActive")
      case None => Ok(None)
      case Some(v) => if v.BoolValue? then Ok(Some(v.b)) else Err(ClassCastException);
    var search: Option<string> :=
      match Lookup(filters, "search")
      case None => None
      case Some(v) => Some(TextOfValue(v));
    if roleId.Err? then Err(roleId.error)
    else if isActive.Err? then Err(isActive.error)
    else Ok(FilterCriteria(roleId.value, isActive.value, search))
  }

  /** When "roleId" is set, "role" is not consulted. */
  lemma RoleIdFirst(filters: Filters, other: Option<FilterValue>)
    requires Lookup(filters, "roleId").Some?
    ensures ExtractFilterCriteria(filters["role" := other]) == ExtractFilterCriteria(filters)
  {
    assert Lookup(filters["role" := other], "roleId") == Lookup(filters, "roleId");
    assert Lookup(filters["role" := other], "isActive") == Lookup(filters, "isActive");
    assert Lookup(filters["role" := other], "search") == Lookup(filters, "search");
  }

  /** A map that sets only a search string gives just that search. */
  lemma SearchOnly(search: string)
    ensures ExtractFilterCriteria(map["search" := Some(TextValue(search))]) == Ok(FilterCriteria(None, None, Some(search)))
  {
    var f: Filters := map["search" := Some(TextValue(search))];
    assert Lookup(f, "roleId").None? && Lookup(f, "role").None? && Lookup(f, "isActive").None?;
  }

  // ---- search ----

  /** A search is applied only when it is set and not empty. */
  predicate Searching(search: Option<string>) {
    search.Some? && search.value != ""
  }

  /** `matchesSearchCriteria`: no search matches everyone; otherwise the
      search must occur in the username, or in a set full name or email. */
  predicate MatchesSearch(u: UserRow, search: Option<string>) {
    !Searching(search)
    || Contains(u.username, search.value)
    || (u.fullName.Some? && Contains(u.fullName.value, search.value))
    || (u.email.Some? && Contains(u.email.value, search.value))
  }

  /** A user always matches its own username, full name or email. */
  lemma MatchesOwnNames(u: UserRow)
    ensures MatchesSearch(u, Some(u.username))
    ensures u.fullName.Some? ==> MatchesSearch(u, Some(u.fullName.value))
    ensures u.email.Some? ==> MatchesSearch(u, Some(u.email.value))
  {
    ContainsTrivia(u.username);
    if u.fullName.Some? {
      ContainsTrivia(u.fullName.value);
    }
    if u.email.Some? {
      ContainsTrivia(u.email.value);
    }
  }

  function MatchesQuery(search: Option<string>): UserRow -> bool {
    (u: UserRow) => MatchesSearch(u, search)
  }

  predicate Ascending(s: seq<int>) {
    forall i, j :: 0 <= i < j < |s| ==> s[i] < s[j]
  }

  /** The stream filter of a list of users by a search, in list order. */
  function Matching(users: Table<UserRow>, ids: seq<int>, search: Option<string>): (r: seq<int>)
    requires forall i :: 0 <= i < |ids| ==> ids[i] in users.rows
    ensures forall k :: k in r <==> k in ids && MatchesSearch(users.rows[k], search)
    ensures forall i :: 0 <= i < |r| ==> r[i] in users.rows
    ensures |r| <= |ids|
    ensures Ascending(ids) ==> Ascending(r)
    decreases |ids|
  {
    if ids == [] then []
    else
      var front, k := ids[..|ids| - 1], ids[|ids| - 1];
      var r' := Matching(users, front, search);
      MatchingSnoc(users, ids, search, r');
      r' + (if MatchesSearch(users.rows[k], search) then [k] else [])
  }

  /** One more id keeps the filter's contract. */
  lemma MatchingSnoc(users: Table<UserRow>, ids: seq<int>, search: Option<string>, r': seq<int>)
    requires ids != [] && forall i :: 0 <= i < |ids| ==> ids[i] in users.rows
    requires forall k :: k in r' <==> k in ids[..|ids| - 1] && MatchesSearch(users.rows[k], search)
    requires forall i :: 0 <= i < |r'| ==> r'[i] in users.rows
    requires |r'| <= |ids| - 1
    requires Ascending(ids[..|ids| - 1]) ==> Ascending(r')
    ensures var r := r' + (if MatchesSearch(users.rows[ids[|ids| - 1]], search) then [ids[|ids| - 1]] else []);
      && (forall k :: k in r <==> k in ids && MatchesSearch(users.rows[k], search))
      && (forall i :: 0 <= i < |r| ==> r[i] in users.rows)
      && |r| <= |ids|
      && (Ascending(ids) ==> Ascending(r))
  {
    var front, k := ids[..|ids| - 1], ids[|ids| - 1];
    assert ids == front + [k];
    if Ascending(ids) {
      AscendingFront(ids);
      forall i | 0 <= i < |r'| ensures r'[i] < k {
        assert r'[i] in r';
        assert r'[i] in front;
      }
    }
  }

  /** The front of a non-empty ascending list holds all its elements but
      the last, which is the largest. */
  lemma AscendingFront(s: seq<int>)
    requires Ascending(s) && s != []
    ensures forall k :: k in s ==> k <= s[|s| - 1]
    ensures forall k :: k in s[..|s| - 1] <==> k in s && k != s[|s| - 1]
    ensures Ascending(s[..|s| - 1])
  {
    assert s == s[..|s| - 1] + [s[|s| - 1]];
  }

  /** Ascending lists with the same elements have the same length. */
  lemma AscendingSameLength(a: seq<int>, b: seq<int>)
    requires Ascending(a) && Ascending(b) && forall k :: k in a <==> k in b
    ensures |a| == |b|
  {
    AscendingCard(a);
    AscendingCard(b);
    assert (set k | k in a) == (set k | k in b);
  }

  /** Two ascending lists with the same elements are the same list. */
  lemma {:induction false} AscendingUnique(a: seq<int>, b: seq<int>)
    requires Ascending(a) && Ascending(b) && forall k :: k in a <==> k in b
    ensures a == b
    decreases |a|
  {
    AscendingSameLength(a, b);
    if a != [] {
      AscendingFront(a);
      AscendingFront(b);
      var x, y := a[|a| - 1], b[|b| - 1];
      assert x in a && y in b;
      assert x == y;
      var a', b' := a[..|a| - 1], b[..|b| - 1];
      forall k ensures k in a' <==> k in b' {
        assert k in a' <==> k in a && k != x;
        assert k in b' <==> k in b && k != y;
      }
      AscendingUnique(a', b');
      assert a == a' + [x] && b == b' + [y];
    }
  }

  /** Filtering the whole table by a search is the `Where` query of it. */
  lemma MatchingAll(users: Table<UserRow>, search: Option<string>)
    requires users.Issued()
    ensures Matching(users, users.Where(Everything()), search) == users.Where(MatchesQuery(search))
  {
    var all := users.Where(Everything());
    forall k ensures k in Matching(users, all, search) <==> k in users.Where(MatchesQuery(search)) {
      if k in users.rows {
        assert Everything<UserRow>()(users.rows[k]);
      }
    }
    AscendingUnique(Matching(users, all, search), users.Where(MatchesQuery(search)));
  }

  // ---- listing and counting ----

  function Everything<T>(): T -> bool {
    (_: T) => true
  }

  /** The repository query the criteria select: by role and active flag
      when both are set, by either one alone, or all users. A user without
      a role matches no role. */
  function QueryFor(c: FilterCriteria): UserRow -> bool {
    (u: UserRow) => (c.roleId.Some? ==> u.roleId == c.roleId) && (c.isActive.Some? ==> u.isActive == c.isActive)
  }

  /** The user ids `getAllUsers` lists: the requested page of the query,
      then, with a search, the users of that page that match it. */
  function UserIds(users: Table<UserRow>, filters: Filters, page: int, size: int): (r: Result<seq<int>>)
    requires users.Issued()
    ensures filters != map[] && ExtractFilterCriteria(filters).Err? ==> r == Err(ExtractFilterCriteria(filters).error)
    ensures (filters == map[] || ExtractFilterCriteria(filters).Ok?) ==> (r.Err? <==> page < 0 || size < 1)
    ensures r.Err? && (filters == map[] || ExtractFilterCriteria(filters).Ok?) ==> r.error == IllegalArgumentException
    ensures r.Ok? ==> |r.value| <= size && Ascending(r.value) && forall k :: k in r.value ==> k in users.rows
    ensures r.Ok? && filters != map[] ==> forall k :: k in r.value ==>
      QueryFor(ExtractFilterCriteria(filters).value)(users.rows[k])
      && MatchesSearch(users.rows[k], ExtractFilterCriteria(filters).value.search)
  {
    if filters == map[] then PageOf(users.Where(Everything()), page, size)
    else
      match ExtractFilterCriteria(filters)
      case Err(e) => Err(e)
      case Ok(c) =>
        match PageOf(users.Where(QueryFor(c)), page, size)
        case Err(e) => Err(e)
        case Ok(fetched) =>
          PageAscending(users.Where(QueryFor(c)), page, size);
          if Searching(c.search) then Ok(Matching(users, fetched, c.search)) else Ok(fetched)
  }

  /** A page of an ascending list is ascending. */
  lemma PageAscending(xs: seq<int>, page: int, size: int)
    requires Ascending(xs) && PageOf(xs, page, size).Ok?
    ensures Ascending(PageOf(xs, page, size).value)
  {
  }

  /** With a search, the listed users are exactly the users of the fetched
      page that match it, in the page's order. */
  lemma SearchFiltersPage(users: Table<UserRow>, filters: Filters, page: int, size: int)
    requires users.Issued() && filters != map[] && ExtractFilterCriteria(filters).Ok?
    requires Searching(ExtractFilterCriteria(filters).value.search) && page >= 0 && size >= 1
    ensures var c := ExtractFilterCriteria(filters).value;
      var fetched := PageOf(users.Where(QueryFor(c)), page, size).value;
      UserIds(users, filters, page, size) == Ok(Matching(users, fetched, c.search))
  {
  }

  /** `countUsers`, as written: the count of the query, except that with a
      search every user of the table that matches is counted, whatever the
      role and active filters. */
  function CountUsers(users: Table<UserRow>, filters: Filters): (r: Result<nat>)
    requires users.Issued()
    ensures filters == map[] ==> r == Ok(|users.Where(Everything())|)
    ensures filters != map[] ==> (r.Err? <==> ExtractFilterCriteria(filters).Err?)
    ensures r.Err? ==> r.error == ExtractFilterCriteria(filters).error
    ensures filters != map[] && ExtractFilterCriteria(filters).Ok? && !Searching(ExtractFilterCriteria(filters).value.search) ==>
      r == Ok(|users.Where(QueryFor(ExtractFilterCriteria(filters).value))|)
  {
    if filters == map[] then Ok(users.Count(Everything()))
    else
      match ExtractFilterCriteria(filters)
      case Err(e) => Err(e)
      case Ok(c) =>
        if Searching(c.search) then Ok(|Matching(users, users.Where(Everything()), c.search)|)
        else Ok(users.Count(QueryFor(c)))
  }

  /** With a search, the count is the number of users matching it, and the
      role and active filters play no part. */
  lemma CountWithSearch(users: Table<UserRow>, filters: Filters)
    requires users.Issued() && filters != map[] && ExtractFilterCriteria(filters).Ok?
    requires Searching(ExtractFilterCriteria(filters).value.search)
    ensures CountUsers(users, filters) == Ok(users.Count(MatchesQuery(ExtractFilterCriteria(filters).value.search)))
  {
    MatchingAll(users, ExtractFilterCriteria(filters).value.search);
  }

  /** The count the listing's paging evidently needs: the users the list
      would show on one page large enough for all of them. */
  function CountUsersConsistent(users: Table<UserRow>, filters: Filters): (r: Result<nat>)
    requires users.Issued()
    ensures filters != map[] ==> (r.Err? <==> ExtractFilterCriteria(filters).Err?)
  {
    if filters == map[] then Ok(users.Count(Everything()))
    else
      match ExtractFilterCriteria(filters)
      case Err(e) => Err(e)
      case Ok(c) =>
        if Searching(c.search) then Ok(|Matching(users, users.Where(QueryFor(c)), c.search)|)
        else Ok(users.Count(QueryFor(c)))
  }

  /** The corrected count is the length of a first page that holds every
      user of the query. */
  lemma ConsistentCountIsListLength(users: Table<UserRow>, filters: Filters, size: int)
    requires users.Issued() && filters != map[] && ExtractFilterCriteria(filters).Ok?
    requires size >= 1 && size >= |users.Where(QueryFor(ExtractFilterCriteria(filters).value))|
    ensures UserIds(users, filters, 0, size).Ok? && CountUsersConsistent(users, filters).Ok?
    ensures |UserIds(users, filters, 0, size).value| == CountUsersConsistent(users, filters).value
  {
    var c := ExtractFilterCriteria(filters).value;
    assert PageOf(users.Where(QueryFor(c)), 0, size) == Ok(users.Where(QueryFor(c)));
  }

  /** A user outside the role and active filter is on no page of the
      list. */
  lemma NeverListed(users: Table<UserRow>, filters: Filters, k: int, page: int, size: int)
    requires users.Issued() && filters != map[] && ExtractFilterCriteria(filters).Ok?
    requires k in users.rows && !QueryFor(ExtractFilterCriteria(filters).value)(users.rows[k])
    ensures UserIds(users, filters, page, size).Ok? ==> k !in UserIds(users, filters, page, size).value
  {
  }

  /** An ascending list holding every element of another, and one more, is
      longer. */
  lemma AscendingLonger(all: seq<int>, some: seq<int>, k: int)
    requires Ascending(all) && Ascending(some)
    requires forall x :: x in some ==> x in all
    requires k in all && k !in some
    ensures |some| < |all|
  {
    var inAll := set x | x in all;
    var inSome := set x | x in some;
    AscendingCard(all);
    AscendingCard(some);
    assert k in inAll - inSome;
    assert inAll == inSome + (inAll - inSome);
  }

  /** The users of the table matching a search include those of a query
      matching it, and also one that matches the search alone. */
  lemma MatchingCard(users: Table<UserRow>, q: UserRow -> bool, search: Option<string>, k: int)
    requires users.Issued()
    requires k in users.rows && MatchesSearch(users.rows[k], search) && !q(users.rows[k])
    ensures |Matching(users, users.Where(q), search)| < |Matching(users, users.Where(Everything()), search)|
  {
    var wq, we := users.Where(q), users.Where(Everything());
    forall x | x in wq ensures x in we {
      assert Everything<UserRow>()(users.rows[x]);
    }
    assert Everything<UserRow>()(users.rows[k]);
    assert k in we && k !in wq;
    MatchingLonger(users, wq, we, search, k);
  }

  /** Filtering two ascending lists, the second holding every element of the
      first and one more that matches, leaves the second longer. */
  lemma MatchingLonger(users: Table<UserRow>, some: seq<int>, all: seq<int>, search: Option<string>, k: int)
    requires forall i :: 0 <= i < |some| ==> some[i] in users.rows
    requires forall i :: 0 <= i < |all| ==> all[i] in users.rows
    requires Ascending(some) && Ascending(all) && forall x :: x in some ==> x in all
    requires k in all && k !in some && k in users.rows && MatchesSearch(users.rows[k], search)
    ensures |Matching(users, some, search)| < |Matching(users, all, search)|
  {
    AscendingLonger(Matching(users, all, search), Matching(users, some, search), k);
  }

  /** The written count overstates the list: a user matching the search but
      not the role or active filter is counted, though never listed. */
  lemma CountOverstatesList(users: Table<UserRow>, filters: Filters, k: int)
    requires users.Issued() && filters != map[] && ExtractFilterCriteria(filters).Ok?
    requires Searching(ExtractFilterCriteria(filters).value.search)
    requires k in users.rows && MatchesSearch(users.rows[k], ExtractFilterCriteria(filters).value.search)
    requires !QueryFor(ExtractFilterCriteria(filters).value)(users.rows[k])
    ensures CountUsers(users, filters).Ok? && CountUsersConsistent(users, filters).Ok?
    ensures CountUsers(users, filters).value > CountUsersConsistent(users, filters).value
  {
    var c := ExtractFilterCriteria(filters).value;
    MatchingCard(users, QueryFor(c), c.search, k);
  }

  // ---- responses ----

  /** `UserResponse`, as `mapUserToResponse` fills it; its creation time is
      the time of the call, not the user's. */
  datatype UserResponse = UserResponse(
    id: int, username: string, fullName: Option<string>, email: Option<string>,
    phoneNumber: Option<string>, address: Option<string>, roleId: int, roleName: string,
    isActive: Option<bool>, createdAt: DateTime, gender: Option<string>, dateOfBirth: Option<Date>)

  /** `mapUserToResponse`: reading the role of a user without one throws. */
  function ToResponse(roles: Table<RoleRow>, id: int, u: UserRow, now: DateTime): (r: Result<UserResponse>)
    requires u.roleId.Some? ==> u.roleId.value in roles.rows
    ensures r.Err? <==> u.roleId.None?
    ensures r.Err? ==> r.error == NullPointerException
    ensures r.Ok? ==> (
      && r.value.id == id && r.value.username == u.username && r.value.fullName == u.fullName
      && r.value.email == u.email && r.value.phoneNumber == u.phoneNumber && r.value.address == u.address
      && r.value.roleId == u.roleId.value && r.value.roleName == roles.rows[u.roleId.value].name
      && r.value.isActive == u.isActive && r.value.createdAt == now
      && r.value.gender == u.gender && r.value.dateOfBirth == u.dateOfBirth)
  {
    if u.roleId.None? then Err(NullPointerException)
    else Ok(UserResponse(id, u.username, u.fullName, u.email, u.phoneNumber, u.address,
                         u.roleId.value, roles.rows[u.roleId.value].name, u.isActive, now, u.gender, u.dateOfBirth))
  }

  /** The responses for a list of users, in order; the first user without a
      role throws. */
  function Responses(users: Table<UserRow>, roles: Table<RoleRow>, ids: seq<int>, now: DateTime): (r: Result<seq<UserResponse>>)
    requires RolesKnown(users, roles) && forall i :: 0 <= i < |ids| ==> ids[i] in users.rows
    ensures r.Err? <==> exists i :: 0 <= i < |ids| && users.rows[ids[i]].roleId.None?
    ensures r.Err? ==> r.error == NullPointerException
    ensures r.Ok? ==> |r.value| == |ids| && forall i :: 0 <= i < |ids| ==>
      r.value[i] == ToResponse(roles, ids[i], users.rows[ids[i]], now).value
    decreases |ids|
  {
    if ids == [] then Ok([])
    else
      match ToResponse(roles, ids[0], users.rows[ids[0]], now)
      case Err(e) => Err(e)
      case Ok(first) =>
        match Responses(users, roles, ids[1..], now)
        case Err(e) =>
          ghost var i :| 0 <= i < |ids[1..]| && users.rows[ids[1..][i]].roleId.None?;
          assert users.rows[ids[i + 1]].roleId.None?;
          Err(e)
        case Ok(rest) => Ok([first] + rest)
  }

  /** `getAllUsers`. */
  function GetAllUsers(users: Table<UserRow>, roles: Table<RoleRow>, filters: Filters, page: int, size: int, now: DateTime)
    : (r: Result<seq<UserResponse>>)
    requires users.Issued() && RolesKnown(users, roles)
    ensures UserIds(users, filters, page, size).Err? ==> r == Err(UserIds(users, filters, page, size).error)
    ensures UserIds(users, filters, page, size).Ok? ==> r == Responses(users, roles, UserIds(users, filters, page, size).value, now)
  {
    match UserIds(users, filters, page, size)
    case Err(e) => Err(e)
    case Ok(ids) => Responses(users, roles, ids, now)
  }

  // ---- create, update, delete ----

  /** `UserCreateRequest`; `active` defaults to true in the request. */
  datatype CreateRequest = CreateRequest(
    username: Option<string>, password: Option<string>, fullName: Option<string>, email: Option<string>,
    phone: Option<string>, roleId: Option<int>, address: Option<string>, active: bool)

  predicate UsernameTaken(users: Table<UserRow>, username: Option<string>) {
    username.Some? && exists k :: k in users.rows && users.rows[k].username == username.value
  }

  /** Another user than `except` holds the (unique) email. */
  predicate EmailTaken(users: Table<UserRow>, email: Option<string>, except: Option<int>) {
    email.Some? && exists k :: k in users.rows && Some(k) != except && users.rows[k].email == email
  }

  /** The checks of `createUser`, in order: the username is free, the role is
      given and stored, the password is given (the encoder rejects null),
      then the insert's NOT NULL and unique constraints. The one caller,
      the admin endpoint, validates the request first, so a null role id,
      username or password reaches this service only from another caller;
      the service itself then fails as stated here (Spring Data refuses the
      null id passed to `findById` with InvalidDataAccessApiUsageException). */
  function CreateError(users: Table<UserRow>, roles: Table<RoleRow>, req: CreateRequest): (e: Option<Exception>)
    ensures UsernameTaken(users, req.username) ==> e == Some(IllegalArgumentException)
    ensures e.None? ==> req.roleId.Some? && req.roleId.value in roles.rows && req.password.Some?
    ensures e.None? ==> req.username.Some? && !UsernameTaken(users, req.username) && !EmailTaken(users, req.email, None)
    ensures !UsernameTaken(users, req.username) && req.roleId.Some? && req.roleId.value !in roles.rows ==>
      e == Some(ResourceNotFoundException)
    ensures !UsernameTaken(users, req.username) && req.roleId.None? ==> e == Some(InvalidDataAccessApiUsageException)
  {
    if UsernameTaken(users, req.username) then Some(IllegalArgumentException)
    else if req.roleId.None? then Some(InvalidDataAccessApiUsageException)
    else if req.roleId.value !in roles.rows then Some(ResourceNotFoundException)
    else if req.password.None? then Some(IllegalArgumentException)
    else if req.username.None? || EmailTaken(users, req.email, None) then Some(DataIntegrityViolationException)
    else None
  }

  /** The user `createUser` stores: the request's fields, the hashed
      password, the role and the request's active flag. */
  function NewUser(req: CreateRequest, hash: string): (u: UserRow)
    requires req.username.Some? && req.roleId.Some?
    ensures u.username == req.username.value && u.password == hash && u.roleId == req.roleId
    ensures u.isActive == Some(req.active) && u.fullName == req.fullName && u.email == req.email
    ensures u.phoneNumber == req.phone && u.address == req.address
    ensures u.gender.None? && u.dateOfBirth.None?
  {
    UserRow(req.username.value, hash, req.fullName, req.email, req.phone, None, req.address, None,
            Some(req.active), req.roleId)
  }

  /** `createUser`; `hash` is what the encoder makes of the password. */
  method CreateUser(db: Database, req: CreateRequest, hash: string, now: DateTime) returns (r: Result<UserResponse>)
    requires db.users.Issued() && RolesKnown(db.users, db.roles)
    modifies db`users
    ensures db.users.Issued() && RolesKnown(db.users, db.roles)
    ensures r.Err? <==> old(CreateError(db.users, db.roles, req)).Some?
    ensures r.Err? ==> r.error == old(CreateError(db.users, db.roles, req)).value && db.users == old(db.users)
    ensures r.Ok? ==> (
      && db.users == old(db.users).Insert(NewUser(req, hash))
      && r == ToResponse(db.roles, old(db.users.next), NewUser(req, hash), now))
  {
    var e := CreateError(db.users, db.roles, req);
    if e.Some? {
      return Err(e.value);
    }
    var u := NewUser(req, hash);
    var id := db.users.next;
    db.users := db.users.Insert(u);
    r := ToResponse(db.roles, id, u, now);
  }

  /** `UserUpdateRequest`: null fields are left alone. */
  datatype UpdateRequest = UpdateRequest(
    fullName: Option<string>, email: Option<string>, phone: Option<string>, address: Option<string>,
    isActive: Option<bool>, roleId: Option<int>)

  /** The checks of `updateUser`, in the order they bite: the user exists,
      a given role is stored, the updated user has a role (reading it for
      the response throws before the transaction flushes), and a given
      email is not another user's (the unique column, at the flush). */
  function UpdateError(users: Table<UserRow>, roles: Table<RoleRow>, id: int, req: UpdateRequest): (e: Option<Exception>)
    ensures e.None? <==> (id in users.rows && (req.roleId.Some? ==> req.roleId.value in roles.rows)
      && Updated(users.rows[id], req).roleId.Some? && !EmailTaken(users, req.email, Some(id)))
    ensures id !in users.rows ==> e == Some(ResourceNotFoundException)
    ensures id in users.rows && (req.roleId.Some? ==> req.roleId.value in roles.rows) && Updated(users.rows[id], req).roleId.None? ==>
      e == Some(NullPointerException)
  {
    if id !in users.rows then Some(ResourceNotFoundException)
    else if req.roleId.Some? && req.roleId.value !in roles.rows then Some(ResourceNotFoundException)
    else if Updated(users.rows[id], req).roleId.None? then Some(NullPointerException)
    else if EmailTaken(users, req.email, Some(id)) then Some(DataIntegrityViolationException)
    else None
  }

  /** The user after `updateUser`: each field the request sets is replaced,
      every other field stays. */
  function Updated(u: UserRow, req: UpdateRequest): (r: UserRow)
    ensures r.fullName == (if req.fullName.Some? then req.fullName else u.fullName)
    ensures r.email == (if req.email.Some? then req.email else u.email)
    ensures r.phoneNumber == (if req.phone.Some? then req.phone else u.phoneNumber)
    ensures r.address == (if req.address.Some? then req.address else u.address)
    ensures r.isActive == (if req.isActive.Some? then req.isActive else u.isActive)
    ensures r.roleId == (if req.roleId.Some? then req.roleId else u.roleId)
    ensures r.username == u.username && r.password == u.password && r.gender == u.gender && r.dateOfBirth == u.dateOfBirth
  {
    u.(fullName := if req.fullName.Some? then req.fullName else u.fullName,
       email := if req.email.Some? then req.email else u.email,
       phoneNumber := if req.phone.Some? then req.phone else u.phoneNumber,
       address := if req.address.Some? then req.address else u.address,
       isActive := if req.isActive.Some? then req.isActive else u.isActive,
       roleId := if req.roleId.Some? then req.roleId else u.roleId)
  }

  /** An empty request changes nothing, and applying a request twice is
      applying it once. */
  lemma UpdatedIdempotent(u: UserRow, req: UpdateRequest)
    ensures Updated(u, UpdateRequest(None, None, None, None, None, None)) == u
    ensures Updated(Updated(u, req), req) == Updated(u, req)
  {
  }

  /** `updateUser`: a refused update changes nothing; an accepted one
      stores the updated user and answers with its response. */
  method UpdateUser(db: Database, id: int, req: UpdateRequest, now: DateTime) returns (r: Result<UserResponse>)
    requires db.users.Issued() && RolesKnown(db.users, db.roles)
    modifies db`users
    ensures db.users.Issued() && RolesKnown(db.users, db.roles)
    ensures r.Err? <==> old(UpdateError(db.users, db.roles, id, req)).Some?
    ensures r.Err? ==> r.error == old(UpdateError(db.users, db.roles, id, req)).value && db.users == old(db.users)
    ensures r.Ok? ==> (
      && db.users == old(db.users).Put(id, Updated(old(db.users.rows[id]), req))
      && r == ToResponse(db.roles, id, Updated(old(db.users.rows[id]), req), now))
  {
    var e := UpdateError(db.users, db.roles, id, req);
    if e.Some? {
      return Err(e.value);
    }
    var u := Updated(db.users.rows[id], req);
    db.users := db.users.Put(id, u);
    r := ToResponse(db.roles, id, u, now);
  }

  /** `updateUserRole`: only the role changes. */
  method UpdateUserRole(db: Database, id: int, roleId: Option<int>, now: DateTime) returns (r: Result<UserResponse>)
    requires db.users.Issued() && RolesKnown(db.users, db.roles)
    modifies db`users
    ensures db.users.Issued() && RolesKnown(db.users, db.roles)
    ensures r.Err? ==> db.users == old(db.users)
    ensures id !in old(db.users.rows) ==> r == Err(ResourceNotFoundException)
    ensures id in old(db.users.rows) && roleId.Some? && roleId.value !in db.roles.rows ==> r == Err(ResourceNotFoundException)
    ensures id in old(db.users.rows) && roleId.Some? && roleId.value in db.roles.rows ==>
      r.Ok? && db.users == old(db.users).Put(id, old(db.users.rows[id]).(roleId := roleId))
  {
    r := UpdateUser(db, id, UpdateRequest(None, None, None, None, None, roleId), now);
  }

  /** `updateUserStatus`: only the active flag changes. */
  method UpdateUserStatus(db: Database, id: int, isActive: Option<bool>, now: DateTime) returns (r: Result<UserResponse>)
    requires db.users.Issued() && RolesKnown(db.users, db.roles)
    modifies db`users
    ensures db.users.Issued() && RolesKnown(db.users, db.roles)
    ensures r.Err? ==> db.users == old(db.users)
    ensures id !in old(db.users.rows) ==> r == Err(ResourceNotFoundException)
    ensures id in old(db.users.rows) ==> (r.Err? <==> old(db.users.rows[id]).roleId.None?)
    ensures r.Ok? ==>
      db.users == old(db.users).Put(id, old(db.users.rows[id]).(isActive := if isActive.Some? then isActive else old(db.users.rows[id]).isActive))
  {
    r := UpdateUser(db, id, UpdateRequest(None, None, None, None, isActive, None), now);
  }

  /** `updateUserPhone`: only the phone number changes. */
  method UpdateUserPhone(db: Database, id: int, phone: Option<string>, now: DateTime) returns (r: Result<UserResponse>)
    requires db.users.Issued() && RolesKnown(db.users, db.roles)
    modifies db`users
    ensures db.users.Issued() && RolesKnown(db.users, db.roles)
    ensures r.Err? ==> db.users == old(db.users)
    ensures id !in old(db.users.rows) ==> r == Err(ResourceNotFoundException)
    ensures id in old(db.users.rows) ==> (r.Err? <==> old(db.users.rows[id]).roleId.None?)
    ensures r.Ok? ==>
      db.users == old(db.users).Put(id, old(db.users.rows[id]).(phoneNumber := if phone.Some? then phone else old(db.users.rows[id]).phoneNumber))
  {
    r := UpdateUser(db, id, UpdateRequest(None, None, phone, None, None, None), now);
  }

  /** `getUserById`. */
  function GetUserById(users: Table<UserRow>, roles: Table<RoleRow>, id: int, now: DateTime): (r: Result<UserResponse>)
    requires RolesKnown(users, roles)
    ensures id !in users.rows ==> r == Err(ResourceNotFoundException)
    ensures id in users.rows ==> (r.Err? <==> users.rows[id].roleId.None?)
    ensures r.Ok? ==> r.value.id == id && r.value.username == users.rows[id].username
  {
    if id !in users.rows then Err(ResourceNotFoundException) else ToResponse(roles, id, users.rows[id], now)
  }

  /** A created user reads back as the response of its creation. */
  method CreateThenGet(db: Database, req: CreateRequest, hash: string, now: DateTime) returns (r: Result<UserResponse>, back: Result<UserResponse>)
    requires db.users.Issued() && RolesKnown(db.users, db.roles)
    modifies db`users
    ensures r.Ok? ==> back == r && req.username == Some(r.value.username)
  {
    r := CreateUser(db, req, hash, now);
    back := GetUserById(db.users, db.roles, if r.Ok? then r.value.id else 0, now);
  }

  /** `resetPassword`: the stored password becomes the encoder's hash of the
      new one; the encoder rejects a null password. */
  method ResetPassword(db: Database, id: int, newPassword: Option<string>, hash: string) returns (e: Option<Exception>)
    requires RolesKnown(db.users, db.roles)
    modifies db`users
    ensures RolesKnown(db.users, db.roles)
    ensures e.Some? ==> db.users == old(db.users)
    ensures id !in old(db.users.rows) ==> e == Some(ResourceNotFoundException)
    ensures id in old(db.users.rows) ==> (e.Some? <==> newPassword.None?)
    ensures id in old(db.users.rows) && newPassword.None? ==> e == Some(IllegalArgumentException)
    ensures e.None? ==> db.users == old(db.users).Put(id, old(db.users.rows[id]).(password := hash))
  {
    if id !in db.users.rows {
      return Some(ResourceNotFoundException);
    }
    if newPassword.None? {
      return Some(IllegalArgumentException);
    }
    db.users := db.users.Put(id, db.users.rows[id].(password := hash));
    e := None;
  }

  /** The update count of `deleteUserById`. */
  function DeletedCount(users: Table<UserRow>, id: int): (n: nat)
    ensures n == 1 <==> id in users.rows
    ensures n == 0 <==> id !in users.rows
  {
    if id in users.rows then 1 else 0
  }

  /** `deleteUser`: an unknown user is not found; a found user is deleted,
      so the delete always reports one row and its RuntimeException branch
      is never taken. */
  method DeleteUser(db: Database, id: int) returns (e: Option<Exception>)
    requires RolesKnown(db.users, db.roles)
    modifies db`users
    ensures RolesKnown(db.users, db.roles)
    ensures e.Some? <==> id !in old(db.users.rows)
    ensures e.Some? ==> e.value == ResourceNotFoundException && db.users == old(db.users)
    ensures e.None? ==> db.users == old(db.users).DeleteKey(id)
  {
    if id !in db.users.rows {
      return Some(ResourceNotFoundException);
    }
    var deleted := DeletedCount(db.users, id);
    db.users := db.users.DeleteKey(id);
    if deleted == 0 {
      assert false;
    }
    e := None;
  }
}
