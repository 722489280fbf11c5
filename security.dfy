/** The request filter that reads a bearer token and places the user it
    names in the security context.

    Token validation and reading the token's subject belong to the token
    library; they are parameters here (`validate`, and `subject`, which may
    throw).
 */
module AuthTokenFilter {
  import opened Wrappers
  import opened Text
  import opened Tables
  import opened ClinicDb
  import opened UserDetailsService

  const BEARER: string := "Bearer "

  /** `Character.isWhitespace`: the space, line and paragraph separators
      except the no-break spaces, and the controls HT, LF, VT, FF, CR and
      FS to US. */
  predicate JavaWhitespace(c: char) {
    || c == ' ' || c == '\U{1680}' || ('\U{2000}' <= c <= '\U{200A}' && c != '\U{2007}')
    || c == '\U{205F}' || c == '\U{3000}' || c == '\U{2028}' || c == '\U{2029}'
    || ('\U{0009}' <= c <= '\U{000D}') || ('\U{001C}' <= c <= '\U{001F}')
  }

  /** `StringUtils.hasText`: set, and holding a character that is not
      white space. */
  predicate HasText(s: Option<string>) {
    s.Some? && exists i :: 0 <= i < |s.value| && !JavaWhitespace(s.value[i])
  }

  /** `parseJwt`: the Authorization header after "Bearer ", when the header
      has text and starts with that. */
  function ParseJwt(header: Option<string>): (r: Option<string>)
    ensures r.Some? <==> header.Some? && StartsWith(header.value, BEARER)
    ensures r.Some? ==> header.value == BEARER + r.value
  {
    assert header.Some? && StartsWith(header.value, BEARER) ==> HasText(header) by {
      if header.Some? && StartsWith(header.value, BEARER) {
        BearerHasText(header.value);
      }
    }
    if HasText(header) && StartsWith(header.value, BEARER) then Some(header.value[7..]) else None
  }

  /** A header starting with "Bearer " always has text, so the text check
      never decides anything on its own. */
  lemma BearerHasText(header: string)
    requires StartsWith(header, BEARER)
    ensures HasText(Some(header))
  {
    assert header[0] == BEARER[0];
    assert !JavaWhitespace(header[0]);
  }

  /** Every token, the empty one included, reads back from its header. */
  lemma ParseJwtRoundTrip(token: string)
    ensures ParseJwt(Some(BEARER + token)) == Some(token)
  {
    assert (BEARER + token)[..7] == BEARER;
    BearerHasText(BEARER + token);
  }

  /** Headers that are missing, blank, or of another scheme carry no token. */
  lemma NoBearerNoToken()
    ensures ParseJwt(None) == None
    ensures ParseJwt(Some("")) == None
    ensures ParseJwt(Some("   ")) == None
    ensures ParseJwt(Some("Basic dXNlcg==")) == None
    ensures ParseJwt(Some("bearer x")) == None
  {
    assert "Basic dXNlcg=="[1] != BEARER[1];
    assert "bearer x"[0] != BEARER[0];
  }

  /** The authentication a request establishes. */
  datatype Authentication = Authentication(principal: UserDetails, authorities: seq<string>)

  /** The authentication the filter sets for a request with this header:
      there must be a token, it must be valid, its subject must be readable,
      and that user must load; any failure leaves no authentication. */
  function TokenAuthentication(users: Table<UserRow>, header: Option<string>, validate: string -> bool,
                               subject: string -> Result<string>): (r: Option<Authentication>)
    requires users.Issued()
    ensures r.Some? <==> (
      && ParseJwt(header).Some? && validate(ParseJwt(header).value)
      && subject(ParseJwt(header).value).Ok?
      && LoadUserByUsername(users, subject(ParseJwt(header).value).value).Ok?)
    ensures r.Some? ==>
      && r.value.principal == LoadUserByUsername(users, subject(ParseJwt(header).value).value).value
      && r.value.authorities == r.value.principal.authorities
  {
    match ParseJwt(header)
    case None => None
    case Some(jwt) =>
      if !validate(jwt) then None
      else
        match subject(jwt)
        case Err(_) => None
        case Ok(username) =>
          match LoadUserByUsername(users, username)
          case Err(_) => None
          case Ok(details) => Some(Authentication(details, details.authorities))
  }

  /** No bearer token, no authentication. */
  lemma NoTokenNoAuthentication(users: Table<UserRow>, header: Option<string>, validate: string -> bool,
                                subject: string -> Result<string>)
    requires users.Issued() && (header.None? || !StartsWith(header.value, BEARER))
    ensures TokenAuthentication(users, header, validate, subject).None?
  {
  }

  /** A valid token of a disabled user authenticates no one. */
  lemma DisabledNotAuthenticated(users: Table<UserRow>, token: string, validate: string -> bool,
                                 subject: string -> Result<string>, k: int)
    requires users.Issued() && UsernamesUnique(users) && k in users.rows && users.rows[k].isActive == Some(false)
    requires subject(token) == Ok(users.rows[k].username)
    ensures TokenAuthentication(users, Some(BEARER + token), validate, subject).None?
  {
    ParseJwtRoundTrip(token);
    DisabledNeverLoads(users, k);
  }

  /** An authenticated request is a stored, enabled user of the token's
      subject, whose one authority is its role id. */
  lemma AuthenticatedIsStoredUser(users: Table<UserRow>, header: Option<string>, validate: string -> bool,
                                  subject: string -> Result<string>)
    requires users.Issued() && TokenAuthentication(users, header, validate, subject).Some?
    ensures var a := TokenAuthentication(users, header, validate, subject).value;
      && a.principal.id in users.rows && Enabled(users.rows[a.principal.id])
      && users.rows[a.principal.id].username == subject(ParseJwt(header).value).value
      && a.authorities == [IntToString(users.rows[a.principal.id].roleId.value)]
  {
    LoadedIsEnabledUser(users, subject(ParseJwt(header).value).value);
  }

  /** The per-thread security context. */
  class SecurityContext {
    var authentication: Option<Authentication>

    constructor()
      ensures authentication.None?
    {
      authentication := None;
    }
  }

  /** The rest of the filter chain; `calls` counts how often the request was
      passed on. */
  class FilterChain {
    var calls: nat

    constructor()
      ensures calls == 0
    {
      calls := 0;
    }

    method DoFilter()
      modifies this
      ensures calls == old(calls) + 1
    {
      calls := calls + 1;
    }
  }

  /** `doFilterInternal`: sets the authentication when the token leads to a
      user, swallows every failure, and passes the request on exactly once. */
  method DoFilterInternal(ctx: SecurityContext, chain: FilterChain, users: Table<UserRow>, header: Option<string>,
                          validate: string -> bool, subject: string -> Result<string>)
    requires users.Issued()
    modifies ctx, chain
    ensures chain.calls == old(chain.calls) + 1
    ensures TokenAuthentication(users, header, validate, subject).Some? ==>
      ctx.authentication == TokenAuthentication(users, header, validate, subject)
    ensures TokenAuthentication(users, header, validate, subject).None? ==>
      ctx.authentication == old(ctx.authentication)
  {
    var jwt := ParseJwt(header);
    if jwt.Some? {
      if validate(jwt.value) {
        var username := subject(jwt.value);
        if username.Ok? {
          var details := LoadUserByUsername(users, username.value);
          if details.Ok? {
            ctx.authentication := Some(Authentication(details.value, details.value.authorities));
          }
        }
      }
    }
    chain.DoFilter();
  }
}
