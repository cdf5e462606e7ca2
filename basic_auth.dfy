/**
 * The HTTP basic-authentication provider of cbwebauth/basicauth/basicauth.go:
 * credentials come from an `Authorization` header using the "Basic" scheme
 * of section 2 of RFC 7617, whose payload is base64 (section 4 of RFC 4648)
 * of "user:password". Base64 decoding and bcrypt comparison are oracles.
 */
module BasicAuth {
  import opened Wrappers
  import opened GoStrings
  import opened Http
  import AuthContainer

  const ProviderName := "basicauth"
  const Scheme := "Basic "
  const ChallengeHeader := "WWW-Authenticate"
  const ChallengeValue := "Basic realm=Restricted"

  datatype Credential = Credential(username: string, password: string, permissions: seq<string>)

  /** `base64.StdEncoding.DecodeString`: the decoded payload, or `None` on malformed input. */
  type Base64Decoder = string -> Option<string>

  /** `bcrypt.CompareHashAndPassword(hash, password) == nil`. */
  type HashCheck = (string, string) -> bool

  /**
   * `getCredentials`: the user and password of a header with exactly the
   * prefix "Basic " whose remainder decodes to a payload holding a ':';
   * otherwise two empty strings. The payload is split at its first ':'.
   */
  function GetCredentials(authorization: string, decode: Base64Decoder): (r: (string, string))
    ensures !HasPrefix(authorization, Scheme) ==> r == ("", "")
    ensures HasPrefix(authorization, Scheme) ==>
      match decode(authorization[|Scheme|..])
      case None => r == ("", "")
      case Some(payload) =>
        if ':' in payload then ':' !in r.0 && r.0 + ":" + r.1 == payload
        else r == ("", "")
  {
    if HasPrefix(authorization, Scheme) then
      match decode(authorization[|Scheme|..])
      case Some(payload) =>
        (match IndexOf(payload, ':')
         case Some(k) =>
           assert payload == payload[..k] + ":" + payload[k + 1..];
           (payload[..k], payload[k + 1..])
         case None => ("", ""))
      case None => ("", "")
    else ("", "")
  }

  /** Credentials encoded as `user:pass`, with no ':' in the user, are parsed back exactly. */
  lemma CredentialsRoundTrip(user: string, pass: string, rest: string, decode: Base64Decoder)
    requires ':' !in user
    requires decode(rest) == Some(user + ":" + pass)
    ensures GetCredentials(Scheme + rest, decode) == (user, pass)
  {
    var header := Scheme + rest;
    var payload := user + ":" + pass;
    assert HasPrefix(header, Scheme);
    assert header[|Scheme|..] == rest;
    assert payload[|user|] == ':' && payload[..|user|] == user;
    var k := IndexOf(payload, ':');
    assert k == Some(|user|);
    assert payload[|user| + 1..] == pass;
  }

  /** The scheme is case-sensitive: a lower-case "basic " header yields no credentials. */
  lemma SchemeIsCaseSensitive(rest: string, decode: Base64Decoder)
    ensures GetCredentials("basic " + rest, decode) == ("", "")
  {
    assert ("basic " + rest)[0] != Scheme[0];
  }

  /** `GetUniqueIdentifier`: the user part of the credentials only. */
  function GetUniqueIdentifier(authorization: string, decode: Base64Decoder): (user: string)
    ensures user != "" ==>
      HasPrefix(authorization, Scheme) && decode(authorization[|Scheme|..]).Some? &&
      exists pass :: decode(authorization[|Scheme|..]).value == user + ":" + pass
    ensures ':' !in user
    ensures user == GetCredentials(authorization, decode).0
  {
    var (user, pass) := GetCredentials(authorization, decode);
    user
  }

  /** The first credential whose username is `user`. */
  function FirstWithUsername(credentials: seq<Credential>, user: string): (r: Option<nat>)
    ensures r.Some? ==> r.value < |credentials| && credentials[r.value].username == user
    ensures r.Some? ==> forall j :: 0 <= j < r.value ==> credentials[j].username != user
    ensures r.None? ==> forall j :: 0 <= j < |credentials| ==> credentials[j].username != user
  {
    if credentials == [] then None
    else if credentials[0].username == user then Some(0)
    else match FirstWithUsername(credentials[1..], user)
      case Some(k) => Some(k + 1)
      case None => None
  }

  /** The permissions granted to `user`: its first credential's, followed by `LoggedIn`; none for "" or an unknown user. */
  function UserPermissions(credentials: seq<Credential>, user: string): (perms: seq<string>)
    ensures user == "" || FirstWithUsername(credentials, user).None? ==> perms == []
    ensures user != "" && FirstWithUsername(credentials, user).Some? ==>
      perms == credentials[FirstWithUsername(credentials, user).value].permissions + [AuthContainer.LoggedIn]
  {
    if user == "" then []
    else match FirstWithUsername(credentials, user)
      case Some(k) => credentials[k].permissions + [AuthContainer.LoggedIn]
      case None => []
  }

  /**
   * `GetPermissions`: for a non-empty user, the permissions of the first
   * credential with that username, followed by `LoggedIn`; otherwise none.
   * The password is not checked.
   */
  method GetPermissions(credentials: seq<Credential>, authorization: string, decode: Base64Decoder)
    returns (permissions: seq<string>)
    ensures permissions == UserPermissions(credentials, GetCredentials(authorization, decode).0)
  {
    var (user, _) := GetCredentials(authorization, decode);
    if user != "" {
      var i := 0;
      while i < |credentials|
        invariant 0 <= i <= |credentials|
        invariant forall j :: 0 <= j < i ==> credentials[j].username != user
      {
        if credentials[i].username == user {
          FirstWithUsernameIs(credentials, user, i);
          return credentials[i].permissions + [AuthContainer.LoggedIn];
        }
        i := i + 1;
      }
      FirstWithUsernameIs(credentials, user, |credentials|);
    }
    return [];
  }

  lemma FirstWithUsernameIs(credentials: seq<Credential>, user: string, k: nat)
    requires k <= |credentials|
    requires forall j :: 0 <= j < k ==> credentials[j].username != user
    requires k < |credentials| ==> credentials[k].username == user
    ensures FirstWithUsername(credentials, user) == if k < |credentials| then Some(k) else None
  {
    var r := FirstWithUsername(credentials, user);
    if r.Some? {
      assert r.value >= k;
    }
  }

  /** The response that asks the client for credentials: the challenge header and status 401. */
  function Challenge(ctx: Ctx): (r: Ctx)
    ensures r.status == Unauthorized && ChallengeHeader in r.headers && r.headers[ChallengeHeader] == ChallengeValue
    ensures r.headers == ctx.headers[ChallengeHeader := ChallengeValue]
    ensures r.requestUri == ctx.requestUri && r.location == ctx.location && r.contentType == ctx.contentType
  {
    ctx.(headers := ctx.headers[ChallengeHeader := ChallengeValue], status := Unauthorized)
  }

  /** Some credential has the request's username and a password hash the request's password matches. */
  predicate Matches(credentials: seq<Credential>, user: string, pass: string, compare: HashCheck) {
    exists k :: 0 <= k < |credentials| && credentials[k].username == user && compare(credentials[k].password, pass)
  }

  /**
   * `IsAuthenticated`: true iff some credential matches the request's user
   * and password; otherwise the response is turned into a challenge.
   */
  method IsAuthenticated(credentials: seq<Credential>, authorization: string, decode: Base64Decoder,
                         compare: HashCheck, ctx: Ctx) returns (authenticated: bool, out: Ctx)
    ensures var (user, pass) := GetCredentials(authorization, decode);
      authenticated <==> Matches(credentials, user, pass, compare)
    ensures out == if authenticated then ctx else Challenge(ctx)
  {
    var (user, pass) := GetCredentials(authorization, decode);
    var i := 0;
    while i < |credentials|
      invariant 0 <= i <= |credentials|
      invariant forall j :: 0 <= j < i ==> !(credentials[j].username == user && compare(credentials[j].password, pass))
    {
      if credentials[i].username == user && compare(credentials[i].password, pass) {
        return true, ctx;
      }
      i := i + 1;
    }
    return false, Challenge(ctx);
  }

  /** `Login`, `Register` and `ChangePassword`: always successful, with no errors. */
  function Login(): (r: (bool, map<string, string>))
    ensures r.0 && |r.1| == 0
  {
    (true, map[])
  }

  function Register(): (r: (bool, map<string, string>))
    ensures r.0 && |r.1| == 0
  {
    (true, map[])
  }

  function ChangePassword(): (r: (bool, map<string, string>))
    ensures r.0 && |r.1| == 0
  {
    (true, map[])
  }

  /** `Logout`: always false, turning the response into a challenge. */
  function Logout(ctx: Ctx): (r: (bool, Ctx))
    ensures !r.0
    ensures r.1.status == Unauthorized && ChallengeHeader in r.1.headers
            && r.1.headers[ChallengeHeader] == ChallengeValue
    ensures r.1.headers == ctx.headers[ChallengeHeader := ChallengeValue]
    ensures r.1.requestUri == ctx.requestUri && r.1.location == ctx.location
            && r.1.contentType == ctx.contentType
  {
    (false, Challenge(ctx))
  }

  /** The answers of the basic provider to one request, as the auth container sees them. */
  function AsProvider(credentials: seq<Credential>, authorization: string, decode: Base64Decoder,
                      compare: HashCheck): (p: AuthContainer.Provider)
    ensures p.name == ProviderName && p.login.ok && p.register.ok && !p.logout
    ensures p.login.errors == [] && p.register.errors == []
    ensures p.uniqueIdentifier == GetUniqueIdentifier(authorization, decode)
    ensures p.authenticated == Matches(credentials, GetCredentials(authorization, decode).0,
                                       GetCredentials(authorization, decode).1, compare)
    ensures p.permissions == UserPermissions(credentials, GetCredentials(authorization, decode).0)
  {
    var (user, pass) := GetCredentials(authorization, decode);
    var perms := UserPermissions(credentials, user);
    AuthContainer.Provider(ProviderName, user, Matches(credentials, user, pass, compare),
                           AuthContainer.Answer(Login().0, []), Logout(Http.Ctx("", "", 0, map[], None)).0,
                           AuthContainer.Answer(Register().0, []), perms)
  }

  /**
   * Because the basic provider's `Login` always succeeds, the auth
   * middleware accepts every request at or before the first basic provider,
   * whatever the header holds.
   */
  lemma BasicProviderAlwaysAccepts(ps: seq<AuthContainer.Provider>, k: nat, credentials: seq<Credential>,
                                   authorization: string, decode: Base64Decoder, compare: HashCheck)
    requires k < |ps| && ps[k] == AsProvider(credentials, authorization, decode, compare)
    ensures AuthContainer.FirstAccepting(ps).Some? && AuthContainer.FirstAccepting(ps).value <= k
  {
    assert ps[k].login.ok;
  }
}
