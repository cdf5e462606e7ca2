/**
 * The database-backed provider of cbwebauth/dbauth/dbauth.go: users log in
 * with an email and a bcrypt-checked password, or with a signed login token
 * passed as the `dbauthtoken` query argument or kept in the `cbauth` cookie.
 *
 * JWT signing and parsing, bcrypt, and checkmail's format and host checks
 * are oracles (`Libraries`); the user records are the ones the configured
 * `GetUserRecordsFunc` returns for the current request.
 */
module DbAuth {
  import opened Wrappers
  import opened GoStrings
  import AuthContainer

  const ProviderName := "dbauth"
  const CookieKey := "cbauth"
  const TokenArg := "dbauthtoken"

  const EmailKey := "email"
  const PasswordKey := "password"
  const ConfirmKey := "password-confirm"
  const FlashKey := "flash"

  const ProvideEmail := "please provide an email"
  const ProvidePassword := "please provide a password"
  const ProvideValidEmail := "please provide a valid email"
  const ConfirmPassword := "please confirm your password"
  const ConfirmationMismatch := "please make sure your password confirmation matches your password"
  const ProvideRealEmail := "please provide a real email account"
  const CookieError := "error setting auth cookie"
  const InvalidPassword := "invalid password"
  const UserNotFound := "user not found"
  const InvalidRequest := "invalid request"
  const NoSuchUser := "that user does not exist"
  const HashError := "there was an error changing your password"
  const SaveError := "there was an error saving your updated password"

  /** A stored user. Only the password is ever changed by the provider. */
  class UserRecord {
    const email: string
    var password: string
    const permissions: seq<string>

    constructor (email: string, password: string, permissions: seq<string>)
      ensures this.email == email && this.password == password && this.permissions == permissions
    {
      this.email := email;
      this.password := password;
      this.permissions := permissions;
    }

    method SetPassword(password: string)
      modifies this
      ensures this.password == password
    {
      this.password := password;
    }
  }

  /** The claims of a login token. */
  datatype Claim = Claim(email: string, authHash: string)

  /** The foreign libraries, as oracles. */
  datatype Libraries = Libraries(
    parseToken: (string, string) -> Option<Claim>,   // a valid token's claims under the secret, else None
    signToken: (Claim, string) -> Option<string>,    // a signed token for the claims under the secret
    compareHash: (string, string) -> bool,           // bcrypt: does the password match the hash
    hashPassword: (string, int) -> Option<string>,    // bcrypt: hash a password with a work factor
    validFormat: string -> bool,                     // checkmail.ValidateFormat succeeds
    unresolvableHost: string -> bool)                // checkmail.ValidateHost fails with ErrUnresolvableHost

  datatype Dependencies = Dependencies(secret: string, getUserRecords: Option<seq<UserRecord>>,
                                       generateAuthHash: Option<UserRecord -> string>,
                                       saveUserRecord: UserRecord -> bool, hashWorkFactor: int)

  datatype Provider = Provider(secret: string, users: seq<UserRecord>, authHash: UserRecord -> string,
                               saveUserRecord: UserRecord -> bool, hashWorkFactor: int)

  /** `New`: the user source is checked first, then the auth-hash function. */
  function New(d: Dependencies): (r: Result<Provider, string>)
    ensures d.getUserRecords.None? ==> r == Err("missing GetUserRecordsFunc")
    ensures d.getUserRecords.Some? && d.generateAuthHash.None? ==> r == Err("missing GenerateAuthHashFunc")
    ensures r.Ok? <==> d.getUserRecords.Some? && d.generateAuthHash.Some?
    ensures r.Ok? ==> r.value.users == d.getUserRecords.value && r.value.authHash == d.generateAuthHash.value
    ensures r.Ok? ==> r.value.secret == d.secret && r.value.saveUserRecord == d.saveUserRecord
                      && r.value.hashWorkFactor == d.hashWorkFactor
  {
    if d.getUserRecords.None? then Err("missing GetUserRecordsFunc")
    else if d.generateAuthHash.None? then Err("missing GenerateAuthHashFunc")
    else Ok(Provider(d.secret, d.getUserRecords.value, d.generateAuthHash.value, d.saveUserRecord, d.hashWorkFactor))
  }

  /** A request: its POST arguments (`None` when there are none at all), query arguments and auth cookie. */
  datatype Request = Request(post: Option<map<string, string>>, query: map<string, string>, cookie: string)

  /** `Peek`: the value of an argument, empty when it is missing. */
  function Peek(args: map<string, string>, key: string): string {
    if key in args then args[key] else ""
  }

  // ------------------------------------------------------------------
  // Tokens
  // ------------------------------------------------------------------

  /** The first user whose email equals the claim's case-insensitively and whose auth hash equals the claim's. */
  function ClaimedUser(p: Provider, claim: Claim): (r: Option<nat>)
    ensures r.Some? ==> r.value < |p.users| && EqualFold(p.users[r.value].email, claim.email) &&
                        p.authHash(p.users[r.value]) == claim.authHash
    ensures r.Some? ==> forall j :: 0 <= j < r.value ==>
                        !(EqualFold(p.users[j].email, claim.email) && p.authHash(p.users[j]) == claim.authHash)
    ensures r.None? ==> forall j :: 0 <= j < |p.users| ==>
                        !(EqualFold(p.users[j].email, claim.email) && p.authHash(p.users[j]) == claim.authHash)
  {
    ClaimedFrom(p, claim, 0)
  }

  function ClaimedFrom(p: Provider, claim: Claim, from: nat): (r: Option<nat>)
    requires from <= |p.users|
    ensures r.Some? ==> from <= r.value < |p.users| && EqualFold(p.users[r.value].email, claim.email) &&
                        p.authHash(p.users[r.value]) == claim.authHash
    ensures r.Some? ==> forall j :: from <= j < r.value ==>
                        !(EqualFold(p.users[j].email, claim.email) && p.authHash(p.users[j]) == claim.authHash)
    ensures r.None? ==> forall j :: from <= j < |p.users| ==>
                        !(EqualFold(p.users[j].email, claim.email) && p.authHash(p.users[j]) == claim.authHash)
    decreases |p.users| - from
  {
    if from == |p.users| then None
    else if EqualFold(p.users[from].email, claim.email) && p.authHash(p.users[from]) == claim.authHash then Some(from)
    else ClaimedFrom(p, claim, from + 1)
  }

  /** The user a token stands for: none unless the token is valid and its claims match a user. */
  function TokenUser(p: Provider, lib: Libraries, token: string): Option<UserRecord> {
    match lib.parseToken(token, p.secret)
    case None => None
    case Some(claim) =>
      match ClaimedUser(p, claim)
      case None => None
      case Some(k) => Some(p.users[k])
  }

  /** `getUserFromLoginToken`: parse the token, then search the users in order. */
  method GetUserFromLoginToken(p: Provider, lib: Libraries, token: string) returns (user: Option<UserRecord>)
    ensures user == TokenUser(p, lib, token)
  {
    var claim := lib.parseToken(token, p.secret);
    if claim.None? {
      return None;
    }
    var i := 0;
    while i < |p.users|
      invariant 0 <= i <= |p.users|
      invariant ClaimedFrom(p, claim.value, i) == ClaimedUser(p, claim.value)
    {
      var u := p.users[i];
      if ToLower(u.email) == ToLower(claim.value.email) && p.authHash(u) == claim.value.authHash {
        return Some(u);
      }
      i := i + 1;
    }
    return None;
  }

  /** The user the request stands for: the token argument's when it is valid, otherwise the cookie's. */
  function RequestUser(p: Provider, lib: Libraries, req: Request): Option<UserRecord> {
    if TokenArg in req.query && TokenUser(p, lib, req.query[TokenArg]).Some? then TokenUser(p, lib, req.query[TokenArg])
    else if req.cookie == "" then None
    else TokenUser(p, lib, req.cookie)
  }

  /** `GetUniqueIdentifier`: the email of the token's user, falling back to the cookie's. */
  method GetUniqueIdentifier(p: Provider, lib: Libraries, req: Request) returns (id: string)
    ensures TokenArg in req.query && TokenUser(p, lib, req.query[TokenArg]).Some? ==>
      id == TokenUser(p, lib, req.query[TokenArg]).value.email
    ensures !(TokenArg in req.query && TokenUser(p, lib, req.query[TokenArg]).Some?) ==>
      id == if req.cookie != "" && TokenUser(p, lib, req.cookie).Some? then TokenUser(p, lib, req.cookie).value.email else ""
  {
    if TokenArg in req.query {
      var user := GetUserFromLoginToken(p, lib, req.query[TokenArg]);
      if user.Some? {
        return user.value.email;
      }
    }
    if |req.cookie| == 0 {
      return "";
    }
    var user := GetUserFromLoginToken(p, lib, req.cookie);
    if user.None? {
      return "";
    }
    return user.value.email;
  }

  /** `GetPermissions`: the request user's permissions followed by `LoggedIn`, or none. */
  method GetPermissions(p: Provider, lib: Libraries, req: Request) returns (permissions: seq<string>)
    ensures match RequestUser(p, lib, req)
      case Some(u) => permissions == u.permissions + [AuthContainer.LoggedIn]
      case None => permissions == []
  {
    if TokenArg in req.query {
      var user := GetUserFromLoginToken(p, lib, req.query[TokenArg]);
      if user.Some? {
        return user.value.permissions + [AuthContainer.LoggedIn];
      }
    }
    if |req.cookie| == 0 {
      return [];
    }
    var user := GetUserFromLoginToken(p, lib, req.cookie);
    if user.None? {
      return [];
    }
    return user.value.permissions + [AuthContainer.LoggedIn];
  }

  /** `IsAuthenticated`: with a token argument only the token counts; otherwise the cookie does. */
  method IsAuthenticated(p: Provider, lib: Libraries, req: Request) returns (authenticated: bool)
    ensures TokenArg in req.query ==> (authenticated <==> TokenUser(p, lib, req.query[TokenArg]).Some?)
    ensures TokenArg !in req.query ==> (authenticated <==> req.cookie != "" && TokenUser(p, lib, req.cookie).Some?)
  {
    if TokenArg in req.query {
      var user := GetUserFromLoginToken(p, lib, req.query[TokenArg]);
      return user.Some?;
    }
    if |req.cookie| == 0 {
      return false;
    }
    var user := GetUserFromLoginToken(p, lib, req.cookie);
    return user.Some?;
  }

  /**
   * The token precedence is not symmetric: a request whose token argument is
   * present but invalid is not authenticated, even with a valid cookie, yet
   * its identifier and permissions are taken from that cookie.
   */
  lemma InvalidTokenShadowsCookie(p: Provider, lib: Libraries, req: Request)
    requires TokenArg in req.query && TokenUser(p, lib, req.query[TokenArg]).None?
    requires req.cookie != "" && TokenUser(p, lib, req.cookie).Some?
    ensures RequestUser(p, lib, req) == TokenUser(p, lib, req.cookie)
  {
  }

  // ------------------------------------------------------------------
  // Login
  // ------------------------------------------------------------------

  /** The validation errors of a POST login, built entry by entry: a bad format overwrites a missing email. */
  function LoginValidation(post: map<string, string>, lib: Libraries): (v: map<string, string>)
    ensures EmailKey in v <==> EmailKey !in post || !lib.validFormat(Peek(post, EmailKey))
    ensures EmailKey in v ==> v[EmailKey] == if lib.validFormat(Peek(post, EmailKey)) then ProvideEmail else ProvideValidEmail
    ensures PasswordKey in v <==> PasswordKey !in post
    ensures PasswordKey in v ==> v[PasswordKey] == ProvidePassword
    ensures v.Keys <= {EmailKey, PasswordKey}
  {
    var v1: map<string, string> := if EmailKey !in post then map[EmailKey := ProvideEmail] else map[];
    var v2 := if PasswordKey !in post then v1[PasswordKey := ProvidePassword] else v1;
    if !lib.validFormat(Peek(post, EmailKey)) then v2[EmailKey := ProvideValidEmail] else v2
  }

  /** The first user whose email equals `email` case-insensitively. */
  function FirstEmail(users: seq<UserRecord>, email: string): (r: Option<nat>)
    ensures r.Some? ==> r.value < |users| && EqualFold(users[r.value].email, email)
    ensures r.Some? ==> forall j :: 0 <= j < r.value ==> !EqualFold(users[j].email, email)
    ensures r.None? ==> forall j :: 0 <= j < |users| ==> !EqualFold(users[j].email, email)
  {
    if users == [] then None
    else if EqualFold(users[0].email, email) then Some(0)
    else match FirstEmail(users[1..], email)
      case Some(k) => Some(k + 1)
      case None => None
  }

  lemma FirstEmailIs(users: seq<UserRecord>, email: string, k: nat)
    requires k <= |users|
    requires forall j :: 0 <= j < k ==> !EqualFold(users[j].email, email)
    requires k < |users| ==> EqualFold(users[k].email, email)
    ensures FirstEmail(users, email) == if k < |users| then Some(k) else None
  {
    var r := FirstEmail(users, email);
    if r.Some? {
      assert r.value >= k;
    }
  }

  /** `GenerateLoginToken`: a token for the user's email and auth hash (its expiry is not modelled). */
  function LoginToken(p: Provider, lib: Libraries, user: UserRecord): Option<string> {
    lib.signToken(Claim(user.email, p.authHash(user)), p.secret)
  }

  /** The outcome of a login that found its user: the cookie is set, or setting it failed. */
  function Authenticated(p: Provider, lib: Libraries, user: UserRecord): (bool, map<string, string>, Option<string>) {
    match LoginToken(p, lib, user)
    case None => (false, map[FlashKey := CookieError], None)
    case Some(token) => (true, map[], Some(token))
  }

  predicate Posted(req: Request) {
    req.post.Some? && |req.post.value| > 0
  }

  /** The loop of `Login` over the users: the first whose e-mail equals `email` up to case. */
  method FindByEmail(users: seq<UserRecord>, email: string) returns (found: Option<nat>)
    ensures found == FirstEmail(users, email)
  {
    var i := 0;
    while i < |users|
      invariant 0 <= i <= |users|
      invariant forall j :: 0 <= j < i ==> !EqualFold(users[j].email, email)
    {
      if ToLower(users[i].email) == ToLower(email) {
        FirstEmailIs(users, email, i);
        return Some(i);
      }
      i := i + 1;
    }
    FirstEmailIs(users, email, |users|);
    return None;
  }

  /**
   * `Login`. With POST arguments: validation first, then the first user whose
   * email matches case-insensitively decides, by its password. Without them,
   * a token argument logs its user in. Otherwise the request is invalid.
   * `cookie` is the auth cookie's new token, when one is set.
   */
  method Login(p: Provider, lib: Libraries, req: Request)
    returns (ok: bool, errors: map<string, string>, cookie: Option<string>)
    ensures Posted(req) && |LoginValidation(req.post.value, lib)| > 0 ==>
      !ok && errors == LoginValidation(req.post.value, lib) && cookie == None
    ensures Posted(req) && |LoginValidation(req.post.value, lib)| == 0 ==>
      var post := req.post.value;
      match FirstEmail(p.users, Peek(post, EmailKey))
      case None => !ok && errors == map[EmailKey := UserNotFound] && cookie == None
      case Some(k) =>
        if lib.compareHash(p.users[k].password, Peek(post, PasswordKey)) then
          (ok, errors, cookie) == Authenticated(p, lib, p.users[k])
        else !ok && errors == map[PasswordKey := InvalidPassword] && cookie == None
    ensures !Posted(req) && TokenArg in req.query ==>
      match TokenUser(p, lib, req.query[TokenArg])
      case None => !ok && errors == map[EmailKey := UserNotFound] && cookie == None
      case Some(u) => (ok, errors, cookie) == Authenticated(p, lib, u)
    ensures !Posted(req) && TokenArg !in req.query ==>
      !ok && errors == map[FlashKey := InvalidRequest] && cookie == None
    ensures ok ==> errors == map[] && cookie.Some?
  {
    if req.post.Some? && |req.post.value| > 0 {
      var post := req.post.value;
      var validationErrors: map<string, string> := map[];
      if EmailKey !in post {
        validationErrors := validationErrors[EmailKey := ProvideEmail];
      }
      if PasswordKey !in post {
        validationErrors := validationErrors[PasswordKey := ProvidePassword];
      }
      if !lib.validFormat(Peek(post, EmailKey)) {
        validationErrors := validationErrors[EmailKey := ProvideValidEmail];
      }
      assert validationErrors == LoginValidation(post, lib);
      if |validationErrors| > 0 {
        return false, validationErrors, None;
      }
      var found := FindByEmail(p.users, Peek(post, EmailKey));
      if found.None? {
        return false, map[EmailKey := UserNotFound], None;
      }
      var user := p.users[found.value];
      if lib.compareHash(user.password, Peek(post, PasswordKey)) {
        var token := lib.signToken(Claim(user.email, p.authHash(user)), p.secret);
        assert token == LoginToken(p, lib, user);
        if token.None? {
          return false, map[FlashKey := CookieError], None;
        }
        return true, validationErrors, token;
      }
      return false, map[PasswordKey := InvalidPassword], None;
    } else if TokenArg in req.query {
      var user := GetUserFromLoginToken(p, lib, req.query[TokenArg]);
      if user.Some? {
        var token := lib.signToken(Claim(user.value.email, p.authHash(user.value)), p.secret);
        assert token == LoginToken(p, lib, user.value);
        if token.None? {
          return false, map[FlashKey := CookieError], None;
        }
        return true, map[], token;
      }
      return false, map[EmailKey := UserNotFound], None;
    }
    return false, map[FlashKey := InvalidRequest], None;
  }

  // ------------------------------------------------------------------
  // Register and ChangePassword
  // ------------------------------------------------------------------

  /**
   * The format checks shared by `Register` and `ChangePassword`: missing
   * fields, then a bad email format overwriting a missing email, then a
   * password/confirmation mismatch overwriting a missing confirmation.
   */
  function PasswordFormValidation(post: map<string, string>, lib: Libraries): (v: map<string, string>)
    ensures EmailKey in v <==> EmailKey !in post || !lib.validFormat(Peek(post, EmailKey))
    ensures EmailKey in v ==> v[EmailKey] == if lib.validFormat(Peek(post, EmailKey)) then ProvideEmail else ProvideValidEmail
    ensures PasswordKey in v <==> PasswordKey !in post
    ensures PasswordKey in v ==> v[PasswordKey] == ProvidePassword
    ensures ConfirmKey in v <==> ConfirmKey !in post || Peek(post, PasswordKey) != Peek(post, ConfirmKey)
    ensures ConfirmKey in v ==>
      v[ConfirmKey] == if Peek(post, PasswordKey) != Peek(post, ConfirmKey) then ConfirmationMismatch else ConfirmPassword
    ensures v.Keys <= {EmailKey, PasswordKey, ConfirmKey}
  {
    var v1: map<string, string> := if EmailKey !in post then map[EmailKey := ProvideEmail] else map[];
    var v2 := if PasswordKey !in post then v1[PasswordKey := ProvidePassword] else v1;
    var v3 := if ConfirmKey !in post then v2[ConfirmKey := ConfirmPassword] else v2;
    var v4 := if !lib.validFormat(Peek(post, EmailKey)) then v3[EmailKey := ProvideValidEmail] else v3;
    if Peek(post, PasswordKey) != Peek(post, ConfirmKey) then v4[ConfirmKey := ConfirmationMismatch] else v4
  }

  /** The validation steps of `Register` and `ChangePassword` up to the host check, entry by entry. */
  method ValidatePasswordForm(post: map<string, string>, lib: Libraries) returns (validationErrors: map<string, string>)
    ensures validationErrors == PasswordFormValidation(post, lib)
  {
    validationErrors := map[];
    if EmailKey !in post {
      validationErrors := validationErrors[EmailKey := ProvideEmail];
    }
    if PasswordKey !in post {
      validationErrors := validationErrors[PasswordKey := ProvidePassword];
    }
    if ConfirmKey !in post {
      validationErrors := validationErrors[ConfirmKey := ConfirmPassword];
    }
    if !lib.validFormat(Peek(post, EmailKey)) {
      validationErrors := validationErrors[EmailKey := ProvideValidEmail];
    }
    if Peek(post, PasswordKey) != Peek(post, ConfirmKey) {
      validationErrors := validationErrors[ConfirmKey := ConfirmationMismatch];
    }
  }

  /**
   * `Register`: validation, then the host check, which runs only once the
   * format checks pass. Registration itself is not implemented by the
   * source: success stores nothing.
   */
  method Register(lib: Libraries, req: Request) returns (ok: bool, errors: map<string, string>)
    ensures req.post.None? ==> !ok && errors == map[FlashKey := InvalidRequest]
    ensures req.post.Some? ==>
      var v := PasswordFormValidation(req.post.value, lib);
      if |v| > 0 then !ok && errors == v
      else if lib.unresolvableHost(Peek(req.post.value, EmailKey)) then !ok && errors == map[EmailKey := ProvideRealEmail]
      else ok && errors == map[]
  {
    if req.post.None? {
      return false, map[FlashKey := InvalidRequest];
    }
    var post := req.post.value;
    var validationErrors := ValidatePasswordForm(post, lib);
    if |validationErrors| > 0 {
      return false, validationErrors;
    }
    if lib.unresolvableHost(Peek(post, EmailKey)) {
      validationErrors := validationErrors[EmailKey := ProvideRealEmail];
    }
    if |validationErrors| > 0 {
      return false, validationErrors;
    }
    return true, map[];
  }

  /** The last user whose lower-cased email equals `email` as posted (the posted email is not lower-cased). */
  function LastLowered(users: seq<UserRecord>, email: string): (r: Option<nat>)
    ensures r.Some? ==> r.value < |users| && ToLower(users[r.value].email) == email
    ensures r.Some? ==> forall j :: r.value < j < |users| ==> ToLower(users[j].email) != email
    ensures r.None? ==> forall j :: 0 <= j < |users| ==> ToLower(users[j].email) != email
  {
    if users == [] then None
    else if ToLower(users[|users| - 1].email) == email then Some(|users| - 1)
    else LastLowered(users[..|users| - 1], email)
  }

  /** The loop of `ChangePassword` over the users: the last whose lower-cased e-mail is `email`. */
  method FindLastLowered(users: seq<UserRecord>, email: string) returns (user: Option<nat>)
    ensures user == LastLowered(users, email)
  {
    user := None;
    var i := 0;
    while i < |users|
      invariant 0 <= i <= |users|
      invariant user == LastLowered(users[..i], email)
    {
      assert users[..i + 1][..i] == users[..i];
      if ToLower(users[i].email) == email {
        user := Some(i);
      }
      i := i + 1;
    }
    assert users[..|users|] == users;
  }

  /**
   * `ChangePassword`: validation, the host check, then the last matching
   * user gets the new bcrypt hash as its password and is saved.
   * `changed` is that user, when the password was set.
   */
  method ChangePassword(p: Provider, lib: Libraries, req: Request)
    returns (ok: bool, errors: map<string, string>, changed: Option<UserRecord>)
    modifies set k | 0 <= k < |p.users| :: p.users[k]
    ensures req.post.None? ==> !ok && errors == map[FlashKey := InvalidRequest] && changed == None
    ensures req.post.Some? ==>
      var post := req.post.value;
      var v := PasswordFormValidation(post, lib);
      var email := Peek(post, EmailKey);
      if |v| > 0 then !ok && errors == v && changed == None
      else if lib.unresolvableHost(email) then !ok && errors == map[EmailKey := ProvideRealEmail] && changed == None
      else match LastLowered(p.users, email)
        case None => !ok && errors == map[EmailKey := NoSuchUser] && changed == None
        case Some(k) =>
          match lib.hashPassword(Peek(post, PasswordKey), p.hashWorkFactor)
          case None => !ok && errors == map[FlashKey := HashError] && changed == None
          case Some(hash) =>
            changed == Some(p.users[k]) && p.users[k].password == hash &&
            (ok <==> p.saveUserRecord(p.users[k])) &&
            errors == if ok then map[] else map[FlashKey := SaveError]
    ensures changed.None? ==> forall k :: 0 <= k < |p.users| ==> p.users[k].password == old(p.users[k].password)
    ensures changed.Some? ==> forall k :: 0 <= k < |p.users| && p.users[k] != changed.value ==>
      p.users[k].password == old(p.users[k].password)
  {
    if req.post.None? {
      return false, map[FlashKey := InvalidRequest], None;
    }
    var post := req.post.value;
    var validationErrors := ValidatePasswordForm(post, lib);
    if |validationErrors| > 0 {
      return false, validationErrors, None;
    }
    var email := Peek(post, EmailKey);
    if lib.unresolvableHost(email) {
      validationErrors := validationErrors[EmailKey := ProvideRealEmail];
      return false, validationErrors, None;
    }
    var user := FindLastLowered(p.users, email);
    if user.None? {
      validationErrors := validationErrors[EmailKey := NoSuchUser];
      return false, validationErrors, None;
    }
    var password := lib.hashPassword(Peek(post, PasswordKey), p.hashWorkFactor);
    if password.None? {
      validationErrors := validationErrors[FlashKey := HashError];
      return false, validationErrors, None;
    }
    var u := p.users[user.value];
    u.SetPassword(password.value);
    if !p.saveUserRecord(u) {
      validationErrors := validationErrors[FlashKey := SaveError];
      return false, validationErrors, Some(u);
    }
    return true, map[], Some(u);
  }

  /**
   * Unlike `Login`, which compares emails case-insensitively, the password
   * change compares the lower-cased stored email with the posted email as
   * it is: a posted address with an upper-case letter finds no user, even
   * one `Login` accepts.
   */
  lemma ChangePasswordIsCaseSensitive(users: seq<UserRecord>, email: string, i: nat)
    requires i < |email| && 'A' <= email[i] <= 'Z'
    ensures LastLowered(users, email) == None
  {
    forall j | 0 <= j < |users| ensures ToLower(users[j].email) != email {
      var lowered := ToLower(users[j].email);
      if |lowered| == |email| {
        assert lowered[i] == LowerChar(users[j].email[i]);
        assert !('A' <= lowered[i] <= 'Z');
      }
    }
  }

  /** `Login` finds a user by an email that differs from the stored one only in case. */
  lemma LoginIgnoresCase(users: seq<UserRecord>, k: nat)
    requires k < |users| && forall j :: 0 <= j < k ==> !EqualFold(users[j].email, ToLower(users[k].email))
    ensures FirstEmail(users, ToLower(users[k].email)) == Some(k)
  {
    var e := users[k].email;
    assert ToLower(ToLower(e)) == ToLower(e);
    FirstEmailIs(users, ToLower(e), k);
  }
}
