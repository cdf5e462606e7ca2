/**
 * The authentication container of cbwebauth/auth.go: an ordered list of
 * providers, the middleware that lets a request through when some provider
 * accepts it, and the dispatchers that forward a call to the provider with a
 * given name.
 *
 * A provider is modelled by the answers it gives to the current request.
 */
module AuthContainer {
  import opened Wrappers
  import opened Http

  /** The permission every authenticated user is granted; its text is defined outside this model. */
  const LoggedIn: string
  /** The permission granted while no provider has authenticated the request; its text is defined outside this model. */
  const LoggedOut: string

  const NoProvidersMessage := "no auth providers configured"
  const NotFoundMessage := "auth provider not found"

  /** The success flag and the user-facing errors of `Login` or `Register`. */
  datatype Answer = Answer(ok: bool, errors: seq<string>)

  datatype Provider = Provider(name: string, uniqueIdentifier: string, authenticated: bool,
                               login: Answer, logout: bool, register: Answer, permissions: seq<string>)

  datatype Container = Container(providers: seq<Provider>, unauthorisedRedirectUri: string, logoutRedirectUri: string)

  // ------------------------------------------------------------------
  // The middleware
  // ------------------------------------------------------------------

  /** The first provider that accepts the request: already authenticated, or logging in successfully. */
  function FirstAccepting(ps: seq<Provider>): (r: Option<nat>)
    ensures r.Some? ==> r.value < |ps| && (ps[r.value].authenticated || ps[r.value].login.ok)
    ensures r.Some? ==> forall j :: 0 <= j < r.value ==> !ps[j].authenticated && !ps[j].login.ok
    ensures r.None? ==> forall j :: 0 <= j < |ps| ==> !ps[j].authenticated && !ps[j].login.ok
  {
    if ps == [] then None
    else if ps[0].authenticated || ps[0].login.ok then Some(0)
    else match FirstAccepting(ps[1..])
      case Some(k) => Some(k + 1)
      case None => None
  }

  /** How many providers the middleware consults: up to and including the first that accepts. */
  function Tried(ps: seq<Provider>): (n: nat)
    ensures n <= |ps|
  {
    match FirstAccepting(ps)
    case Some(k) => k + 1
    case None => |ps|
  }

  /** The indices below `n` of the providers that are not authenticated, in order: those asked to log in. */
  function Unauthenticated(ps: seq<Provider>, n: nat): (r: seq<nat>)
    requires n <= |ps|
  {
    if n == 0 then [] else Unauthenticated(ps, n - 1) + (if ps[n - 1].authenticated then [] else [n - 1])
  }

  /** Exactly the providers below `n` that are not authenticated are asked to log in. */
  lemma {:induction false} UnauthenticatedMembers(ps: seq<Provider>, n: nat)
    requires n <= |ps|
    ensures forall k :: k in Unauthenticated(ps, n) <==> 0 <= k < n && !ps[k].authenticated
  {
    if n > 0 {
      UnauthenticatedMembers(ps, n - 1);
    }
  }

  /**
   * `AuthMiddleware`: with no providers the request passes. Otherwise the
   * providers are tried in order, `Login` being called on each one that is
   * not authenticated (`logins` lists them), until one accepts. When none
   * does, the request is redirected if a redirect URI is configured.
   */
  method AuthMiddleware(c: Container, ctx: Ctx) returns (ok: bool, err: Option<string>, out: Ctx, logins: seq<nat>)
    ensures err == None
    ensures c.providers == [] ==> ok && out == ctx && logins == []
    ensures c.providers != [] ==> (ok <==> FirstAccepting(c.providers).Some?)
    ensures logins == Unauthenticated(c.providers, Tried(c.providers))
    ensures out == if ok || c.unauthorisedRedirectUri == "" then ctx else Redirect(ctx, c.unauthorisedRedirectUri, Found)
  {
    logins := [];
    if |c.providers| == 0 {
      return true, None, ctx, logins;
    }
    var i := 0;
    while i < |c.providers|
      invariant 0 <= i <= |c.providers|
      invariant forall j :: 0 <= j < i ==> !c.providers[j].authenticated && !c.providers[j].login.ok
      invariant logins == Unauthenticated(c.providers, i)
    {
      var provider := c.providers[i];
      if provider.authenticated {
        FirstAcceptingIs(c.providers, i);
        assert logins == Unauthenticated(c.providers, i + 1);
        return true, None, ctx, logins;
      } else {
        logins := logins + [i];
        if provider.login.ok {
          FirstAcceptingIs(c.providers, i);
          return true, None, ctx, logins;
        }
      }
      i := i + 1;
    }
    FirstAcceptingIs(c.providers, |c.providers|);
    out := ctx;
    if c.unauthorisedRedirectUri != "" {
      out := Redirect(ctx, c.unauthorisedRedirectUri, Found);
    }
    return false, None, out, logins;
  }

  /** `FirstAccepting` is the index where a provider first accepts, `None` when none does. */
  lemma FirstAcceptingIs(ps: seq<Provider>, k: nat)
    requires k <= |ps|
    requires forall j :: 0 <= j < k ==> !ps[j].authenticated && !ps[j].login.ok
    requires k < |ps| ==> ps[k].authenticated || ps[k].login.ok
    ensures FirstAccepting(ps) == if k < |ps| then Some(k) else None
    ensures Tried(ps) == if k < |ps| then k + 1 else |ps|
  {
    var r := FirstAccepting(ps);
    if r.Some? {
      assert r.value >= k;
    }
  }

  /** Logins are attempted in provider order, each provider at most once. */
  lemma {:induction false} UnauthenticatedInOrder(ps: seq<Provider>, n: nat)
    requires n <= |ps|
    ensures forall i, j :: 0 <= i < j < |Unauthenticated(ps, n)| ==> Unauthenticated(ps, n)[i] < Unauthenticated(ps, n)[j]
  {
    if n > 0 {
      UnauthenticatedInOrder(ps, n - 1);
      UnauthenticatedMembers(ps, n - 1);
      var before := Unauthenticated(ps, n - 1);
      forall i | 0 <= i < |before| ensures before[i] < n - 1 {
        assert before[i] in before;
      }
    }
  }

  /** Login is only ever asked of providers that are not authenticated, and never after the one that accepts. */
  lemma LoginOnlyWhenNeeded(ps: seq<Provider>, n: nat, k: nat)
    requires n <= |ps|
    requires k in Unauthenticated(ps, n)
    ensures k < n && !ps[k].authenticated
  {
    UnauthenticatedMembers(ps, n);
  }

  // ------------------------------------------------------------------
  // Dispatch by provider name
  // ------------------------------------------------------------------

  /** The first provider with the given name. */
  function FirstNamed(ps: seq<Provider>, name: string): (r: Option<nat>)
    ensures r.Some? ==> r.value < |ps| && ps[r.value].name == name
    ensures r.Some? ==> forall j :: 0 <= j < r.value ==> ps[j].name != name
    ensures r.None? ==> forall j :: 0 <= j < |ps| ==> ps[j].name != name
  {
    if ps == [] then None
    else if ps[0].name == name then Some(0)
    else match FirstNamed(ps[1..], name)
      case Some(k) => Some(k + 1)
      case None => None
  }

  /** The search loop of every dispatcher: the index of the first provider named `name`. */
  method Find(c: Container, name: string) returns (found: Option<nat>)
    ensures found == FirstNamed(c.providers, name)
  {
    var i := 0;
    while i < |c.providers|
      invariant 0 <= i <= |c.providers|
      invariant forall j :: 0 <= j < i ==> c.providers[j].name != name
    {
      if c.providers[i].name == name {
        FirstNamedIs(c.providers, name, i);
        return Some(i);
      }
      i := i + 1;
    }
    FirstNamedIs(c.providers, name, |c.providers|);
    return None;
  }

  /** `FirstNamed` is the index where a name first occurs, `None` when nowhere. */
  lemma FirstNamedIs(ps: seq<Provider>, name: string, k: nat)
    requires k <= |ps|
    requires forall j :: 0 <= j < k ==> ps[j].name != name
    requires k < |ps| ==> ps[k].name == name
    ensures FirstNamed(ps, name) == if k < |ps| then Some(k) else None
  {
    var r := FirstNamed(ps, name);
    if r.Some? {
      assert r.value >= k;
    }
  }

  method GetUniqueIdentifier(c: Container, providerName: string) returns (id: string, err: Option<string>)
    ensures c.providers == [] ==> id == "" && err == Some(NoProvidersMessage)
    ensures c.providers != [] ==> match FirstNamed(c.providers, providerName)
      case Some(k) => id == c.providers[k].uniqueIdentifier && err == None
      case None => id == "" && err == Some(NotFoundMessage)
  {
    if |c.providers| == 0 {
      return "", Some(NoProvidersMessage);
    }
    var found := Find(c, providerName);
    if found.Some? {
      return c.providers[found.value].uniqueIdentifier, None;
    }
    return "", Some(NotFoundMessage);
  }

  method IsAuthenticated(c: Container, providerName: string) returns (authenticated: bool, err: Option<string>)
    ensures c.providers == [] ==> authenticated && err == Some(NoProvidersMessage)
    ensures c.providers != [] ==> match FirstNamed(c.providers, providerName)
      case Some(k) => authenticated == c.providers[k].authenticated && err == None
      case None => !authenticated && err == Some(NotFoundMessage)
  {
    if |c.providers| == 0 {
      return true, Some(NoProvidersMessage);
    }
    var found := Find(c, providerName);
    if found.Some? {
      return c.providers[found.value].authenticated, None;
    }
    return false, Some(NotFoundMessage);
  }

  method Login(c: Container, providerName: string) returns (success: bool, err: Option<string>, userErrors: seq<string>)
    ensures c.providers == [] ==> success && err == Some(NoProvidersMessage) && userErrors == []
    ensures c.providers != [] ==> match FirstNamed(c.providers, providerName)
      case Some(k) => success == c.providers[k].login.ok && err == None && userErrors == c.providers[k].login.errors
      case None => !success && err == Some(NotFoundMessage) && userErrors == []
  {
    if |c.providers| == 0 {
      return true, Some(NoProvidersMessage), [];
    }
    var found := Find(c, providerName);
    if found.Some? {
      var answer := c.providers[found.value].login;
      return answer.ok, None, answer.errors;
    }
    return false, Some(NotFoundMessage), [];
  }

  method Register(c: Container, providerName: string) returns (success: bool, err: Option<string>, userErrors: seq<string>)
    ensures c.providers == [] ==> success && err == Some(NoProvidersMessage) && userErrors == []
    ensures c.providers != [] ==> match FirstNamed(c.providers, providerName)
      case Some(k) => success == c.providers[k].register.ok && err == None && userErrors == c.providers[k].register.errors
      case None => !success && err == Some(NotFoundMessage) && userErrors == []
  {
    if |c.providers| == 0 {
      return true, Some(NoProvidersMessage), [];
    }
    var found := Find(c, providerName);
    if found.Some? {
      var answer := c.providers[found.value].register;
      return answer.ok, None, answer.errors;
    }
    return false, Some(NotFoundMessage), [];
  }

  /** `Logout`: the provider's answer; a redirect only when the provider is found and a logout URI is configured. */
  method Logout(c: Container, providerName: string, ctx: Ctx) returns (ok: bool, err: Option<string>, out: Ctx)
    ensures c.providers == [] ==> ok && err == Some(NoProvidersMessage) && out == ctx
    ensures c.providers != [] ==> match FirstNamed(c.providers, providerName)
      case Some(k) =>
        ok == c.providers[k].logout && err == None &&
        out == if c.logoutRedirectUri != "" then Redirect(ctx, c.logoutRedirectUri, Found) else ctx
      case None => !ok && err == Some(NotFoundMessage) && out == ctx
  {
    if |c.providers| == 0 {
      return true, Some(NoProvidersMessage), ctx;
    }
    var found := Find(c, providerName);
    if found.Some? {
      ok := c.providers[found.value].logout;
      out := ctx;
      if c.logoutRedirectUri != "" {
        out := Redirect(ctx, c.logoutRedirectUri, Found);
      }
      return ok, None, out;
    }
    return false, Some(NotFoundMessage), ctx;
  }

  /** A provider that shadows a later one with the same name: dispatch never reaches the later one. */
  lemma EarlierNameShadows(ps: seq<Provider>, i: nat, j: nat)
    requires i < j < |ps| && ps[i].name == ps[j].name
    ensures FirstNamed(ps, ps[j].name).Some? && FirstNamed(ps, ps[j].name).value <= i
  {
  }
}
