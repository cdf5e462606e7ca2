/**
 * Access control of cbwebauth/acl.go: a request is permitted when some
 * provider's permissions, together with the base permission of the request,
 * share an element with the allowed list, compared case-insensitively.
 */
module Acl {
  import opened Wrappers
  import opened GoStrings
  import opened Http
  import opened AuthContainer

  const AclDeniedUriPlaceholder := ":acl_denied_uri:"

  /** An ACL over an optional auth container (Go's nil `*Container` is `None`). */
  datatype Acl = Acl(auth: Option<Container>)

  /** Some allowed permission equals some user permission after lower-casing. */
  predicate Intersects(userPermissions: seq<string>, permittedPermissions: seq<string>) {
    exists i, j :: 0 <= i < |permittedPermissions| && 0 <= j < |userPermissions| &&
      EqualFold(permittedPermissions[i], userPermissions[j])
  }

  /** `Permitted`: the nested search, returning at the first case-insensitive match. */
  method Permitted(userPermissions: seq<string>, permittedPermissions: seq<string>) returns (permitted: bool)
    ensures permitted <==> Intersects(userPermissions, permittedPermissions)
  {
    var i := 0;
    while i < |permittedPermissions|
      invariant 0 <= i <= |permittedPermissions|
      invariant forall a, b :: 0 <= a < i && 0 <= b < |userPermissions| ==>
        !EqualFold(permittedPermissions[a], userPermissions[b])
    {
      var allow := permittedPermissions[i];
      var j := 0;
      while j < |userPermissions|
        invariant 0 <= j <= |userPermissions|
        invariant forall b :: 0 <= b < j ==> !EqualFold(allow, userPermissions[b])
      {
        if ToLower(allow) == ToLower(userPermissions[j]) {
          return true;
        }
        j := j + 1;
      }
      i := i + 1;
    }
    return false;
  }

  /** Matching is symmetric in its two lists, and nothing matches an empty list. */
  lemma IntersectsSymmetric(u: seq<string>, p: seq<string>)
    ensures Intersects(u, p) <==> Intersects(p, u)
    ensures u == [] || p == [] ==> !Intersects(u, p)
  {
    if Intersects(u, p) {
      var i, j :| 0 <= i < |p| && 0 <= j < |u| && EqualFold(p[i], u[j]);
      EqualFoldIsEquivalence(p[i], u[j], u[j]);
      assert EqualFold(u[j], p[i]);
    }
    if Intersects(p, u) {
      var i, j :| 0 <= i < |u| && 0 <= j < |p| && EqualFold(u[i], p[j]);
      EqualFoldIsEquivalence(u[i], p[j], p[j]);
      assert EqualFold(p[j], u[i]);
    }
  }

  /** Matching a concatenation is matching either part. */
  lemma IntersectsAppend(a: seq<string>, b: seq<string>, p: seq<string>)
    ensures Intersects(a + b, p) <==> Intersects(a, p) || Intersects(b, p)
  {
    if Intersects(a + b, p) {
      var i, j :| 0 <= i < |p| && 0 <= j < |a + b| && EqualFold(p[i], (a + b)[j]);
      if j >= |a| {
        assert (a + b)[j] == b[j - |a|];
      }
    }
    if Intersects(a, p) {
      var i, j :| 0 <= i < |p| && 0 <= j < |a| && EqualFold(p[i], a[j]);
      assert (a + b)[j] == a[j];
    }
    if Intersects(b, p) {
      var i, j :| 0 <= i < |p| && 0 <= j < |b| && EqualFold(p[i], b[j]);
      assert (a + b)[|a| + j] == b[j];
    }
  }

  /** Whether some provider has authenticated the request. */
  predicate AnyAuthenticated(ps: seq<Provider>) {
    exists k :: 0 <= k < |ps| && ps[k].authenticated
  }

  /** The base permission list: `[LoggedOut]` until some provider authenticates the request, then empty. */
  function BasePermissions(ps: seq<Provider>): seq<string> {
    if AnyAuthenticated(ps) then [] else [LoggedOut]
  }

  /** Some provider's permissions, with the base list in front, match the allowed list. */
  predicate PermittedBy(ps: seq<Provider>, permittedPermissions: seq<string>) {
    exists k :: 0 <= k < |ps| && Intersects(BasePermissions(ps) + ps[k].permissions, permittedPermissions)
  }

  /**
   * `PermittedCtx`: everything is permitted without an auth container;
   * otherwise the base list is computed from every provider, and the
   * providers are then tried in order.
   */
  method PermittedCtx(a: Acl, permittedPermissions: seq<string>) returns (permitted: bool)
    ensures a.auth.None? ==> permitted
    ensures a.auth.Some? ==> (permitted <==> PermittedBy(a.auth.value.providers, permittedPermissions))
  {
    if a.auth.None? {
      return true;
    }
    var ps := a.auth.value.providers;
    var permissions := [LoggedOut];
    var i := 0;
    while i < |ps|
      invariant 0 <= i <= |ps|
      invariant permissions == if exists k :: 0 <= k < i && ps[k].authenticated then [] else [LoggedOut]
    {
      if ps[i].authenticated {
        permissions := [];
      }
      i := i + 1;
    }
    assert permissions == BasePermissions(ps);
    i := 0;
    while i < |ps|
      invariant 0 <= i <= |ps|
      invariant forall k :: 0 <= k < i ==> !Intersects(permissions + ps[k].permissions, permittedPermissions)
    {
      var ok := Permitted(permissions + ps[i].permissions, permittedPermissions);
      if ok {
        return true;
      }
      i := i + 1;
    }
    return false;
  }

  /** With an auth container and no providers, nothing is permitted. */
  lemma NoProvidersDenies(permittedPermissions: seq<string>)
    ensures !PermittedBy([], permittedPermissions)
  {
  }

  /**
   * `LoggedOut` grants access only while no provider has authenticated the
   * request; once one has, each provider counts by its own permissions alone.
   */
  lemma BaseGrantsLoggedOut(ps: seq<Provider>, permittedPermissions: seq<string>)
    requires ps != []
    ensures !AnyAuthenticated(ps) && Intersects([LoggedOut], permittedPermissions) ==> PermittedBy(ps, permittedPermissions)
    ensures AnyAuthenticated(ps) ==> (PermittedBy(ps, permittedPermissions) <==>
      exists k :: 0 <= k < |ps| && Intersects(ps[k].permissions, permittedPermissions))
  {
    if !AnyAuthenticated(ps) && Intersects([LoggedOut], permittedPermissions) {
      IntersectsAppend([LoggedOut], ps[0].permissions, permittedPermissions);
    }
    if AnyAuthenticated(ps) {
      forall k | 0 <= k < |ps| ensures BasePermissions(ps) + ps[k].permissions == ps[k].permissions {
      }
    }
  }

  /** The redirect target on denial: every placeholder replaced by the request URI, in one pass. */
  function DeniedRedirect(redirect: string, requestUri: string): (r: string)
    ensures !Contains(redirect, AclDeniedUriPlaceholder) ==> r == redirect
    ensures redirect == AclDeniedUriPlaceholder ==> r == requestUri
  {
    var pairs := [Replacement(AclDeniedUriPlaceholder, requestUri)];
    if !Contains(redirect, AclDeniedUriPlaceholder) then
      ReplaceNoOccurrence(redirect, pairs);
      Replace(redirect, pairs)
    else
      assert HasPrefix(AclDeniedUriPlaceholder, pairs[0].pattern);
      assert AclDeniedUriPlaceholder[|AclDeniedUriPlaceholder|..] == [];
      Replace(redirect, pairs)
  }

  /** A redirect with no placeholder in it is used as it is. */
  lemma DeniedRedirectWithoutPlaceholder(redirect: string, requestUri: string)
    requires !Contains(redirect, AclDeniedUriPlaceholder)
    ensures DeniedRedirect(redirect, requestUri) == redirect
  {
  }

  /** A redirect that is exactly the placeholder sends the user back to the requested URI. */
  lemma DeniedRedirectToRequest(requestUri: string)
    ensures DeniedRedirect(AclDeniedUriPlaceholder, requestUri) == requestUri
  {
  }

  /**
   * Every placeholder is replaced: the text before the first one is kept, the
   * placeholder becomes the request URI, and the rest is treated the same way.
   * With DeniedRedirectWithoutPlaceholder this fixes the result for every redirect.
   */
  lemma DeniedRedirectReplacesFirst(a: string, b: string, requestUri: string)
    requires forall i :: 0 <= i < |a| ==> !HasPrefix((a + AclDeniedUriPlaceholder + b)[i..], AclDeniedUriPlaceholder)
    ensures DeniedRedirect(a + AclDeniedUriPlaceholder + b, requestUri) == a + requestUri + DeniedRedirect(b, requestUri)
  {
    var pairs := [Replacement(AclDeniedUriPlaceholder, requestUri)];
    var rest := AclDeniedUriPlaceholder + b;
    assert a + AclDeniedUriPlaceholder + b == a + rest;
    forall i | 0 <= i < |a| ensures PairAt((a + rest)[i..], pairs) == None {
      assert !HasPrefix((a + rest)[i..], pairs[0].pattern);
    }
    ReplaceCopiesPrefix(a, rest, pairs);
    assert rest[..|AclDeniedUriPlaceholder|] == AclDeniedUriPlaceholder;
    assert HasPrefix(rest, pairs[0].pattern);
    ReplaceSubstitutes(0, b, pairs);
  }

  /**
   * The middleware `Middleware(permittedPermissions, redirect)` returns, run
   * on one request: it lets the request through when there is no auth
   * container or the request is permitted; otherwise it redirects (when a
   * redirect is configured) and stops the request. It never fails.
   */
  method Middleware(a: Acl, permittedPermissions: seq<string>, redirect: string, ctx: Ctx)
    returns (ok: bool, err: Option<string>, out: Ctx)
    ensures err == None
    ensures ok <==> a.auth.None? || PermittedBy(a.auth.value.providers, permittedPermissions)
    ensures out == if ok || redirect == "" then ctx
                   else Redirect(ctx, DeniedRedirect(redirect, ctx.requestUri), Found)
  {
    if a.auth.None? {
      return true, None, ctx;
    }
    var permitted := PermittedCtx(a, permittedPermissions);
    if permitted {
      return true, None, ctx;
    }
    out := ctx;
    if redirect != "" {
      out := Redirect(ctx, Replace(redirect, [Replacement(AclDeniedUriPlaceholder, ctx.requestUri)]), Found);
    }
    return false, None, out;
  }
}
