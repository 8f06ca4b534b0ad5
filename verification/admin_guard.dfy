/** The verifying admin-page guard (app/middleware.ts): a pure decision
    from the path, the `admin_token` cookie and the token verifier to
    forward or redirect. The verifier (JWT signature and expiry check) is a
    parameter: it yields the token's claims, or None for an invalid or
    expired token. */
module AdminGuard {
  import opened Common
  import opened Responses
  import Gatekeeper

  /** `middleware` of app/middleware.ts. Its forwarded response carries no
      extra headers. */
  function Guard(path: string, adminToken: Option<string>, verify: string -> Option<Payload>): (r: Response)
    ensures r == Next(map[]) || r == Redirect(Gatekeeper.LoginPage)
  {
    if !StartsWith(path, "/admin") then Next(map[])
    else if path == Gatekeeper.LoginPage then Next(map[])
    else if !Truthy(adminToken) then Redirect(Gatekeeper.LoginPage)
    else if verify(adminToken.value).None? then Redirect(Gatekeeper.LoginPage)
    else Next(map[])
  }

  /** Paths outside `/admin` are always forwarded. */
  lemma OutsideAdminForwarded(path: string, adminToken: Option<string>, verify: string -> Option<Payload>)
    requires !StartsWith(path, "/admin")
    ensures Guard(path, adminToken, verify) == Next(map[])
  {
  }

  /** The login page itself is forwarded whatever the cookie, so the guard
      never redirects the login page to itself. */
  lemma LoginPageNeverRedirected(adminToken: Option<string>, verify: string -> Option<Payload>)
    ensures Guard(Gatekeeper.LoginPage, adminToken, verify) == Next(map[])
  {
  }

  /** A guarded page: under `/admin` and not exactly the login page. */
  predicate Guarded(path: string)
  {
    StartsWith(path, "/admin") && path != Gatekeeper.LoginPage
  }

  /** Without a (non-empty) cookie a guarded page is redirected to the
      login page, and the verifier is not consulted: the outcome is the same
      for every verifier. */
  lemma MissingTokenRedirects(path: string, adminToken: Option<string>, verify1: string -> Option<Payload>, verify2: string -> Option<Payload>)
    requires !Truthy(adminToken)
    ensures Guard(path, adminToken, verify1) == Guard(path, adminToken, verify2)
    ensures Guarded(path) ==> Guard(path, adminToken, verify1) == Redirect(Gatekeeper.LoginPage)
  {
  }

  /** A token the verifier rejects is treated exactly like a missing one:
      invalid and expired credentials are not distinguished from absence. */
  lemma InvalidTokenLikeMissing(path: string, token: string, verify: string -> Option<Payload>)
    requires verify(token).None?
    ensures Guard(path, Some(token), verify) == Guard(path, None, verify)
  {
  }

  /** A guarded page is forwarded exactly when a non-empty cookie is
      present and the verifier accepts it. */
  lemma GuardedNeedsVerifiedToken(path: string, adminToken: Option<string>, verify: string -> Option<Payload>)
    requires Guarded(path)
    ensures Guard(path, adminToken, verify).Next? <==> Truthy(adminToken) && verify(adminToken.value).Some?
  {
  }

  /** First difference from the root gate (middleware.ts): the root gate
      only checks that the cookie is present, so on a guarded page a token
      the verifier rejects is forwarded there and redirected here. */
  lemma PresenceVersusVerification(path: string, token: string, verify: string -> Option<Payload>)
    requires Gatekeeper.Protected(path) && token != "" && verify(token).None?
    ensures Gatekeeper.Forward(path, Some(token)) == Next(Gatekeeper.SecurityHeaders())
    ensures Guard(path, Some(token), verify) == Redirect(Gatekeeper.LoginPage)
  {
  }

  /** Second difference: the root gate exempts every path that starts with
      `/admin/login`, this guard only the login page itself, so a deeper
      path under it without a valid token is forwarded by the root gate and
      redirected here. */
  lemma PrefixVersusExactExemption(path: string, adminToken: Option<string>, verify: string -> Option<Payload>)
    requires StartsWith(path, Gatekeeper.LoginPage) && path != Gatekeeper.LoginPage
    requires !Truthy(adminToken) || verify(adminToken.value).None?
    ensures Gatekeeper.Forward(path, adminToken) == Next(Gatekeeper.SecurityHeaders())
    ensures Guard(path, adminToken, verify) == Redirect(Gatekeeper.LoginPage)
  {
    PrefixTransitive(path, Gatekeeper.LoginPage, "/admin");
  }
}
