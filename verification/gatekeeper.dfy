/** The request gate in front of every API and admin-page request
    (middleware.ts, lines 29-84): rate limiting by path policy, a coarse
    session-cookie presence check for admin pages, and security headers. */
module Gatekeeper {
  import opened Common
  import opened Responses
  import opened RateLimit

  /** The address every client without a forwarding header is counted under. */
  const AnonymousClient := "unknown"

  /** Client identity: `x-forwarded-for`, else `x-real-ip`, else "unknown"
      (an empty header value counts as absent). Never empty. */
  function ClientId(forwardedFor: Option<string>, realIp: Option<string>): (ip: string)
    ensures ip != ""
    ensures Truthy(forwardedFor) ==> ip == forwardedFor.value
    ensures !Truthy(forwardedFor) && Truthy(realIp) ==> ip == realIp.value
    ensures !Truthy(forwardedFor) && !Truthy(realIp) ==> ip == AnonymousClient
  {
    if Truthy(forwardedFor) then forwardedFor.value
    else if Truthy(realIp) then realIp.value
    else AnonymousClient
  }

  /** All clients that send neither header share one budget per path. */
  lemma AnonymousClientsShareBudget(f1: Option<string>, r1: Option<string>, f2: Option<string>, r2: Option<string>, path: string)
    requires !Truthy(f1) && !Truthy(r1) && !Truthy(f2) && !Truthy(r2)
    ensures Key(ClientId(f1, r1), path) == Key(ClientId(f2, r2), path)
  {
  }

  /** One row of the rate-limit policy table. */
  datatype Policy = Policy(maxRequests: int, windowMs: int, message: string)

  const LoginPolicy := Policy(5, 15 * 60 * 1000, "Too many login attempts. Please try again later.")
  const ApplicationsPolicy := Policy(10, 60 * 60 * 1000, "Too many application submissions. Please try again later.")
  const GeneralPolicy := Policy(100, 15 * 60 * 1000, "Too many requests. Please try again later.")

  /** The policy of a path, by ordered prefix tests; only `/api/` paths
      are rate limited. */
  function PolicyFor(path: string): (p: Option<Policy>)
    ensures p.Some? <==> StartsWith(path, "/api/")
    ensures p.Some? ==> p.value.maxRequests >= 1 && p.value.windowMs > 0
  {
    if !StartsWith(path, "/api/") then None
    else if StartsWith(path, "/api/admin/login") then Some(LoginPolicy)
    else if StartsWith(path, "/api/applications") then Some(ApplicationsPolicy)
    else Some(GeneralPolicy)
  }

  /** The policy table, row by row: login endpoints 5 per 15 minutes,
      application submissions 10 per hour, any other API path 100 per 15
      minutes. */
  lemma PolicyTable(path: string)
    ensures StartsWith(path, "/api/admin/login") ==>
      PolicyFor(path) == Some(Policy(5, 900000, "Too many login attempts. Please try again later."))
    ensures StartsWith(path, "/api/applications") ==>
      PolicyFor(path) == Some(Policy(10, 3600000, "Too many application submissions. Please try again later."))
    ensures StartsWith(path, "/api/") && !StartsWith(path, "/api/admin/login") && !StartsWith(path, "/api/applications") ==>
      PolicyFor(path) == Some(Policy(100, 900000, "Too many requests. Please try again later."))
  {
    if StartsWith(path, "/api/admin/login") {
      PrefixTransitive(path, "/api/admin/login", "/api/");
    }
    if StartsWith(path, "/api/applications") {
      PrefixTransitive(path, "/api/applications", "/api/");
      PrefixesExclude(path, "/api/applications", "/api/admin/login", 6);
    }
  }

  /** The login page and everything under it is exempt by prefix. */
  const LoginPage := "/admin/login"

  /** Admin pages that require a session cookie: prefix `/admin` but not
      prefix `/admin/login`. */
  predicate Protected(path: string)
  {
    StartsWith(path, "/admin") && !StartsWith(path, LoginPage)
  }

  /** The four fixed headers added to every forwarded request. */
  function SecurityHeaders(): (h: map<string, string>)
    ensures h.Keys == {"X-Content-Type-Options", "X-Frame-Options", "X-XSS-Protection", "Referrer-Policy"}
    ensures h["X-Content-Type-Options"] == "nosniff"
    ensures h["X-Frame-Options"] == "DENY"
    ensures h["X-XSS-Protection"] == "1; mode=block"
    ensures h["Referrer-Policy"] == "strict-origin-when-cross-origin"
  {
    map[
      "X-Content-Type-Options" := "nosniff",
      "X-Frame-Options" := "DENY",
      "X-XSS-Protection" := "1; mode=block",
      "Referrer-Policy" := "strict-origin-when-cross-origin"
    ]
  }

  /** What happens once the rate limit has let the request through:
      a protected admin page without a truthy `admin_token` cookie is
      redirected to the login page; everything else is forwarded with the
      security headers. Only the cookie's presence is checked. */
  function Forward(path: string, adminToken: Option<string>): (r: Response)
    ensures r.Redirect? <==> Protected(path) && !Truthy(adminToken)
    ensures r.Redirect? ==> r.location == LoginPage
    ensures r.Next? ==> r.headers == SecurityHeaders()
    ensures r.Next? || r.Redirect?
  {
    if Protected(path) && !Truthy(adminToken) then Redirect(LoginPage)
    else Next(SecurityHeaders())
  }

  /** An API path is never a protected admin page, so a request that
      passes its rate limit is always forwarded with the headers. */
  lemma ApiPathsAreForwarded(path: string, adminToken: Option<string>)
    requires StartsWith(path, "/api/")
    ensures Forward(path, adminToken) == Next(SecurityHeaders())
  {
    PrefixesExclude(path, "/api/", "/admin", 2);
  }

  /** `middleware`: the clock is the parameter `now`, the request headers
      and the cookie are parameters, and the limiter is the process-wide map. */
  method Middleware(limiter: RateLimiter, forwardedFor: Option<string>, realIp: Option<string>,
                    path: string, adminToken: Option<string>, now: int) returns (r: Response)
    modifies limiter
    ensures PolicyFor(path).None? ==> limiter.store == old(limiter.store) && r == Forward(path, adminToken)
    ensures PolicyFor(path).Some? ==>
      var p := PolicyFor(path).value;
      var a := Admit(old(limiter.store), Key(ClientId(forwardedFor, realIp), path), p.maxRequests, p.windowMs, now);
      limiter.store == a.store && r == (if a.allowed then Forward(path, adminToken) else Json(429, p.message))
  {
    var ip := ClientId(forwardedFor, realIp);
    var policy := PolicyFor(path);
    if policy.Some? {
      var allowed := limiter.Check(ip, path, policy.value.maxRequests, policy.value.windowMs, now);
      if !allowed {
        return Json(429, policy.value.message);
      }
    }
    r := Forward(path, adminToken);
  }

  /** Five login attempts from one client on one login path within one
      window are let through and the sixth is refused, under the limits the
      gate picks for that path. */
  lemma LoginBurst(ip: string, path: string, t: int)
    requires StartsWith(path, "/api/admin/login")
    ensures var p := PolicyFor(path).value;
      Replay(map[], Key(ip, path), p.maxRequests, p.windowMs, [t, t, t, t, t, t]).outcomes
        == [true, true, true, true, true, false]
  {
    PolicyTable(path);
    var p := PolicyFor(path).value;
    var nows := [t, t, t, t, t, t];
    WindowBudget(map[], Key(ip, path), p.maxRequests, p.windowMs, nows);
  }

  /** As long as client addresses contain no '/', a key always belongs to
      one path and so is always checked against the same policy row. A
      client-supplied `x-forwarded-for` can break this: see
      KeyCollisionAcrossPolicies. */
  lemma KeyDeterminesPolicy(ip1: string, path1: string, ip2: string, path2: string)
    requires '/' !in ip1 && '/' !in ip2
    requires StartsWith(path1, "/api/") && StartsWith(path2, "/api/")
    requires Key(ip1, path1) == Key(ip2, path2)
    ensures PolicyFor(path1) == PolicyFor(path2)
  {
    KeyInjective(ip1, path1, ip2, path2);
  }

  /** A forwarded-for value containing "/" can make two different
      (address, path) pairs under two different policy rows share one key:
      the address `ip + ":" + p1` on a login path `p2`, and the address `ip`
      on the submissions path `p1 + ":" + p2`. */
  lemma KeyCollisionAcrossPolicies(ip: string, p1: string, p2: string)
    requires StartsWith(p1, "/api/applications") && StartsWith(p2, "/api/admin/login")
    ensures Key(ip + ":" + p1, p2) == Key(ip, p1 + ":" + p2)
    ensures PolicyFor(p2) == Some(LoginPolicy)
    ensures PolicyFor(p1 + ":" + p2) == Some(ApplicationsPolicy)
  {
    assert (ip + ":" + p1) + ":" + p2 == ip + ":" + (p1 + ":" + p2);
    PrefixExtend(p1, ":" + p2, "/api/applications");
    assert p1 + ":" + p2 == p1 + (":" + p2);
    PolicyTable(p2);
    PolicyTable(p1 + ":" + p2);
  }
}
