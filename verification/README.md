# Request gatekeeping of a job board, modelled in Dafny

The job board is a Next.js application. It has public job listings, a public
application form and an admin portal. This project models the parts of it that
make decisions:

- **The request gate** (`middleware.ts`). Every `/api/` and `/admin` request
  passes through it.
  - It derives a client address from the forwarding headers.
  - It rate-limits API paths with a fixed-window counter. The counter lives in
    a process-wide map keyed by `ip + ":" + path`. There are three policy rows:
    login 5 per 15 minutes, application submissions 10 per hour, any other API
    path 100 per 15 minutes. A violation gets a 429 with the row's message.
  - It redirects admin pages to `/admin/login` when the `admin_token` cookie is
    missing.
  - It forwards everything else with four fixed security headers.
- **The verifying admin guard** (`app/middleware.ts`). It checks the token with
  the verifier rather than only checking that the cookie is present, and it
  exempts only the exact login path.
- **The admin applications page** (`app/admin/applications/page.tsx`). This
  covers the status, role and fitment filters, the de-duplicated role list, and
  the per-role and per-status counts.
- **The admin job handlers** (`app/api/admin/jobs/route.ts`). These cover the
  auth gate, required fields, defaults and newest-first listing.
- **The public application handler** (`app/api/applications/route.ts`). This
  covers required fields, the active-job lookup and cover-letter defaulting.

Modules, one per file:

- `Common`: option values, `startsWith`, and JavaScript truthiness of an
  optional string (present and non-empty).
- `Responses`: the filter outcomes (`Next(headers)`, `Redirect(path)`,
  `Json(status, error)`) and the handler replies.
- `RateLimit`:
  - the `RateLimiter` class, whose `store: map<string, Window>` field
    `Check` reassigns in place;
  - the pure `Admit`, which specifies one call;
  - `Replay`, which runs a sequence of calls for one key, for the budget
    properties.
- `Gatekeeper`: the root `middleware`. It is a method over a `RateLimiter`,
  and its pure parts are `ClientId`, `PolicyFor` and `Forward`.
- `AdminGuard`: `app/middleware.ts` as a function. The token verifier is a
  function parameter `string -> Option<Payload>`.
- `ApplicationList`: the page's list expressions, as functions over sequences.
- `JobsApi`, `ApplicationsApi`: each handler is a function from the auth
  result, the parsed body and the store to a reply and the new store.

The clock (`Date.now()`), the request headers and cookie, the verifier's answer
and the database's new ids and timestamps are all parameters.

Behaviours of the source that the model keeps as written:

- The root gate's redirect applies to every path with the prefix `/admin`,
  including `/administrator` (middleware.ts:65).
- The root gate exempts every path with the prefix `/admin/login`, while the
  verifying guard exempts only that exact path (middleware.ts:65,
  app/middleware.ts:10).
- Expiry is strict: a window still applies at `now == resetTime`
  (middleware.ts:16).
- A fresh or expired window admits its first call whatever `maxRequests` is,
  even when it is 0 or less (middleware.ts:16-19).
- An empty `admin_token` cookie counts as no token, and it never reaches the
  verifier (app/middleware.ts:18).
- The rate-limit policy is picked by prefix tests in a fixed order: login,
  then submissions, then every other API path (middleware.ts:36-60).

## Model

| member | source | states |
|---|---|---|
| `RateLimit.Key` | middleware.ts:7-9 | the key is the address, one colon, then the path; both parts can be read back at fixed offsets |
| `RateLimit.KeySeparatesPaths` | middleware.ts:12 | for one client, two different full paths never share a key, so each has its own budget even under the same policy row |
| `RateLimit.KeyInjective` | middleware.ts:7-9 | if addresses contain no '/' and paths start with '/', the key determines both the address and the path |
| `RateLimit.Admit` | middleware.ts:11-27 | a call changes only the entry for its own key; afterwards that entry exists and every other entry is unchanged |
| `RateLimit.AdmitOpensFreshWindow` | middleware.ts:16-19 | with no record or an expired one, the call is admitted and the store gets `{count: 1, resetTime: now + windowMs}` for the key |
| `RateLimit.AdmitDeniesExhausted` | middleware.ts:21-23 | an active window with `count >= maxRequests` is refused, and the store stays exactly as it was |
| `RateLimit.AdmitIncrements` | middleware.ts:25-26 | an active window below the maximum is admitted; its count rises by exactly one and its reset time is kept |
| `RateLimit.ExpiryIsStrict` | middleware.ts:16 | an exhausted window still refuses at `now == resetTime` and admits again one millisecond later |
| `RateLimit.AdmitKeepsBound` | middleware.ts:11-27 | for `maxRequests >= 1`, every call keeps `1 <= count <= maxRequests` on the key's record, and an admitted call never leaves it above the maximum |
| `RateLimit.Replay` | middleware.ts:11-27 | a run of sequential calls gives one outcome per call; the key is the only entry it may add |
| `RateLimit.ReplayWithinWindow` | middleware.ts:16-26 | for calls inside the current window, call i is admitted exactly when `count + i < maxRequests`; the window ends at `min(count + n, maxRequests)` (unchanged if already exhausted) and keeps its reset time |
| `RateLimit.WindowBudget` | middleware.ts:11-27 | in a window opened by the first call, the first `maxRequests` calls are admitted and call `maxRequests + 1` and all later ones are refused |
| `RateLimit.ReplayLeavesOtherKeys` | middleware.ts:12-26 | exhausting one key's budget leaves every other key's window unchanged |
| `RateLimit.RateLimiter.constructor` | middleware.ts:5 | the process starts with an empty store |
| `RateLimit.RateLimiter.Check` | middleware.ts:11-27 | the in-place update of the map: the result and the new store are those of `Admit` on the old store |
| `Gatekeeper.ClientId` | middleware.ts:30 | the client address is never empty. A non-empty `x-forwarded-for` wins; otherwise a non-empty `x-real-ip`; otherwise "unknown" |
| `Gatekeeper.AnonymousClientsShareBudget` | middleware.ts:30 | all clients without either header share one budget per path |
| `Gatekeeper.PolicyFor` | middleware.ts:34-62 | exactly the paths starting with `/api/` are rate-limited, always with a positive maximum and window |
| `Gatekeeper.PolicyTable` | middleware.ts:36-60 | ordered prefix rows: `/api/admin/login` gives (5, 900000), else `/api/applications` gives (10, 3600000), else (100, 900000), each with its own 429 message |
| `Gatekeeper.SecurityHeaders` | middleware.ts:78-81 | exactly four headers are set, with these values: `X-Content-Type-Options: nosniff`, `X-Frame-Options: DENY`, `X-XSS-Protection: 1; mode=block`, `Referrer-Policy: strict-origin-when-cross-origin` |
| `Gatekeeper.Forward` | middleware.ts:65-83 | redirect to `/admin/login` exactly for an `/admin` path outside `/admin/login*` without a non-empty cookie; otherwise Next with the security headers |
| `Gatekeeper.ApiPathsAreForwarded` | middleware.ts:34-83 | an API request that passes its rate limit is always forwarded with the headers, never redirected |
| `Gatekeeper.Middleware` | middleware.ts:29-84 | paths outside `/api/` leave the store untouched; an API path is admitted or refused by `Admit` under its policy; a refusal is a 429 with the row's message, and an admission goes on to `Forward` |
| `Gatekeeper.LoginBurst` | middleware.ts:36-42 | under the limits the gate picks for a login path, five requests from one client to it in one window are admitted and the sixth is refused |
| `Gatekeeper.KeyDeterminesPolicy` | middleware.ts:34-62 | if addresses contain no '/', a key is always checked against the same policy row |
| `Gatekeeper.KeyCollisionAcrossPolicies` | middleware.ts:30-46 | a forwarded-for value containing ":/api/applications" makes a login path and a submissions path share one key under different rows |
| `AdminGuard.Guard` | app/middleware.ts:5-27 | the guard only ever forwards without extra headers or redirects to `/admin/login` |
| `AdminGuard.OutsideAdminForwarded` | app/middleware.ts:7-26 | paths not starting with `/admin` always pass |
| `AdminGuard.LoginPageNeverRedirected` | app/middleware.ts:10-12 | the exact path `/admin/login` passes whatever the token, so the login page never redirects to itself |
| `AdminGuard.MissingTokenRedirects` | app/middleware.ts:15-22 | with no non-empty cookie, a guarded page redirects to `/admin/login`, and the outcome is the same for every verifier |
| `AdminGuard.InvalidTokenLikeMissing` | app/middleware.ts:18-22 | a token the verifier rejects (invalid or expired) gives the same outcome as no token |
| `AdminGuard.GuardedNeedsVerifiedToken` | app/middleware.ts:18-26 | a guarded page passes if and only if a non-empty token is present and the verifier returns a payload |
| `AdminGuard.PresenceVersusVerification` | app/middleware.ts:18-23 | on a protected page, a present but rejected token is forwarded by the root gate and redirected by this guard |
| `AdminGuard.PrefixVersusExactExemption` | app/middleware.ts:10-12 | a path under `/admin/login` other than the page itself passes the root gate without a valid token, but is redirected here |
| `ApplicationList.FitmentMatch` | app/admin/applications/page.tsx:146-149 | "all" matches every application; a named tag matches only when the latest comment carries it; "untagged" matches exactly when there is no comment, or the latest has no tag or the tag "untagged" |
| `ApplicationList.Matches` | app/admin/applications/page.tsx:144-150 | all three filters at "all" match everything; a match with a status or role filter set has that status or title, and always passes the fitment filter |
| `ApplicationList.Filtered` | app/admin/applications/page.tsx:143-151 | the filtered list is never longer than the fetched one |
| `ApplicationList.FilteredKeepsExactly` | app/admin/applications/page.tsx:143-151 | an application is listed if and only if it was fetched and its status, role and latest-comment fitment all match |
| `ApplicationList.FilteredKeepsEveryCopy` | app/admin/applications/page.tsx:143-151 | each fetched application appears in the list as many times as it was fetched if it matches, and not at all otherwise |
| `ApplicationList.FilteredIsSubsequence` | app/admin/applications/page.tsx:143 | the list shown is an order-preserving subsequence of the fetched list |
| `ApplicationList.NoFilterListsAll` | app/admin/applications/page.tsx:144-150 | with all three filters at "all", the list is exactly the fetched list |
| `ApplicationList.FitmentReadsLatestCommentOnly` | app/admin/applications/page.tsx:146-149 | applications that agree on status, title and first comment are filtered alike, whatever their later comments say |
| `ApplicationList.Titles` | app/admin/applications/page.tsx:141 | `applications.map(app => app.job.title)`: one title per application, position by position |
| `ApplicationList.Distinct` | app/admin/applications/page.tsx:141 | `Array.from(new Set(...))` has no duplicates and holds exactly the elements of its input |
| `ApplicationList.FirstIndex` | app/admin/applications/page.tsx:141 | the position where a title first occurs: it holds the title and no earlier position does |
| `ApplicationList.DistinctKeepsFirstOccurrenceOrder` | app/admin/applications/page.tsx:141 | the de-duplicated list is in order of first occurrence |
| `ApplicationList.UniqueRoles` | app/admin/applications/page.tsx:141 | the role list has no duplicates, contains every application's title, and contains nothing that is not some application's title |
| `ApplicationList.UniqueRolesSpec` | app/admin/applications/page.tsx:141 | `uniqueRoles` has no duplicates, holds exactly the job titles of the applications, and is in order of first occurrence |
| `ApplicationList.RoleCount` | app/admin/applications/page.tsx:204 | a role's count never exceeds the number of applications |
| `ApplicationList.StatusCount` | app/admin/applications/page.tsx:239-257 | a status count never exceeds the number of applications |
| `ApplicationList.RoleCountIsListLength` | app/admin/applications/page.tsx:202-205 | the count beside a role (other than the literal "all") is the number of applications with that title, which is the length of the list that selecting the role shows while the status and fitment filters are both "all" |
| `ApplicationList.StatusCountIsListLength` | app/admin/applications/page.tsx:235-257 | the count on a status button (other than "all") is the length of the list that pressing the button shows while the role and fitment filters are both "all" |
| `ApplicationList.RoleCountsSumToTotal` | app/admin/applications/page.tsx:201-204 | the per-role counts over `uniqueRoles` add up to `applications.length` |
| `ApplicationList.EmptyStateText` | app/admin/applications/page.tsx:364-366 | the empty-state text is one of the two messages, and it is "No applications yet." exactly when all three filters are "all" |
| `ApplicationList.EmptyStateIsTruthful` | app/admin/applications/page.tsx:361-366 | the text is "No applications yet." if and only if all three filters are "all", and then there are indeed no applications |
| `JobsApi.InsertNewest` | app/api/admin/jobs/route.ts:13-14 | inserting into a newest-first list keeps it newest first and adds exactly that job |
| `JobsApi.SortNewestFirst` | app/api/admin/jobs/route.ts:13-14 | the `createdAt desc` order: the result is newest first and a permutation of the jobs |
| `JobsApi.ListJobs` | app/api/admin/jobs/route.ts:6-21 | without auth, 401 "Unauthorized"; with auth, 200 with every job and no other, newest first |
| `JobsApi.NewJob` | app/api/admin/jobs/route.ts:42-52 | a job built from a body with the required fields has no empty text field (required fields, type and status), a salary that is absent or non-empty, and the given id and creation time |
| `JobsApi.CreateJob` | app/api/admin/jobs/route.ts:28-59 | the outcomes are: 401 without auth; 500 for an unparsable body; 400 "Missing required fields" if any of the five required fields is missing or empty; otherwise 201. Only a 201 changes the store, and it adds exactly the returned job |
| `JobsApi.CreatedJobFields` | app/api/admin/jobs/route.ts:42-52 | the new job copies the five required fields verbatim; non-empty salary, type and status are kept, and empty or missing ones become null, "full-time" and "active" |
| `ApplicationsApi.FindActiveJob` | app/api/applications/route.ts:15-19 | the lookup returns a stored job with that id and status "active" when one exists, and nothing exactly when every job with that id is inactive |
| `ApplicationsApi.NewApplication` | app/api/applications/route.ts:23-33 | an application built from a complete body has no empty required field, a cover letter that is absent or non-empty, and the given id and time |
| `ApplicationsApi.Submit` | app/api/applications/route.ts:5-39 | the outcomes are: 500 for an unparsable body; 400 if any of the six required fields is missing or empty (decided before any job lookup); 404 if no job has that id with status "active"; otherwise 201. Only a 201 changes the store, and it adds exactly the returned application |
| `ApplicationsApi.SubmittedFields` | app/api/applications/route.ts:23-33 | the stored application has the submitted `jobId`, `fullName`, `email`, `phone`, `linkedIn` and `resume`; a non-empty cover letter is kept, and an empty or missing one is stored as null |
| `ApplicationsApi.CoverLetterNeverRequired` | app/api/applications/route.ts:8-10 | the cover letter never changes the status code |
| `ApplicationsApi.ClosedJobRejects` | app/api/applications/route.ts:15-21 | a job that exists but is not active gets 404 "Job not found or no longer active" and nothing is stored |
| `ApplicationsApi.NewJobTakesApplications` | app/api/applications/route.ts:15-21 | a job created without a status is active, so a complete application to it is accepted with 201 |

## Left out

- JSON Web Token signing and verification, and bcrypt password hashing, are
  not modelled. The verifier is an arbitrary function from token to optional
  claims, and `requireAuth` is an input `Option<Payload>`.
- The login and logout routes are not modelled. They are glue over the
  database, bcrypt, token signing and cookies.
- The database is replaced by sequences of records:
  - the connection pool and its retries are not modelled;
  - the schema and its defaults (for example an application's initial status)
    are not part of this model;
  - errors from `findMany`/`create`, and their 500 replies, are not modelled.
    Only the 500 for a body that is not valid JSON is modelled.
- JobsApi.ListJobs: the `_count` of applications attached to each job is not
  modelled. The order among jobs with equal `createdAt` is left open.
- Request bodies hold optional strings only. A field that is a number, boolean
  or object has JavaScript truthiness and database behaviour that are not
  modelled.
- The React rendering, modal and fetch handlers of the admin pages, and the
  public pages, are not modelled. They hold no decision logic beyond the list
  expressions above.
- Concurrency is not modelled: calls are sequential, which JavaScript's
  single-threaded check-and-increment also gives.
- The wall clock is the parameter `now`, and window times are unbounded
  integers.
- The store never evicts expired windows, and neither does the model.
- The `x-forwarded-for` value is used whole, as in the source. A
  comma-separated proxy chain is not split. The header's trustworthiness is not
  modelled.
- Each file's `config.matcher` (which paths the framework runs the filter on)
  is not modelled. `Gatekeeper.Middleware` and `AdminGuard.Guard` are defined
  for every path.
- The redirect target is the path `/admin/login`. The absolute URL built from
  the request URL is not modelled.
- The response objects are not modelled. The forwarded response is represented
  only by the headers the filter sets on it.
