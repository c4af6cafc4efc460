# Age-verification server: a Dafny model

The system is a small Express server (`server.js`). It marks a browser session
as adult after a third-party identity verification (PortOne/iamport) returns
a record of someone 19 or older. When `TEST_MODE` is on, it does so after any
callback that reports success, with no provider call and no age check. A
record whose birthday is JSON `null` also passes (see "## Left out"). The `checkAdultAuth`
middleware and the status API `/api/check-auth` then report that mark. The
protected page itself is a static file; it asks the status API from the
browser and is not gated on the server (see "## Left out"). This project
models the decision core of that server:

- `calculateAge`, the whole-year calendar age (module `Age`, file `age.dfy`);
- the certification client `getAccessToken` / `getCertification`. The two
  HTTPS calls become parameters that say how each call settled, and every
  failure collapses to "no record" (module `Certification`).
- the `POST /auth/verify` handler (module `Verification`). It is a pure
  decision function `Decide`, with six outcomes: denied, bypassed, lookup
  failed, underage, verified and error. It has a partner class `Session`
  whose fields `isAdult` and `certInfo` the handler's method `Verify` and
  the `/logout` method `Logout` update in place.
- the read-only routes (module `Gate`): the `checkAdultAuth` middleware and
  its use on `/main`, the `/` redirect and `/api/check-auth`.
- sequences of requests against one session (module `Trace`). These carry
  the session-wide invariants: an adult session was always made so by an
  entitled callback, only a logout demotes it, and the status API never
  shows the placeholder user.

Modelling choices:

- Dates are `(year, month, day)` integer triples. "Today" and the ISO
  timestamp of "now" are parameters.
- The provider's `birthday` is `Option<Date>`. `None` stands for a string
  that does not parse. In the original that makes the age `NaN`, and
  `NaN >= 19` is false, so the handler answers with the underage message.
- A token is usable only when it is truthy in JavaScript's sense, so a
  `null` or empty-string token both end the lookup.
- The handler receives the settled lookup as `Fetch<Option<CertData>>`.
  `Threw` stands for an exception reaching the handler's `try/catch`.
  The real client's result is an `Option`: `GetCertification` catches every
  thrown call itself. So the value the handler receives from it is always
  `Returned`, and `ClientLookupNeverErrors` records that the error outcome
  then cannot happen in the server as written.
- `certifiedAt` holds an ISO string on the test-mode path and the provider's
  number on the verified path. `Stamp` keeps the two apart.
- The `TEST_MODE` environment switch is a boolean parameter.

## Model

| member | source | states |
|---|---|---|
| Age.CalculateAge | server.js:248-260 | the age is the number of the last birthday anniversary on or before today: that anniversary has arrived and the next one has not |
| Age.AgeIsLastAnniversary | server.js:252-256 | the n-th anniversary has arrived if and only if n is at most the computed age |
| Age.AgeOnBirthday | server.js:255-256 | on the birthday itself the year difference is not decremented |
| Age.AgeOnDayBeforeBirthday | server.js:255-256 | on the calendar day before a birthday the age is one less than on the birthday, including when that day falls in the previous month (28/29 February before 1 March) or the previous year (31 December before 1 January) |
| Age.AgeMonotone | server.js:248-260 | a later "today" never gives a smaller age |
| Age.AgeExamples | server.js:252-259 | born 1990-06-15: age 33 on 2024-06-14 and 34 on 2024-06-15; born 1990-03-01: 33 on 2024-02-29; born 2000-01-01: 18 on 2018-12-31; born 2000-02-29: 22 on 2023-02-28 and 23 on 2023-03-01 |
| Certification.GetAccessToken | server.js:205-220 | a thrown token call yields no token; a call that returned hands back exactly the token field it returned |
| Certification.GetCertification | server.js:223-245 | no record when the token is missing or empty, or when the lookup throws; with a usable token and a lookup that returned, the result is exactly that payload; any record it yields was fetched with the returned token |
| Certification.NoTokenNoLookup | server.js:225-226 | without a usable token the lookup endpoint plays no part: the result is None whatever it would answer (a corollary of `GetCertification`'s first clause) |
| Verification.Decide | server.js:97-182 | each branch gets its outcome (denied without `success`, bypassed in test mode, error on a throw, lookup failed on null, verified or underage by eligibility) and the message that outcome prescribes; a success response exactly when the session is written, exactly for the bypassed and verified outcomes, with redirect `/index.html` on success and none on failure; whatever is written is justified (test identity in test mode, otherwise the record of someone 19 or older), and a justified callback is always granted |
| Verification.DeniedKeepsSession | server.js:102-107 | `success` false gives the denied outcome, a failure response with the denial message and the prior session unchanged |
| Verification.MessagesDistinct | server.js:102-181 | the six outcomes carry six different messages, so the four failures are distinguishable by message alone |
| Verification.BypassIgnoresLookup | server.js:110-125 | in test mode a successful callback sets `isAdult` and the synthetic identity, answers with the test-mode message, redirects to `/index.html`, and its decision does not depend on the lookup |
| Verification.LookupFailureKeepsSession | server.js:131-137 | a null lookup gives the lookup-failed outcome, a failure response with the "cannot retrieve" message and the session unchanged |
| Verification.ErrorKeepsSession | server.js:174-181 | an exception gives the error outcome, a failure response with the generic error message and the session unchanged |
| Verification.VerifiedIffNineteenthBirthday | server.js:144-173 | with a record, the outcome is verified if and only if the 19th birthday has arrived, and then the session holds `{name, phone, certified_at}` and the success message is sent; otherwise it is underage, with the "19 or older" message, and the session is unchanged |
| Verification.FailureKeepsSession | server.js:97-182 | every failure response leaves the session as it was, for all inputs and prior states |
| Verification.ClientLookupNeverErrors | server.js:127-137 | a lookup that settled by returning (as every `GetCertification` result does, its errors being caught inside it) never leads to the error outcome |
| Verification.Session.constructor | server.js:27-36 | a new session is neither adult nor holds an identity |
| Verification.Session.Verify | server.js:97-182 | the response and new session are those `Decide` prescribes; a failure leaves the object unchanged; a success leaves it adult with a justified identity |
| Verification.Session.Logout | server.js:191-200 | the session is reset to a fresh one and the browser is sent to `/auth` |
| Gate.CheckAdultAuth | server.js:41-52 | the request passes through exactly when the session is adult; otherwise redirect to `/auth` |
| Gate.RootRedirect | server.js:57-65 | the `/` handler as written redirects to `/index.html` exactly when the session is adult, and to `/auth` exactly when it is not |
| Gate.CheckAuth | server.js:78-94 | `isAuthenticated` equals `isAdult`; user info exists only then, and is the stored identity or else the default name `사용자` |
| Gate.MainRedirect | server.js:185-188 | `/main` sends an adult session to `/index.html` and every other session to `/auth` |
| Gate.RoutesAgree | server.js:41-188 | the `/` handler and the gated `/main` handler, as written, land on the same page, and the gate opens exactly when the status API says authenticated |
| Trace.RunKeepsConsistent | server.js:110-200 | over any request sequence, a session stays adult exactly when it holds an identity |
| Trace.AdultSessionIsJustified | server.js:146-157 | a session that became adult over a sequence holds the identity some callback in it was entitled to store: the test identity in test mode, else a record of someone 19 or older |
| Trace.AdultUntilLogout | server.js:102-181 | without a logout no callback demotes an adult session |
| Trace.LogoutUnauthenticates | server.js:191-200 | after a logout the status API reports unauthenticated and the gate redirects to `/auth` |
| Trace.DefaultUserNeverShown | server.js:84-93 | from a consistent session the status API never falls back to the placeholder user |

## Left out

- Static file serving and its precedence over the routes. `express.static`
  (server.js:22) is registered before every route. The public directory
  holds the protected page `index.html`: every success path redirects to
  `/index.html` and no route serves it. By default the static middleware
  answers `GET /` with that file, so the `/` handler is not reached. It
  also serves `/index.html`, the protected page, to any session, adult or
  not. `RootRedirect` and `RoutesAgree` therefore describe the handlers as
  written, not the routing a browser meets. The model promises no
  server-side gating of the protected page; only `/main` goes through
  `checkAdultAuth`. The public directory is not part of this model.
- Express setup, middleware registration and EJS rendering of
  `/auth`: framework plumbing with no decision in it.
- The session store and cookie settings, including the 24-hour `maxAge`:
  library-managed expiry. The session is a plain record whose lifetime is
  not modelled.
- The HTTPS calls to the provider's token and certification endpoints: their
  settled results are parameters.
- Environment variables: `TEST_MODE` is a boolean parameter; `DEBUG_MODE`
  and `debugLog` only log.
- Parsing of the `"YYYY-MM-DD"` birthday and the host clock. In particular,
  `new Date("YYYY-MM-DD")` is UTC midnight and is then read back in local
  time, so in a timezone west of UTC the birth date is read as the day
  before. Time zones are not modelled; dates are taken as already parsed.
- A JSON `null` birthday. `new Date(null)` is 1970-01-01 (UTC midnight), so
  the original computes an age over 50 and verifies the user without any
  birth date. In the model that record is `Some(Date(1970, 1, 1))` (or
  1969-12-31 west of UTC), not `None`. The model does not single this case
  out, because dates are taken as already parsed.
- A `success` field that is present but not a boolean (JavaScript
  truthiness of, say, the string `"false"`): the flag is modelled as a bool.
- A `session.destroy` error on logout. The original only logs it and still
  redirects; the model always resets the session.
- Concurrent requests on one session (async interleaving, last writer wins):
  the model handles requests one after another.
