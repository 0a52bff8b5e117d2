# Token authentication gate

A Dafny model of `authenticateToken`, the Express middleware that guards the
protected routes of this cryptocurrency API (`/api/auth/profile`,
`/api/auth/verify`). For each request the gate:

1. takes the `authorization` header and extracts the token as the second
   space-separated field (`authHeader && authHeader.split(' ')[1]`);
2. answers 401 "Token de acceso requerido" when no token comes out;
3. verifies the token (`jwt.verify`) and looks the user up by the payload's
   `userId`, dropping the password (`User.findById(...).select('-password')`);
4. answers 401 "Usuario no encontrado" or "Usuario inactivo" for an unknown or
   inactive account;
5. otherwise stores the user in `req.user` and calls `next()`;
6. maps anything thrown by verification or lookup by the error's `name`:
   `JsonWebTokenError` gives 401 "Token inválido", `TokenExpiredError` gives
   401 "Token expirado", anything else 500 "Error en la autenticación" with
   the error's message in the body.

Files:

- `wrappers.dfy` — `Option` (`None` is JavaScript's `undefined`).
- `header_token.dfy` (module `HeaderToken`) — JavaScript's `split` for a
  one-character separator (`Split`, with `Join`), the token expression
  (`ExtractToken`, `Truthy` for `!token`), and an independent reference
  `SecondField` (the text between the first and second space, via `IndexOf`),
  proved equal to it on every non-empty header (`ExtractIsSecondField`); on
  every header, one yields a non-empty token exactly when the other does
  (`TokenPresentIff`).
- `auth_gate.dfy` (module `AuthGate`) — the data (`Account`, the password-less
  `PublicUser`, `JsError`, `VerifyResult`, `Store`), the lookup `FindById`, the
  closed set of `Rejection` kinds, the response table `Respond`, the
  `catch`-block mapping `Classify`, and the whole decision `Authenticate` as a
  pure function, with the lemmas about it.
- `auth_middleware.dfy` (module `AuthMiddleware`) — the handler as imperative
  code over `Request`, `Response` and `NextCallback` objects: straight-line
  code with early returns that either writes the status and JSON body or
  sets `req.user` and calls `next`. Its postcondition ties the new state to
  `Authenticate`.

External collaborators are parameters: the verifier is an arbitrary function
`(token, secret) -> VerifyResult`, and the store is a map of accounts plus a
function giving, per identifier, the error the query would throw (if any).

Behaviour worth knowing, compared with the usual `Bearer <token>` convention
of section 2.1 of RFC 6750:

- The scheme word is never checked: "Basic abc" yields the token "abc"
  (`BasicSchemeToken`) and any scheme is verified like "Bearer"
  (`OtherSchemeIsVerified`), and "Bearer " (empty token) is a
  missing token (`BearerWithoutTokenIsMissing`).
- The 500 response carries the thrown error's `message` verbatim.
- Classification is by error name only, so any other error the verifier may
  throw (for instance one for a token not yet valid) and any error the
  lookup throws become a 500; an error from the lookup that happened to be
  named `JsonWebTokenError` would become a 401.

## Model

| member | source | states |
|---|---|---|
| HeaderToken.Split | middleware/auth.middleware.js:7 | `split(' ')` yields at least one piece and no piece contains a space |
| HeaderToken.JoinSplit | middleware/auth.middleware.js:7 | joining the pieces with the separator gives back the header |
| HeaderToken.SplitNoSeparator | middleware/auth.middleware.js:7 | a header without a space splits into itself alone, so there is no field 1 |
| HeaderToken.SplitAtFirst | middleware/auth.middleware.js:7 | the text before the first space is piece 0 and the rest is split on its own |
| HeaderToken.SplitUnique | middleware/auth.middleware.js:7 | split is the only cutting into space-free pieces that joins back to the header |
| HeaderToken.IndexOf | middleware/auth.middleware.js:7 | the result is the first position at or after `from` holding the character, or the length |
| HeaderToken.ExtractIsSecondField | middleware/auth.middleware.js:7 | for a non-empty header the extracted token is exactly the text between the first and second space (or the end) |
| HeaderToken.TokenPresentIff | middleware/auth.middleware.js:6-9 | a token is present iff the header exists and has a space followed by a non-empty field; that field is the token |
| HeaderToken.SchemeIgnored | middleware/auth.middleware.js:7 | whatever space-free word precedes the first space, the following field is the token |
| HeaderToken.EmptyTokenAfterScheme | middleware/auth.middleware.js:7-9 | a scheme followed by a lone space yields no token |
| AuthGate.RespondShape | middleware/auth.middleware.js:10-53 | every rejection body has `success: false`; status 500 for the catch-all and 401 for every other kind; only the 500 carries the error's message |
| AuthGate.RespondMessagesDistinct | middleware/auth.middleware.js:10-51 | two rejections share a message iff they are the same kind; the message never depends on the error detail |
| AuthGate.ClassifyByName | middleware/auth.middleware.js:36-53 | `JsonWebTokenError` iff invalid token, `TokenExpiredError` iff expired, every other name iff the catch-all carrying the message; a thrown error never reads as a missing token or an account problem |
| AuthGate.MissingTokenShortCircuits | middleware/auth.middleware.js:6-14 | an absent or empty header, a header without a space or with an empty second field gives `MissingToken` for every verifier, secret and store |
| AuthGate.InvalidTokenSkipsLookup | middleware/auth.middleware.js:16-42 | a `JsonWebTokenError` from verification gives `InvalidToken` whatever the store holds |
| AuthGate.ExpiredTokenSkipsLookup | middleware/auth.middleware.js:16-48 | a `TokenExpiredError` from verification gives `ExpiredToken` whatever the store holds |
| AuthGate.UnknownUserRejected | middleware/auth.middleware.js:18-25 | a verified token whose user is not stored gives `UserNotFound` |
| AuthGate.InactiveUserRejected | middleware/auth.middleware.js:27-32 | a verified token whose stored user is inactive gives `UserInactive` |
| AuthGate.OtherErrorsAreInternal | middleware/auth.middleware.js:36-53 | any other error name, from verification or from lookup, gives the catch-all with that error's message and status 500 |
| AuthGate.SuccessIff | middleware/auth.middleware.js:6-35 | the request is passed on iff the second header field is non-empty, verifies, the lookup neither throws nor misses and the account is active; the user passed on is that account without its password |
| AuthGate.StagesInOrder | middleware/auth.middleware.js:9-35 | `MissingToken` exactly when no token was extracted; an account outcome or success means verification succeeded; `UserNotFound` means the lookup missed; inactive or success means the account was found |
| AuthGate.DeactivationTakesEffect | middleware/auth.middleware.js:18-32 | a request that was passed on is turned away as inactive once its account is deactivated, same token |
| AuthGate.BearerWithoutTokenIsMissing | middleware/auth.middleware.js:7-14 | the header "Bearer " gives `MissingToken` |
| AuthGate.SameTokenSameOutcome | middleware/auth.middleware.js:7-16 | the outcome depends on the header only through the extracted token |
| AuthGate.BasicSchemeToken | middleware/auth.middleware.js:7 | "Basic abc" yields the token "abc" |
| AuthGate.OtherSchemeIsVerified | middleware/auth.middleware.js:7-16 | any space-free scheme word before a token gives the same outcome as "Bearer" before it |
| AuthMiddleware.Response.Status | middleware/auth.middleware.js:10 | `res.status(code)` sets the status and leaves the body |
| AuthMiddleware.Response.Json | middleware/auth.middleware.js:10-13 | `res.json(body)` sends the body and leaves the status |
| AuthMiddleware.NextCallback.Call | middleware/auth.middleware.js:35 | calling `next` is counted once |
| AuthMiddleware.SendRejection | middleware/auth.middleware.js:10-13 | the response carries the rejection's status and body |
| AuthMiddleware.AuthenticateToken | middleware/auth.middleware.js:4-55 | on success `req.user` is the password-less user, `next` is called once and the response is untouched; on every rejection the response carries that rejection's status and body, `req.user` is unchanged and `next` is not called |

## Left out

- The inside of `jwt.verify` (HMAC signature and `exp` checking, section
  4.1.4 of RFC 7519): a cryptographic library call, modelled as an arbitrary
  verifier function returning the payload's `userId` or a thrown error.
- The secret expression `process.env.JWT_SECRET || 'tu-secret-key-super-segura'`:
  the secret is an opaque parameter handed to the verifier; environment
  lookup and the hard-coded fallback are not modelled.
- A verified payload without a `userId` claim: the model's decoded payload
  always carries one; what the database does with `findById(undefined)` is
  not visible here.
- `User.findById` as a MongoDB query and its `await`: modelled as a map
  lookup plus a per-identifier thrown error, evaluated at once.
- `models/User.js` is not part of this model: the account fields (`nombre`,
  `email`, `password`, `telefono`, `activo`) are taken from the request
  validators and the middleware, and `activo` is a boolean, so its
  truthiness test is a boolean test.
- AuthMiddleware.AuthenticateToken: `next()` and `res.json(...)` are assumed
  not to throw. In the source they run inside the `try`, so an exception from
  a downstream handler would reach the `catch` and send a 500 after
  `req.user` was set; that code is not visible.
- The token issuer (login, registration): the controllers in
  `controllers/auth.controller.js` are not part of this model.
- `routes/auth.routes.js` (router wiring and `express-validator` chains) and
  `server.js` (CORS, body parsing, database connection, `listen`): library
  configuration and process plumbing without decision logic of the gate.
- The Bearer-scheme requirement of section 2.1 of RFC 6750: the code does not
  enforce it, so the model does not either.
