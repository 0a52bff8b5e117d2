/** The Express handler `authenticateToken(req, res, next)` itself: straight
    -line code with early returns that writes the response, or sets
    `req.user` and calls `next`. Its effect is specified by the pure gate
    `AuthGate.Authenticate`. */
module AuthMiddleware {
  import opened Wrappers
  import opened HeaderToken
  import opened AuthGate

  /** The incoming request: its (lower-cased) headers and the `user` slot
      that later handlers read. */
  class Request {
    const headers: map<string, string>
    var user: Option<PublicUser>

    constructor (headers: map<string, string>)
      ensures this.headers == headers && user == None
    {
      this.headers := headers;
      user := None;
    }
  }

  /** The outgoing response: `res.status(code)` sets the status, `res.json(b)`
      sends the body. */
  class Response {
    var statusCode: int
    var body: Option<Body>

    constructor ()
      ensures statusCode == 200 && body == None
    {
      statusCode := 200;
      body := None;
    }

    method Status(code: int)
      modifies this
      ensures statusCode == code && body == old(body)
    {
      statusCode := code;
    }

    method Json(b: Body)
      modifies this
      ensures body == Some(b) && statusCode == old(statusCode)
    {
      body := Some(b);
    }
  }

  /** The `next` callback, observed through how often it has been called. */
  class NextCallback {
    var calls: nat

    constructor ()
      ensures calls == 0
    {
      calls := 0;
    }

    method Call()
      modifies this
      ensures calls == old(calls) + 1
    {
      calls := calls + 1;
    }
  }

  /** `req.headers['authorization']`. */
  function AuthorizationHeader(headers: map<string, string>): Option<string>
  {
    if "authorization" in headers then Some(headers["authorization"]) else None
  }

  /** `return res.status(...).json(...)` for one rejection kind. */
  method SendRejection(res: Response, k: Rejection)
    modifies res
    ensures res.statusCode == Respond(k).status && res.body == Some(Respond(k).body)
  {
    var r := Respond(k);
    res.Status(r.status);
    res.Json(r.body);
  }

  /** The handler. On success `req.user` holds the password-less user and
      `next` has been called once, the response untouched; on every rejection
      the response carries that rejection's status and body, `req.user` is
      unchanged and `next` is not called. */
  method AuthenticateToken(req: Request, res: Response, next: NextCallback,
                           secret: Secret, verify: Verifier, store: Store)
    modifies req, res, next
    ensures match Authenticate(AuthorizationHeader(req.headers), secret, verify, store)
            case Next(u) =>
              req.user == Some(u) && next.calls == old(next.calls) + 1 &&
              res.statusCode == old(res.statusCode) && res.body == old(res.body)
            case Reject(k) =>
              req.user == old(req.user) && next.calls == old(next.calls) &&
              res.statusCode == Respond(k).status && res.body == Some(Respond(k).body)
  {
    var authHeader := AuthorizationHeader(req.headers);
    var token := ExtractToken(authHeader);
    if !Truthy(token) {
      SendRejection(res, MissingToken);
      return;
    }

    // The error caught by the `catch` block, if verification or lookup throws.
    var caught: JsError;
    var decoded := verify(token.value, secret);
    match decoded {
      case VerifyThrew(e) =>
        caught := e;
      case Decoded(id) =>
        var found := FindById(store, id);
        match found {
          case LookupThrew(e) =>
            caught := e;
          case Absent =>
            SendRejection(res, UserNotFound);
            return;
          case Found(user) =>
            if !user.activo {
              SendRejection(res, UserInactive);
              return;
            }
            req.user := Some(user);
            next.Call();
            return;
        }
    }

    // catch (error)
    SendRejection(res, Classify(caught));
  }
}
