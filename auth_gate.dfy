/** The decision of the `authenticateToken` request gate as a pure function:
    extract the token, verify it, look the user up without the password,
    check that the account is active, and map whatever was thrown on the way
    to a response by the error's name. */
module AuthGate {
  import opened Wrappers
  import opened HeaderToken

  type UserId = string
  type Secret = string

  /** A thrown JavaScript error: the gate branches on `name` and forwards
      `message` in the 500 response. */
  datatype JsError = JsError(name: string, message: string)

  const JsonWebTokenErrorName: string := "JsonWebTokenError"
  const TokenExpiredErrorName: string := "TokenExpiredError"

  /** What `jwt.verify(token, secret)` does: returns a payload carrying
      `userId`, or throws. Signature and expiry checking happen inside. */
  datatype VerifyResult = Decoded(userId: UserId) | VerifyThrew(error: JsError)

  type Verifier = (string, Secret) -> VerifyResult

  /** A stored account, password included. */
  datatype Account = Account(
    id: UserId,
    nombre: string,
    email: string,
    password: string,
    telefono: Option<string>,
    activo: bool)

  /** An account as `select('-password')` returns it: every field but the
      password. */
  datatype PublicUser = PublicUser(
    id: UserId,
    nombre: string,
    email: string,
    telefono: Option<string>,
    activo: bool)

  function WithoutPassword(a: Account): PublicUser
  {
    PublicUser(a.id, a.nombre, a.email, a.telefono, a.activo)
  }

  /** The account store: the accounts by identifier, and the error (if any)
      that a query for a given identifier throws, such as an unreachable
      database or an identifier that is not a well-formed key. */
  datatype Store = Store(accounts: map<UserId, Account>, fault: UserId -> Option<JsError>)

  datatype LookupResult = Found(user: PublicUser) | Absent | LookupThrew(error: JsError)

  /** `User.findById(id).select('-password')`. */
  function FindById(store: Store, id: UserId): LookupResult
  {
    match store.fault(id)
    case Some(e) => LookupThrew(e)
    case None =>
      if id in store.accounts then Found(WithoutPassword(store.accounts[id])) else Absent
  }

  /** The closed set of ways the gate turns a request away. */
  datatype Rejection =
    | MissingToken
    | InvalidToken
    | ExpiredToken
    | UserNotFound
    | UserInactive
    | AuthFailure(detail: string)

  /** The gate either hands the password-less user on (`req.user = user;
      next()`) or answers the request itself. */
  datatype Outcome = Next(user: PublicUser) | Reject(reason: Rejection)

  /** The `catch` block: the error's name decides, nothing else. */
  function Classify(e: JsError): Rejection
  {
    if e.name == JsonWebTokenErrorName then InvalidToken
    else if e.name == TokenExpiredErrorName then ExpiredToken
    else AuthFailure(e.message)
  }

  /** The JSON body written by `res.json(...)`; `error` is present only in
      the 500 response. */
  datatype Body = Body(success: bool, message: string, error: Option<string>)

  datatype HttpResponse = HttpResponse(status: int, body: Body)

  /** The status and body each rejection is answered with. */
  function Respond(k: Rejection): HttpResponse
  {
    match k
    case MissingToken => HttpResponse(401, Body(false, "Token de acceso requerido", None))
    case InvalidToken => HttpResponse(401, Body(false, "Token inválido", None))
    case ExpiredToken => HttpResponse(401, Body(false, "Token expirado", None))
    case UserNotFound => HttpResponse(401, Body(false, "Usuario no encontrado", None))
    case UserInactive => HttpResponse(401, Body(false, "Usuario inactivo", None))
    case AuthFailure(d) => HttpResponse(500, Body(false, "Error en la autenticación", Some(d)))
  }

  /** The whole gate, in the order the handler runs its steps. */
  function Authenticate(header: Option<string>, secret: Secret, verify: Verifier, store: Store): Outcome
  {
    var token := ExtractToken(header);
    if !Truthy(token) then Reject(MissingToken)
    else
      match verify(token.value, secret)
      case VerifyThrew(e) => Reject(Classify(e))
      case Decoded(id) =>
        match FindById(store, id)
        case LookupThrew(e) => Reject(Classify(e))
        case Absent => Reject(UserNotFound)
        case Found(user) =>
          if !user.activo then Reject(UserInactive) else Next(user)
  }

  // ---------------------------------------------------------------------
  // Responses

  /** Every rejection is a failure response; only the catch-all is a 500,
      every other kind is a 401, and only the 500 carries the error's
      message. */
  lemma RespondShape(k: Rejection)
    ensures !Respond(k).body.success
    ensures Respond(k).status == (if k.AuthFailure? then 500 else 401)
    ensures Respond(k).body.error.Some? <==> k.AuthFailure?
    ensures k.AuthFailure? ==> Respond(k).body.error == Some(k.detail)
  {
  }

  /** Clients can tell every kind apart by its message alone, and the message
      never depends on the detail of the error. */
  lemma RespondMessagesDistinct(k1: Rejection, k2: Rejection)
    ensures Respond(k1).body.message == Respond(k2).body.message <==>
            (k1 == k2 || (k1.AuthFailure? && k2.AuthFailure?))
  {
  }

  /** Error classification: the JSON Web Token error names give their own
      401 kinds, every other name (whatever its message) the catch-all. */
  lemma ClassifyByName(e: JsError)
    ensures Classify(e) == InvalidToken <==> e.name == JsonWebTokenErrorName
    ensures Classify(e) == ExpiredToken <==> e.name == TokenExpiredErrorName
    ensures Classify(e).AuthFailure? <==>
            e.name != JsonWebTokenErrorName && e.name != TokenExpiredErrorName
    ensures Classify(e).AuthFailure? ==> Classify(e).detail == e.message
    ensures Classify(e) !in {MissingToken, UserNotFound, UserInactive}
  {
  }

  // ---------------------------------------------------------------------
  // The gate, stage by stage

  /** Without a token the answer is `MissingToken`, whatever verifier,
      secret and store are in place: neither verification nor lookup is
      consulted. This covers an absent or empty header, a header without a
      space, and an empty field after the space. */
  lemma MissingTokenShortCircuits(header: Option<string>, secret: Secret, verify: Verifier, store: Store)
    requires header.None? || SecondField(header.value).None? || SecondField(header.value) == Some([])
    ensures Authenticate(header, secret, verify, store) == Reject(MissingToken)
  {
    TokenPresentIff(header);
  }

  /** A token the verifier rejects as malformed or badly signed is answered
      `InvalidToken`, whatever the store holds: it is never consulted. */
  lemma InvalidTokenSkipsLookup(header: Option<string>, secret: Secret, verify: Verifier, store: Store)
    requires Truthy(ExtractToken(header))
    requires verify(ExtractToken(header).value, secret).VerifyThrew?
    requires verify(ExtractToken(header).value, secret).error.name == JsonWebTokenErrorName
    ensures Authenticate(header, secret, verify, store) == Reject(InvalidToken)
  {
  }

  /** A token the verifier finds expired is answered `ExpiredToken`, whatever
      the store holds: it is never consulted. */
  lemma ExpiredTokenSkipsLookup(header: Option<string>, secret: Secret, verify: Verifier, store: Store)
    requires Truthy(ExtractToken(header))
    requires verify(ExtractToken(header).value, secret).VerifyThrew?
    requires verify(ExtractToken(header).value, secret).error.name == TokenExpiredErrorName
    ensures Authenticate(header, secret, verify, store) == Reject(ExpiredToken)
  {
  }

  /** A valid token for an identifier the store does not know is answered
      `UserNotFound`. */
  lemma UnknownUserRejected(header: Option<string>, secret: Secret, verify: Verifier, store: Store)
    requires Truthy(ExtractToken(header))
    requires verify(ExtractToken(header).value, secret).Decoded?
    requires store.fault(verify(ExtractToken(header).value, secret).userId).None?
    requires verify(ExtractToken(header).value, secret).userId !in store.accounts
    ensures Authenticate(header, secret, verify, store) == Reject(UserNotFound)
  {
  }

  /** A valid token for an inactive account is answered `UserInactive`,
      never passed on. */
  lemma InactiveUserRejected(header: Option<string>, secret: Secret, verify: Verifier, store: Store)
    requires Truthy(ExtractToken(header))
    requires verify(ExtractToken(header).value, secret).Decoded?
    requires store.fault(verify(ExtractToken(header).value, secret).userId).None?
    requires verify(ExtractToken(header).value, secret).userId in store.accounts
    requires !store.accounts[verify(ExtractToken(header).value, secret).userId].activo
    ensures Authenticate(header, secret, verify, store) == Reject(UserInactive)
  {
  }

  /** Any other error, thrown by the verifier or by the lookup, is answered
      with the catch-all carrying that error's message. */
  lemma OtherErrorsAreInternal(header: Option<string>, secret: Secret, verify: Verifier, store: Store, e: JsError)
    requires Truthy(ExtractToken(header))
    requires e.name != JsonWebTokenErrorName && e.name != TokenExpiredErrorName
    requires verify(ExtractToken(header).value, secret) == VerifyThrew(e) ||
             (verify(ExtractToken(header).value, secret).Decoded? &&
              store.fault(verify(ExtractToken(header).value, secret).userId) == Some(e))
    ensures Authenticate(header, secret, verify, store) == Reject(AuthFailure(e.message))
    ensures Respond(AuthFailure(e.message)).status == 500
  {
  }

  /** The request is passed on exactly when the header carries a non-empty
      second field, the verifier accepts it, the lookup neither throws nor
      misses, and the account is active; the user passed on is then that
      account without its password. */
  lemma SuccessIff(header: Option<string>, secret: Secret, verify: Verifier, store: Store)
    ensures Authenticate(header, secret, verify, store).Next? <==>
            header.Some? &&
            SecondField(header.value).Some? && SecondField(header.value).value != [] &&
            verify(SecondField(header.value).value, secret).Decoded? &&
            store.fault(verify(SecondField(header.value).value, secret).userId).None? &&
            verify(SecondField(header.value).value, secret).userId in store.accounts &&
            store.accounts[verify(SecondField(header.value).value, secret).userId].activo
    ensures Authenticate(header, secret, verify, store).Next? ==>
            Authenticate(header, secret, verify, store).user ==
            WithoutPassword(store.accounts[verify(SecondField(header.value).value, secret).userId])
  {
    TokenPresentIff(header);
  }

  /** The stages run in a fixed order and each rejection belongs to its
      stage: `MissingToken` exactly when no token was extracted; reaching the
      account checks means the token verified; `UserNotFound` means the
      lookup missed; reaching the liveness check (or success) means the
      account was found. */
  lemma StagesInOrder(header: Option<string>, secret: Secret, verify: Verifier, store: Store)
    ensures Authenticate(header, secret, verify, store) == Reject(MissingToken) <==>
            !Truthy(ExtractToken(header))
    ensures Authenticate(header, secret, verify, store) in {Reject(UserNotFound), Reject(UserInactive)} ||
            Authenticate(header, secret, verify, store).Next? ==>
            Truthy(ExtractToken(header)) && verify(ExtractToken(header).value, secret).Decoded?
    ensures Authenticate(header, secret, verify, store) == Reject(UserInactive) ||
            Authenticate(header, secret, verify, store).Next? ==>
            FindById(store, verify(ExtractToken(header).value, secret).userId).Found?
    ensures Authenticate(header, secret, verify, store) == Reject(UserNotFound) ==>
            FindById(store, verify(ExtractToken(header).value, secret).userId).Absent?
  {
  }

  // ---------------------------------------------------------------------
  // Deactivation

  /** Every account is stored under its own identifier. */
  predicate WellKeyed(store: Store)
  {
    forall k :: k in store.accounts ==> store.accounts[k].id == k
  }

  /** The store after the account `id` has been switched off. */
  function Deactivate(store: Store, id: UserId): (r: Store)
    ensures WellKeyed(store) ==> WellKeyed(r)
    ensures r.accounts.Keys == store.accounts.Keys
    ensures id in store.accounts ==> r.accounts[id] == store.accounts[id].(activo := false)
    ensures forall k :: k in store.accounts && k != id ==> r.accounts[k] == store.accounts[k]
    ensures r.fault == store.fault
  {
    if id in store.accounts
    then Store(store.accounts[id := store.accounts[id].(activo := false)], store.fault)
    else store
  }

  /** The gate reads the active flag on every request: a request that was
      passed on is turned away with `UserInactive` once its account is
      deactivated, the token unchanged. */
  lemma DeactivationTakesEffect(header: Option<string>, secret: Secret, verify: Verifier, store: Store)
    requires WellKeyed(store)
    requires Authenticate(header, secret, verify, store).Next?
    ensures Authenticate(header, secret, verify,
                         Deactivate(store, Authenticate(header, secret, verify, store).user.id))
            == Reject(UserInactive)
  {
  }

  // ---------------------------------------------------------------------
  // Headers a Bearer-only check (section 2.1 of RFC 6750) would treat differently

  /** "Bearer " is a header with a scheme and nothing after the space: it is
      answered `MissingToken`, without verification. */
  lemma BearerWithoutTokenIsMissing(secret: Secret, verify: Verifier, store: Store)
    ensures Authenticate(Some("Bearer "), secret, verify, store) == Reject(MissingToken)
  {
  }

  /** The outcome depends on the header only through the extracted token. */
  lemma SameTokenSameOutcome(h1: Option<string>, h2: Option<string>,
                             secret: Secret, verify: Verifier, store: Store)
    requires ExtractToken(h1) == ExtractToken(h2)
    ensures Authenticate(h1, secret, verify, store) == Authenticate(h2, secret, verify, store)
  {
  }

  /** "Basic abc" hands "abc" to the verifier. */
  lemma BasicSchemeToken()
    ensures ExtractToken(Some("Basic abc")) == Some("abc")
  {
    SchemeIgnored("Basic", "abc", []);
    assert "Basic" + [Space] + "abc" + [] == "Basic abc";
  }

  /** A non-Bearer scheme is not refused: any space-free scheme word in
      front of a token gets the outcome "Bearer" in front of it would get. */
  lemma OtherSchemeIsVerified(scheme: string, token: string,
                              secret: Secret, verify: Verifier, store: Store)
    requires Space !in scheme && Space !in token
    ensures Authenticate(Some(scheme + [Space] + token), secret, verify, store) ==
            Authenticate(Some("Bearer" + [Space] + token), secret, verify, store)
  {
    SchemeIgnored(scheme, token, []);
    SchemeIgnored("Bearer", token, []);
    assert scheme + [Space] + token + [] == scheme + [Space] + token;
    assert "Bearer" + [Space] + token + [] == "Bearer" + [Space] + token;
    SameTokenSameOutcome(Some(scheme + [Space] + token), Some("Bearer" + [Space] + token),
                         secret, verify, store);
  }
}
