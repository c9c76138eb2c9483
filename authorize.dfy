/** The token verification pipeline (src/jwt.ts, `verifyToken`): credential,
    token, decoded claims, issuer check, key set and signature, each step
    either passing on or ending with a response that is not authorized.
    `JWT.decode`, `JWT.verify`, the URL parser and the key-set fetch are
    parameters. */
module Authorize {
  import opened Wrappers
  import opened Strings
  import opened Json
  import opened Events
  import opened Credentials
  import opened Jwks

  /** What `JWT.decode(token)` yields: an exception, or the claims object. */
  datatype Decoded = Undecodable | Payload(claims: Attrs)

  /** What `JWT.verify(token, keys)` yields: an exception, a falsy value, an
      Error object, or the verified claims. */
  datatype Verdict = VerifyThrew | VerifyFalsy | VerifyReturnedError | Verified(claims: Attrs)

  /** The error a not-authorized response carries. */
  datatype AuthError =
    | MissingAuthorization
    | BadHeader(cause: TokenError)
    | MissingIssuer
    | IssuerMismatch(issuer: string)
    | KeysUnavailable(fault: JwksFault)
    | SignatureRejected
    | UnableToVerify
    | VerifierError

  /** `VerifyTokenResponse`. `principal` is the `aud` claim as decoded. */
  datatype VerifyResponse = VerifyResponse(
    principal: Option<Value>,
    authorized: bool,
    payload: Option<Attrs>,
    error: Option<AuthError>)

  /** What escapes `verifyToken`: an exception of `JWT.decode`, or of
      `new URL(iss)` on an issuer that is not a URL. */
  datatype VerifyFault = DecodeFailed | InvalidIssuerUrl(issuer: string)

  /** The foreign calls `verifyToken` makes: `JWT.decode`, the hostname of
      `new URL(…)` (None when the constructor throws), `axios.get`,
      `JWKS.asKeyStore`'s acceptance test, and `JWT.verify`. */
  datatype Foreign = Foreign(
    decode: string -> Decoded,
    hostnameOf: string -> Option<string>,
    get: string -> Fetched,
    isKeySet: Value -> bool,
    verify: (string, KeyStore) -> Verdict)

  /** The response `verifyToken` starts from. */
  const Unauthorized := VerifyResponse(None, false, None, None)

  /** The `aud` claim, undefined when absent. */
  function Audience(claims: Attrs): Option<Value>
  {
    if "aud" in claims then Some(claims["aud"]) else None
  }

  /** `!decoded.iss`. */
  predicate HasIssuer(claims: Attrs)
  {
    "iss" in claims && Truthy(claims["iss"])
  }

  /** What `verifyToken` returns or throws, and the key-set cache it leaves,
      for a cache `cache`, the configured DOMAIN and the time `now`. */
  function VerifySpec(cache: map<string, CacheEntry>, domain: string, req: Request, now: int, f: Foreign)
    : (r: (Outcome<VerifyResponse, VerifyFault>, map<string, CacheEntry>))
    ensures r.0.Returned? && !r.0.value.authorized ==> r.0.value.error.Some? && r.0.value.payload.None?
    ensures r.0.Returned? && r.0.value.authorized ==> r.0.value.error.None? && r.0.value.payload.Some?
    ensures ExtractAuthorization(req).None? ==> r == (Returned(Unauthorized.(error := Some(MissingAuthorization))), cache)
    ensures ExtractAuthorization(req).Some? && ExtractToken(ExtractAuthorization(req).value).Failure? ==>
      r == (Returned(Unauthorized.(error := Some(BadHeader(ExtractToken(ExtractAuthorization(req).value).error)))), cache)
    ensures cache.Keys <= r.1.Keys
    ensures ExtractAuthorization(req).Some? && ExtractToken(ExtractAuthorization(req).value).Success? ==>
      var decoded := f.decode(ExtractToken(ExtractAuthorization(req).value).value);
      && (decoded.Payload? && !HasIssuer(decoded.claims) ==>
            r == (Returned(Unauthorized.(principal := Audience(decoded.claims), error := Some(MissingIssuer))), cache))
      && (r.0.Threw? <==>
            decoded.Undecodable? || (HasIssuer(decoded.claims) && f.hostnameOf(ToText(decoded.claims["iss"])).None?))
    ensures ExtractAuthorization(req).None? || ExtractToken(ExtractAuthorization(req).value).Failure? ==> r.0.Returned?
  {
    var authorization := ExtractAuthorization(req);
    if authorization.None? then
      (Returned(Unauthorized.(error := Some(MissingAuthorization))), cache)
    else
      match ExtractToken(authorization.value)
      case Failure(e) => (Returned(Unauthorized.(error := Some(BadHeader(e)))), cache)
      case Success(token) =>
        match f.decode(token)
        case Undecodable => (Threw(DecodeFailed), cache)
        case Payload(claims) =>
          var response := Unauthorized.(principal := Audience(claims));
          if !HasIssuer(claims) then
            (Returned(response.(error := Some(MissingIssuer))), cache)
          else
            var issuer := ToText(claims["iss"]);
            match f.hostnameOf(issuer)
            case None => (Threw(InvalidIssuerUrl(issuer)), cache)
            case Some(hostname) =>
              if IndexOf(hostname, domain) == 0 then
                (Returned(response.(error := Some(IssuerMismatch(issuer)))), cache)
              else
                var step := FetchStep(cache, issuer, now, f.get, f.isKeySet);
                if step.result.Threw? then
                  (Returned(response.(error := Some(KeysUnavailable(step.result.fault)))), step.cache)
                else
                  match f.verify(token, step.result.value)
                  case VerifyThrew => (Returned(response.(error := Some(SignatureRejected))), step.cache)
                  case VerifyFalsy => (Returned(response.(error := Some(UnableToVerify))), step.cache)
                  case VerifyReturnedError => (Returned(response.(error := Some(VerifierError))), step.cache)
                  case Verified(payload) =>
                    (Returned(response.(authorized := true, payload := Some(payload))), step.cache)
  }

  /** The steps a request passes before its issuer is looked at: a
      credential, a well-formed token, and decodable claims with an issuer
      whose URL parses to `hostname`. */
  predicate ReachesIssuerCheck(req: Request, f: Foreign, token: string, claims: Attrs, hostname: string)
  {
    && ExtractAuthorization(req).Some?
    && ExtractToken(ExtractAuthorization(req).value) == Success(token)
    && f.decode(token) == Payload(claims)
    && HasIssuer(claims)
    && f.hostnameOf(ToText(claims["iss"])) == Some(hostname)
  }

  /** A response is authorized only when every step passed: the issuer's
      hostname does not start with DOMAIN, its key set was obtained and
      `JWT.verify` returned the claims that become the payload. */
  lemma AuthorizedOnlyAfterVerify(cache: map<string, CacheEntry>, domain: string, req: Request, now: int, f: Foreign)
    requires VerifySpec(cache, domain, req, now, f).0.Returned?
    requires VerifySpec(cache, domain, req, now, f).0.value.authorized
    ensures exists token, claims, hostname ::
      && ReachesIssuerCheck(req, f, token, claims, hostname)
      && IndexOf(hostname, domain) != 0
      && var step := FetchStep(cache, ToText(claims["iss"]), now, f.get, f.isKeySet);
      && step.result.Returned?
      && f.verify(token, step.result.value) == Verified(VerifySpec(cache, domain, req, now, f).0.value.payload.value)
  {
    var authorization := ExtractAuthorization(req);
    var token := ExtractToken(authorization.value).value;
    var claims := f.decode(token).claims;
    var hostname := f.hostnameOf(ToText(claims["iss"])).value;
    assert ReachesIssuerCheck(req, f, token, claims, hostname);
  }

  /** Past the issuer check, the response follows the key set and the
      verdict of `JWT.verify`: authorized with the verified claims as payload
      exactly when both succeed, otherwise refused with the matching error;
      the principal is the decoded `aud` throughout. */
  lemma AfterIssuerCheck(cache: map<string, CacheEntry>, domain: string, req: Request, now: int, f: Foreign,
                         token: string, claims: Attrs, hostname: string)
    requires ReachesIssuerCheck(req, f, token, claims, hostname)
    requires IndexOf(hostname, domain) != 0
    ensures var step := FetchStep(cache, ToText(claims["iss"]), now, f.get, f.isKeySet);
      var response := Unauthorized.(principal := Audience(claims));
      VerifySpec(cache, domain, req, now, f) ==
        if step.result.Threw? then (Returned(response.(error := Some(KeysUnavailable(step.result.fault)))), step.cache)
        else match f.verify(token, step.result.value)
          case VerifyThrew => (Returned(response.(error := Some(SignatureRejected))), step.cache)
          case VerifyFalsy => (Returned(response.(error := Some(UnableToVerify))), step.cache)
          case VerifyReturnedError => (Returned(response.(error := Some(VerifierError))), step.cache)
          case Verified(payload) => (Returned(response.(authorized := true, payload := Some(payload))), step.cache)
  {
  }

  /** A token whose issuer passes the check, whose key set is obtained and
      which `JWT.verify` accepts is authorized, with the verified claims as
      payload. */
  lemma AuthorizedWhenVerified(cache: map<string, CacheEntry>, domain: string, req: Request, now: int, f: Foreign,
                               token: string, claims: Attrs, hostname: string, payload: Attrs)
    requires ReachesIssuerCheck(req, f, token, claims, hostname)
    requires IndexOf(hostname, domain) != 0
    requires var step := FetchStep(cache, ToText(claims["iss"]), now, f.get, f.isKeySet);
      step.result.Returned? && f.verify(token, step.result.value) == Verified(payload)
    ensures var r := VerifySpec(cache, domain, req, now, f).0;
      r.Returned? && r.value.authorized && r.value.payload == Some(payload) && r.value.principal == Audience(claims)
  {
    AfterIssuerCheck(cache, domain, req, now, f, token, claims, hostname);
  }

  /** Once the issuer is reached, the request is refused with "Issuer
      mismatch" exactly when its hostname starts with DOMAIN (the check
      `!hostname.indexOf(DOMAIN)`); a hostname that does not contain DOMAIN
      at all passes this step. */
  lemma IssuerMismatchExactlyOnPrefix(cache: map<string, CacheEntry>, domain: string, req: Request, now: int, f: Foreign,
                                      token: string, claims: Attrs, hostname: string)
    requires ReachesIssuerCheck(req, f, token, claims, hostname)
    ensures var r := VerifySpec(cache, domain, req, now, f).0;
      (r.Returned? && r.value.error == Some(IssuerMismatch(ToText(claims["iss"])))) <==> domain <= hostname
    ensures !Contains(hostname, domain) ==> VerifySpec(cache, domain, req, now, f).0.value.error != Some(IssuerMismatch(ToText(claims["iss"])))
  {
    IndexOfZero(hostname, domain);
    IndexOfAbsent(hostname, domain);
    var r := VerifySpec(cache, domain, req, now, f).0;
    if !(domain <= hostname) {
      var step := FetchStep(cache, ToText(claims["iss"]), now, f.get, f.isKeySet);
      assert r.Returned?;
    }
  }

  /** The principal is the decoded `aud` claim on every response that
      follows a successful decode, authorized or not. */
  lemma PrincipalSetEarly(cache: map<string, CacheEntry>, domain: string, req: Request, now: int, f: Foreign,
                          token: string, claims: Attrs)
    requires ExtractAuthorization(req).Some?
    requires ExtractToken(ExtractAuthorization(req).value) == Success(token)
    requires f.decode(token) == Payload(claims)
    ensures var r := VerifySpec(cache, domain, req, now, f).0;
      r.Returned? ==> r.value.principal == Audience(claims)
  {
  }

  /** Only the entry for the token's issuer can change in the key-set cache. */
  lemma VerifyTouchesOnlyIssuer(cache: map<string, CacheEntry>, domain: string, req: Request, now: int, f: Foreign, url: string)
    requires url in cache
    requires forall token, claims ::
      (&& ExtractAuthorization(req).Some?
       && ExtractToken(ExtractAuthorization(req).value) == Success(token)
       && f.decode(token) == Payload(claims)
       && HasIssuer(claims)) ==> ToText(claims["iss"]) != url
    ensures var r := VerifySpec(cache, domain, req, now, f).1;
      url in r && r[url] == cache[url]
  {
  }

  /** `verifyToken(event)`: fills in the response step by step; `cache` is the
      module-level key-set cache. */
  method VerifyToken(cache: JwksCache, domain: string, req: Request, now: int, f: Foreign)
    returns (r: Outcome<VerifyResponse, VerifyFault>)
    modifies cache
    ensures (r, cache.entries) == VerifySpec(old(cache.entries), domain, req, now, f)
  {
    var response := Unauthorized;
    var authorization := ExtractAuthorization(req);
    if authorization.None? {
      response := response.(error := Some(MissingAuthorization));
      return Returned(response);
    }
    var token := ExtractToken(authorization.value);
    if token.Failure? {
      response := response.(error := Some(BadHeader(token.error)));
      return Returned(response);
    }
    var decoded := f.decode(token.value);
    if decoded.Undecodable? {
      return Threw(DecodeFailed);
    }
    response := response.(principal := Audience(decoded.claims));
    if !HasIssuer(decoded.claims) {
      response := response.(error := Some(MissingIssuer));
      return Returned(response);
    }
    var issuer := ToText(decoded.claims["iss"]);
    var hostname := f.hostnameOf(issuer);
    if hostname.None? {
      return Threw(InvalidIssuerUrl(issuer));
    }
    if IndexOf(hostname.value, domain) == 0 {
      response := response.(error := Some(IssuerMismatch(issuer)));
      return Returned(response);
    }
    var jwks := cache.Fetch(issuer, now, f.get, f.isKeySet);
    if jwks.Threw? {
      response := response.(error := Some(KeysUnavailable(jwks.fault)));
      return Returned(response);
    }
    var verified := f.verify(token.value, jwks.value);
    match verified {
      case VerifyThrew =>
        response := response.(error := Some(SignatureRejected));
      case VerifyFalsy =>
        response := response.(error := Some(UnableToVerify));
      case VerifyReturnedError =>
        response := response.(error := Some(VerifierError));
      case Verified(payload) =>
        response := response.(authorized := true, payload := Some(payload));
    }
    r := Returned(response);
  }
}
