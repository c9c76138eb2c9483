/** Reading the credentials a request carries (src/jwt.ts): the bearer token
    (`extractAuthorization`, `extractToken`) and the refresh-token cookie
    (`extractRefreshCookie`). The header rules are looser than section 2.1 of
    RFC 6750 (case-sensitive scheme words, a bare token accepted) and the
    cookie scan is simpler than section 5.4 of RFC 6265. */
module Credentials {
  import opened Wrappers
  import opened Strings
  import opened Constants
  import opened Events

  /** Where a credential may come from, in the order `extractAuthorization`
      tries them: the authorizer's `authorizationToken`, then the
      `Authorization` header, then the `authorization` header. */
  function Candidates(req: Request): seq<Option<string>>
  {
    [ req.authorizationToken,
      if "Authorization" in req.headers then Some(req.headers["Authorization"]) else None,
      if "authorization" in req.headers then Some(req.headers["authorization"]) else None ]
  }

  /** The first candidate that is present and not empty. */
  function FirstGiven(cands: seq<Option<string>>): Option<string>
  {
    if cands == [] then None
    else if cands[0].Some? && cands[0].value != "" then cands[0]
    else FirstGiven(cands[1..])
  }

  /** `extractAuthorization(event)`: the first credential given, or null. */
  function ExtractAuthorization(req: Request): (r: Option<string>)
    ensures r == FirstGiven(Candidates(req))
    ensures r.Some? ==> r.value != "" && Some(r.value) in Candidates(req)
    ensures r.None? <==> forall c :: c in Candidates(req) ==> c.None? || c.value == ""
  {
    var c := Candidates(req);
    assert FirstGiven(c[2..]) == Header(req.headers, "authorization") by {
      assert c[2..][1..] == [];
    }
    assert FirstGiven(c[1..]) == if c[1].Some? && c[1].value != "" then c[1] else FirstGiven(c[2..]) by {
      assert c[1..][1..] == c[2..];
    }
    if req.authorizationToken.Some? && req.authorizationToken.value != "" then
      req.authorizationToken
    else if Header(req.headers, "Authorization").Some? then
      Header(req.headers, "Authorization")
    else
      Header(req.headers, "authorization")
  }

  /** Why `extractToken` throws. */
  datatype TokenError =
    | MissingHeader
    | MalformedHeader
    | InvalidTokenType(prefix: string)

  /** `extractToken(authorization)`: a bare token, or a scheme word from
      `AuthPrefixes` and the token, separated by one space. */
  function ExtractToken(authorization: string): (r: Result<string, TokenError>)
    ensures r == Failure(MissingHeader) <==> authorization == ""
    ensures r.Success? ==> ' ' !in r.value
    ensures r.Success? ==>
      r.value == authorization || exists p :: p in AuthPrefixes && authorization == p + " " + r.value
    ensures r.Failure? && r.error.InvalidTokenType? ==>
      r.error.prefix !in AuthPrefixes && ' ' !in r.error.prefix && r.error.prefix + " " <= authorization
  {
    if authorization == "" then Failure(MissingHeader)
    else
      var parts := Split(authorization, ' ');
      SplitLength(authorization, ' ');
      CountZero(authorization, ' ');
      SplitFreeOf(authorization, ' ');
      JoinSplit(authorization, ' ');
      if |parts| > 2 then Failure(MalformedHeader)
      else if |parts| == 2 then
        assert Join(parts, ' ') == parts[0] + [' '] + parts[1];
        if parts[0] in AuthPrefixes then Success(parts[1]) else Failure(InvalidTokenType(parts[0]))
      else
        Success(authorization)
  }

  /** More than one space makes the header malformed, whatever its words. */
  lemma ExtractTokenMalformed(authorization: string)
    requires authorization != ""
    ensures ExtractToken(authorization) == Failure(MalformedHeader) <==> Count(authorization, ' ') >= 2
  {
    SplitLength(authorization, ' ');
  }

  /** A credential without a space is taken as the token itself. */
  lemma ExtractTokenBare(token: string)
    requires token != "" && ' ' !in token
    ensures ExtractToken(token) == Success(token)
  {
    SplitPlain(token, ' ');
  }

  /** `<scheme> <token>` gives back the token for both accepted scheme words,
      and names the scheme word for any other. */
  lemma ExtractTokenScheme(prefix: string, token: string)
    requires ' ' !in prefix && ' ' !in token
    ensures prefix in AuthPrefixes ==> ExtractToken(prefix + " " + token) == Success(token)
    ensures prefix !in AuthPrefixes ==> ExtractToken(prefix + " " + token) == Failure(InvalidTokenType(prefix))
  {
    var a := prefix + " " + token;
    SplitFirst(prefix, token, ' ');
    SplitPlain(token, ' ');
    assert Split(a, ' ') == [prefix, token];
  }

  /** The refresh cookie `extractRefreshCookie` looks for, and the value it
      found (null when none). */
  datatype Cookie = Cookie(name: string, value: Option<string>)

  /** `const [name, value] = item.trim().split('=')`: the text before the
      first `=`, and the text between the first and the second (undefined
      when there is no `=`). */
  function CookiePair(item: string): (r: (string, Option<string>))
  {
    var parts := Split(Trim(item), '=');
    (parts[0], if |parts| >= 2 then Some(parts[1]) else None)
  }

  /** The value of the first item that has a name and a value and whose name
      is `name`. */
  function FirstCookie(items: seq<string>, name: string): (r: Option<string>)
    ensures r.Some? ==> r.value != "" && '=' !in r.value
  {
    if items == [] then None
    else
      var (n, v) := CookiePair(items[0]);
      if n != "" && v.Some? && v.value != "" && n == name then
        SplitFreeOf(Trim(items[0]), '=');
        v
      else
        var r := FirstCookie(items[1..], name);
        r
  }

  /** `extractRefreshCookie(event, sk)`: folds over the `;`-separated items
      of the Cookie header, keeping the first value found for the cookie
      named by the refresh-cookie prefix and `sk`. */
  method ExtractRefreshCookie(req: Request, sk: string) returns (cookie: Cookie)
    ensures cookie.name == RefreshCookiePrefix + sk
    ensures Header(req.headers, "Cookie").None? ==> cookie.value.None?
    ensures Header(req.headers, "Cookie").Some? ==>
      cookie.value == FirstCookie(Split(req.headers["Cookie"], ';'), cookie.name)
  {
    cookie := Cookie(RefreshCookiePrefix + sk, None);
    var header := Header(req.headers, "Cookie");
    if header.None? {
      return;
    }
    // `split` never yields an empty list, so the "No cookies" branch is dead.
    var cookies := Split(header.value, ';');
    var i := 0;
    while i < |cookies|
      invariant 0 <= i <= |cookies|
      invariant cookie.name == RefreshCookiePrefix + sk
      invariant cookie.value.None? ==> FirstCookie(cookies, cookie.name) == FirstCookie(cookies[i..], cookie.name)
      invariant cookie.value.Some? ==> cookie.value == FirstCookie(cookies, cookie.name) && cookie.value.value != ""
    {
      assert cookies[i..][1..] == cookies[i + 1..];
      if cookie.value.None? {
        var (name, value) := CookiePair(cookies[i]);
        if name != "" && value.Some? && value.value != "" && name == cookie.name {
          cookie := cookie.(value := value);
        }
      }
      i := i + 1;
    }
  }

  /** A Cookie header holding just `name=value` yields that value. */
  lemma CookieRoundTrip(name: string, value: string)
    requires name != "" && value != ""
    requires '=' !in name && '=' !in value && ';' !in name && ';' !in value
    requires !IsSpace(name[0]) && !IsSpace(value[|value| - 1])
    ensures FirstCookie(Split(name + "=" + value, ';'), name) == Some(value)
  {
    var item := name + "=" + value;
    assert ';' !in item;
    SplitPlain(item, ';');
    TrimNoop(item);
    SplitFirst(name, value, '=');
    SplitPlain(value, '=');
    assert Split(item, '=') == [name, value];
  }

  /** The refresh cookie for a sort key without `=`, `;` or trailing white
      space is read back from a header that sets only it. */
  lemma RefreshCookieRoundTrip(sk: string, token: string)
    requires '=' !in sk && ';' !in sk && (sk == [] || !IsSpace(sk[|sk| - 1]))
    requires token != "" && '=' !in token && ';' !in token && !IsSpace(token[|token| - 1])
    ensures FirstCookie(Split(RefreshCookiePrefix + sk + "=" + token, ';'), RefreshCookiePrefix + sk) == Some(token)
  {
    var name := RefreshCookiePrefix + sk;
    assert name[0] == '_';
    assert '=' !in RefreshCookiePrefix && ';' !in RefreshCookiePrefix;
    assert forall c :: c in name ==> c in RefreshCookiePrefix || c in sk;
    CookieRoundTrip(name, token);
  }
}
