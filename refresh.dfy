/** Refresh-token records (src/jwt.ts, `createRefreshToken` and
    `fetchRefreshRecord`): a row `(id, "jwt_refresh_" + sk)` of the accounts
    table holding the token, and a cookie holding the same token that the
    browser sends back. The clock, the token generator and the cookie
    library's header text are parameters. */
module Refresh {
  import opened Wrappers
  import opened Strings
  import opened Json
  import opened Constants
  import opened Events
  import opened Stores
  import opened Credentials
  import opened Authorize

  /** The key of the refresh row for the login whose sort key is `sk`. */
  function RefreshRowKey(id: string, sk: string): RowKey
  {
    RowKey(id, RefreshRowPrefix + sk)
  }

  /** The cookie `createRefreshToken` builds: name, value, the request's Host
      as its domain and the configured max age; the other options (path "/",
      httpOnly, sameSite "none", secure, overwrite) are fixed. */
  datatype CookieSpec = CookieSpec(name: string, value: string, domain: Option<string>, maxAge: int)

  function RefreshCookie(req: Request, sk: string, token: string, maxAge: int): (c: CookieSpec)
    ensures c.name == RefreshCookiePrefix + sk && c.value == token
  {
    CookieSpec(RefreshCookiePrefix + sk, token,
      if "Host" in req.headers then Some(req.headers["Host"]) else None, maxAge)
  }

  /** `moment().add(maxAge, 'millisecond').unix()`: whole seconds, rounded down. */
  function Expiry(now: int, maxAge: int): (e: int)
    ensures e * 1000 <= now + maxAge < e * 1000 + 1000
  {
    (now + maxAge) / 1000
  }

  /** The attributes of a refresh row. */
  function RefreshRow(id: string, sk: string, token: string, expires: int, header: string): (row: Attrs)
    ensures KeyOf(row) == Some(RefreshRowKey(id, sk))
    ensures Text(row, "name") == Some(sk) && Text(row, "token") == Some(token) && Text(row, "header") == Some(header)
  {
    map["id" := Str(id), "sk" := Str(RefreshRowPrefix + sk), "name" := Str(sk),
        "token" := Str(token), "expires" := Num(expires), "header" := Str(header)]
  }

  /** What `createRefreshToken` returns. */
  datatype RefreshTokenResponse = RefreshTokenResponse(token: string, header: string)

  /** `createRefreshToken(id, sk, event, token)`: overwrites the refresh row
      of login `sk` with `token` and returns the token and the cookie header,
      as read back from the stored row. */
  method CreateRefreshToken(table: AccountsTable, maxAge: int, id: string, sk: string, req: Request,
                            token: string, now: int, toHeader: CookieSpec -> string)
    returns (r: RefreshTokenResponse)
    requires table.Valid()
    modifies table
    ensures table.Valid()
    ensures var header := toHeader(RefreshCookie(req, sk, token, maxAge));
      && table.rows == old(table.rows)[RefreshRowKey(id, sk) := RefreshRow(id, sk, token, Expiry(now, maxAge), header)]
      && r == RefreshTokenResponse(token, header)
  {
    var cookie := RefreshCookie(req, sk, token, maxAge);
    table.Put(RefreshRow(id, sk, token, Expiry(now, maxAge), toHeader(cookie)));
    var row := table.Get(RefreshRowKey(id, sk));
    r := RefreshTokenResponse(row.value["token"].s, row.value["header"].s);
  }

  /** The refresh cookie value `extractRefreshCookie(event, sk)` finds. */
  function RefreshCookieValue(req: Request, sk: string): Option<string>
  {
    if Header(req.headers, "Cookie").None? then None
    else FirstCookie(Split(req.headers["Cookie"], ';'), RefreshCookiePrefix + sk)
  }

  /** What escapes `fetchRefreshRecord`: `extractToken` and `JWT.decode` are
      called outside any try, and the table rejects a key whose `id` is not
      a string. */
  datatype RefreshFault = HeaderRejected(cause: TokenError) | TokenUndecodable | KeyRejected

  /** The part of `fetchRefreshRecord` after the token is decoded: null unless
      the `id` and `sk` claims are truthy; then the refresh row
      `(id, "jwt_refresh_" + String(sk))` when it exists and the refresh
      cookie named after `String(sk)` carries the row's token. */
  function ClaimsLookup(rows: map<RowKey, Attrs>, req: Request, claims: Attrs): (r: Outcome<Option<Attrs>, RefreshFault>)
    ensures r.Threw? <==>
      PresentAndTruthy(claims, "id") && PresentAndTruthy(claims, "sk") && !claims["id"].Str?
    ensures r.Threw? ==> r.fault == KeyRejected
    ensures r.Returned? && r.value.Some? ==>
      exists key :: key in rows && rows[key] == r.value.value && RefreshRowPrefix <= key.sk
    ensures r.Returned? && r.value.Some? ==>
      && PresentAndTruthy(claims, "sk")
      && RefreshCookieValue(req, ToText(claims["sk"])).Some?
      && Text(r.value.value, "token") == RefreshCookieValue(req, ToText(claims["sk"]))
  {
    if !PresentAndTruthy(claims, "id") || !PresentAndTruthy(claims, "sk") then Returned(None)
    else if !claims["id"].Str? then Threw(KeyRejected)
    else
      var sk := ToText(claims["sk"]);
      var key := RefreshRowKey(claims["id"].s, sk);
      if key !in rows then Returned(None)
      else
        var cookie := RefreshCookieValue(req, sk);
        if cookie.None? then Returned(None)
        else if "token" !in rows[key] || rows[key]["token"] != Str(cookie.value) then Returned(None)
        else Returned(Some(rows[key]))
  }

  /** What `fetchRefreshRecord(event)` returns (a row, or null) or throws, for
      the table's rows `rows`. */
  function RefreshLookup(rows: map<RowKey, Attrs>, req: Request, decode: string -> Decoded)
    : (r: Outcome<Option<Attrs>, RefreshFault>)
    ensures r.Threw? <==>
      && ExtractAuthorization(req).Some?
      && var t := ExtractToken(ExtractAuthorization(req).value);
      && (t.Failure? ||
          (t.value != "" && (decode(t.value) == Undecodable || ClaimsLookup(rows, req, decode(t.value).claims).Threw?)))
    ensures ExtractAuthorization(req).None? ==> r == Returned(None)
    ensures ExtractAuthorization(req).Some? ==>
      var t := ExtractToken(ExtractAuthorization(req).value);
      && (t.Failure? ==> r == Threw(HeaderRejected(t.error)))
      && (t.Success? && t.value == "" ==> r == Returned(None))
      && (t.Success? && t.value != "" && decode(t.value).Payload? ==> r == ClaimsLookup(rows, req, decode(t.value).claims))
  {
    var authorization := ExtractAuthorization(req);
    if authorization.None? then Returned(None)
    else
      match ExtractToken(authorization.value)
      case Failure(e) => Threw(HeaderRejected(e))
      case Success(token) =>
        if token == "" then Returned(None)
        else
          match decode(token)
          case Undecodable => Threw(TokenUndecodable)
          case Payload(claims) => ClaimsLookup(rows, req, claims)
  }

  /** Truthy claims with a string `id` give the refresh row back exactly when
      the row exists and the refresh cookie carries the row's token. */
  lemma RefreshAcceptsExactly(rows: map<RowKey, Attrs>, req: Request, claims: Attrs, id: string)
    requires Text(claims, "id") == Some(id) && id != "" && PresentAndTruthy(claims, "sk")
    ensures var sk := ToText(claims["sk"]);
      var key := RefreshRowKey(id, sk);
      ClaimsLookup(rows, req, claims) ==
        if key in rows && RefreshCookieValue(req, sk).Some? && Text(rows[key], "token") == RefreshCookieValue(req, sk)
        then Returned(Some(rows[key]))
        else Returned(None)
  {
  }

  /** Without truthy `id` and `sk` claims there is no refresh row. */
  lemma RefreshNeedsIdAndSk(rows: map<RowKey, Attrs>, req: Request, claims: Attrs)
    requires !PresentAndTruthy(claims, "id") || !PresentAndTruthy(claims, "sk")
    ensures ClaimsLookup(rows, req, claims) == Returned(None)
  {
  }

  /** The table lookups of `fetchRefreshRecord`, after the token is decoded. */
  method FetchStoredRecord(table: AccountsTable, req: Request, claims: Attrs) returns (r: Outcome<Option<Attrs>, RefreshFault>)
    requires table.Valid()
    ensures r == ClaimsLookup(table.rows, req, claims)
  {
    if !PresentAndTruthy(claims, "id") || !PresentAndTruthy(claims, "sk") {
      return Returned(None);
    }
    var id := claims["id"];
    if !id.Str? {
      return Threw(KeyRejected);
    }
    var sk := ToText(claims["sk"]);
    var record := table.Get(RefreshRowKey(id.s, sk));
    if record.None? {
      return Returned(None);
    }
    var cookie := ExtractRefreshCookie(req, sk);
    if cookie.value.None? {
      return Returned(None);
    }
    if "token" !in record.value || record.value["token"] != Str(cookie.value.value) {
      return Returned(None);
    }
    r := Returned(Some(record.value));
  }

  /** `fetchRefreshRecord(event)`. It only reads the table. */
  method FetchRefreshRecord(table: AccountsTable, req: Request, decode: string -> Decoded)
    returns (r: Outcome<Option<Attrs>, RefreshFault>)
    requires table.Valid()
    ensures r == RefreshLookup(table.rows, req, decode)
  {
    var authorization := ExtractAuthorization(req);
    if authorization.None? {
      return Returned(None);
    }
    var token := ExtractToken(authorization.value);
    if token.Failure? {
      return Threw(HeaderRejected(token.error));
    }
    if token.value == "" {
      return Returned(None);
    }
    var decoded := decode(token.value);
    if decoded.Undecodable? {
      return Threw(TokenUndecodable);
    }
    r := FetchStoredRecord(table, req, decoded.claims);
  }

  /** A refresh request built from what a login hands out is accepted: after
      the refresh row for `(id, sk)` is written with `token`, a request whose
      bearer token decodes to `id` and `sk` and whose Cookie header is the
      refresh cookie with `token` gets that row back. */
  lemma LoginThenRefresh(rows: map<RowKey, Attrs>, req: Request, decode: string -> Decoded,
                         jwt: string, id: string, sk: string, token: string, expires: int, header: string)
    requires req.authorizationToken.None? && req.headers.Keys == {"Authorization", "Cookie"}
    requires req.headers["Authorization"] == "Bearer " + jwt && jwt != "" && ' ' !in jwt
    requires req.headers["Cookie"] == RefreshCookiePrefix + sk + "=" + token
    requires decode(jwt) == Payload(map["id" := Str(id), "sk" := Str(sk)])
    requires id != "" && sk != "" && '=' !in sk && ';' !in sk && !IsSpace(sk[|sk| - 1])
    requires token != "" && '=' !in token && ';' !in token && !IsSpace(token[|token| - 1])
    ensures var written := rows[RefreshRowKey(id, sk) := RefreshRow(id, sk, token, expires, header)];
      RefreshLookup(written, req, decode) == Returned(Some(RefreshRow(id, sk, token, expires, header)))
  {
    var written := rows[RefreshRowKey(id, sk) := RefreshRow(id, sk, token, expires, header)];
    var claims := map["id" := Str(id), "sk" := Str(sk)];
    assert ExtractAuthorization(req) == Some("Bearer " + jwt);
    assert ' ' !in "Bearer";
    assert "Bearer" in AuthPrefixes;
    ExtractTokenScheme("Bearer", jwt);
    assert "Bearer" + " " + jwt == "Bearer " + jwt;
    assert ExtractToken("Bearer " + jwt) == Success(jwt);
    assert decode(jwt) == Payload(claims);
    assert RefreshLookup(written, req, decode) == ClaimsLookup(written, req, claims);
    RefreshCookieRoundTrip(sk, token);
    assert RefreshCookieValue(req, sk) == Some(token);
    assert Text(claims, "id") == Some(id) && ToText(claims["sk"]) == sk;
    RefreshAcceptsExactly(written, req, claims, id);
  }
}
