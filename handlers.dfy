/** The login and account handlers (src/index.ts): login creation, refresh,
    removal and listing, and the way the account handlers pick the row they
    work on. Thrown errors end in `handleError`; an `HttpError` keeps its
    status and any other error is a 500. */
module Handlers {
  import opened Wrappers
  import opened Strings
  import opened Json
  import opened Constants
  import opened Events
  import opened Stores
  import opened Keys
  import opened Claims
  import opened Authorize
  import opened Refresh
  import opened Util
  import opened Social

  /** What a handler answers: status, body and the Set-Cookie header. */
  datatype Reply = Reply(status: int, body: Value, setCookie: Option<string>)

  function Refused(status: int): Reply
  {
    Reply(status, Null, None)
  }

  /** The environment a handler runs in: configuration, the clock (ms), the
      token `uuidv4()` would draw, the key pair `generateKeys()` would make,
      the secret writes that would fail, and the foreign calls. */
  datatype Env = Env(
    config: Config,
    now: int,
    newToken: string,
    generated: KeyPair,
    failingSecrets: set<string>,
    sign: (Attrs, string, SignOptions) -> string,
    toHeader: CookieSpec -> string,
    decode: string -> Decoded,
    google: Value -> GoogleCheck)

  /** The body `handleSuccess` sends for a `createToken` result. */
  function TokenBody(t: TokenResponse): Value
  {
    Obj(map["payload" := Obj(t.payload), "token" := Str(t.token)])
  }

  // ---------------------------------------------------------------------
  // Account handlers: which row they address.

  /** `createAccountV1`: the account id is the body's `id` on a service call
      (an API key and a body id), else the authorizer's `id`; None is the
      400 "Missing id". */
  function CreateAccountId(req: Request): (r: Option<Value>)
    ensures r.Some? ==> Truthy(r.value)
    ensures PresentAndTruthy(req.authorizer, "apiKey") && PresentAndTruthy(req.body, "id") ==> r == Some(req.body["id"])
    ensures !(PresentAndTruthy(req.authorizer, "apiKey") && PresentAndTruthy(req.body, "id")) ==>
      r == if PresentAndTruthy(req.authorizer, "id") then Some(req.authorizer["id"]) else None
  {
    var authorizerParams := Optional(req.authorizer, ["apiKey", "id"], false);
    var bodyParams := Optional(req.body, ["id"], false);
    if PresentAndTruthy(authorizerParams, "apiKey") && PresentAndTruthy(bodyParams, "id") then Some(bodyParams["id"])
    else if PresentAndTruthy(authorizerParams, "id") then Some(authorizerParams["id"])
    else None
  }

  /** `getAccountV1`: a service call (an API key in the identity and an id in
      the path) reads row `(path id, "root")`; a login reads
      `(authorizer id, "primary")`; None is the 400 "Missing id". */
  function GetAccountKey(req: Request): (r: Option<(Value, string)>)
    ensures r.Some? ==> Truthy(r.value.0)
    ensures PresentAndTruthy(req.identity, "apiKey") && PresentAndTruthy(req.pathParameters, "id") ==>
      r == Some((req.pathParameters["id"], "root"))
    ensures !(PresentAndTruthy(req.identity, "apiKey") && PresentAndTruthy(req.pathParameters, "id")) ==>
      r == if PresentAndTruthy(req.authorizer, "id") then Some((req.authorizer["id"], "primary")) else None
  {
    var identityParams := Optional(req.identity, ["apiKey"], false);
    var authorizerParams := Optional(req.authorizer, ["id"], false);
    var pathParams := Optional(req.pathParameters, ["id"], false);
    if PresentAndTruthy(identityParams, "apiKey") && PresentAndTruthy(pathParams, "id") then Some((pathParams["id"], "root"))
    else if PresentAndTruthy(authorizerParams, "id") then Some((authorizerParams["id"], "primary"))
    else None
  }

  /** `getAccountV1`: 400 without an id, 204 when the row is absent, else
      the row. A non-string id is refused by the table (500). */
  method GetAccountV1(table: AccountsTable, req: Request) returns (reply: Reply)
    requires table.Valid()
    ensures GetAccountKey(req).None? ==> reply == Refused(400)
    ensures GetAccountKey(req).Some? && !GetAccountKey(req).value.0.Str? ==> reply == Refused(500)
    ensures GetAccountKey(req).Some? && GetAccountKey(req).value.0.Str? ==>
      var key := RowKey(GetAccountKey(req).value.0.s, GetAccountKey(req).value.1);
      reply == if key in table.rows then Reply(200, Obj(table.rows[key]), None) else Reply(204, Null, None)
  {
    var key := GetAccountKey(req);
    if key.None? {
      return Refused(400);
    }
    var (id, sk) := key.value;
    if !id.Str? {
      return Refused(500);
    }
    var row := table.Get(RowKey(id.s, sk));
    if row.None? {
      return Reply(204, Null, None);
    }
    reply := Reply(200, Obj(row.value), None);
  }

  /** `updateAccountV1`: 400 without an authorizer id, 404 when the
      account's primary row is missing; otherwise the row is rewritten with
      the body's `name` and `company` (empty strings allowed) over its
      existing attributes. */
  method UpdateAccountV1(table: AccountsTable, req: Request) returns (reply: Reply)
    requires table.Valid()
    modifies table
    ensures table.Valid()
    ensures Required(req.authorizer, ["id"]).None? ==> reply == Refused(400) && table.rows == old(table.rows)
    ensures Required(req.authorizer, ["id"]).Some? && !req.authorizer["id"].Str? ==>
      reply == Refused(500) && table.rows == old(table.rows)
    ensures Required(req.authorizer, ["id"]).Some? && req.authorizer["id"].Str? ==>
      var key := RowKey(req.authorizer["id"].s, "primary");
      var changes := Optional(req.body, ["name", "company"], true);
      && (key !in old(table.rows) ==> reply == Refused(404) && table.rows == old(table.rows))
      && (key in old(table.rows) ==>
            && table.rows == old(table.rows)[key := old(table.rows)[key] + changes]
            && reply == Reply(200, Obj(old(table.rows)[key] + changes), None))
  {
    var authorizerParams := Required(req.authorizer, ["id"]);
    if authorizerParams.None? {
      return Refused(400);
    }
    var id := authorizerParams.value["id"];
    if !id.Str? {
      return Refused(500);
    }
    var bodyParams := Optional(req.body, ["name", "company"], true);
    var existing := table.Get(RowKey(id.s, "primary"));
    if existing.None? {
      return Refused(404);
    }
    var merged := existing.value + bodyParams;
    assert KeyOf(merged) == KeyOf(existing.value);
    table.Put(merged);
    reply := Reply(200, Obj(merged), None);
  }

  /** The body wins over the stored row, and the row keeps its key. */
  lemma UpdateKeepsKey(existing: Attrs, body: Attrs)
    requires KeyOf(existing).Some?
    ensures var merged := existing + Optional(body, ["name", "company"], true);
      && KeyOf(merged) == KeyOf(existing)
      && (forall k :: k in merged && k != "name" && k != "company" ==> merged[k] == existing[k])
      && (forall k :: k in ["name", "company"] && Given(body, k, true) ==> merged[k] == body[k])
  {
  }

  // ---------------------------------------------------------------------
  // Logins.

  /** The parameters `createLoginV1` requires of the body. */
  const LoginParams: seq<string> := ["id", "idToken", "authToken", "email", "name", "provider"]

  /** The login row `createLoginV1` writes:
      `{ ...params, ...optParams, baseUrl, id: params.email, sk }`. */
  function LoginAttrs(req: Request, params: Attrs, optParams: Attrs): Attrs
    requires "email" in params && "provider" in params && "id" in params
  {
    (params + optParams)
      ["baseUrl" := Str(Origin(req.headers))]
      ["id" := params["email"]]
      ["sk" := Str(LoginRowPrefix + ToText(params["provider"]) + "_" + ToText(params["id"]))]
  }

  /** A login row is keyed by the e-mail address and
      `login_<provider>_<provider's user id>`; its `baseUrl` is an https URL
      exactly when X-Forwarded-Proto is "https"; and the payload cleansed
      from it keeps the key but not the provider's tokens. */
  lemma LoginRowKeying(req: Request, params: Attrs, optParams: Attrs, email: string)
    requires "email" in params && "provider" in params && "id" in params
    requires params["email"] == Str(email)
    ensures var row := LoginAttrs(req, params, optParams);
      var sk := LoginRowPrefix + ToText(params["provider"]) + "_" + ToText(params["id"]);
      && KeyOf(row) == Some(RowKey(email, sk))
      && LoginRowPrefix <= KeyOf(row).value.sk
      && Text(Cleanse(row), "id") == Some(email)
      && Text(Cleanse(row), "sk") == Some(sk)
      && "idToken" !in Cleanse(row) && "authToken" !in Cleanse(row)
      && row["baseUrl"].Str? && ("https://" <= row["baseUrl"].s <==> Forwarded(req.headers))
  {
    var row := LoginAttrs(req, params, optParams);
    RowKeysAreNotSensitive();
    CleanseDropsCredentials(row);
    OriginSecure(req.headers);
  }

  /** A login row and a refresh row never share a key. */
  lemma LoginAndRefreshRowsDiffer(login: RowKey, id: string, sk: string)
    requires LoginRowPrefix <= login.sk
    ensures login != RefreshRowKey(id, sk)
  {
    assert login.sk[0] == 'l' && RefreshRowKey(id, sk).sk[0] == 'j';
  }

  /** The body carries every key of `LoginParams`. */
  predicate LoginFieldsPresent(body: Attrs)
  {
    "id" in body && "idToken" in body && "authToken" in body && "email" in body && "name" in body && "provider" in body
  }

  /** The parameters `createLoginV1` requires are present in the body and
      taken from it unchanged. */
  lemma RequiredLoginFields(body: Attrs)
    requires Required(body, LoginParams).Some?
    ensures LoginFieldsPresent(body)
    ensures var p := Required(body, LoginParams).value;
      LoginFieldsPresent(p) && p["email"] == body["email"] && p["provider"] == body["provider"]
      && p["id"] == body["id"] && p["idToken"] == body["idToken"]
  {
    assert LoginParams[0] == "id" && LoginParams[1] == "idToken" && LoginParams[2] == "authToken";
    assert LoginParams[3] == "email" && LoginParams[4] == "name" && LoginParams[5] == "provider";
  }

  /** What `createLoginV1` makes of a request before writing anything: the
      login row, or the status it ends with (400 for a missing parameter, 401
      for a token the provider rejects, 500 when the provider's client
      throws). */
  function LoginRequest(req: Request, google: Value -> GoogleCheck): (r: Result<Attrs, int>)
    ensures r.Failure? ==> r.error in {400, 401, 500}
    ensures r.Success? ==> Required(req.body, LoginParams).Some? && LoginFieldsPresent(req.body)
    ensures Required(req.body, LoginParams).None? ==> r == Failure(400)
    ensures Required(req.body, LoginParams).Some? ==> (
      RequiredLoginFields(req.body);
      var check := VerifySocialToken(req.body["provider"], req.body["idToken"], google);
      && (check == Threw(InvalidToken) ==> r == Failure(401))
      && (check == Threw(ClientError) ==> r == Failure(500))
      && (check.Returned? <==> r.Success?)
      && (check.Returned? ==>
            r == Success(LoginAttrs(req, Required(req.body, LoginParams).value, Optional(req.body, ["photoUrl"], false)))))
  {
    var params := Required(req.body, LoginParams);
    if params.None? then Failure(400)
    else
      RequiredLoginFields(req.body);
      var optParams := Optional(req.body, ["photoUrl"], false);
      match VerifySocialToken(params.value["provider"], params.value["idToken"], google)
      case Threw(InvalidToken) => Failure(401)
      case Threw(ClientError) => Failure(500)
      case Returned(_) => Success(LoginAttrs(req, params.value, optParams))
  }

  /** The row an accepted login request writes is keyed by its e-mail
      address and `login_<provider>_<id>` taken from the body. */
  lemma LoginRequestKeying(req: Request, google: Value -> GoogleCheck, email: string)
    requires LoginRequest(req, google).Success?
    requires req.body["email"] == Str(email)
    ensures KeyOf(LoginRequest(req, google).value) ==
      Some(RowKey(email, LoginRowPrefix + ToText(req.body["provider"]) + "_" + ToText(req.body["id"])))
  {
    var params := Required(req.body, LoginParams).value;
    var row := LoginAttrs(req, params, Optional(req.body, ["photoUrl"], false));
    assert LoginRequest(req, google).value == row;
    assert "email" in LoginParams && "provider" in LoginParams && "id" in LoginParams;
    assert params["email"] == Str(email) && params["provider"] == req.body["provider"] && params["id"] == req.body["id"];
    assert row["id"] == Str(email);
    assert row["sk"] == Str(LoginRowPrefix + ToText(req.body["provider"]) + "_" + ToText(req.body["id"]));
  }

  /** Only a Google login whose token the client accepts gets as far as a
      write. */
  lemma LoginNeedsGoogle(req: Request, google: Value -> GoogleCheck)
    requires LoginRequest(req, google).Success?
    ensures req.body["provider"] == Str("GOOGLE") && google(req.body["idToken"]) == SubjectPresent
  {
  }

  /** The refresh row `createRefreshToken` writes for login `login`. */
  function RefreshRowFor(env: Env, req: Request, key: RowKey, token: string): Attrs
  {
    RefreshRow(key.id, key.sk, token, Expiry(env.now, env.config.refreshMaxAge),
      env.toHeader(RefreshCookie(req, key.sk, token, env.config.refreshMaxAge)))
  }

  /** The Set-Cookie header `createRefreshToken` returns for login `key`. */
  function RefreshHeader(env: Env, req: Request, key: RowKey, token: string): string
  {
    env.toHeader(RefreshCookie(req, key.sk, token, env.config.refreshMaxAge))
  }

  /** How issuing tokens for `login` (row key `key`, refresh token `token`)
      leaves the secret store and what it answers: the store is as key
      provisioning leaves it; the reply is 500 when provisioning throws,
      otherwise 200 with the signed payload and the token, and the refresh
      cookie as Set-Cookie. */
  ghost predicate Issued(before: map<string, string>, after: map<string, string>, reply: Reply,
                         env: Env, tokenReq: Request, login: Attrs, key: RowKey, token: string)
  {
    && WellFormed(env.generated)
    && var p := Provision(before, env.generated, env.failingSecrets);
       var payload := TokenPayload(Cleanse(login), tokenReq);
       && after == p.secrets
       && reply == if p.result.Threw? then Refused(500)
                   else Reply(200,
                     TokenBody(TokenResponse(payload, env.sign(payload, p.result.value, TokenOptions(env.config.domain, key.id, tokenReq)))),
                     Some(RefreshHeader(env, tokenReq, key, token)))
  }

  /** The part every login handler ends with: a refresh row for `key` with
      `token`, then a token for the cleansed `login`, answered with the
      refresh cookie. A failure to provision the signing key is a 500, after
      the refresh row is written. */
  method IssueTokens(table: AccountsTable, secrets: SecretStore, env: Env, tokenReq: Request,
                     login: Attrs, key: RowKey, token: string)
    returns (reply: Reply)
    requires table.Valid() && WellFormed(env.generated)
    modifies table, secrets
    ensures table.Valid()
    ensures table.rows == old(table.rows)[RefreshRowKey(key.id, key.sk) := RefreshRowFor(env, tokenReq, key, token)]
    ensures Issued(old(secrets.secrets), secrets.secrets, reply, env, tokenReq, login, key, token)
  {
    var payload := Cleanse(login);
    var refresh := CreateRefreshToken(table, env.config.refreshMaxAge, key.id, key.sk, tokenReq, token, env.now, env.toHeader);
    var issued := CreateToken(secrets, env.config.domain, key.id, payload, tokenReq, env.generated, env.failingSecrets, env.sign);
    if issued.Threw? {
      return Refused(500);
    }
    reply := Reply(200, TokenBody(issued.value), Some(refresh.header));
  }

  /** `createLoginV1`: checks the parameters and the provider's token before
      anything is written, then writes the login row, the refresh row with a
      new token, and answers with a token and the refresh cookie. */
  method CreateLoginV1(table: AccountsTable, secrets: SecretStore, env: Env, req: Request) returns (reply: Reply)
    requires table.Valid() && WellFormed(env.generated)
    modifies table, secrets
    ensures table.Valid()
    ensures LoginRequest(req, env.google).Failure? ==>
      && reply == Refused(LoginRequest(req, env.google).error)
      && table.rows == old(table.rows) && secrets.secrets == old(secrets.secrets)
    ensures LoginRequest(req, env.google).Success? && KeyOf(LoginRequest(req, env.google).value).None? ==>
      reply == Refused(500) && table.rows == old(table.rows) && secrets.secrets == old(secrets.secrets)
    ensures LoginRequest(req, env.google).Success? && KeyOf(LoginRequest(req, env.google).value).Some? ==>
      var login := LoginRequest(req, env.google).value;
      var key := KeyOf(login).value;
      && table.rows == old(table.rows)[key := login][RefreshRowKey(key.id, key.sk) := RefreshRowFor(env, req, key, env.newToken)]
      && Issued(old(secrets.secrets), secrets.secrets, reply, env, req, login, key, env.newToken)
  {
    var login := LoginRequest(req, env.google);
    if login.Failure? {
      return Refused(login.error);
    }
    var key := KeyOf(login.value);
    if key.None? {
      return Refused(500);
    }
    table.Put(login.value);
    reply := IssueTokens(table, secrets, env, req, login.value, key.value, env.newToken);
  }

  /** `newEvent.path.split('/').slice(0, -1).join('/')`. */
  function DropLastSegment(path: string): string
  {
    var parts := Split(path, '/');
    Join(parts[..|parts| - 1], '/')
  }

  /** Dropping the last segment of `<base>/<last>` gives `<base>`. */
  lemma DropLastSegmentOf(base: string, last: string)
    requires '/' !in last
    ensures DropLastSegment(base + "/" + last) == base
  {
    SplitLast(base, last, '/');
    var parts := Split(base, '/');
    assert (parts + [last])[..|parts|] == parts;
    JoinSplit(base, '/');
  }

  /** A refresh at `<path>/refresh` issues the issuer and refresh URL of a
      login at `<path>`. */
  lemma RefreshReissuesLoginUrls(req: Request, base: string)
    requires req.path == base + "/refresh"
    ensures IssuerUrl(req.(path := DropLastSegment(req.path))) == IssuerUrl(req.(path := base))
    ensures RefreshUrl(req.(path := DropLastSegment(req.path))) == RefreshUrl(req.(path := base))
  {
    assert base + "/refresh" == base + "/" + "refresh";
    DropLastSegmentOf(base, "refresh");
  }

  /** `refreshLoginV1`: 403 with nothing written when the refresh record does
      not match or its login is gone; otherwise the refresh row is rewritten
      with the same token and a new access token is issued for the path
      without its last segment. */
  method RefreshLoginV1(table: AccountsTable, secrets: SecretStore, env: Env, req: Request) returns (reply: Reply)
    requires table.Valid() && WellFormed(env.generated)
    modifies table, secrets
    ensures table.Valid()
    ensures RefreshLookup(old(table.rows), req, env.decode).Threw? ==>
      reply == Refused(500) && table.rows == old(table.rows) && secrets.secrets == old(secrets.secrets)
    ensures RefreshLookup(old(table.rows), req, env.decode) == Returned(None) ==>
      reply == Refused(403) && table.rows == old(table.rows) && secrets.secrets == old(secrets.secrets)
    ensures RefreshLookup(old(table.rows), req, env.decode).Returned? && RefreshLookup(old(table.rows), req, env.decode).value.Some? ==>
      var record := RefreshLookup(old(table.rows), req, env.decode).value.value;
      && (Text(record, "id").None? || Text(record, "name").None? ==>
            reply == Refused(500) && table.rows == old(table.rows) && secrets.secrets == old(secrets.secrets))
      && (Text(record, "id").Some? && Text(record, "name").Some? ==>
            var key := RowKey(Text(record, "id").value, Text(record, "name").value);
            && (key !in old(table.rows) ==>
                  reply == Refused(403) && table.rows == old(table.rows) && secrets.secrets == old(secrets.secrets))
            && (key in old(table.rows) ==>
                  var newReq := req.(path := DropLastSegment(req.path));
                  && Text(record, "token").Some?
                  && table.rows == old(table.rows)[RefreshRowKey(key.id, key.sk) :=
                       RefreshRowFor(env, newReq, key, Text(record, "token").value)]
                  && Issued(old(secrets.secrets), secrets.secrets, reply, env, newReq, old(table.rows)[key], key,
                            Text(record, "token").value)))
  {
    var found := FetchRefreshRecord(table, req, env.decode);
    if found.Threw? {
      return Refused(500);
    }
    if found.value.None? {
      return Refused(403);
    }
    var record := found.value.value;
    var id := Text(record, "id");
    var name := Text(record, "name");
    if id.None? || name.None? {
      return Refused(500);
    }
    var login := table.Get(RowKey(id.value, name.value));
    if login.None? {
      return Refused(403);
    }
    var token := Text(record, "token");
    if token.None? {
      // `fetchRefreshRecord` only returns a row whose token the cookie matched.
      assert false;
      return Refused(500);
    }
    var newReq := req.(path := DropLastSegment(req.path));
    reply := IssueTokens(table, secrets, env, newReq, login.value, RowKey(id.value, name.value), token.value);
  }

  /** The provider of a login row matches the requested one (`===`). */
  predicate Matches(item: Attrs, provider: Value)
  {
    "provider" in item && StrictEquals(item["provider"], provider)
  }

  /** The last index whose row matches `provider` (when `matching`) or does
      not (otherwise), -1 when there is none. */
  function LastIndexWhere(items: seq<Attrs>, provider: Value, matching: bool): (r: int)
    ensures -1 <= r < |items|
    ensures r >= 0 ==> Matches(items[r], provider) == matching
    ensures forall j :: r < j < |items| ==> Matches(items[j], provider) != matching
  {
    if items == [] then -1
    else if Matches(items[|items| - 1], provider) == matching then |items| - 1
    else LastIndexWhere(items[..|items| - 1], provider, matching)
  }

  /** The `reduce` of `deleteLoginV1`: `toDelete` is the last login of the
      requested provider and `switchTo` the last of any other (-1 for null). */
  method SelectForDeletion(items: seq<Attrs>, provider: Value) returns (toDelete: int, switchTo: int)
    ensures toDelete == LastIndexWhere(items, provider, true)
    ensures switchTo == LastIndexWhere(items, provider, false)
  {
    toDelete, switchTo := -1, -1;
    for i := 0 to |items|
      invariant toDelete == LastIndexWhere(items[..i], provider, true)
      invariant switchTo == LastIndexWhere(items[..i], provider, false)
    {
      assert items[..i + 1][..i] == items[..i];
      if Matches(items[i], provider) {
        toDelete := i;
      }
      if !Matches(items[i], provider) {
        switchTo := i;
      }
    }
    assert items[..|items|] == items;
  }

  /** When every login is of the requested provider there is nothing to
      switch to, so the only login cannot be removed; when both are found
      they are different logins. */
  lemma DeletionSelection(items: seq<Attrs>, provider: Value)
    ensures (forall i :: 0 <= i < |items| ==> Matches(items[i], provider)) ==>
      LastIndexWhere(items, provider, false) == -1
    ensures var d := LastIndexWhere(items, provider, true);
      var s := LastIndexWhere(items, provider, false);
      d >= 0 && s >= 0 ==> d != s && Matches(items[d], provider) && !Matches(items[s], provider)
  {
  }

  /** The rows `order` names, in that order. */
  function Listed(rows: map<RowKey, Attrs>, order: seq<RowKey>): (items: seq<Attrs>)
    requires forall i :: 0 <= i < |order| ==> order[i] in rows
    ensures |items| == |order|
    ensures forall i :: 0 <= i < |order| ==> items[i] == rows[order[i]]
  {
    if order == [] then [] else Listed(rows, order[..|order| - 1]) + [rows[order[|order| - 1]]]
  }

  /** The end of `deleteLoginV1`, once login `removed` is destroyed: with the
      refresh record found in the remaining rows, the refresh row of login
      `switchKey` is written with the record's token (and a token issued);
      without it the reply is 403 (or 500 when the lookup throws) and the
      deletion stands. */
  ghost predicate Switched(before: map<RowKey, Attrs>, after: map<RowKey, Attrs>,
                           secretsBefore: map<string, string>, secretsAfter: map<string, string>, reply: Reply,
                           env: Env, req: Request, removed: RowKey, switchKey: RowKey, switchRow: Attrs)
  {
    var rest := before - {removed};
    var found := RefreshLookup(rest, req, env.decode);
    && (found.Threw? ==> reply == Refused(500) && after == rest && secretsAfter == secretsBefore)
    && (found == Returned(None) ==> reply == Refused(403) && after == rest && secretsAfter == secretsBefore)
    && (found.Returned? && found.value.Some? ==>
          && Text(found.value.value, "token").Some?
          && after == rest[RefreshRowKey(switchKey.id, switchKey.sk) :=
                       RefreshRowFor(env, req, switchKey, Text(found.value.value, "token").value)]
          && Issued(secretsBefore, secretsAfter, reply, env, req, switchRow, switchKey, Text(found.value.value, "token").value))
  }

  /** Whatever the refresh record, the removed login is gone and the login
      switched to is still there, unchanged. */
  lemma SwitchKeepsOtherLogin(before: map<RowKey, Attrs>, after: map<RowKey, Attrs>,
                              secretsBefore: map<string, string>, secretsAfter: map<string, string>, reply: Reply,
                              env: Env, req: Request, removed: RowKey, switchKey: RowKey, switchRow: Attrs)
    requires Switched(before, after, secretsBefore, secretsAfter, reply, env, req, removed, switchKey, switchRow)
    requires LoginRowPrefix <= removed.sk && LoginRowPrefix <= switchKey.sk
    requires switchKey in before && switchKey != removed
    ensures removed !in after
    ensures switchKey in after && after[switchKey] == before[switchKey]
  {
    LoginAndRefreshRowsDiffer(removed, switchKey.id, switchKey.sk);
    LoginAndRefreshRowsDiffer(switchKey, switchKey.id, switchKey.sk);
  }

  /** Destroys login `removed`, then re-issues tokens for login `switchKey`. */
  method SwitchLogin(table: AccountsTable, secrets: SecretStore, env: Env, req: Request,
                     removed: RowKey, switchKey: RowKey, switchRow: Attrs)
    returns (reply: Reply)
    requires table.Valid() && WellFormed(env.generated)
    modifies table, secrets
    ensures table.Valid()
    ensures Switched(old(table.rows), table.rows, old(secrets.secrets), secrets.secrets, reply, env, req,
                     removed, switchKey, switchRow)
  {
    table.Destroy(removed);
    var found := FetchRefreshRecord(table, req, env.decode);
    if found.Threw? {
      return Refused(500);
    }
    if found.value.None? {
      return Refused(403);
    }
    var token := Text(found.value.value, "token");
    if token.None? {
      // `fetchRefreshRecord` only returns a row whose token the cookie matched.
      assert false;
      return Refused(500);
    }
    reply := IssueTokens(table, secrets, env, req, switchRow, switchKey, token.value);
  }

  /** `deleteLoginV1`: 400 without an authorizer id or provider, 404 without
      logins, 400 when no login of the provider exists or it is the only
      kind; otherwise the last login of the provider is destroyed and the
      account switches to the last login of another provider. `order` is
      the order in which the table lists the account's logins. */
  method DeleteLoginV1(table: AccountsTable, secrets: SecretStore, env: Env, req: Request, order: seq<RowKey>)
    returns (reply: Reply)
    requires table.Valid() && WellFormed(env.generated)
    requires Required(req.authorizer, ["id"]).Some? && req.authorizer["id"].Str? ==>
      ListsQuery(table.rows, req.authorizer["id"].s, LoginRowPrefix, order)
    modifies table, secrets
    ensures table.Valid()
    ensures Required(req.authorizer, ["id"]).None? || Required(req.queryStringParameters, ["provider"]).None? ==>
      reply == Refused(400) && table.rows == old(table.rows) && secrets.secrets == old(secrets.secrets)
    ensures Required(req.authorizer, ["id"]).Some? && Required(req.queryStringParameters, ["provider"]).Some?
            && !req.authorizer["id"].Str? ==>
      reply == Refused(500) && table.rows == old(table.rows) && secrets.secrets == old(secrets.secrets)
    ensures Required(req.authorizer, ["id"]).Some? && Required(req.queryStringParameters, ["provider"]).Some?
            && req.authorizer["id"].Str? ==>
      var items := Listed(old(table.rows), order);
      var d := LastIndexWhere(items, req.queryStringParameters["provider"], true);
      var s := LastIndexWhere(items, req.queryStringParameters["provider"], false);
      && (order == [] ==>
            reply == Refused(404) && table.rows == old(table.rows) && secrets.secrets == old(secrets.secrets))
      && (order != [] && (d < 0 || s < 0) ==>
            reply == Refused(400) && table.rows == old(table.rows) && secrets.secrets == old(secrets.secrets))
      && (d >= 0 && s >= 0 ==>
            && Switched(old(table.rows), table.rows, old(secrets.secrets), secrets.secrets, reply, env, req,
                        order[d], order[s], old(table.rows)[order[s]])
            && order[d] !in table.rows
            && order[s] in table.rows && table.rows[order[s]] == old(table.rows)[order[s]])
  {
    var authorizerParams := Required(req.authorizer, ["id"]);
    var queryParams := Required(req.queryStringParameters, ["provider"]);
    if authorizerParams.None? || queryParams.None? {
      return Refused(400);
    }
    var id := authorizerParams.value["id"];
    if !id.Str? {
      return Refused(500);
    }
    var provider := queryParams.value["provider"];
    var items := table.Query(id.s, LoginRowPrefix, order);
    assert items == Listed(table.rows, order);
    if |items| == 0 {
      return Refused(404);
    }
    var toDelete, switchTo := SelectForDeletion(items, provider);
    if toDelete < 0 || switchTo < 0 {
      return Refused(400);
    }
    ghost var before := table.rows;
    ghost var secretsBefore := secrets.secrets;
    reply := SwitchLogin(table, secrets, env, req, order[toDelete], order[switchTo], items[switchTo]);
    SwitchKeepsOtherLogin(before, table.rows, secretsBefore, secrets.secrets, reply, env, req,
                          order[toDelete], order[switchTo], items[switchTo]);
  }

  // ---------------------------------------------------------------------
  // Listing logins.

  /** `acc[provider]`: the key a login is listed under. */
  function ProviderKey(item: Attrs): string
  {
    if "provider" in item then ToText(item["provider"]) else "undefined"
  }

  /** The logins by provider, each cleansed, a later login replacing an
      earlier one of the same provider. */
  function ByProvider(items: seq<Attrs>): map<string, Attrs>
  {
    if items == [] then map[]
    else ByProvider(items[..|items| - 1])[ProviderKey(items[|items| - 1]) := Cleanse(items[|items| - 1])]
  }

  /** The last index whose login is listed under `k`, -1 when there is none. */
  function LastUnder(items: seq<Attrs>, k: string): (r: int)
    ensures -1 <= r < |items|
    ensures r >= 0 ==> ProviderKey(items[r]) == k
    ensures forall j :: r < j < |items| ==> ProviderKey(items[j]) != k
  {
    if items == [] then -1
    else if ProviderKey(items[|items| - 1]) == k then |items| - 1
    else LastUnder(items[..|items| - 1], k)
  }

  /** Every provider of the logins is listed, and under it the cleansed last
      login of that provider. */
  lemma {:induction false} ByProviderLastWins(items: seq<Attrs>, k: string)
    ensures k in ByProvider(items) <==> LastUnder(items, k) >= 0
    ensures k in ByProvider(items) ==> ByProvider(items)[k] == Cleanse(items[LastUnder(items, k)])
  {
    if items != [] {
      ByProviderLastWins(items[..|items| - 1], k);
    }
  }

  /** The `reduce` of `getLoginsV1`. */
  method IndexByProvider(items: seq<Attrs>) returns (acc: map<string, Attrs>)
    ensures acc == ByProvider(items)
  {
    acc := map[];
    for i := 0 to |items|
      invariant acc == ByProvider(items[..i])
    {
      assert items[..i + 1][..i] == items[..i];
      acc := acc[ProviderKey(items[i]) := Cleanse(items[i])];
    }
    assert items[..|items|] == items;
  }

  /** `getLoginsV1`: the account's logins by provider, cleansed. A
      non-string authorizer id is refused by the table (500). */
  method GetLoginsV1(table: AccountsTable, req: Request, order: seq<RowKey>) returns (reply: Reply)
    requires table.Valid()
    requires "id" in req.authorizer && req.authorizer["id"].Str? ==>
      ListsQuery(table.rows, req.authorizer["id"].s, LoginRowPrefix, order)
    ensures !("id" in req.authorizer && req.authorizer["id"].Str?) ==> reply == Refused(500)
    ensures "id" in req.authorizer && req.authorizer["id"].Str? ==>
      var listed := ByProvider(Listed(table.rows, order));
      reply == Reply(200, Obj(map k | k in listed :: Obj(listed[k])), None)
  {
    if !("id" in req.authorizer && req.authorizer["id"].Str?) {
      return Refused(500);
    }
    var items := table.Query(req.authorizer["id"].s, LoginRowPrefix, order);
    assert items == Listed(table.rows, order);
    var listed := IndexByProvider(items);
    reply := Reply(200, Obj(map k | k in listed :: Obj(listed[k])), None);
  }
}
