# Login and token service of the REST API template, in Dafny

This project models the authentication core of a serverless REST API: the AWS
Lambda handlers that create, refresh, list and remove the social logins of an
account, and the account handlers' choice of the row they address
(src/index.ts); the JSON Web Token machinery behind them (src/jwt.ts), that is,
the signing-key pair kept in a secret store, access tokens whose `aud`, `sub` and
`iss` claims are built from the service's DOMAIN and the request, refresh tokens
stored in the `accounts` table and echoed in a `__Secure-sly_jrt_<sk>` cookie,
credential extraction, the process-wide cache of remote key sets and the
authorizer's `verifyToken`; and the payload cleansing and log redaction of
src/util.ts.

Every operation is stated as what the source does, including the error paths
of its own logic; failures of the secret store and the table are modelled
only as far as the list of what is left out says.
Stateful parts are objects whose methods update fields in place:
- `Stores.SecretStore` holds the secrets;
- `Stores.AccountsTable` holds the table rows by `(id, sk)`;
- `Jwks.JwksCache` holds the key-set cache.

Each such method is proved against a specification function:
- `Keys.Provision` for key provisioning;
- `Jwks.FetchStep` for the key-set fetch;
- `Authorize.VerifySpec` for token verification;
- `Refresh.RefreshLookup` for the refresh-record lookup.

The properties themselves are proved as lemmas about those functions.

Foreign calls become parameters of the operations that make them:
- the clock (milliseconds) and the `uuidv4` token;
- the generated key pair;
- `JWT.sign`, `JWT.decode` and `JWT.verify`;
- the URL parser, `axios.get` and `JWKS.asKeyStore`;
- the cookie library's header text;
- the Google OAuth client;
- which secret writes fail.

For the table query, the order in which the table lists the matching rows is a
parameter.

Behaviour kept as written:
- The issuer check in `verifyToken` (src/jwt.ts:327) refuses a token only when
  the issuer's hostname *starts with* DOMAIN. A hostname that does not contain
  DOMAIN passes; `Authorize.IssuerMismatchExactlyOnPrefix` states both facts.
- The principal is set from the decoded `aud` before the issuer is checked
  (src/jwt.ts:319), so it is also set on refused responses
  (`Authorize.PrincipalSetEarly`).
- `new URL(iss)` is called outside any `try` (src/jwt.ts:326). An issuer that is
  not a URL makes `verifyToken` throw (`InvalidIssuerUrl`).
- Refreshing and switching logins rewrite the refresh row with the token that
  was already stored (src/index.ts:351-356, 439-444). The refresh token is never
  rotated.
- In src/jwt.ts:265-269 the "No cookies" branch is dead: `split` never returns
  an empty list (`Strings.Split`).

Behaviour changed in the model:
- `deleteLoginV1` passes `toDelete.get()`, the whole attribute object, as the
  range key of `destroy` (src/index.ts:423). The model destroys the row
  `(authorizer id, toDelete.sk)`, which is the evidently intended key.

## Model

| member | source | states |
|---|---|---|
| Strings.Split | src/jwt.ts:265-269 | `split` never yields an empty list, so the "No cookies" branch cannot be taken |
| Strings.JoinSplit | src/jwt.ts:41 | joining the pieces of a split on the same separator gives back the string |
| Strings.SplitFreeOf | src/jwt.ts:41 | no piece of a split contains the separator |
| Strings.SplitLength | src/jwt.ts:161-162 | a split has one more piece than the string has separators |
| Strings.SplitLast | src/index.ts:349 | splitting `<p>/<l>` with `l` free of `/` gives the pieces of `p` followed by `l` |
| Strings.SplitJoin | src/jwt.ts:41 | splitting the join of separator-free pieces gives the pieces back |
| Strings.ReverseReverse | src/jwt.ts:41 | reversing the labels twice gives them back |
| Strings.TrimNoop | src/jwt.ts:276 | `trim` leaves a string that neither starts nor ends with white space unchanged |
| Strings.ToLower | src/util.ts:7 | `toLowerCase` keeps the length and lower-cases each character |
| Strings.IndexOfFrom | src/jwt.ts:327 | `indexOf` returns the first position of an occurrence at or after `from`, or -1 when there is none |
| Strings.IndexOfZero | src/jwt.ts:327 | `indexOf` is 0 exactly when the needle is a prefix |
| Strings.IndexOfAbsent | src/jwt.ts:327 | `indexOf` is -1 exactly when the needle does not occur |
| Events.Header | src/jwt.ts:227-235 | a header counts as present exactly when it exists and is not empty, and then its value is returned |
| Events.Scheme | src/index.ts:278-280 | the scheme is "https" exactly when X-Forwarded-Proto is "https", else "http" |
| Events.OriginSecure | src/index.ts:277-280 | the base URL is an https URL exactly when X-Forwarded-Proto is "https" |
| Events.Optional | src/index.ts:291 | optional parameters are exactly the given ones among the named keys, with their values |
| Events.Required | src/index.ts:283-290 | required parameters succeed exactly when every named key is given; the result holds exactly those keys and their values |
| Util.CredentialKeysAreSensitive | src/util.ts:24 | `idToken`, `authToken` and `token` are sensitive in any letter case |
| Util.RowKeysAreNotSensitive | src/util.ts:24 | `id` and `sk` are not sensitive, so a cleansed login keeps its key |
| Util.IndexKeyNotSensitive | src/util.ts:6-7 | array index keys are never sensitive |
| Util.Cleanse | src/util.ts:21-44 | the cleansed object keeps exactly the non-sensitive string, number and boolean entries, values unchanged |
| Util.CleanseIdempotent | src/util.ts:21-44 | cleansing twice is cleansing once |
| Util.CleanseDropsCredentials | src/util.ts:24-26 | a cleansed object never holds `idToken`, `authToken` or `token` |
| Util.RedactObject | src/util.ts:6-16 | redaction keeps the keys; sensitive arrays become the marker list, other sensitive values the marker string, nested containers their own redacted text, other values stay |
| Util.RedactFlat | src/util.ts:13-15 | after redaction no nested container is left |
| Util.RedactIdempotent | src/util.ts:4-19 | redacting a redacted copy changes nothing |
| Util.StringifyRedacted | src/util.ts:4-19 | null throws; any other value gives the serialised redacted copy, computed one key at a time |
| Social.VerifySocialToken | src/social.ts:29-45 | returns exactly for provider "GOOGLE" with a token whose payload has a subject; any other provider is 401 "Invalid token"; a client exception propagates |
| Stores.SecretStore.Get | src/jwt.ts:62-63 | a secret counts as present exactly when it exists and is not empty |
| Stores.SecretStore.Set | src/jwt.ts:76-82 | a write stores the value and returns it, or throws and stores nothing |
| Stores.KeyOf | src/db.ts:9-10 | a row's key is its `id` and `sk`, present exactly when both are strings |
| Stores.AccountsTable.Get | src/index.ts:151 | `get(id, sk)` returns the row stored under that key, or nothing |
| Stores.AccountsTable.Put | src/jwt.ts:136-146 | `create(..., {overwrite: true})` replaces the row under the attributes' own key and nothing else |
| Stores.AccountsTable.Destroy | src/index.ts:423 | `destroy` removes that row and nothing else |
| Stores.AccountsTable.Query | src/index.ts:384-390 | `query(id).where('sk').beginsWith(prefix)` returns the rows of that id and prefix, in the table's order, each under its key |
| Keys.Provision | src/jwt.ts:70-86 | an existing private key is returned with no write; otherwise public then private are written and the private key returned; it throws exactly when a key is missing and one of the two writes fails, the public failure before any write, the private one after the public write; the store never gets a private key without a public one |
| Keys.ProvisionIdempotent | src/jwt.ts:70-86 | once provisioning succeeded, a second call writes nothing and returns the same key |
| Keys.GetPublicKey | src/jwt.ts:61-68 | returns exactly when the public key is present, its text; otherwise "Keys have not been generated" |
| Keys.GetOrCreateKeys | src/jwt.ts:70-86 | the store and the result after the call are those `Provision` gives |
| Claims.ReversedDomainLabels | src/jwt.ts:41 | the labels of the reversed domain are the domain's labels reversed |
| Claims.ReversedDomainInvolution | src/jwt.ts:41 | reversing the domain twice gives the domain |
| Claims.GenerateAudience | src/jwt.ts:40-42 | the audience starts with `urn:`, ends with the id, and has the length of its parts |
| Claims.AudienceNamesDomain | src/jwt.ts:40-42 | the domain can be read back from an audience |
| Claims.AudienceInjective | src/jwt.ts:40-42 | different accounts get different audiences |
| Claims.ClaimUrls | src/jwt.ts:95-110 | issuer and refresh URL share origin and path, differ, and are https exactly when X-Forwarded-Proto is "https" |
| Claims.TokenPayload | src/jwt.ts:97 | the signed payload is the payload with `refreshUrl` set to the refresh URL, other entries unchanged |
| Claims.CreateToken | src/jwt.ts:88-113 | provisions the key as `Provision` says, then signs the payload with the audience, "10 minute", "JWT", the id as subject and the issuer URL |
| Credentials.ExtractAuthorization | src/jwt.ts:210-240 | the first of authorizationToken, Authorization, authorization that is given; null exactly when none is |
| Credentials.ExtractToken | src/jwt.ts:154-175 | empty is "Missing"; a token has no space and is the whole credential or follows an accepted scheme word; a refused scheme word is named |
| Credentials.ExtractTokenMalformed | src/jwt.ts:161-164 | "Malformed" exactly when the credential has two or more spaces |
| Credentials.ExtractTokenBare | src/jwt.ts:159-175 | a credential without a space is the token |
| Credentials.ExtractTokenScheme | src/jwt.ts:166-172 | `Bearer <t>` and `jwt <t>` give `t`; any other scheme word is "Invalid token type" |
| Credentials.FirstCookie | src/jwt.ts:271-287 | a cookie value found is never empty and holds no `=` |
| Credentials.ExtractRefreshCookie | src/jwt.ts:242-288 | the cookie is named by the prefix and `sk`; without a Cookie header it has no value; otherwise its value is the first named match among the `;` items |
| Credentials.CookieRoundTrip | src/jwt.ts:276-284 | a Cookie header `name=value` yields `value` for `name` |
| Credentials.RefreshCookieRoundTrip | src/jwt.ts:124 | the refresh cookie written for `sk` is read back for `sk` |
| Jwks.FetchStep | src/jwt.ts:177-208 | an empty URL throws; a fresh entry is served; on a miss a failed fetch, a falsy body and a body that is not a key set each throw their own error with the cache unchanged, and a key set is returned and cached for six hours; it returns exactly when the URL is non-empty and the entry is fresh or the fetch gave a key set; other URLs are untouched |
| Jwks.HitIgnoresNetwork | src/jwt.ts:182-189 | a fresh entry is served whatever the network would answer |
| Jwks.FilledEntryServes | src/jwt.ts:202-205 | after a fetch, calls within six hours are served from the cache |
| Jwks.ExpiredEntryRefetched | src/jwt.ts:186-191 | an expired entry is fetched again and renewed for six hours |
| Jwks.JwksCache.Fetch | src/jwt.ts:177-208 | the result and the new cache are those `FetchStep` gives |
| Authorize.VerifySpec | src/jwt.ts:290-356 | a refused response carries an error and no payload, an authorized one a payload and no error; a missing or malformed credential gives the exact refusal; a token without `iss` is refused with "Missing issuer" and the `aud` principal, the cache unchanged; it throws exactly when the token cannot be decoded or its issuer is not a URL; the cache only grows |
| Authorize.AfterIssuerCheck | src/jwt.ts:334-355 | past the issuer check, the response is fixed by the key-set fetch and `JWT.verify`: the fetch's own error when `fetchJwks` throws (an empty URL, the HTTP client's failure, "Unable to get keys from url", or the key-set conversion's error), the exception `JWT.verify` throws, "Unable to verify token" for a falsy result, the error `JWT.verify` returns, or authorized with the payload |
| Authorize.AuthorizedWhenVerified | src/jwt.ts:334-351 | when the keys are obtained and `JWT.verify` returns a payload, the response is authorized with that payload and the `aud` principal |
| Authorize.AuthorizedOnlyAfterVerify | src/jwt.ts:321-351 | authorized only when the issuer passed the check, the key set was obtained and `JWT.verify` returned the payload |
| Authorize.IssuerMismatchExactlyOnPrefix | src/jwt.ts:326-332 | "Issuer mismatch" exactly when the hostname starts with DOMAIN; a hostname without DOMAIN passes |
| Authorize.PrincipalSetEarly | src/jwt.ts:319 | every response after a decode carries the `aud` claim as principal |
| Authorize.VerifyTouchesOnlyIssuer | src/jwt.ts:335 | only the cache entry of the token's issuer can change |
| Authorize.VerifyToken | src/jwt.ts:290-356 | the response and the new cache are those `VerifySpec` gives |
| Refresh.RefreshCookie | src/jwt.ts:124-132 | the cookie is named by the prefix and `sk` and holds the token |
| Refresh.Expiry | src/jwt.ts:142 | the expiry is the whole seconds of now plus the maximum age, rounded down |
| Refresh.RefreshRow | src/jwt.ts:136-146 | the refresh row is keyed `(id, "jwt_refresh_" + sk)` and holds `sk` as name, the token and the header |
| Refresh.CreateRefreshToken | src/jwt.ts:115-152 | overwrites that refresh row only, and returns its token and header |
| Refresh.ClaimsLookup | src/jwt.ts:382-412 | throws exactly when `id` and `sk` are truthy and `id` is not a string, which the table rejects; a record returned is a refresh row of the table whose token equals the cookie value for `String(sk)` |
| Refresh.RefreshLookup | src/jwt.ts:358-413 | throws exactly when the credential is malformed, the token cannot be decoded or the table rejects the `id`; null without an authorization or with an empty token; for a decoded payload, what `ClaimsLookup` gives for its claims |
| Refresh.RefreshAcceptsExactly | src/jwt.ts:388-412 | with a string `id` and a truthy `sk`, the row keyed by `String(sk)` comes back exactly when it exists and the cookie carries its token |
| Refresh.RefreshNeedsIdAndSk | src/jwt.ts:382-385 | without truthy `id` and `sk` claims there is no record |
| Refresh.FetchStoredRecord | src/jwt.ts:387-412 | the table lookups give what `ClaimsLookup` says |
| Refresh.FetchRefreshRecord | src/jwt.ts:358-413 | the result is what `RefreshLookup` says, and the table is only read |
| Refresh.LoginThenRefresh | src/jwt.ts:358-413 | a request carrying a bearer token with the login's `id` and `sk` and the refresh cookie just written gets that refresh row back |
| Handlers.CreateAccountId | src/index.ts:45-59 | a service call uses the body id, a login the authorizer id, otherwise 400 |
| Handlers.GetAccountKey | src/index.ts:131-149 | a service call reads `(path id, "root")`, a login `(authorizer id, "primary")`, otherwise 400 |
| Handlers.GetAccountV1 | src/index.ts:120-161 | 400 without an id, 204 for a missing row, else 200 with the row |
| Handlers.UpdateAccountV1 | src/index.ts:82-118 | 400 without an authorizer id, 404 for a missing account, else the row rewritten with the given name and company over its attributes |
| Handlers.UpdateKeepsKey | src/index.ts:103-109 | the update keeps the row's key and other attributes; given name and company win |
| Handlers.LoginRowKeying | src/index.ts:294-304 | a login row is keyed by e-mail and `login_<provider>_<id>`; its cleansed payload keeps the key and drops the provider's tokens; the base URL is https exactly when forwarded so |
| Handlers.LoginAndRefreshRowsDiffer | src/index.ts:301 | a login row and a refresh row never share a key |
| Handlers.LoginRequest | src/index.ts:283-304 | 400 for a missing parameter; with the parameters, 401 for a rejected token, 500 for a client exception, success exactly for an accepted token, with the login row built from the parameters, the photo URL and the request |
| Handlers.RequiredLoginFields | src/index.ts:283-290 | when the required login parameters are given, each is present in the body and taken from it unchanged |
| Handlers.LoginRequestKeying | src/index.ts:294-304 | the row an accepted login request writes is keyed by the body's e-mail and `login_<provider>_<id>` |
| Handlers.LoginNeedsGoogle | src/index.ts:293 | a login is only recorded for a Google token with a subject |
| Handlers.IssueTokens | src/index.ts:306-311 | the refresh row is written; the secret store is left as key provisioning leaves it; 500 exactly when provisioning throws, otherwise 200 with the signed payload and token and the refresh cookie |
| Handlers.CreateLoginV1 | src/index.ts:268-320 | refusals write nothing to the table or the secret store; otherwise the login row and a refresh row with a new token are written, the secret store is as key provisioning leaves it, and the reply is 500 exactly when provisioning throws, else 200 with the token body and the cookie |
| Handlers.DropLastSegmentOf | src/index.ts:349 | dropping the last segment of `<base>/<last>` gives `<base>` |
| Handlers.RefreshReissuesLoginUrls | src/index.ts:347-357 | a refresh at `<path>/refresh` issues the issuer and refresh URLs of a login at `<path>` |
| Handlers.RefreshLoginV1 | src/index.ts:322-368 | 500 or 403 with nothing written to the table or the secret store when the lookup throws, the record or the login is missing; else the same refresh row rewritten with the same token, for the path without its last segment, the secret store as key provisioning leaves it, and 500 exactly when provisioning throws, else 200 with the token body and the cookie |
| Handlers.LastIndexWhere | src/index.ts:395-407 | the last index whose provider matches (or does not), -1 when there is none |
| Handlers.SelectForDeletion | src/index.ts:395-407 | `toDelete` is the last login of the provider, `switchTo` the last login of another |
| Handlers.DeletionSelection | src/index.ts:409-421 | with only logins of the provider there is nothing to switch to; when both are found they are different logins |
| Handlers.SwitchKeepsOtherLogin | src/index.ts:423-447 | after the deletion the removed login is gone and the switched-to login is unchanged |
| Handlers.SwitchLogin | src/index.ts:423-447 | destroys the login, then with a matching refresh record rewrites the other login's refresh row with the old token and issues its tokens (secret store as provisioning leaves it, 500 exactly when provisioning throws, else 200 with the token body and cookie); otherwise 500 or 403, the deletion stands and the secret store is unchanged |
| Handlers.DeleteLoginV1 | src/index.ts:370-456 | 400, 500, 404 and 400 refusals change neither the table nor the secret store; otherwise the last login of the provider is destroyed, the last other login survives unchanged and its tokens are issued as `SwitchLogin` states |
| Handlers.ByProviderLastWins | src/index.ts:256-260 | every provider is listed, under it the cleansed last login of that provider |
| Handlers.IndexByProvider | src/index.ts:256-260 | the fold builds the listing `ByProvider` describes |
| Handlers.GetLoginsV1 | src/index.ts:237-266 | 200 with the account's logins by provider, cleansed |

## Left out

- Logging (`console.*`) is not modelled. `createLoginV1` serialises the event with `stringifyRedacted` only for its log line, so that call is not part of the handler.
- `createAccountV1` beyond choosing the id: its required `email` and `name` and the `create(..., {overwrite: false})` call are not part of this model.
- `authorizeV1`, `loginOptionsV1` and `getLoginCertsV1` are not part of this model. The key-pair generation of `generateKeys` (EC P-256) is not modelled either: a generated pair is a parameter.
- Secrets are kept as the JWK text. The base64 and JSON decoding of `getPublicKey` and `getOrCreateKeys` is not modelled.
- Signing, decoding and signature checks (`JWT.sign`, `JWT.decode`, `JWT.verify`), URL parsing, `axios.get`, `JWKS.asKeyStore`, the cookie library and the Google client are parameters. Only what the service does with their results is modelled.
- The clock and `uuidv4` are parameters. Time is an integer number of milliseconds and numbers are integers.
- Secret reads and writes and the table's `get`, `create`, `destroy` and `query` never fail for reasons of their own (network, throttling, permissions). The only failures modelled are a secret write named as failing, and a table key whose `id` is not a string. So, for example, `createLoginV1` failing on the refresh row after the login row was written is not represented.
- Calls are not concurrent: each `await` is one step in sequence. Two invocations sharing the key-set cache are not interleaved.
- The table query returns a single page. The order of its rows is a parameter, and pagination is not modelled.
- The table's attribute schema (src/db.ts) is modelled only for `id` and `sk`, which must be strings. A non-string id that reaches the table is a 500 error. Other validation errors of the table library are not modelled.
- `handleSuccess` and `handleError` are reduced to a status, a body and the Set-Cookie header. An `HttpError` keeps its status and any other thrown error is a 500. Error bodies and other headers are left out.
- Handlers.DeleteLoginV1: destroys `(id, toDelete.sk)`, while the source passes the whole attribute object `toDelete.get()` as the range key (src/index.ts:423). What the table library does with that argument is outside the code at hand.
- Handlers.Matches: `===` between the stored provider and the query parameter is equality of primitive values. Two objects or arrays are never equal (`Json.StrictEquals`).
- Credentials.FirstCookie: its contract states only that a value found is non-empty and free of `=`. That this is the first matching item is stated by `Credentials.ExtractRefreshCookie`'s loop against this function, and by `Credentials.CookieRoundTrip`.
- Strings.ToLower: maps only A-Z and KELVIN SIGN. These are the only characters whose lower case is ASCII, so comparisons with the ASCII sensitive-key list are exact; other letters keep their case.
- Strings are sequences of characters. Surrogate pairs and lone surrogates of JavaScript's UTF-16 strings are not modelled: a character outside the Basic Multilingual Plane is one element here.
- The Lambda `event` and its `headers` are always present. The `!event` and `!headers` branches (src/jwt.ts:211, 222, 248, 254, 359) are not modelled.
- Events.Optional and Events.Required: `optionalParameters` and `requiredParameters` come from the serverless utility library, which is not part of this model. Their behaviour is assumed: they pick the named keys that are present and not null (and not the empty string unless empty values are allowed), and a missing required key is a 400 refusal.
- JSON objects are maps from key to value, so the order of their keys is not modelled.
- `JWT.decode` is assumed to either give a payload or throw. The `!decoded` branch of `fetchRefreshRecord` (src/jwt.ts:378) is therefore not modelled.
- Keys.ProvisionIdempotent: holds for a store left by a successful provisioning. A store that held a private key without a public key keeps that state, since `getOrCreateKeys` checks only the private key.
