/** The service's fixed names and its environment-supplied settings. */
module Constants {

  /** Keys whose lower-case form marks a value as secret. */
  const SensitiveKeys: seq<string> :=
    ["password", "key", "x-api-key", "api-key", "token", "secret", "authtoken", "idtoken"]

  /** The scheme words accepted in front of a bearer credential (case-sensitive). */
  const AuthPrefixes: seq<string> := ["Bearer", "jwt"]

  /** Name prefix of the refresh-token cookie. */
  const RefreshCookiePrefix: string := "__Secure-sly_jrt_"

  /** Names of the two secrets that hold the signing key pair. */
  const PrivateKeySecret: string := "jwtPrivateKey"
  const PublicKeySecret: string := "jwtPublicKey"

  /** Sort-key prefixes of refresh rows and login rows in the accounts table. */
  const RefreshRowPrefix: string := "jwt_refresh_"
  const LoginRowPrefix: string := "login_"

  /** How long a fetched key set stays in the cache: six hours, in milliseconds. */
  const JwksTtl: int := 6 * 60 * 60 * 1000

  /** What a redacted value is replaced by. */
  const RedactedMarker: string := "**REDACTED**"

  /** Settings read from the environment: DOMAIN and JWT_REFRESH_TOKEN_MAX_AGE
      (milliseconds, as parsed by `parseInt`). */
  datatype Config = Config(domain: string, refreshMaxAge: int)
}
