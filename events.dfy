/** The parts of an API Gateway event that the service reads, and the
    parameter helpers (`optionalParameters`, `requiredParameters`) it applies
    to them. */
module Events {
  import opened Wrappers
  import opened Json
  import Strings

  /** An API Gateway proxy or authorizer event, as far as the service reads it.
      `authorizationToken` is only set on authorizer events. */
  datatype Request = Request(
    authorizationToken: Option<string>,
    headers: map<string, string>,
    path: string,
    body: Attrs,
    queryStringParameters: Attrs,
    pathParameters: Attrs,
    authorizer: Attrs,
    identity: Attrs)

  /** `headers[name]` when `if (headers[name])` accepts it: present and not empty. */
  function Header(headers: map<string, string>, name: string): (r: Option<string>)
    ensures r.Some? <==> name in headers && headers[name] != ""
    ensures r.Some? ==> r.value == headers[name]
  {
    if Strings.TruthyAt(headers, name) then Some(headers[name]) else None
  }

  /** `${Host}` in a template literal: the Host header, or "undefined". */
  function HostText(headers: map<string, string>): string
  {
    if "Host" in headers then headers["Host"] else "undefined"
  }

  /** The request is marked as secure by the load balancer. */
  predicate Forwarded(headers: map<string, string>)
  {
    "X-Forwarded-Proto" in headers && headers["X-Forwarded-Proto"] == "https"
  }

  /** `ssl ? 'https' : 'http'`. */
  function Scheme(headers: map<string, string>): (r: string)
    ensures r == "https" || r == "http"
    ensures r == "https" <==> Forwarded(headers)
  {
    if Forwarded(headers) then "https" else "http"
  }

  /** `${ssl ? 'https' : 'http'}://${Host}`: the `baseUrl` of a login and the
      start of the issuer and refresh URLs. */
  function Origin(headers: map<string, string>): string
  {
    Scheme(headers) + "://" + HostText(headers)
  }

  /** The origin is an https URL exactly when X-Forwarded-Proto is "https". */
  lemma OriginSecure(headers: map<string, string>)
    ensures "https://" <= Origin(headers) <==> Forwarded(headers)
  {
    var o := Origin(headers);
    if !Forwarded(headers) {
      assert o[4] == ':';
    }
  }

  /** A parameter is given when it is present and not null and, unless empty
      strings are allowed, not the empty string. */
  predicate Given(src: Attrs, key: string, allowEmpty: bool)
  {
    key in src && !src[key].Null? && (allowEmpty || src[key] != Str(""))
  }

  /** `optionalParameters(src, keys)`: the given parameters among `keys`. */
  function Optional(src: Attrs, keys: seq<string>, allowEmpty: bool): (r: Attrs)
    ensures r.Keys <= src.Keys
    ensures forall k :: k in r ==> k in keys && Given(src, k, allowEmpty) && r[k] == src[k]
    ensures forall k :: k in keys && Given(src, k, allowEmpty) ==> k in r
  {
    map k | k in src && k in keys && Given(src, k, allowEmpty) :: src[k]
  }

  /** `requiredParameters(src, keys)`: the parameters `keys`, or a failure
      (an HTTP 400) when one of them is not given. */
  function Required(src: Attrs, keys: seq<string>): (r: Option<Attrs>)
    ensures r.Some? <==> forall k :: k in keys ==> Given(src, k, false)
    ensures r.Some? ==> r.value.Keys == set k | k in keys
    ensures r.Some? ==> forall k :: k in r.value ==> r.value[k] == src[k]
  {
    if forall k :: k in keys ==> Given(src, k, false) then Some(Optional(src, keys, false)) else None
  }
}
