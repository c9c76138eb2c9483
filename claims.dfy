/** The claim strings of an issued token (src/jwt.ts, `generateAudience` and
    `createToken`): the audience built from the reversed domain name and the
    account id, and the issuer and refresh URLs built from the request. They
    fill the `aud`, `sub` and `iss` claims of section 4.1 of RFC 7519; the
    signature itself is a parameter. */
module Claims {
  import opened Wrappers
  import opened Strings
  import opened Json
  import opened Constants
  import opened Events
  import opened Stores
  import opened Keys

  /** `DOMAIN.split('.').reverse().join('.')`. */
  function ReversedDomain(domain: string): string
  {
    Join(Reverse(Split(domain, '.')), '.')
  }

  /** The labels of the reversed domain are the domain's labels, reversed. */
  lemma ReversedDomainLabels(domain: string)
    ensures Split(ReversedDomain(domain), '.') == Reverse(Split(domain, '.'))
  {
    var labels := Split(domain, '.');
    SplitFreeOf(domain, '.');
    ReverseFreeOf(labels, '.');
    SplitJoin(Reverse(labels), '.');
  }

  /** Reversing the labels twice gives back the domain. */
  lemma ReversedDomainInvolution(domain: string)
    ensures ReversedDomain(ReversedDomain(domain)) == domain
  {
    ReversedDomainLabels(domain);
    ReverseReverse(Split(domain, '.'));
    JoinSplit(domain, '.');
  }

  /** `generateAudience(id)`: `urn:<reversed domain>:account:<id>`. */
  function GenerateAudience(domain: string, id: string): (r: string)
    ensures "urn:" <= r && |r| == |ReversedDomain(domain)| + |id| + 13
    ensures r[|r| - |id|..] == id
  {
    "urn:" + ReversedDomain(domain) + ":account:" + id
  }

  /** The domain can be read back from an audience: reversing the labels
      between `urn:` and `:account:` gives it. */
  lemma AudienceNamesDomain(domain: string, id: string)
    ensures var r := GenerateAudience(domain, id);
      ReversedDomain(r[4..|r| - |id| - 9]) == domain
  {
    var r := GenerateAudience(domain, id);
    assert r[4..|r| - |id| - 9] == ReversedDomain(domain);
    ReversedDomainInvolution(domain);
  }

  /** Different accounts of one domain get different audiences. */
  lemma AudienceInjective(domain: string, id1: string, id2: string)
    requires GenerateAudience(domain, id1) == GenerateAudience(domain, id2)
    ensures id1 == id2
  {
  }

  /** The `iss` claim: `<scheme>://<Host><path>/certs`. */
  function IssuerUrl(req: Request): string
  {
    Origin(req.headers) + req.path + "/certs"
  }

  /** The `refreshUrl` claim: `<scheme>://<Host><path>/refresh`. */
  function RefreshUrl(req: Request): string
  {
    Origin(req.headers) + req.path + "/refresh"
  }

  /** Issuer and refresh URL share the request's origin and path, and are
      https URLs exactly when X-Forwarded-Proto is "https". */
  lemma ClaimUrls(req: Request)
    ensures Origin(req.headers) + req.path <= IssuerUrl(req)
    ensures Origin(req.headers) + req.path <= RefreshUrl(req)
    ensures IssuerUrl(req) != RefreshUrl(req)
    ensures "https://" <= IssuerUrl(req) <==> Forwarded(req.headers)
    ensures "https://" <= RefreshUrl(req) <==> Forwarded(req.headers)
  {
    var o := Origin(req.headers);
    var base := o + req.path;
    OriginSecure(req.headers);
    assert IssuerUrl(req) == base + "/certs";
    assert RefreshUrl(req) == base + "/refresh";
    assert IssuerUrl(req)[|base| + 1] == 'c' != RefreshUrl(req)[|base| + 1];
    if Forwarded(req.headers) {
      assert o[..8] == "https://";
      assert IssuerUrl(req)[..8] == o[..8] && RefreshUrl(req)[..8] == o[..8];
    } else {
      assert IssuerUrl(req)[4] == ':' && RefreshUrl(req)[4] == ':';
    }
  }

  /** The options `JWT.sign` is called with. */
  datatype SignOptions = SignOptions(audience: string, expiresIn: string, typ: string, subject: string, issuer: string)

  function TokenOptions(domain: string, id: string, req: Request): SignOptions
  {
    SignOptions(GenerateAudience(domain, id), "10 minute", "JWT", id, IssuerUrl(req))
  }

  /** `{ ...payload, refreshUrl }`: the payload with `refreshUrl` set, any
      payload entry of that name overridden. */
  function TokenPayload(payload: Attrs, req: Request): (r: Attrs)
    ensures r.Keys == payload.Keys + {"refreshUrl"}
    ensures r["refreshUrl"] == Str(RefreshUrl(req))
    ensures forall k :: k in payload && k != "refreshUrl" ==> r[k] == payload[k]
  {
    payload["refreshUrl" := Str(RefreshUrl(req))]
  }

  /** What `createToken` returns: the signed payload and the token. */
  datatype TokenResponse = TokenResponse(payload: Attrs, token: string)

  /** `createToken(id, payload, event)`: provisions the signing key, then signs
      the payload with the key's text and the claim options (`sign` stands for
      `JWT.sign`). */
  method CreateToken(store: SecretStore, domain: string, id: string, payload: Attrs, req: Request,
                     generated: KeyPair, failing: set<string>, sign: (Attrs, string, SignOptions) -> string)
    returns (r: Outcome<TokenResponse, KeyFault>)
    requires WellFormed(generated)
    modifies store
    ensures var p := Provision(old(store.secrets), generated, failing);
      && store.secrets == p.secrets
      && store.written == old(store.written) + p.written
      && (p.result.Threw? ==> r == Threw(p.result.fault))
      && (p.result.Returned? ==> r == Returned(TokenResponse(TokenPayload(payload, req),
            sign(TokenPayload(payload, req), p.result.value, TokenOptions(domain, id, req)))))
  {
    var obj := TokenPayload(payload, req);
    var privateKey := GetOrCreateKeys(store, generated, failing);
    if privateKey.Threw? {
      return Threw(privateKey.fault);
    }
    r := Returned(TokenResponse(obj, sign(obj, privateKey.value, TokenOptions(domain, id, req))));
  }
}
