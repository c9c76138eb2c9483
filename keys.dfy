/** Signing-key provisioning over the secret store (src/jwt.ts,
    `getPublicKey` and `getOrCreateKeys`). Secrets are modelled as the JWK
    text stored under their name; the base64 and JSON decoding of a secret
    is not part of this model. */
module Keys {
  import opened Wrappers
  import opened Constants
  import opened Stores
  import Strings

  /** A freshly generated key pair (`generateKeys`): the JSON text of its
      public and of its private JWK. JSON text is never empty. */
  datatype KeyPair = KeyPair(publicJwk: string, privateJwk: string)

  predicate WellFormed(keys: KeyPair)
  {
    keys.publicJwk != "" && keys.privateJwk != ""
  }

  /** Why key provisioning throws. */
  datatype KeyFault = NotGenerated | StoreFailed(fault: StoreFault)

  /** A secret is present when `if (!secret)` accepts it. */
  predicate Present(secrets: map<string, string>, name: string)
  {
    Strings.TruthyAt(secrets, name)
  }

  /** The store never holds a private key without its public key. */
  predicate KeysConsistent(secrets: map<string, string>)
  {
    Present(secrets, PrivateKeySecret) ==> Present(secrets, PublicKeySecret)
  }

  /** What `getOrCreateKeys` leaves behind: the new secrets, the names it
      wrote in order, and the private key text it returns or what it throws. */
  datatype Provisioned = Provisioned(secrets: map<string, string>, written: seq<string>, result: Outcome<string, KeyFault>)

  /** `getOrCreateKeys`: keep an existing private key; otherwise write the
      public key of a generated pair, then its private key. A write named in
      `failing` throws and stops the sequence. */
  function Provision(secrets: map<string, string>, generated: KeyPair, failing: set<string>): (p: Provisioned)
    requires WellFormed(generated)
    ensures Present(secrets, PrivateKeySecret) ==>
      p == Provisioned(secrets, [], Returned(secrets[PrivateKeySecret]))
    ensures p.written <= [PublicKeySecret, PrivateKeySecret]
    ensures forall n :: n !in p.written ==> (n in p.secrets <==> n in secrets) && (n in secrets ==> p.secrets[n] == secrets[n])
    ensures KeysConsistent(secrets) ==> KeysConsistent(p.secrets)
    ensures p.result.Returned? ==>
      Present(p.secrets, PrivateKeySecret) && p.result.value == p.secrets[PrivateKeySecret]
    ensures p.result.Returned? && p.written != [] ==>
      p.written == [PublicKeySecret, PrivateKeySecret] && Present(p.secrets, PublicKeySecret)
    ensures p.result.Threw? ==> p.result.fault.StoreFailed? && p.written != [PublicKeySecret, PrivateKeySecret]
    ensures p.result.Threw? <==>
      !Present(secrets, PrivateKeySecret) && (PublicKeySecret in failing || PrivateKeySecret in failing)
    ensures !Present(secrets, PrivateKeySecret) && PublicKeySecret !in failing && PrivateKeySecret !in failing ==>
      p == Provisioned(secrets[PublicKeySecret := generated.publicJwk][PrivateKeySecret := generated.privateJwk],
                       [PublicKeySecret, PrivateKeySecret], Returned(generated.privateJwk))
    ensures !Present(secrets, PrivateKeySecret) && PublicKeySecret in failing ==>
      p == Provisioned(secrets, [], Threw(StoreFailed(WriteFailed(PublicKeySecret))))
    ensures !Present(secrets, PrivateKeySecret) && PublicKeySecret !in failing && PrivateKeySecret in failing ==>
      p == Provisioned(secrets[PublicKeySecret := generated.publicJwk], [PublicKeySecret],
                       Threw(StoreFailed(WriteFailed(PrivateKeySecret))))
  {
    if Present(secrets, PrivateKeySecret) then
      Provisioned(secrets, [], Returned(secrets[PrivateKeySecret]))
    else if PublicKeySecret in failing then
      Provisioned(secrets, [], Threw(StoreFailed(WriteFailed(PublicKeySecret))))
    else
      var withPublic := secrets[PublicKeySecret := generated.publicJwk];
      if PrivateKeySecret in failing then
        Provisioned(withPublic, [PublicKeySecret], Threw(StoreFailed(WriteFailed(PrivateKeySecret))))
      else
        Provisioned(withPublic[PrivateKeySecret := generated.privateJwk], [PublicKeySecret, PrivateKeySecret],
          Returned(generated.privateJwk))
  }

  /** Once provisioning has succeeded, running it again writes nothing and
      returns the same key, whatever pair it would generate and whatever
      writes would fail. */
  lemma ProvisionIdempotent(secrets: map<string, string>, generated: KeyPair, failing: set<string>, again: KeyPair, failing2: set<string>)
    requires WellFormed(generated) && WellFormed(again)
    requires Provision(secrets, generated, failing).result.Returned?
    ensures var p := Provision(secrets, generated, failing);
      Provision(p.secrets, again, failing2) == Provisioned(p.secrets, [], p.result)
  {
  }

  /** `getPublicKey`: the public key text, or the "Keys have not been
      generated" error. It never writes. */
  method GetPublicKey(store: SecretStore) returns (r: Outcome<string, KeyFault>)
    ensures r.Returned? <==> Present(store.secrets, PublicKeySecret)
    ensures r.Returned? ==> r.value == store.secrets[PublicKeySecret]
    ensures r.Threw? ==> r.fault == NotGenerated
  {
    var publicKey := store.Get(PublicKeySecret);
    if publicKey.None? {
      return Threw(NotGenerated);
    }
    r := Returned(publicKey.value);
  }

  /** `getOrCreateKeys`, over the secret store. */
  method GetOrCreateKeys(store: SecretStore, generated: KeyPair, failing: set<string>) returns (r: Outcome<string, KeyFault>)
    requires WellFormed(generated)
    modifies store
    ensures var p := Provision(old(store.secrets), generated, failing);
      && store.secrets == p.secrets
      && store.written == old(store.written) + p.written
      && r == p.result
  {
    var privateKey := store.Get(PrivateKeySecret);
    if privateKey.None? {
      var wrote := store.Set(PublicKeySecret, generated.publicJwk, PublicKeySecret in failing);
      if wrote.Threw? {
        return Threw(StoreFailed(wrote.fault));
      }
      var stored := store.Set(PrivateKeySecret, generated.privateJwk, PrivateKeySecret in failing);
      if stored.Threw? {
        return Threw(StoreFailed(stored.fault));
      }
      privateKey := Some(stored.value);
    }
    r := Returned(privateKey.value);
  }
}
