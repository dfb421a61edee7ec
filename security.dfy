/**
 * The credential guard of `src/utils/security.ts`: the module-level maps
 * `failedAttempts` and `rateLimits` and the browser's `sessionStorage`, with
 * the exported operations that read and update them. The clock
 * (`Date.now()`) is the parameter `now`; the cryptographic primitives and
 * the random bytes they consume are parameters as well.
 */
module Security {
  import opened Wrappers
  import opened Framing
  import opened SessionKeys
  import Decimal
  import Crypto
  import Lockout
  import RateLimit

  /** How long a stored key stays readable: 24 hours. */
  const SessionTimeout: int := 24 * 60 * 60 * 1000

  /** The errors setSecureApiKey throws. */
  datatype SetError =
    | InvalidFormat     // the key is empty
    | TooManyAttempts   // the provider is locked out
    | EncryptionFailed  // importing the key or AES-GCM threw

  datatype SetOutcome = Saved | Rejected(error: SetError)

  /** validateApiKeyFormat: a key is accepted when it is not empty. */
  function ValidateApiKeyFormat(provider: string, apiKey: string): (ok: bool)
    ensures ok <==> apiKey != []
  {
    |apiKey| > 0
  }

  /** A `getItem` result that JavaScript treats as true: present and not "". */
  predicate Present(s: Storage, key: string) {
    key in s && s[key] != ""
  }

  /** The storage after a successful setSecureApiKey at time `now`. */
  function WithCredential(s: Storage, provider: string, encryptedKey: string, secretKey: string, now: int): (r: Storage)
    ensures GetItem(r, ItemKey(provider, ApiKey)) == Some(encryptedKey)
    ensures GetItem(r, ItemKey(provider, SecretKey)) == Some(secretKey)
    ensures GetItem(r, ItemKey(provider, Expiry)) == Some(Decimal.Show(now + SessionTimeout))
    ensures forall key :: key !in Keys(provider) ==> GetItem(r, key) == GetItem(s, key)
  {
    ItemKeysDistinct(provider);
    s[ItemKey(provider, ApiKey) := encryptedKey]
     [ItemKey(provider, SecretKey) := secretKey]
     [ItemKey(provider, Expiry) := Decimal.Show(now + SessionTimeout)]
  }

  /** What getSecureApiKey finds before it decrypts. */
  datatype Found = Missing | Expired | Live(encryptedKey: string, secretKey: string)

  /**
   * getSecureApiKey up to the decryption: Missing when any of the three
   * entries is absent or empty, Expired when the deadline parses and lies
   * strictly before `now`, Live otherwise (a deadline that does not parse
   * never expires, since any comparison with NaN is false).
   */
  function Inspect(s: Storage, provider: string, now: int): (r: Found)
    ensures r.Missing? <==> !(Present(s, ItemKey(provider, ApiKey)) && Present(s, ItemKey(provider, SecretKey))
                              && Present(s, ItemKey(provider, Expiry)))
    ensures r.Expired? <==> !r.Missing? && match Decimal.ParseInt(s[ItemKey(provider, Expiry)])
                                           case None => false
                                           case Some(deadline) => now > deadline
    ensures r.Live? ==> r == Live(s[ItemKey(provider, ApiKey)], s[ItemKey(provider, SecretKey)])
  {
    var api, secret, expiry := ItemKey(provider, ApiKey), ItemKey(provider, SecretKey), ItemKey(provider, Expiry);
    if !(Present(s, api) && Present(s, secret) && Present(s, expiry)) then Missing
    else match Decimal.ParseInt(s[expiry])
      case Some(deadline) => if now > deadline then Expired else Live(s[api], s[secret])
      case None => Live(s[api], s[secret])
  }

  /** The value getSecureApiKey returns; any error on the way is `null`. */
  function Retrieve(s: Storage, provider: string, now: int, aead: Crypto.Aead, codec: Crypto.Codec): (r: Option<string>)
    ensures r.Some? ==> Inspect(s, provider, now).Live?
    ensures Inspect(s, provider, now).Live? ==>
      r == Crypto.DecryptMessage(aead, codec, s[ItemKey(provider, ApiKey)], s[ItemKey(provider, SecretKey)])
  {
    match Inspect(s, provider, now)
    case Missing => None
    case Expired => None
    case Live(encryptedKey, secretKey) => Crypto.DecryptMessage(aead, codec, encryptedKey, secretKey)
  }

  /**
   * Read-back: with well-behaved primitives, a key stored at time `t` is
   * returned by every read up to and including `t + SessionTimeout`, and by
   * no read after it; after it the entries count as expired.
   */
  lemma ReadBack(s: Storage, provider: string, apiKey: string, aead: Crypto.Aead, codec: Crypto.Codec,
                 raw: Crypto.RawKey, iv: Iv, t: int, now: int)
    requires Crypto.CodecRoundTrips(codec) && Crypto.AeadRoundTrips(aead)
    requires Crypto.Encrypt(aead, codec, apiKey, Crypto.GenerateSecretKey(codec, raw), iv).Some?
    ensures var stored := WithCredential(s, provider,
              Crypto.Encrypt(aead, codec, apiKey, Crypto.GenerateSecretKey(codec, raw), iv).value,
              Crypto.GenerateSecretKey(codec, raw), t);
      && (Inspect(stored, provider, now).Expired? <==> now > t + SessionTimeout)
      && Retrieve(stored, provider, now, aead, codec) == if now <= t + SessionTimeout then Some(apiKey) else None
  {
    var secretKey := Crypto.GenerateSecretKey(codec, raw);
    var encryptedKey := Crypto.Encrypt(aead, codec, apiKey, secretKey, iv).value;
    var stored := WithCredential(s, provider, encryptedKey, secretKey, t);
    Crypto.DecryptEncrypted(aead, codec, apiKey, raw, iv);
    assert secretKey != [] by {
      assert codec.decode(codec.encode(raw)) == Some(raw) && (raw != [] ==> codec.encode(raw) != []);
    }
    Decimal.ParseShow(t + SessionTimeout);
    ItemKeysDistinct(provider);
    assert stored[ItemKey(provider, ApiKey)] == encryptedKey;
    assert stored[ItemKey(provider, SecretKey)] == secretKey;
    assert stored[ItemKey(provider, Expiry)] == Decimal.Show(t + SessionTimeout);
  }

  lemma ItemKeysDistinct(provider: string)
    ensures ItemKey(provider, ApiKey) != ItemKey(provider, SecretKey)
    ensures ItemKey(provider, ApiKey) != ItemKey(provider, Expiry)
    ensures ItemKey(provider, SecretKey) != ItemKey(provider, Expiry)
  {
  }

  /** Storing a key for one provider does not change what another provider reads. */
  lemma StoreIsolated(s: Storage, p: string, q: string, encryptedKey: string, secretKey: string, t: int, now: int)
    requires p != q
    ensures Inspect(WithCredential(s, p, encryptedKey, secretKey, t), q, now) == Inspect(s, q, now)
  {
    var stored := WithCredential(s, p, encryptedKey, secretKey, t);
    forall f: Field, g: Field
      ensures ItemKey(q, f) != ItemKey(p, g)
    {
      if ItemKey(q, f) == ItemKey(p, g) {
        ItemKeyInjective(q, f, p, g);
      }
    }
    assert forall f: Field :: GetItem(stored, ItemKey(q, f)) == GetItem(s, ItemKey(q, f));
  }

  /** After removal a provider has no credential, and other providers keep theirs. */
  lemma RemoveForgets(s: Storage, p: string, q: string, now: int)
    ensures Inspect(Without(s, p), p, now) == Missing
    ensures q != p ==> Inspect(Without(s, p), q, now) == Inspect(s, q, now)
  {
    if q != p {
      WithoutIsolated(s, p, q, ApiKey);
      WithoutIsolated(s, p, q, SecretKey);
      WithoutIsolated(s, p, q, Expiry);
    }
  }

  /** The module's state: the two guard maps and the session store. */
  class Guard {
    var failedAttempts: Lockout.Table
    var rateLimits: RateLimit.Table
    var sessionStorage: Storage

    /** A fresh page: nothing recorded, nothing stored. */
    constructor ()
      ensures failedAttempts == map[] && rateLimits == map[] && sessionStorage == map[]
    {
      failedAttempts, rateLimits, sessionStorage := map[], map[], map[];
    }

    /** checkRateLimit */
    method CheckRateLimit(provider: string, now: int) returns (allowed: bool)
      modifies this`rateLimits
      ensures var d := RateLimit.Check(old(rateLimits), provider, now);
        allowed == d.allowed && rateLimits == d.table
    {
      var requests := RateLimit.Requests(rateLimits, provider);
      var recentRequests := RateLimit.Recent(requests, now);
      if |recentRequests| >= RateLimit.MaxRequests {
        return false;
      }
      recentRequests := recentRequests + [now];
      rateLimits := rateLimits[provider := recentRequests];
      allowed := true;
    }

    /** checkFailedAttempts */
    method CheckFailedAttempts(provider: string, now: int) returns (open: bool)
      modifies this`failedAttempts
      ensures var c := Lockout.Check(old(failedAttempts), provider, now);
        open == c.open && failedAttempts == c.table
    {
      if provider !in failedAttempts {
        return true;
      }
      var attempts := failedAttempts[provider];
      if now - attempts.timestamp > Lockout.LockoutDuration {
        failedAttempts := failedAttempts - {provider};
        return true;
      }
      open := attempts.count < Lockout.MaxFailedAttempts;
    }

    /** recordFailedAttempt */
    method RecordFailedAttempt(provider: string, now: int)
      modifies this`failedAttempts
      ensures failedAttempts == Lockout.Record(old(failedAttempts), provider, now)
    {
      var attempts := if provider in failedAttempts then failedAttempts[provider] else Lockout.Attempts(0, now);
      attempts := attempts.(count := attempts.count + 1);
      attempts := attempts.(timestamp := now);
      failedAttempts := failedAttempts[provider := attempts];
    }

    /**
     * setSecureApiKey with the freshly generated key bytes `raw` and IV `iv`.
     * Every rejection records one failed attempt and writes nothing; a success
     * writes the three entries and leaves the attempt record as the lockout
     * check left it.
     */
    method SetSecureApiKey(provider: string, apiKey: string, now: int,
                           aead: Crypto.Aead, codec: Crypto.Codec, raw: Crypto.RawKey, iv: Iv)
      returns (r: SetOutcome)
      modifies this`failedAttempts, this`sessionStorage
      ensures var checked := Lockout.Check(old(failedAttempts), provider, now);
        var encrypted := Crypto.Encrypt(aead, codec, apiKey, Crypto.GenerateSecretKey(codec, raw), iv);
        && (apiKey == [] ==>
              r == Rejected(InvalidFormat) && failedAttempts == Lockout.Record(old(failedAttempts), provider, now))
        && (apiKey != [] && !checked.open ==>
              r == Rejected(TooManyAttempts) && failedAttempts == Lockout.Record(old(failedAttempts), provider, now))
        && (apiKey != [] && checked.open && encrypted.None? ==>
              r == Rejected(EncryptionFailed) && failedAttempts == Lockout.Record(checked.table, provider, now))
        && (apiKey != [] && checked.open && encrypted.Some? ==>
              r == Saved && failedAttempts == checked.table
              && sessionStorage == WithCredential(old(sessionStorage), provider, encrypted.value,
                                                  Crypto.GenerateSecretKey(codec, raw), now))
        && (r.Rejected? ==> sessionStorage == old(sessionStorage))
    {
      // The body of the `try`.
      r := Saved;
      if !ValidateApiKeyFormat(provider, apiKey) {
        r := Rejected(InvalidFormat);
      } else {
        var open := CheckFailedAttempts(provider, now);
        if !open {
          r := Rejected(TooManyAttempts);
        } else {
          var secretKey := Crypto.GenerateSecretKey(codec, raw);
          var encryptedKey := Crypto.EncryptMessage(aead, codec, apiKey, secretKey, iv);
          if encryptedKey.None? {
            r := Rejected(EncryptionFailed);
          } else {
            sessionStorage := sessionStorage[ItemKey(provider, ApiKey) := encryptedKey.value];
            sessionStorage := sessionStorage[ItemKey(provider, SecretKey) := secretKey];
            sessionStorage := sessionStorage[ItemKey(provider, Expiry) := Decimal.Show(now + SessionTimeout)];
          }
        }
      }
      // The `catch`: record the failure and rethrow.
      if r.Rejected? {
        RecordFailedAttempt(provider, now);
      }
    }

    /**
     * getSecureApiKey: returns what Retrieve says and, when the entries have
     * expired, removes them.
     */
    method GetSecureApiKey(provider: string, now: int, aead: Crypto.Aead, codec: Crypto.Codec)
      returns (r: Option<string>)
      modifies this`sessionStorage
      ensures r == Retrieve(old(sessionStorage), provider, now, aead, codec)
      ensures sessionStorage == if Inspect(old(sessionStorage), provider, now).Expired?
                                then Without(old(sessionStorage), provider)
                                else old(sessionStorage)
    {
      var encryptedKey := GetItem(sessionStorage, ItemKey(provider, ApiKey));
      var secretKey := GetItem(sessionStorage, ItemKey(provider, SecretKey));
      var expiry := GetItem(sessionStorage, ItemKey(provider, Expiry));
      ghost var found := Inspect(sessionStorage, provider, now);
      if encryptedKey.None? || encryptedKey.value == "" || secretKey.None? || secretKey.value == ""
         || expiry.None? || expiry.value == "" {
        assert found == Missing;
        return None;
      }
      var deadline := Decimal.ParseInt(expiry.value);
      if deadline.Some? && now > deadline.value {
        assert found == Expired;
        RemoveSecureApiKey(provider);
        return None;
      }
      assert found == Live(encryptedKey.value, secretKey.value);
      r := Crypto.DecryptMessage(aead, codec, encryptedKey.value, secretKey.value);
    }

    /** removeSecureApiKey: the three `removeItem` calls. */
    method RemoveSecureApiKey(provider: string)
      modifies this`sessionStorage
      ensures sessionStorage == Without(old(sessionStorage), provider)
    {
      sessionStorage := sessionStorage - {ItemKey(provider, ApiKey)};
      sessionStorage := sessionStorage - {ItemKey(provider, SecretKey)};
      sessionStorage := sessionStorage - {ItemKey(provider, Expiry)};
    }
  }
}
