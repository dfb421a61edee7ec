/**
 * Clients of the guard that drive it through the sequences its unit tests
 * and its documented behaviour describe, each on a fresh Guard.
 */
module Scenarios {
  import opened Wrappers
  import opened Framing
  import Crypto
  import Lockout
  import RateLimit
  import opened Security

  /**
   * The rate-limiting tests: 60 calls at one instant are all accepted, the
   * 61st is refused, and once the clock has moved a full window on the next
   * call is accepted again.
   */
  method RateLimitWindow(provider: string, t0: int) returns (firstSixty: bool, sixtyFirst: bool, afterWindow: bool)
    ensures firstSixty && !sixtyFirst && afterWindow
  {
    var guard := new Guard();
    firstSixty := true;
    var i := 0;
    while i < RateLimit.MaxRequests
      invariant 0 <= i <= RateLimit.MaxRequests
      invariant RateLimit.Requests(guard.rateLimits, provider) == seq(i, _ => t0)
      invariant firstSixty
    {
      RateLimit.RecentKeepsAll(seq(i, _ => t0), t0);
      var allowed := guard.CheckRateLimit(provider, t0);
      firstSixty := firstSixty && allowed;
      assert seq(i, _ => t0) + [t0] == seq(i + 1, _ => t0);
      i := i + 1;
    }
    RateLimit.RecentKeepsAll(seq(i, _ => t0), t0);
    sixtyFirst := guard.CheckRateLimit(provider, t0);
    RateLimit.RecentDropsAll(seq(i, _ => t0), t0 + RateLimit.RateLimitWindow);
    afterWindow := guard.CheckRateLimit(provider, t0 + RateLimit.RateLimitWindow);
  }

  /**
   * Lockout and recovery: five rejected writes (empty keys) at `t0` lock the
   * provider, so a valid key is refused at `t0` and still at exactly
   * `t0 + LockoutDuration`; that refusal renews the lockout, and the write
   * succeeds only once more than fifteen minutes have passed since it.
   */
  method LockoutRecovery(provider: string, apiKey: string, t0: int,
                         aead: Crypto.Aead, codec: Crypto.Codec, raw: Crypto.RawKey, iv: Iv)
    returns (failures: bool, sixth: SetOutcome, atBoundary: SetOutcome, later: SetOutcome)
    requires apiKey != []
    requires Crypto.CodecRoundTrips(codec) && aead.seal(raw, iv, apiKey).Some?
    ensures failures
    ensures sixth == Rejected(TooManyAttempts) && atBoundary == Rejected(TooManyAttempts)
    ensures later == Saved
  {
    var guard := new Guard();
    failures := true;
    var i := 0;
    while i < Lockout.MaxFailedAttempts
      invariant 0 <= i <= Lockout.MaxFailedAttempts
      invariant i == 0 ==> guard.failedAttempts == map[]
      invariant i > 0 ==> guard.failedAttempts == map[provider := Lockout.Attempts(i, t0)]
      invariant failures
    {
      var r := guard.SetSecureApiKey(provider, "", t0, aead, codec, raw, iv);
      failures := failures && r == Rejected(InvalidFormat);
      i := i + 1;
    }
    sixth := guard.SetSecureApiKey(provider, apiKey, t0, aead, codec, raw, iv);
    var t1 := t0 + Lockout.LockoutDuration;
    atBoundary := guard.SetSecureApiKey(provider, apiKey, t1, aead, codec, raw, iv);
    assert guard.failedAttempts == map[provider := Lockout.Attempts(7, t1)];
    assert codec.decode(Crypto.GenerateSecretKey(codec, raw)) == Some(raw);
    later := guard.SetSecureApiKey(provider, apiKey, t1 + Lockout.LockoutDuration + 1, aead, codec, raw, iv);
  }

  /**
   * Session lifetime: a key stored at `t0` reads back at exactly
   * `t0 + SessionTimeout`, not a millisecond later; that late read purges
   * the entries, so even a read at `t0` then finds nothing.
   */
  method SessionLifetime(provider: string, apiKey: string, t0: int,
                         aead: Crypto.Aead, codec: Crypto.Codec, raw: Crypto.RawKey, iv: Iv)
    returns (saved: SetOutcome, atDeadline: Option<string>, afterDeadline: Option<string>, again: Option<string>)
    requires apiKey != []
    requires Crypto.CodecRoundTrips(codec) && Crypto.AeadRoundTrips(aead) && aead.seal(raw, iv, apiKey).Some?
    ensures saved == Saved
    ensures atDeadline == Some(apiKey) && afterDeadline == None && again == None
  {
    var guard := new Guard();
    Crypto.DecryptEncrypted(aead, codec, apiKey, raw, iv);
    saved := guard.SetSecureApiKey(provider, apiKey, t0, aead, codec, raw, iv);
    var deadline := t0 + SessionTimeout;
    ReadBack(map[], provider, apiKey, aead, codec, raw, iv, t0, deadline);
    atDeadline := guard.GetSecureApiKey(provider, deadline, aead, codec);
    ReadBack(map[], provider, apiKey, aead, codec, raw, iv, t0, deadline + 1);
    afterDeadline := guard.GetSecureApiKey(provider, deadline + 1, aead, codec);
    again := guard.GetSecureApiKey(provider, t0, aead, codec);
  }

  /** Removing twice is the same as removing once, and either way nothing is read. */
  method RemoveTwice(provider: string, apiKey: string, t0: int,
                     aead: Crypto.Aead, codec: Crypto.Codec, raw: Crypto.RawKey, iv: Iv)
    returns (afterFirst: Option<string>, afterSecond: Option<string>)
    ensures afterFirst == None && afterSecond == None
  {
    var guard := new Guard();
    var saved := guard.SetSecureApiKey(provider, apiKey, t0, aead, codec, raw, iv);
    guard.RemoveSecureApiKey(provider);
    RemoveForgets(guard.sessionStorage, provider, provider, t0);
    afterFirst := guard.GetSecureApiKey(provider, t0, aead, codec);
    guard.RemoveSecureApiKey(provider);
    afterSecond := guard.GetSecureApiKey(provider, t0, aead, codec);
  }
}
