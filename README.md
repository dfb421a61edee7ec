# Credential guard of deepseek-chat-friend, in Dafny

This project models `src/utils/security.ts`. That module keeps a provider's API key in
the browser's `sessionStorage` for 24 hours, encrypted with AES-GCM under a freshly
generated key. It also guards the key with two per-provider policies:

- a brute-force lockout: five failed writes block further writes until more than 15
  minutes have passed since the latest failure;
- a sliding-window rate limiter: at most 60 accepted calls within any minute.

The three pieces of mutable state are the module-level maps `failedAttempts` and
`rateLimits` and `sessionStorage`. They are the fields of the class `Security.Guard`.
Each exported operation is a method of that class. Each method is tied to a pure
function of the old state (`Lockout.Check`, `Lockout.Record`, `RateLimit.Check`,
`Security.Retrieve`, `SessionKeys.Without`, `Security.WithCredential`), and the lemmas
about those functions state the properties.

Files and modules:

- `framing.dfy` (`Framing`): the stored payload `iv (12 bytes) ‖ AES-GCM output`, built
  by copying into a new array and split again with two slices.
- `decimal.dfy` (`Decimal`): Number::toString and parseInt (section 19.2.5 of the
  ECMAScript Language Specification) for integers. The session
  deadline is stored as text, so it goes through both.
- `crypto.dfy` (`Crypto`): generateSecretKey, encryptMessage and decryptMessage.
  AES-GCM, base64 and the UTF-8 text codec are browser primitives. They are passed in
  as the function values of an `Aead` and a `Codec`. Their round trips are the
  predicates `AeadRoundTrips` and `CodecRoundTrips`, which the lemmas that need them
  take as preconditions. The random key bytes and the random IV are parameters too.
- `storage.dfy` (`SessionKeys`): the three entries `{p}_api_key`, `{p}_secret_key` and
  `{p}_expiry`. Different providers never share a storage key.
- `lockout.dfy` (`Lockout`), `ratelimit.dfy` (`RateLimit`): the two policies as
  functions on their maps.
- `security.dfy` (`Security`): the read path as functions, and the `Guard` class.
- `scenarios.dfy` (`Scenarios`): clients that run a fresh `Guard` through the unit
  tests' rate-limit sequence and through lockout, expiry and removal sequences.

The clock `Date.now()` is the parameter `now` of every operation.

Behaviour of the code that a reader might not expect, which the model keeps:

- A key is still returned at exactly its deadline. The code tests `now > expiry`.
- A lockout is still in force at exactly 15 minutes after the latest failure. The code
  tests `now - timestamp > LOCKOUT_DURATION`.
- A successful write does not clear the attempt record. Only `checkFailedAttempts`
  deletes a record, and only a stale one.
- A write refused by the lockout also records a failure. So each refused attempt
  renews the lockout (`Lockout.RefusalRenewsLockout`).
- `recordFailedAttempt` never restarts a stale record. An empty key skips the lockout
  check, so one empty-key attempt on top of four stale failures locks the provider
  at once (`Lockout.StaleFailuresStillCount`).
- A key that fails to decrypt is reported as absent, but it is not removed.
- Each write generates a new AES key and stores it, base64-encoded, next to the
  ciphertext under `{p}_secret_key`. The module constant `ENCRYPTION_KEY` is never used.
- A deadline that does not parse is `NaN`. Every comparison with `NaN` is false, so
  such an entry never expires. An empty entry counts as missing, because `""` is falsy.

## Model

| member | source | states |
|---|---|---|
| `Framing.Combine` | src/utils/security.ts:58-61 | the new array holds exactly the IV followed by the AES-GCM output |
| `Framing.Split` | src/utils/security.ts:80-82 | the two slices concatenate back to the input; the IV part is 12 bytes unless the input is shorter, in which case the body is empty |
| `Framing.SplitCombined` | src/utils/security.ts:80-82 | splitting `iv ‖ output` with a 12-byte IV gives back exactly `(iv, output)` |
| `Decimal.TrimStart` | src/utils/security.ts:164 | parseInt's leading-white-space skip yields a suffix of the input that does not start with white space, and every character it drops is white space |
| `Decimal.DigitPrefix` | src/utils/security.ts:164 | parseInt reads the longest prefix of digits: a prefix, all digits, followed by a non-digit or nothing |
| `Decimal.ShowNat` | src/utils/security.ts:145 | `toString` of a natural is non-empty decimal digits without a leading zero |
| `Decimal.ShowNatValue` | src/utils/security.ts:145 | the digits `toString` writes denote the number written |
| `Decimal.Show` | src/utils/security.ts:145 | `toString` of an integer starts with a minus sign exactly when the integer is negative, and the rest is decimal digits |
| `Decimal.ParseIntNoDigits` | src/utils/security.ts:164 | `parseInt` of text that holds no decimal digit at all is `NaN` |
| `Decimal.ParseIgnoresTrailing` | src/utils/security.ts:164 | `parseInt` stops at the first non-digit: `toString` text followed by a tail that does not start with a digit (nor with `x` after a lone `0`) parses to the number written |
| `Decimal.ParseShow` | src/utils/security.ts:164 | `parseInt` of the stored `toString` text is the integer that was written, negative or not |
| `Crypto.GenerateSecretKey` | src/utils/security.ts:22-34 | with a round-tripping base64 codec, the exported key text is non-empty and decodes to the 32 raw key bytes |
| `Crypto.Encrypt` | src/utils/security.ts:36-68 | encryption succeeds exactly when the key text decodes and AES-GCM seals the message; with a round-tripping codec its text decodes to bytes that split into the IV and the AES-GCM output |
| `Crypto.EncryptMessage` | src/utils/security.ts:36-68 | encryption decodes the key text, seals the message under it and the IV, and encodes `iv ‖ output`; it fails when decoding or sealing fails |
| `Crypto.DecryptMessage` | src/utils/security.ts:70-98 | decryption fails when the key text or the data does not decode; otherwise it yields exactly what AES-GCM opens with the first 12 bytes (or fewer, if the data is shorter) as IV and the rest as ciphertext |
| `Crypto.DecryptEncrypted` | src/utils/security.ts:70-98 | with round-tripping primitives, encryption under a generated key fails only if AES-GCM fails, yields non-empty text, and decrypting that text with the same key text gives back the message |
| `SessionKeys.ItemKeyInjective` | src/utils/security.ts:143-145 | `{p}_api_key`, `{p}_secret_key`, `{p}_expiry` coincide only for the same provider and field |
| `SessionKeys.GetItem` | src/utils/security.ts:155-157 | `getItem` finds a value exactly when the key is present, and the value it finds is the one stored under that key |
| `SessionKeys.Without` | src/utils/security.ts:176-180 | after removal the provider's three entries are absent and every other entry reads as before |
| `SessionKeys.WithoutIdempotent` | src/utils/security.ts:176-180 | removing twice leaves what removing once left |
| `SessionKeys.WithoutIsolated` | src/utils/security.ts:176-180 | removing one provider's entries leaves every entry of a different provider |
| `Security.ValidateApiKeyFormat` | src/utils/security.ts:101-103 | a key passes validation exactly when it is non-empty |
| `Security.WithCredential` | src/utils/security.ts:143-145 | after a successful write the three entries hold the ciphertext, the key text and the `toString` of `now + 86400000`, and every key outside the provider's three reads as before |
| `Security.Inspect` | src/utils/security.ts:155-167 | missing exactly when one of the three entries is absent or empty; expired exactly when the deadline parses and `now` is strictly later; otherwise the stored ciphertext and key text |
| `Security.Retrieve` | src/utils/security.ts:153-174 | a key is returned only when the entries are live (present, non-empty, not expired), and then it is what decryptMessage gives for the stored ciphertext and key text |
| `Security.ReadBack` | src/utils/security.ts:141-169 | with round-tripping primitives, a key stored at `t` reads back as itself for every `now <= t + 86400000` and as null after, when the entries count as expired |
| `Security.StoreIsolated` | src/utils/security.ts:143-145 | storing a key for one provider does not change what another provider finds |
| `Security.RemoveForgets` | src/utils/security.ts:176-180 | after removal the provider's credential is missing, and other providers find what they found before |
| `Lockout.Check` | src/utils/security.ts:110-121 | refused exactly when a record with at least five failures exists and is not stale (`now - timestamp > 900000`); a stale record is deleted and nothing else changes |
| `Lockout.Record` | src/utils/security.ts:123-128 | the count rises by one from the old count (0 when absent), the timestamp becomes `now`, other providers' records are untouched |
| `Lockout.RecordAllCounts` | src/utils/security.ts:123-128 | a run of failures adds its length to the count and leaves the timestamp at the last failure |
| `Lockout.FiveFailuresLock` | src/utils/security.ts:105-128 | five failures with no earlier record lock the provider until 15 minutes after the last one |
| `Lockout.RefusalRenewsLockout` | src/utils/security.ts:110-128 | a refused check followed by the failure it records keeps the provider locked for 15 minutes from the refusal |
| `Lockout.StaleFailuresStillCount` | src/utils/security.ts:123-128 | four stale failures let a check pass, but one more recorded failure without a check locks the provider |
| `RateLimit.Recent` | src/utils/security.ts:192 | the filtered list is no longer than the input and holds only times within the window |
| `RateLimit.RecentCounts` | src/utils/security.ts:192 | the filter keeps each time within the window exactly as often as it occurred, and drops every other time |
| `RateLimit.RecentKeepsAll` | src/utils/security.ts:192 | a list all within the window is kept whole |
| `RateLimit.RecentDropsAll` | src/utils/security.ts:192 | a list all a full window old or older is emptied |
| `RateLimit.Check` | src/utils/security.ts:187-201 | accepted exactly when fewer than 60 recent times remain; a refusal changes nothing; an acceptance stores the recent times followed by `now`, at most 60 entries, all within the window |
| `RateLimit.CheckKeepsBounded` | src/utils/security.ts:189-199 | with a clock that does not go back, every list stays at most 60 long with no entry later than the clock |
| `RateLimit.BurstAccepts` | src/utils/security.ts:187-201 | of `n` calls at one instant exactly `min(n, 60 - recent)` are accepted, never more than 60 |
| `Security.Guard.constructor` | src/utils/security.ts:106 | a fresh module has no attempt records (`failedAttempts`, this line), no rate windows (`rateLimits`, line 183, likewise created empty) and no stored entries (the session store of a fresh tab) |
| `Security.Guard.CheckRateLimit` | src/utils/security.ts:187-201 | returns and leaves what `RateLimit.Check` gives for the old map |
| `Security.Guard.CheckFailedAttempts` | src/utils/security.ts:110-121 | returns and leaves what `Lockout.Check` gives for the old map |
| `Security.Guard.RecordFailedAttempt` | src/utils/security.ts:123-128 | the map becomes `Lockout.Record` of the old map |
| `Security.Guard.SetSecureApiKey` | src/utils/security.ts:131-151 | an empty key, a lockout or a failed encryption is rejected with that error, records one failure and writes nothing; otherwise the three entries are written with deadline `now + 86400000` and the attempt record is left as the check left it |
| `Security.Guard.GetSecureApiKey` | src/utils/security.ts:153-174 | returns `Retrieve` of the old storage, and removes the three entries exactly when they have expired |
| `Security.Guard.RemoveSecureApiKey` | src/utils/security.ts:176-180 | the storage becomes `Without` the provider's three entries |
| `Scenarios.RateLimitWindow` | src/__tests__/security.test.ts:63-90 | 60 calls at one instant are accepted, the 61st is refused, and a call one full window later is accepted |
| `Scenarios.LockoutRecovery` | src/utils/security.ts:131-151 | five empty-key writes lock the provider; a valid key is refused then and at exactly 15 minutes later, and accepted once 15 minutes have passed since that last refusal |
| `Scenarios.SessionLifetime` | src/utils/security.ts:153-174 | a stored key reads back at exactly its deadline, not one millisecond later, and that late read purges it |
| `Scenarios.RemoveTwice` | src/utils/security.ts:176-180 | after one or two removals nothing is read |

## Left out

- AES-GCM, key generation and export, `btoa`/`atob` and TextEncoder/TextDecoder are not written out. They are parameters (`Crypto.Aead`, `Crypto.Codec`), and their round trips are preconditions of the lemmas that use them. Tamper detection is not modelled.
- Strings are sequences of Unicode scalar values. So a JavaScript string with a lone surrogate is not modelled: TextEncoder would replace it with U+FFFD and break the round trip.
- The random IV and the generated key bytes are parameters. `crypto.subtle.generateKey` failing on its own is not modelled; a failure of importing or of AES-GCM is.
- `sessionStorage.setItem` can throw when storage is full, after some of the three writes. That case is not modelled: writes always succeed here.
- `Date.now()` is read once per operation. The source reads it again after awaiting the crypto calls, and again in `recordFailedAttempt`.
- Interleaving of concurrent `setSecureApiKey` calls across their `await` points is not modelled. Each operation runs to completion.
- Decimal.Show: JavaScript writes numbers from 10^21 up in exponent form, and doubles lose precision above 2^53. The model's integers are exact and always written as digits. Epoch-millisecond deadlines are far below both bounds.
- RateLimit.Recent: the contract and RecentCounts state which times are kept and how often, not that their order is kept. The body keeps it.
- The attempt record is an object that `recordFailedAttempt` mutates in place. It is modelled as a value replaced in the map, since nothing else holds a reference to it.
- `getEncryptionKey` and `ENCRYPTION_KEY` depend on runtime globals and are not used by any operation. `console.error` logging is not modelled.
- The React components, contexts and pages, the chat/HTTP clients, and the build and test configuration are not part of this model. `ApiKeyForm.tsx` expects `setSecureApiKey` to return `{success, message}`, but it returns nothing; that contract is not modelled.
- `security.test.ts` also tests `encryptApiKey`, `decryptApiKey` and cookie storage, which `security.ts` does not define. Only its rate-limit cases are modelled.
