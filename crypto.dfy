/**
 * generateSecretKey, encryptMessage and decryptMessage. The browser's
 * primitives (AES-GCM through `crypto.subtle`, `btoa`/`atob` with the
 * byte-to-character conversions, TextEncoder/TextDecoder) are not written out
 * here: they are passed in as the values of an `Aead` and a `Codec`, and the
 * round trips the rest of the model relies on are stated as predicates over
 * those values. Random bytes are passed in as well.
 */
module Crypto {
  import opened Wrappers
  import opened Framing

  /** Length of a raw 256-bit AES-GCM key as `exportKey('raw', ...)` returns it. */
  const KeyLength: nat := 32

  type RawKey = s: seq<byte> | |s| == KeyLength witness seq(KeyLength, _ => 0)

  /**
   * `btoa(String.fromCharCode(...bytes))` and
   * `Uint8Array.from(atob(text), c => c.charCodeAt(0))`; `atob` throws
   * (`None`) on text that is not base64.
   */
  datatype Codec = Codec(encode: seq<byte> -> string, decode: string -> Option<seq<byte>>)

  /**
   * AES-GCM encryption of the UTF-8 encoding of a message under a raw key and
   * an IV, and decryption back to text; either may throw (`None`), decryption
   * in particular when the tag does not authenticate.
   */
  datatype Aead = Aead(
    seal: (seq<byte>, seq<byte>, string) -> Option<seq<byte>>,
    open: (seq<byte>, seq<byte>, seq<byte>) -> Option<string>)

  /** Base64 decoding inverts encoding, and only the empty byte string encodes to "". */
  ghost predicate CodecRoundTrips(codec: Codec) {
    forall b :: codec.decode(codec.encode(b)) == Some(b) && (b != [] ==> codec.encode(b) != [])
  }

  /** Whatever AES-GCM produced under a key and an IV opens again to the same message. */
  ghost predicate AeadRoundTrips(aead: Aead) {
    forall key, iv, message :: aead.seal(key, iv, message).Some? ==>
      aead.open(key, iv, aead.seal(key, iv, message).value) == Some(message)
  }

  /** generateSecretKey: the freshly generated raw key, exported as base64 text. */
  function GenerateSecretKey(codec: Codec, raw: RawKey): (secretKey: string)
    ensures CodecRoundTrips(codec) ==> secretKey != [] && codec.decode(secretKey) == Some(raw)
  {
    codec.encode(raw)
  }

  /**
   * What encryptMessage returns: the key text is decoded and imported, the
   * message sealed under it with `iv`, and `iv ‖ output` encoded as base64.
   */
  function Encrypt(aead: Aead, codec: Codec, message: string, secretKey: string, iv: Iv): (r: Option<string>)
    ensures r.Some? <==> codec.decode(secretKey).Some? && aead.seal(codec.decode(secretKey).value, iv, message).Some?
    ensures r.Some? && CodecRoundTrips(codec) ==>
      codec.decode(r.value).Some? && Split(codec.decode(r.value).value)
        == (iv, aead.seal(codec.decode(secretKey).value, iv, message).value)
  {
    match codec.decode(secretKey)
    case None => None
    case Some(key) =>
      match aead.seal(key, iv, message)
      case None => None
      case Some(encrypted) =>
        SplitCombined(iv, encrypted);
        Some(codec.encode(iv + encrypted))
  }

  /** encryptMessage, building the framed bytes by copying as the source does. */
  method EncryptMessage(aead: Aead, codec: Codec, message: string, secretKey: string, iv: Iv)
    returns (r: Option<string>)
    ensures r == Encrypt(aead, codec, message, secretKey, iv)
  {
    var key := codec.decode(secretKey);
    if key.None? {
      return None;
    }
    var encrypted := aead.seal(key.value, iv, message);
    if encrypted.None? {
      return None;
    }
    var combined := Combine(iv, encrypted.value);
    r := Some(codec.encode(combined[..]));
  }

  /**
   * decryptMessage: decode and import the key, decode the stored text, split
   * off the IV and open the rest. Any failure along the way is `None`.
   */
  function DecryptMessage(aead: Aead, codec: Codec, encryptedData: string, secretKey: string): (r: Option<string>)
    ensures r.Some? ==> codec.decode(secretKey).Some? && codec.decode(encryptedData).Some?
    ensures codec.decode(secretKey).Some? && codec.decode(encryptedData).Some? ==>
      var data := codec.decode(encryptedData).value;
      var n := if |data| < IvLength then |data| else IvLength;
      r == aead.open(codec.decode(secretKey).value, data[..n], data[n..])
  {
    match codec.decode(secretKey)
    case None => None
    case Some(key) =>
      match codec.decode(encryptedData)
      case None => None
      case Some(data) => aead.open(key, Split(data).0, Split(data).1)
  }

  /**
   * With well-behaved primitives, encryption under a generated key fails only
   * when AES-GCM itself fails, never yields empty text, and decrypting its
   * output with the same key text gives back the message.
   */
  lemma DecryptEncrypted(aead: Aead, codec: Codec, message: string, raw: RawKey, iv: Iv)
    requires CodecRoundTrips(codec) && AeadRoundTrips(aead)
    ensures Encrypt(aead, codec, message, GenerateSecretKey(codec, raw), iv).Some?
        <==> aead.seal(raw, iv, message).Some?
    ensures Encrypt(aead, codec, message, GenerateSecretKey(codec, raw), iv).Some? ==>
      var stored := Encrypt(aead, codec, message, GenerateSecretKey(codec, raw), iv).value;
      stored != [] && DecryptMessage(aead, codec, stored, GenerateSecretKey(codec, raw)) == Some(message)
  {
  }
}
