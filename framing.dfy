/**
 * The byte layout of a stored ciphertext: the 12-byte AES-GCM initialisation
 * vector followed by the AES-GCM output (ciphertext and tag).
 * encryptMessage builds it by copying into a fresh Uint8Array;
 * decryptMessage splits it again with two slices.
 */
module Framing {
  newtype byte = x: int | 0 <= x < 256

  /** Length of the IV drawn by `crypto.getRandomValues(new Uint8Array(12))`. */
  const IvLength: nat := 12

  type Iv = s: seq<byte> | |s| == IvLength witness seq(IvLength, _ => 0)

  /**
   * `combined.set(iv); combined.set(encryptedArray, iv.length)`: two copies
   * into a new array of length `iv.length + encryptedArray.length`.
   */
  method Combine(iv: Iv, encrypted: seq<byte>) returns (combined: array<byte>)
    ensures combined[..] == iv + encrypted
  {
    combined := new byte[|iv| + |encrypted|];
    var i := 0;
    while i < |iv|
      invariant 0 <= i <= |iv|
      invariant forall k :: 0 <= k < i ==> combined[k] == iv[k]
    {
      combined[i] := iv[i];
      i := i + 1;
    }
    var j := 0;
    while j < |encrypted|
      invariant 0 <= j <= |encrypted|
      invariant forall k :: 0 <= k < |iv| ==> combined[k] == iv[k]
      invariant forall k :: 0 <= k < j ==> combined[|iv| + k] == encrypted[k]
    {
      combined[|iv| + j] := encrypted[j];
      j := j + 1;
    }
    assert combined[..] == iv + encrypted;
  }

  /**
   * `encryptedArray.slice(0, 12)` and `encryptedArray.slice(12)`: slices clamp
   * to the array, so an input shorter than 12 bytes yields a short IV and an
   * empty body rather than an error.
   */
  function Split(data: seq<byte>): (r: (seq<byte>, seq<byte>))
    ensures r.0 + r.1 == data
    ensures |r.0| <= IvLength
    ensures |r.0| == IvLength || r.1 == []
  {
    if |data| < IvLength then (data, []) else (data[..IvLength], data[IvLength..])
  }

  /** Splitting what Combine lays out gives back the IV and the AES-GCM output. */
  lemma SplitCombined(iv: Iv, encrypted: seq<byte>)
    ensures Split(iv + encrypted) == (iv, encrypted)
  {
  }
}
