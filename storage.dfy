/**
 * The `sessionStorage` entries of one provider: `{provider}_api_key` (the
 * encrypted credential), `{provider}_secret_key` (the key that encrypted it)
 * and `{provider}_expiry` (the deadline in epoch milliseconds, as text).
 */
module SessionKeys {
  import opened Wrappers

  type Storage = map<string, string>

  datatype Field = ApiKey | SecretKey | Expiry

  function Suffix(f: Field): string {
    match f
    case ApiKey => "_api_key"
    case SecretKey => "_secret_key"
    case Expiry => "_expiry"
  }

  /** The storage key `${provider}_api_key` and its two siblings. */
  function ItemKey(provider: string, f: Field): string {
    provider + Suffix(f)
  }

  /**
   * Different providers or different fields never share a storage key, so
   * the entries of one provider cannot overwrite another's.
   */
  lemma ItemKeyInjective(p: string, f: Field, q: string, g: Field)
    requires ItemKey(p, f) == ItemKey(q, g)
    ensures p == q && f == g
  {
    var s := ItemKey(p, f);
    // The three suffixes differ in their second-last or fifth-last character.
    assert s[|s| - 2] == Suffix(f)[|Suffix(f)| - 2] == Suffix(g)[|Suffix(g)| - 2];
    assert s[|s| - 5] == Suffix(f)[|Suffix(f)| - 5] == Suffix(g)[|Suffix(g)| - 5];
    assert p == s[..|s| - |Suffix(f)|];
  }

  function Keys(provider: string): set<string> {
    {ItemKey(provider, ApiKey), ItemKey(provider, SecretKey), ItemKey(provider, Expiry)}
  }

  /** `sessionStorage.getItem(key)`; `null` is `None`. */
  function GetItem(s: Storage, key: string): (r: Option<string>)
    ensures r.Some? <==> key in s
    ensures r.Some? ==> r.value == s[key]
  {
    if key in s then Some(s[key]) else None
  }

  /**
   * The storage after the three `removeItem` calls of removeSecureApiKey:
   * the provider's three entries are gone, every other entry is as it was.
   */
  function Without(s: Storage, provider: string): (r: Storage)
    ensures forall f :: ItemKey(provider, f) !in r
    ensures forall key :: key !in Keys(provider) ==> GetItem(r, key) == GetItem(s, key)
  {
    s - Keys(provider)
  }

  /** Removing twice leaves what removing once left. */
  lemma WithoutIdempotent(s: Storage, provider: string)
    ensures Without(Without(s, provider), provider) == Without(s, provider)
  {
  }

  /** Removing one provider's entries leaves every entry of another provider. */
  lemma WithoutIsolated(s: Storage, p: string, q: string, f: Field)
    requires p != q
    ensures GetItem(Without(s, p), ItemKey(q, f)) == GetItem(s, ItemKey(q, f))
  {
    forall g | ItemKey(q, f) == ItemKey(p, g)
      ensures false
    {
      ItemKeyInjective(q, f, p, g);
    }
  }
}
