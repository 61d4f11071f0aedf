/** The signing-key cache of `auth/service.py`: one fetch of the provider's keys, reused until it expires. */
module SigningKeys {
  import opened Wrappers

  datatype Jwk = Jwk(kid: Option<string>, kty: Option<string>, use: Option<string>, alg: Option<string>,
                     material: string, readable: bool)

  type Keys = map<string, Jwk>

  /** The two HTTP answers of a refresh. */
  datatype Discovery = NoDiscovery | Document(issuer: string, scheme: string, host: string)

  datatype KeySet = NoKeySet | Listed(items: seq<Jwk>)

  datatype Fetch = Fetched(keys: Keys) | Unavailable | Unreadable

  predicate ForSigning(item: Jwk) {
    && item.kty == Some("RSA") && item.use == Some("sig")
    && (item.alg == None || item.alg == Some("RS256"))
    && item.kid.Some?
  }

  /** The dictionary built from the listed keys: a later key replaces an earlier one with the same ID. */
  function Select(items: seq<Jwk>): Keys {
    if items == [] then map[]
    else
      var earlier := Select(items[..|items| - 1]);
      var last := items[|items| - 1];
      if ForSigning(last) then earlier[last.kid.value := last] else earlier
  }

  const TRUSTED_HOST := "login.microsoftonline.com"

  predicate Trusted(issuer: string, d: Discovery) {
    d.Document? && d.issuer == issuer && d.scheme == "https" && d.host == TRUSTED_HOST
  }

  /** What a refresh makes of the two answers. */
  function Refresh(issuer: string, d: Discovery, k: KeySet): Fetch {
    if !Trusted(issuer, d) || k.NoKeySet? then Unavailable
    else if exists item :: item in k.items && ForSigning(item) && !item.readable then Unreadable
    else if Select(k.items) == map[] then Unavailable
    else Fetched(Select(k.items))
  }

  /** `key` is the last signing key listed under this ID. */
  predicate LastListed(items: seq<Jwk>, kid: string, key: Jwk) {
    exists i ::
      && 0 <= i < |items| && items[i] == key && ForSigning(key) && key.kid == Some(kid)
      && forall j :: i < j < |items| && ForSigning(items[j]) ==> items[j].kid != Some(kid)
  }

  /** The dictionary holds exactly the last signing key listed under each ID. */
  lemma {:induction false} SelectIsLastListed(items: seq<Jwk>, kid: string)
    ensures kid in Select(items) <==> exists i :: 0 <= i < |items| && ForSigning(items[i]) && items[i].kid == Some(kid)
    ensures kid in Select(items) ==> LastListed(items, kid, Select(items)[kid])
  {
    if items != [] {
      var n := |items| - 1;
      var front := items[..n];
      SelectIsLastListed(front, kid);
      assert forall i :: 0 <= i < n ==> front[i] == items[i];
      if kid in Select(items) {
        if ForSigning(items[n]) && items[n].kid == Some(kid) {
          assert Select(items)[kid] == items[n];
        } else {
          ListedEarlier(items, kid, Select(front)[kid]);
        }
      }
    }
  }

  lemma ListedEarlier(items: seq<Jwk>, kid: string, key: Jwk)
    requires items != [] && LastListed(items[..|items| - 1], kid, key)
    requires !(ForSigning(items[|items| - 1]) && items[|items| - 1].kid == Some(kid))
    ensures LastListed(items, kid, key)
  {
    var front := items[..|items| - 1];
    var i :| && 0 <= i < |front| && front[i] == key && ForSigning(key) && key.kid == Some(kid)
      && forall j :: i < j < |front| && ForSigning(front[j]) ==> front[j].kid != Some(kid);
    assert items[i] == key;
    forall j | i < j < |items| && ForSigning(items[j])
      ensures items[j].kid != Some(kid)
    {
      if j < |front| { assert items[j] == front[j]; }
    }
  }

  /** A refresh succeeds only after a trusted discovery, and then gives the last listed keys, at least one. */
  lemma RefreshIsTrusted(issuer: string, d: Discovery, k: KeySet, kid: string)
    requires Refresh(issuer, d, k).Fetched?
    ensures Trusted(issuer, d) && k.Listed? && exists item :: item in k.items && ForSigning(item)
    ensures kid in Refresh(issuer, d, k).keys ==> LastListed(k.items, kid, Refresh(issuer, d, k).keys[kid])
    ensures kid !in Refresh(issuer, d, k).keys ==>
      forall item :: item in k.items && ForSigning(item) ==> item.kid != Some(kid)
  {
    SelectIsLastListed(k.items, kid);
    var other :| other in Select(k.items);
    SelectIsLastListed(k.items, other);
  }

  /** A listed key counts: an RSA signing key with an ID, for RS256 or for no stated algorithm. */
  predicate Counts(item: Jwk) {
    item.kty == Some("RSA") && item.use == Some("sig") && item.kid.Some? && (item.alg.None? || item.alg == Some("RS256"))
  }

  /** Position i lists the key that counts for this ID: the last one. */
  predicate CountsFor(items: seq<Jwk>, kid: string, i: int) {
    && 0 <= i < |items| && Counts(items[i]) && items[i].kid == Some(kid)
    && forall j :: i < j < |items| && Counts(items[j]) ==> items[j].kid != Some(kid)
  }

  /** A refresh as a whole, from the two answers of the provider. */
  lemma RefreshExactly(issuer: string, d: Discovery, k: KeySet, kid: string)
    ensures
      var fetch := Refresh(issuer, d, k);
      if d != Document(issuer, "https", "login.microsoftonline.com") || k.NoKeySet? then fetch == Unavailable
      else if exists item :: item in k.items && Counts(item) && !item.readable then fetch == Unreadable
      else if forall item :: item in k.items ==> !Counts(item) then fetch == Unavailable
      else
        && fetch.Fetched?
        && (kid in fetch.keys <==> exists i :: CountsFor(k.items, kid, i))
        && forall i :: CountsFor(k.items, kid, i) ==> kid in fetch.keys && fetch.keys[kid] == k.items[i]
  {
    if k.Listed? {
      assert forall item :: Counts(item) <==> ForSigning(item);
      SelectCounts(k.items, kid);
      if item :| item in k.items && Counts(item) {
        SelectIsLastListed(k.items, item.kid.value);
        var i :| 0 <= i < |k.items| && k.items[i] == item;
        assert item.kid.value in Select(k.items);
      } else if Select(k.items) != map[] {
        var other :| other in Select(k.items);
        SelectIsLastListed(k.items, other);
      }
    }
  }

  lemma SelectCounts(items: seq<Jwk>, kid: string)
    ensures kid in Select(items) <==> exists i :: CountsFor(items, kid, i)
    ensures forall i :: CountsFor(items, kid, i) ==> kid in Select(items) && Select(items)[kid] == items[i]
  {
    SelectIsLastListed(items, kid);
    if kid in Select(items) {
      var key := Select(items)[kid];
      var i :| && 0 <= i < |items| && items[i] == key && ForSigning(key) && key.kid == Some(kid)
        && forall j :: i < j < |items| && ForSigning(items[j]) ==> items[j].kid != Some(kid);
      assert CountsFor(items, kid, i);
    }
  }

  datatype Answer = Key(key: Jwk) | InvalidToken | ProviderUnavailable | Crash | Cancelled

  function LookUp(keys: Keys, kid: string): Answer {
    if kid in keys then Key(keys[kid]) else InvalidToken
  }

  function Failure(f: Fetch): Answer {
    if f.Unavailable? then ProviderUnavailable else Crash
  }

  datatype Cache = Cache(keys: Keys, expiresAt: real)

  predicate Current(c: Cache, now: real) {
    now < c.expiresAt
  }

  /** The cached answer `_get_key` gives without waiting for anything. */
  predicate Hit(c: Cache, kid: string, now: real) {
    Current(c, now) && kid in c.keys
  }

  /** Whether the holder of the lock can return without a fetch. */
  predicate Reusable(c: Cache, force: bool, now: real) {
    !force && Current(c, now) && c.keys != map[]
  }

  /**
    Clock readings at entry, with the lock and after the fetch; the cache the lock was obtained with; the two
    answers of the provider.
  */
  datatype Waits = Waits(
    entered: real, locked: real, cacheLocked: Cache, discovery: Discovery, keySet: KeySet, arrived: real)

  function Call(issuer: string, c: Cache, kid: string, ttl: real, w: Waits): (Answer, Cache) {
    if Hit(c, kid, w.entered) then (Key(c.keys[kid]), c)
    else if Reusable(w.cacheLocked, Current(c, w.entered), w.locked) then (LookUp(w.cacheLocked.keys, kid), w.cacheLocked)
    else
      var fetch := Refresh(issuer, w.discovery, w.keySet);
      if fetch.Fetched? then (LookUp(fetch.keys, kid), Cache(fetch.keys, w.arrived + ttl))
      else (Failure(fetch), w.cacheLocked)
  }

  /** One lookup, case by case. */
  lemma CallExactly(issuer: string, c: Cache, kid: string, ttl: real, w: Waits)
    ensures
      var (answer, after) := Call(issuer, c, kid, ttl, w);
      if w.entered < c.expiresAt && kid in c.keys then answer == Key(c.keys[kid]) && after == c
      else if c.expiresAt <= w.entered && w.locked < w.cacheLocked.expiresAt && w.cacheLocked.keys != map[] then
        && after == w.cacheLocked
        && answer == if kid in w.cacheLocked.keys then Key(w.cacheLocked.keys[kid]) else InvalidToken
      else
        match Refresh(issuer, w.discovery, w.keySet)
        case Fetched(keys) =>
          && after == Cache(keys, w.arrived + ttl)
          && answer == if kid in keys then Key(keys[kid]) else InvalidToken
        case Unavailable => after == w.cacheLocked && answer == ProviderUnavailable
        case Unreadable => after == w.cacheLocked && answer == Crash
  {
  }

  class EntraTokenValidator {
    const ttl: real
    const issuer: string
    var keys: Keys
    var expiresAt: real

    constructor (issuer: string, ttl: real)
      ensures this.issuer == issuer && this.ttl == ttl && keys == map[] && expiresAt == 0.0
    {
      this.issuer := issuer;
      this.ttl := ttl;
      keys := map[];
      expiresAt := 0.0;
    }

    /** The checks and the dictionary of a refresh. */
    method FetchKeys(discovery: Discovery, keySet: KeySet) returns (fetch: Fetch)
      ensures fetch == Refresh(issuer, discovery, keySet)
    {
      if discovery.NoDiscovery? || discovery.issuer != issuer {
        return Unavailable;
      }
      if discovery.scheme != "https" || discovery.host != TRUSTED_HOST {
        return Unavailable;
      }
      if keySet.NoKeySet? {
        return Unavailable;
      }
      var items := keySet.items;
      var fetched: Keys := map[];
      for i := 0 to |items|
        invariant fetched == Select(items[..i])
        invariant forall k :: 0 <= k < i && ForSigning(items[k]) ==> items[k].readable
      {
        var item := items[i];
        assert items[..i + 1][..i] == items[..i];
        if ForSigning(item) {
          if !item.readable {
            assert item in items;
            return Unreadable;
          }
          fetched := fetched[item.kid.value := item];
        }
      }
      assert items[..|items|] == items;
      if fetched == map[] {
        return Unavailable;
      }
      return Fetched(fetched);
    }

    /** Returns the error to raise, if any. */
    method RefreshKeys(force: bool, w: Waits) returns (failure: Option<Answer>)
      modifies this
      ensures
        var fetch := Refresh(issuer, w.discovery, w.keySet);
        if Reusable(w.cacheLocked, force, w.locked) then failure == None && Cache(keys, expiresAt) == w.cacheLocked
        else if fetch.Fetched? then failure == None && Cache(keys, expiresAt) == Cache(fetch.keys, w.arrived + ttl)
        else failure == Some(Failure(fetch)) && Cache(keys, expiresAt) == w.cacheLocked
    {
      // Waiting for the lock: another task may have refreshed the cache.
      keys, expiresAt := w.cacheLocked.keys, w.cacheLocked.expiresAt;
      if !force && w.locked < expiresAt && keys != map[] {
        return None;
      }
      var fetch := FetchKeys(w.discovery, w.keySet);
      if !fetch.Fetched? {
        return Some(Failure(fetch));
      }
      keys := fetch.keys;
      expiresAt := w.arrived + ttl;
      return None;
    }

    method GetKey(kid: string, w: Waits) returns (answer: Answer)
      modifies this
      ensures (answer, Cache(keys, expiresAt)) == Call(issuer, old(Cache(keys, expiresAt)), kid, ttl, w)
    {
      var expired := w.entered >= expiresAt;
      if expired || kid !in keys {
        var failure := RefreshKeys(!expired && kid !in keys, w);
        if failure.Some? {
          return failure.value;
        }
      }
      if kid !in keys {
        return InvalidToken;
      }
      return Key(keys[kid]);
    }
  }
}
