/** API keys and their verification cache (internal/authn/apikey.go, internal/api/apikeys.go),
    requests one at a time and cache deletions succeeding. */
module ApiKeys {
  import opened Domain
  import opened Authz
  import CachedReads

  const API_KEY_PREFIX: string := "pulse_sk_"

  /** A key row; the row with id i is keys[i]. A key stands for its own hash. */
  datatype KeyRow = KeyRow(org: int, secret: string, role: Role, revoked: bool)

  datatype Principal = Principal(key: int, org: int, role: Role)

  /** A cached descriptor; None is "unknown or revoked". */
  datatype Descriptor = Descriptor(principal: Option<Principal>, expires: Time)

  function Find(keys: seq<KeyRow>, secret: string): (found: Option<int>)
    ensures found.Some? ==> 0 <= found.value < |keys| && keys[found.value].secret == secret
    ensures found.None? ==> forall i :: 0 <= i < |keys| ==> keys[i].secret != secret
  {
    if |keys| == 0 then None
    else if keys[|keys| - 1].secret == secret then Some(|keys| - 1)
    else Find(keys[..|keys| - 1], secret)
  }

  /** What the rows say of a presented key. */
  function Known(keys: seq<KeyRow>, secret: string): Option<Principal> {
    var found := Find(keys, secret);
    if found.None? || keys[found.value].revoked then None
    else Some(Principal(found.value, keys[found.value].org, keys[found.value].role))
  }

  ghost predicate SecretsDistinct(keys: seq<KeyRow>) {
    forall i, j :: 0 <= i < j < |keys| ==> keys[i].secret != keys[j].secret
  }

  /** The keys whose cached answer is not what the rows say. */
  ghost function Disagreeing(cache: map<string, Descriptor>, keys: seq<KeyRow>, now: Time): set<string> {
    set s | s in cache && now < cache[s].expires && cache[s].principal != Known(keys, s)
  }

  /** Changing one row changes what the rows say of its own key only. */
  lemma KnownElsewhere(keys: seq<KeyRow>, i: nat, row: KeyRow, s: string)
    requires SecretsDistinct(keys) && i < |keys| && row.secret == keys[i].secret && s != row.secret
    ensures Known(keys[i := row], s) == Known(keys, s)
  {
    var keys' := keys[i := row];
    var a, b := Find(keys, s), Find(keys', s);
    if a.Some? {
      assert keys'[a.value].secret == s;
    }
    if b.Some? {
      assert keys[b.value].secret == s;
    }
    hide Find;
  }

  lemma KnownNew(keys: seq<KeyRow>, row: KeyRow, s: string)
    requires forall i :: 0 <= i < |keys| ==> keys[i].secret != row.secret
    ensures s != row.secret ==> Known(keys + [row], s) == Known(keys, s)
    ensures s == row.secret ==> Known(keys, s) == None && Known(keys + [row], s) == if row.revoked then None else Some(Principal(|keys|, row.org, row.role))
  {
    assert (keys + [row])[..|keys|] == keys;
  }

  lemma KnownRevoked(keys: seq<KeyRow>, i: nat)
    requires SecretsDistinct(keys) && i < |keys| && keys[i].revoked
    ensures Known(keys, keys[i].secret) == None
  {
    hide Find;
  }

  class KeyServer {
    var keys: seq<KeyRow>
    var cache: map<string, Descriptor>
    var now: Time

    /** The presented keys a request would be misanswered for from the cache. */
    ghost function Stale(): set<string> reads this {
      Disagreeing(cache, keys, now)
    }

    /** A misanswer is always a refusal, and lasts at most the negative time to live. */
    ghost predicate Valid() reads this {
      && SecretsDistinct(keys)
      && (forall s :: s in cache && cache[s].principal.None? ==> cache[s].expires <= now + CachedReads.API_KEY_NEGATIVE_TTL)
      && (forall s :: s in Stale() ==> cache[s].principal.None?)
    }

    constructor (start: Time)
      ensures Valid() && keys == [] && cache == map[] && now == start
    {
      keys, cache, now := [], map[], start;
    }

    /** Time passes: nothing becomes stale, and after 30 seconds nothing is. */
    method Advance(d: nat)
      requires Valid()
      modifies this`now
      ensures Valid() && now == old(now) + d && Stale() <= old(Stale())
      ensures d >= CachedReads.API_KEY_NEGATIVE_TTL ==> Stale() == {}
    {
      hide Known, SecretsDistinct;
      now := now + d;
    }

    /** A presented key resolves to exactly what the rows say of it, cached or not, unless it is
        one of the stale ones, which are refused; a text that is not shaped like a key resolves
        to nothing. An answer from the rows is cached for 5 minutes, a refusal for 30 seconds. */
    method Verify(presented: string, cacheUp: bool) returns (p: Option<Principal>)
      requires Valid()
      modifies this`cache
      ensures Valid() && Stale() <= old(Stale())
      ensures p == if "pulse_sk_" < presented && !(cacheUp && presented in old(Stale()))
                   then Known(keys, presented) else None
      ensures var hit := presented in old(cache) && now < old(cache)[presented].expires;
        cache == if cacheUp && "pulse_sk_" < presented && !hit
                 then old(cache)[presented := Descriptor(p, now + if p.Some? then 300_000_000_000 else 30_000_000_000)]
                 else old(cache)
    {
      hide Known, SecretsDistinct;
      if !(API_KEY_PREFIX <= presented) || |presented| <= |API_KEY_PREFIX| {
        return None;
      }
      if cacheUp && presented in cache && now < cache[presented].expires {
        return cache[presented].principal;
      }
      p := Known(keys, presented);
      if cacheUp {
        cache := cache[presented := Descriptor(p, now + if p.Some? then CachedReads.API_KEY_TTL else CachedReads.API_KEY_NEGATIVE_TTL)];
      }
    }

    /** Minting a key makes it stale exactly when it was probed before and the negative entry
        has not expired: nothing deletes it. No other key is affected. */
    method Create(org: int, secret: string, role: Role) returns (id: int)
      requires Valid() && forall i :: 0 <= i < |keys| ==> keys[i].secret != secret
      modifies this`keys
      ensures Valid() && id == |old(keys)| && keys == old(keys) + [KeyRow(org, secret, role, false)]
      ensures Stale() == old(Stale()) + (if secret in cache && now < cache[secret].expires then {secret} else {})
    {
      id := |keys|;
      var row := KeyRow(org, secret, role, false);
      forall s | s in cache ensures s != secret ==> Known(keys + [row], s) == Known(keys, s) {
        KnownNew(keys, row, s);
      }
      KnownNew(keys, row, secret);
      hide Known;
      keys := keys + [row];
    }

    method InvalidateApiKey(secret: string)
      modifies this`cache
      ensures cache == old(cache) - {secret}
    {
      cache := cache - {secret};
    }

    /** Revoking stamps the row, then drops its cache entry, so the very next request with the
        key is refused; a key of another org is not found. */
    method Revoke(org: int, id: int) returns (found: bool)
      requires Valid()
      modifies this`keys, this`cache
      ensures Valid() && found == (0 <= id < |old(keys)| && old(keys)[id].org == org)
      ensures keys == if found then old(keys)[id := old(keys)[id].(revoked := true)] else old(keys)
      ensures found ==> Known(keys, old(keys)[id].secret) == None && Stale() == old(Stale()) - {old(keys)[id].secret}
      ensures !found ==> Stale() == old(Stale())
    {
      if id < 0 || |keys| <= id || keys[id].org != org {
        return false;
      }
      var row := keys[id].(revoked := true);
      forall s | s != row.secret ensures Known(keys[id := row], s) == Known(keys, s) {
        KnownElsewhere(keys, id, row, s);
      }
      keys := keys[id := row];
      KnownRevoked(keys, id);
      hide Known;
      InvalidateApiKey(row.secret);
      found := true;
    }
  }
}
