/** The cache service: a key/value store of serialized reports reached through an optional
    client, with report-key construction and per-user prefix invalidation. */
module Cache {
  import opened Wrappers
  import opened Text

  /** The `client` attribute: absent, or a client whose server answers or does not. A client
      whose server does not answer makes every call raise, and the service swallows it. */
  datatype ClientState = NoClient | Client(reachable: bool)

  /** A stored value with the time-to-live it was written with (expiry is not modelled). */
  datatype Entry<V> = Entry(value: V, ttl: int)

  datatype ConnectError = ConnectionFailed

  /** `get_report_cache_key`: `report:{user}:{start}:{end}`. */
  function ReportCacheKey(userId: string, startDate: string, endDate: string): (key: string)
    ensures StartsWith(key, InvalidationPrefix(userId))
    ensures |key| == |userId| + |startDate| + |endDate| + 9
    ensures key[|key| - |endDate|..] == endDate
  {
    var key := "report:" + userId + ":" + startDate + ":" + endDate;
    assert key[..|InvalidationPrefix(userId)|] == InvalidationPrefix(userId);
    key
  }

  /** The literal part of the pattern `report:{user}:*` that `invalidate_user_reports` deletes by. */
  function InvalidationPrefix(userId: string): string {
    "report:" + userId + ":"
  }

  /** The keys a `prefix*` pattern matches. */
  function MatchingKeys<V>(entries: map<string, Entry<V>>, prefix: string): set<string> {
    set k | k in entries && StartsWith(k, prefix)
  }

  /** `ttl or self.ttl`: the argument unless it is absent or zero. */
  function EffectiveTtl(ttl: Option<int>, default: int): int {
    if ttl.Some? && ttl.value != 0 then ttl.value else default
  }

  /** Keys built from dates of fixed-width text identify user, start and end. */
  lemma ReportCacheKeyInjective(u: string, s: string, e: string, u': string, s': string, e': string)
    requires |s| == |s'| && |e| == |e'|
    requires ReportCacheKey(u, s, e) == ReportCacheKey(u', s', e')
    ensures u == u' && s == s' && e == e'
  {
    var k := ReportCacheKey(u, s, e);
    assert |u| == |u'|;
    assert k == "report:" + u + ":" + s + ":" + e;
    assert k == "report:" + u' + ":" + s' + ":" + e';
    assert u == k[7..7 + |u|] == u';
    assert s == k[8 + |u|..8 + |u| + |s|] == s';
    assert e == k[9 + |u| + |s|..] == e';
  }

  /** For user identifiers without ':', one user's invalidation prefix never matches another
      user's report keys. */
  lemma PrefixSeparatesUsers(u: string, other: string, s: string, e: string)
    requires ':' !in u && ':' !in other && u != other
    ensures !StartsWith(ReportCacheKey(other, s, e), InvalidationPrefix(u))
  {
    var k := ReportCacheKey(other, s, e);
    var p := InvalidationPrefix(u);
    assert k == "report:" + other + ":" + s + ":" + e;
    if |u| < |other| {
      assert other[|u|] in other;
      assert k[7 + |u|] != p[7 + |u|];
    } else if |u| > |other| {
      assert u[|other|] in u;
      assert k[7 + |other|] != p[7 + |other|];
    } else {
      var i :| 0 <= i < |u| && u[i] != other[i];
      assert k[7 + i] != p[7 + i];
    }
  }

  /** Without ':' in either identifier, a user's prefix matches a key built for a user exactly
      when the two identifiers are equal. */
  lemma PrefixMatchesOnlyOwnKeys(u: string, other: string, s: string, e: string)
    requires ':' !in u && ':' !in other
    ensures StartsWith(ReportCacheKey(other, s, e), InvalidationPrefix(u)) <==> u == other
  {
    if u != other {
      PrefixSeparatesUsers(u, other, s, e);
    }
  }

  class CacheService<V> {
    var client: ClientState
    /** The server's key space. */
    var entries: map<string, Entry<V>>
    /** The default time-to-live, in seconds. */
    const defaultTtl: int

    /** `CacheService(ttl=...)`: no client yet; `server` is what the server already holds. */
    constructor (ttl: Option<int>, configTtl: int, server: map<string, Entry<V>>)
      ensures client == NoClient && entries == server
      ensures defaultTtl == EffectiveTtl(ttl, configTtl)
    {
      client := NoClient;
      entries := server;
      defaultTtl := EffectiveTtl(ttl, configTtl);
    }

    /** The client exists and its server answers. */
    predicate Live()
      reads this
    {
      client.Client? && client.reachable
    }

    /** `connect`: the client is assigned before it is pinged, so it stays set even when the
        ping fails and the call raises. */
    method Connect(reachable: bool) returns (r: Result<(), ConnectError>)
      modifies this`client
      ensures client == Client(reachable)
      ensures r.Ok? <==> reachable
    {
      client := Client(reachable);
      if reachable {
        r := Ok(());
      } else {
        r := Err(ConnectionFailed);
      }
    }

    /** `disconnect`: closes and drops any client. */
    method Disconnect()
      modifies this`client
      ensures client == NoClient
    {
      if client != NoClient {
        client := NoClient;
      }
    }

    /** `get`: the stored value, or `None` when the key is absent, there is no client, or the server fails. */
    method Get(key: string) returns (r: Option<V>)
      ensures r.Some? <==> Live() && key in entries
      ensures r.Some? ==> r.value == entries[key].value
    {
      if client == NoClient {
        return None;
      }
      if !client.reachable {
        return None;
      }
      if key in entries {
        r := Some(entries[key].value);
      } else {
        r := None;
      }
    }

    /** `set`: stores `value` under `key` with the argument's TTL, or the default one, and
        reports success; the server refuses a TTL that is not positive. */
    method Set(key: string, value: V, ttl: Option<int>) returns (ok: bool)
      modifies this`entries
      ensures ok <==> Live() && EffectiveTtl(ttl, defaultTtl) > 0
      ensures ok ==> entries == old(entries)[key := Entry(value, EffectiveTtl(ttl, defaultTtl))]
      ensures !ok ==> entries == old(entries)
    {
      if client == NoClient {
        return false;
      }
      var effective := EffectiveTtl(ttl, defaultTtl);
      if !client.reachable || effective <= 0 {
        return false;
      }
      entries := entries[key := Entry(value, effective)];
      ok := true;
    }

    /** `delete`: removes `key`, succeeding whether or not it was present. */
    method Delete(key: string) returns (ok: bool)
      modifies this`entries
      ensures ok <==> Live()
      ensures ok ==> entries == old(entries) - {key} && key !in entries
      ensures !ok ==> entries == old(entries)
    {
      if client == NoClient {
        return false;
      }
      if !client.reachable {
        return false;
      }
      entries := entries - {key};
      ok := true;
    }

    /** `delete_pattern(prefix + "*")`: removes every key beginning with `prefix` and returns
        how many there were; 0 without a live client. */
    method DeletePattern(prefix: string) returns (n: nat)
      modifies this`entries
      ensures Live() ==> n == |MatchingKeys(old(entries), prefix)|
      ensures Live() ==> entries == old(entries) - MatchingKeys(old(entries), prefix)
      ensures Live() ==> forall k :: k in entries ==> !StartsWith(k, prefix)
      ensures !Live() ==> n == 0 && entries == old(entries)
    {
      if client == NoClient {
        return 0;
      }
      if !client.reachable {
        return 0;
      }
      var matched := MatchingKeys(entries, prefix);
      entries := entries - matched;
      n := |matched|;
    }

    /** `invalidate_user_reports`: deletes every report key of `userId`, whatever its window. */
    method InvalidateUserReports(userId: string) returns (n: nat)
      modifies this`entries
      ensures Live() ==> n == |MatchingKeys(old(entries), InvalidationPrefix(userId))|
      ensures Live() ==> entries == old(entries) - MatchingKeys(old(entries), InvalidationPrefix(userId))
      ensures Live() ==> forall s, e :: ReportCacheKey(userId, s, e) !in entries
      ensures !Live() ==> n == 0 && entries == old(entries)
    {
      n := DeletePattern(InvalidationPrefix(userId));
    }
  }

  /** With a live client, a value that was stored is read back; nothing is stored when the
      default time-to-live is not positive. */
  method SetThenGet<V>(cache: CacheService<V>, key: string, value: V) returns (stored: bool, read: Option<V>)
    requires cache.Live()
    modifies cache
    ensures stored <==> cache.defaultTtl > 0
    ensures stored ==> read == Some(value)
    ensures !stored ==> read == (if key in old(cache.entries) then Some(old(cache.entries)[key].value) else None)
  {
    stored := cache.Set(key, value, None);
    read := cache.Get(key);
  }
}
