/**
 * The key-expiry subscription: when a cache key expires, a key in the
 * `news` namespace triggers a rebuild of the feed of the user named by the
 * key's second `:`-separated segment.
 */
module Expiry {
  import opened Wrappers
  import opened Strings
  import opened Assembly
  import opened News

  /** What the subscriber does for one expired key. */
  datatype Reaction = Ignore | Rebuild(userId: Option<string>)

  /** `key.split(":")[1]`, undefined when the key has no `:`. */
  function SecondSegment(key: string): (r: Option<string>)
    ensures r.None? <==> ':' !in key
    ensures r.Some? ==> ':' !in r.value
  {
    var parts := Split(key, ':');
    SplitPieces(key, ':');
    CountCharZero(key, ':');
    if |parts| >= 2 then Some(parts[1]) else None
  }

  /** The decision of the expiry callback: keys that do not start with `news` are ignored. */
  function OnKeyExpired(expiredKey: string): (r: Reaction)
    ensures r.Ignore? <==> !("news" <= expiredKey)
  {
    if "news" <= expiredKey then Rebuild(SecondSegment(expiredKey)) else Ignore
  }

  /**
   * A key that starts with `news`, whose first segment `p` and second
   * segment `u` hold no `:`, rebuilds the feed of `u`, whatever segments
   * follow; the prefix is only `news`, so `newsX:7` rebuilds user `7`.
   */
  lemma ExpiredKeyUser(p: string, u: string, more: string)
    requires "news" <= p && ':' !in p && ':' !in u
    requires more == [] || more[0] == ':'
    ensures OnKeyExpired(p + [':'] + u + more) == Rebuild(Some(u))
  {
    var key := p + [':'] + u + more;
    assert key == p + [':'] + (u + more);
    assert key[..|p|] == p;
    SplitAfterFirst(p, ':', u + more);
    if more == [] {
      assert u + more == u;
      SplitNoSep(u, ':');
    } else {
      assert u + more == u + [':'] + more[1..];
      SplitAfterFirst(u, ':', more[1..]);
    }
  }

  /** A `news` key without any `:` still triggers a rebuild, for an undefined user. */
  lemma ExpiredKeyWithoutUser(expiredKey: string)
    requires "news" <= expiredKey && ':' !in expiredKey
    ensures OnKeyExpired(expiredKey) == Rebuild(None)
  {
    SplitNoSep(expiredKey, ':');
  }

  /**
   * The expiry of a feed key rebuilds the feed of the user it was written
   * for (a user id without `:`); the key of an undefined user rebuilds the
   * user named `undefined`.
   */
  lemma NewsKeyRoundTrip(u: string)
    requires ':' !in u
    ensures OnKeyExpired(NewsKey(Some(u))) == Rebuild(Some(u))
    ensures OnKeyExpired(NewsKey(None)) == Rebuild(Some("undefined"))
  {
    assert NewsKey(Some(u)) == "news" + [':'] + u + [];
    ExpiredKeyUser("news", u, []);
    assert NewsKey(None) == "news" + [':'] + "undefined" + [];
    ExpiredKeyUser("news", "undefined", []);
  }

  /** The subscriber: ignores the key, or rebuilds (and re-caches) the user's feed. */
  method HandleExpiredKey(svc: NewsService, expiredKey: string)
    modifies svc
    ensures OnKeyExpired(expiredKey).Ignore? ==>
      svc.store == old(svc.store) && svc.calls == old(svc.calls) && svc.idsIssued == old(svc.idsIssued)
    ensures OnKeyExpired(expiredKey).Rebuild? ==>
      var u := OnKeyExpired(expiredKey).userId;
      var o := old(svc.Assembly(u));
      && svc.calls == old(svc.calls) + o.calls && svc.idsIssued == o.ids
      && svc.store == if o.Assembled? then old(svc.store)[NewsKey(u) := CacheEntry(o.feed, svc.cacheWindow)] else old(svc.store)
  {
    match OnKeyExpired(expiredKey)
    case Ignore =>
    case Rebuild(userId) =>
      svc.UpdateNewsCache(userId);
  }
}
