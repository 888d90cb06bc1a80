/**
 * The news service: the per-user feed cache (a Redis keyspace), feed
 * assembly from the user's preferences, the two feed filters, and the
 * in-place read/favorite update of a cached feed.
 */
module News {
  import opened Wrappers
  import opened Errors
  import opened Feeds
  import opened ArticleState
  import opened Filters
  import opened Assembly
  import opened AssemblyFacts

  /** `news:${userId}`; an absent user id prints as `undefined`. */
  function NewsKey(userId: Option<string>): (key: string)
    ensures "news:" <= key
    ensures userId.Some? ==> key[5..] == userId.value
  {
    "news:" + match userId case None => "undefined" case Some(u) => u
  }

  /** What one cache key holds: the feed (its JSON text, parsed back) and the expiry it was written with. */
  datatype CacheEntry = CacheEntry(feed: Feed, ttl: nat)

  /** `getCachedNewsByUserId` over a keyspace: the stored feed, or none on a miss. */
  function CachedIn(store: map<string, CacheEntry>, userId: Option<string>): Option<Feed> {
    if NewsKey(userId) in store then Some(store[NewsKey(userId)].feed) else None
  }

  /** Two user ids share a cache key exactly when they are equal, or one is absent and the other is the text `undefined`. */
  lemma NewsKeyShared(u: Option<string>, v: Option<string>)
    ensures NewsKey(u) == NewsKey(v) <==> u == v || {u, v} == {None, Some("undefined")}
  {
    var tu := match u case None => "undefined" case Some(x) => x;
    var tv := match v case None => "undefined" case Some(x) => x;
    if NewsKey(u) == NewsKey(v) {
      assert tu == NewsKey(u)[5..] && tv == NewsKey(v)[5..];
    }
  }

  /** Reading a user's feed after writing it gives the written feed; other users' keys are untouched. */
  lemma CachedAfterWrite(store: map<string, CacheEntry>, u: Option<string>, v: Option<string>, news: Feed, ttl: nat)
    ensures CachedIn(store[NewsKey(u) := CacheEntry(news, ttl)], u) == Some(news)
    ensures NewsKey(v) != NewsKey(u) ==> CachedIn(store[NewsKey(u) := CacheEntry(news, ttl)], v) == CachedIn(store, v)
  {
  }

  /** Raised when a fetch from the news API fails. */
  const FetchError := ServerError("Something went wrong on our side, please try after sometime.", InternalServerError)

  /** Raised when no article of the cached feed has the requested id. */
  function ArticleNotFound(id: string): ServerError {
    ServerError("Article having id '" + id + "' is not found.", NotFound)
  }

  class NewsService {
    /** The stored preference topics of a user, in stored order. */
    const preferencesOf: Option<string> -> seq<string>
    /** The news API: the articles for the `n`-th outbound call on a topic, or None when the call fails. */
    const fetch: Fetcher
    /** The `n`-th generated identifier. */
    const generateId: IdSource
    /** The expiry every feed write uses (the news cache window). */
    const cacheWindow: nat

    /** The cache keyspace. */
    var store: map<string, CacheEntry>
    /** The number of outbound fetches made so far. */
    var calls: nat
    /** The number of identifiers drawn so far. */
    var idsIssued: nat

    constructor (preferencesOf: Option<string> -> seq<string>, fetch: Fetcher, generateId: IdSource, cacheWindow: nat, store: map<string, CacheEntry>)
      ensures this.preferencesOf == preferencesOf && this.fetch == fetch && this.generateId == generateId
      ensures this.cacheWindow == cacheWindow && this.store == store
      ensures calls == 0 && idsIssued == 0
    {
      this.preferencesOf := preferencesOf;
      this.fetch := fetch;
      this.generateId := generateId;
      this.cacheWindow := cacheWindow;
      this.store := store;
      calls := 0;
      idsIssued := 0;
    }

    function CachedNews(userId: Option<string>): Option<Feed>
      reads this
    {
      CachedIn(store, userId)
    }

    /** The feed assembly this service would run now for a user. */
    function Assembly(userId: Option<string>): Outcome
      reads this
    {
      Assemble(preferencesOf(userId), calls, idsIssued, fetch, generateId)
    }

    /** A hit returns the stored feed, whatever it holds (an empty feed is a hit); a miss returns none. */
    method GetCachedNewsByUserId(userId: Option<string>) returns (r: Option<Feed>)
      ensures r.Some? <==> NewsKey(userId) in store
      ensures r.Some? ==> r.value == store[NewsKey(userId)].feed
    {
      if NewsKey(userId) in store {
        r := Some(store[NewsKey(userId)].feed);
      } else {
        r := None;
      }
    }

    /** Stores the feed under the user's key with the given expiry, replacing what was there. */
    method SetNewsCache(userId: Option<string>, news: Feed, expiry: nat)
      modifies this
      ensures store == old(store)[NewsKey(userId) := CacheEntry(news, expiry)]
      ensures calls == old(calls) && idsIssued == old(idsIssued)
    {
      store := store[NewsKey(userId) := CacheEntry(news, expiry)];
    }

    /** The cache drops a key whose expiry has run out. */
    method Expire(key: string)
      modifies this
      ensures store == old(store) - {key}
      ensures calls == old(calls) && idsIssued == old(idsIssued)
    {
      store := store - {key};
    }

    /** One outbound fetch for a topic; a failed call raises the fetch error. */
    method FetchNews(preference: string) returns (r: Result<seq<FetchedArticle>, ServerError>)
      modifies this
      ensures calls == old(calls) + 1
      ensures store == old(store) && idsIssued == old(idsIssued)
      ensures fetch(old(calls), preference).Some? ==> r == Success(fetch(old(calls), preference).value)
      ensures fetch(old(calls), preference).None? ==> r == Failure(FetchError)
      ensures r.Success? ==> fetch(old(calls), preference) == Some(r.value)
    {
      var answer := fetch(calls, preference);
      calls := calls + 1;
      if answer.None? {
        r := Failure(FetchError);
      } else {
        r := Success(answer.value);
      }
    }

    /** Draws the next identifier. */
    method GenerateId() returns (id: string)
      modifies this
      ensures id == generateId(old(idsIssued))
      ensures idsIssued == old(idsIssued) + 1
      ensures store == old(store) && calls == old(calls)
    {
      id := generateId(idsIssued);
      idsIssued := idsIssued + 1;
    }

    /** Builds the bucket for one answer: first its id, then each of the first ten articles, seeded, with its own id. */
    method BuildBucket(srcs: seq<FetchedArticle>) returns (b: Bucket)
      modifies this
      ensures b == NewBucket(srcs, old(idsIssued), generateId)
      ensures idsIssued == old(idsIssued) + IdsDrawn(srcs)
      ensures store == old(store) && calls == old(calls)
    {
      var bucketId := GenerateId();
      var kept := Truncate(srcs);
      var articles: seq<Article> := [];
      var k := 0;
      while k < |kept|
        invariant k <= |kept| && |articles| == k
        invariant idsIssued == old(idsIssued) + 1 + k
        invariant forall j :: 0 <= j < k ==> articles[j] == Seed(kept[j], generateId(old(idsIssued) + 1 + j))
        invariant store == old(store) && calls == old(calls)
      {
        var articleId := GenerateId();
        articles := articles + [Seed(kept[k], articleId)];
        k := k + 1;
      }
      SeedAllSpec(kept, old(idsIssued) + 1, generateId);
      b := Bucket(Some(bucketId), articles);
    }

    /**
     * Assembles the user's feed, one preference after the other, and caches
     * it for the cache window; a failed fetch raises the fetch error before
     * anything is written.
     */
    method GetNewsByPreference(userId: Option<string>) returns (r: Result<Feed, ServerError>)
      modifies this
      ensures var o := old(Assembly(userId));
        && calls == old(calls) + o.calls && idsIssued == o.ids
        && (o.Assembled? ==> r == Success(o.feed) && store == old(store)[NewsKey(userId) := CacheEntry(o.feed, cacheWindow)])
        && (o.FetchFailed? ==> r == Failure(FetchError) && store == old(store))
    {
      var preferences := preferencesOf(userId);
      ghost var call0 := calls;
      ghost var goal := Assembly(userId);
      assert goal == AssembleFrom([], preferences, 0, call0, idsIssued, fetch, generateId);
      var news: Feed := [];
      var idx := 0;
      while idx < |preferences|
        invariant idx <= |preferences|
        invariant calls == call0 + idx
        invariant store == old(store)
        invariant AssembleFrom(news, preferences, idx, call0, idsIssued, fetch, generateId) == goal
      {
        var data := FetchNews(preferences[idx]);
        if data.Failure? {
          AssembleFromFails(news, preferences, idx, call0, idsIssued, fetch, generateId);
          r := Failure(data.error);
          return;
        }
        AssembleFromContinues(news, preferences, idx, call0, idsIssued, fetch, generateId, data.value);
        var bucket := BuildBucket(data.value);
        news := Put(news, preferences[idx], bucket);
        idx := idx + 1;
      }
      SetNewsCache(userId, news, cacheWindow);
      r := Success(news);
    }

    /** Rebuilds the user's cached feed; the outcome is not reported. */
    method UpdateNewsCache(userId: Option<string>)
      modifies this
      ensures var o := old(Assembly(userId));
        && calls == old(calls) + o.calls && idsIssued == o.ids
        && store == if o.Assembled? then old(store)[NewsKey(userId) := CacheEntry(o.feed, cacheWindow)] else old(store)
    {
      var _ := GetNewsByPreference(userId);
    }

    /**
     * Sets `flag` on the first article, in bucket order and then article
     * order, whose id is `targetArticleId`, and caches the updated feed for
     * the cache window; with no such article, raises NotFound and writes
     * nothing.
     */
    method UpdateArticleStateWithCache(flag: Flag, targetArticleId: string, news: FeedObject, userId: Option<string>)
      returns (r: Result<(), ServerError>)
      modifies this, news
      ensures calls == old(calls) && idsIssued == old(idsIssued)
      ensures Mark(old(news.buckets), targetArticleId, flag).None? ==>
        && r == Failure(ArticleNotFound(targetArticleId))
        && news.buckets == old(news.buckets) && store == old(store)
      ensures Mark(old(news.buckets), targetArticleId, flag).Some? ==>
        var marked := Mark(old(news.buckets), targetArticleId, flag).value;
        && r == Success(())
        && news.buckets == marked
        && store == old(store)[NewsKey(userId) := CacheEntry(marked, cacheWindow)]
    {
      ghost var f := news.buckets;
      var found := false;
      var at := Position(0, 0);
      var i := 0;
      while i < |news.buckets|
        invariant i <= |f|
        invariant !found && news.buckets == f
        invariant forall q :: ValidPos(f, q) && q.bucket < i ==> At(f, q).id != targetArticleId
        invariant store == old(store) && calls == old(calls) && idsIssued == old(idsIssued)
      {
        var articles := news.buckets[i].1.articles;
        var idx := 0;
        while idx < |articles|
          invariant idx <= |articles|
          invariant !found && news.buckets == f
          invariant forall k :: 0 <= k < idx ==> articles[k].id != targetArticleId
          invariant store == old(store) && calls == old(calls) && idsIssued == old(idsIssued)
        {
          if articles[idx].id != targetArticleId {
            idx := idx + 1;
            continue;
          }
          found := true;
          at := Position(i, idx);
          FindArticleAt(f, targetArticleId, at);
          news.buckets := SetFlag(news.buckets, at, flag);
          break;
        }
        if found {
          break;
        }
        i := i + 1;
      }
      if !found {
        assert FindArticle(f, targetArticleId).None?;
        r := Failure(ArticleNotFound(targetArticleId));
        return;
      }
      SetNewsCache(userId, news.buckets, cacheWindow);
      r := Success(());
    }

    method MarkNewsArticleAsRead(targetArticleId: string, news: FeedObject, userId: Option<string>)
      returns (r: Result<(), ServerError>)
      modifies this, news
      ensures calls == old(calls) && idsIssued == old(idsIssued)
      ensures Mark(old(news.buckets), targetArticleId, Read).None? ==>
        && r == Failure(ArticleNotFound(targetArticleId))
        && news.buckets == old(news.buckets) && store == old(store)
      ensures Mark(old(news.buckets), targetArticleId, Read).Some? ==>
        var marked := Mark(old(news.buckets), targetArticleId, Read).value;
        && r == Success(())
        && news.buckets == marked
        && store == old(store)[NewsKey(userId) := CacheEntry(marked, cacheWindow)]
    {
      r := UpdateArticleStateWithCache(Read, targetArticleId, news, userId);
    }

    method MarkNewsArticleAsFavorite(targetArticleId: string, news: FeedObject, userId: Option<string>)
      returns (r: Result<(), ServerError>)
      modifies this, news
      ensures calls == old(calls) && idsIssued == old(idsIssued)
      ensures Mark(old(news.buckets), targetArticleId, Favorite).None? ==>
        && r == Failure(ArticleNotFound(targetArticleId))
        && news.buckets == old(news.buckets) && store == old(store)
      ensures Mark(old(news.buckets), targetArticleId, Favorite).Some? ==>
        var marked := Mark(old(news.buckets), targetArticleId, Favorite).value;
        && r == Success(())
        && news.buckets == marked
        && store == old(store)[NewsKey(userId) := CacheEntry(marked, cacheWindow)]
    {
      r := UpdateArticleStateWithCache(Favorite, targetArticleId, news, userId);
    }
  }

  /**
   * The loop both filters share: for each topic in order, collect the kept
   * articles; skip the topic if none is kept, otherwise emit a bucket that
   * holds only those articles. The input feed is not changed.
   */
  method FilterNews(news: Feed, c: Criterion) returns (filtered: Feed)
    ensures filtered == FilterFeed(news, c)
  {
    filtered := [];
    var i := 0;
    while i < |news|
      invariant i <= |news|
      invariant filtered == FilterFeed(news[..i], c)
    {
      var (preference, current) := news[i];
      var kept: seq<Article> := [];
      var idx := 0;
      while idx < |current.articles|
        invariant idx <= |current.articles|
        invariant kept == FilterArticles(current.articles[..idx], c)
      {
        assert current.articles[..idx + 1][..idx] == current.articles[..idx];
        if Keeps(c, current.articles[idx]) {
          kept := kept + [current.articles[idx]];
        }
        idx := idx + 1;
      }
      assert current.articles[..idx] == current.articles;
      assert news[..i + 1][..i] == news[..i];
      if kept != [] {
        // The input's keys are distinct, so this topic is not yet in the output.
        filtered := filtered + [(preference, Bucket(None, kept))];
      }
      i := i + 1;
    }
    assert news[..i] == news;
  }

  /** `filterNewsArticleByKey(key, news)`: the articles whose `key` flag is set. */
  method FilterNewsArticleByKey(key: Flag, news: Feed) returns (filtered: Feed)
    ensures filtered == FilterFeed(news, ByFlag(key))
  {
    filtered := FilterNews(news, ByFlag(key));
  }

  /** `filterNewsByKeyword(news, keyword)`: the articles whose lower-cased title or description contains `keyword`. */
  method FilterNewsByKeyword(news: Feed, keyword: string) returns (filtered: Feed)
    ensures filtered == FilterFeed(news, ByKeyword(keyword))
  {
    filtered := FilterNews(news, ByKeyword(keyword));
  }
}
