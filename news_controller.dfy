/**
 * The six news endpoints. Each reads the caller's cached feed first. On a
 * miss, the feed list and the keyword search assemble a fresh feed, while
 * marking and the read and favorite lists fail with 410 Gone.
 */
module NewsController {
  import opened Wrappers
  import opened Strings
  import opened Errors
  import opened Feeds
  import opened ArticleState
  import opened Filters
  import opened Assembly
  import opened News

  /** The JSON body of a successful response: `{status: "success"}`, with the feed under `news` when there is one. */
  datatype Reply = Reply(status: string, news: Option<Feed>)

  /** Raised when the endpoint needs a cached feed and the cache has none. */
  const Expired := ServerError("The resource once existed but has now been removed (expired).", Gone)

  /** The feed list: the cached feed on a hit, unchanged; on a miss, a freshly assembled (and cached) one. */
  method GetNewsByPreferences(svc: NewsService, userId: Option<string>) returns (r: Result<Reply, ServerError>)
    modifies svc
    ensures old(svc.CachedNews(userId)).Some? ==>
      && r == Success(Reply("success", old(svc.CachedNews(userId))))
      && svc.store == old(svc.store) && svc.calls == old(svc.calls) && svc.idsIssued == old(svc.idsIssued)
    ensures old(svc.CachedNews(userId)).None? ==>
      var o := old(svc.Assembly(userId));
      && svc.calls == old(svc.calls) + o.calls && svc.idsIssued == o.ids
      && (o.Assembled? ==>
            r == Success(Reply("success", Some(o.feed)))
            && svc.store == old(svc.store)[NewsKey(userId) := CacheEntry(o.feed, svc.cacheWindow)])
      && (o.FetchFailed? ==> r == Failure(FetchError) && svc.store == old(svc.store))
  {
    var news := svc.GetCachedNewsByUserId(userId);
    if news.None? {
      var assembled := svc.GetNewsByPreference(userId);
      if assembled.Failure? {
        return Failure(assembled.error);
      }
      news := Some(assembled.value);
    }
    r := Success(Reply("success", news));
  }

  /** Marks an article of the cached feed with `flag`: 410 on a miss, without touching the feed; otherwise the mutator's outcome. */
  method MarkNewsArticle(svc: NewsService, userId: Option<string>, targetArticleId: string, flag: Flag)
    returns (r: Result<Reply, ServerError>)
    modifies svc
    ensures svc.calls == old(svc.calls) && svc.idsIssued == old(svc.idsIssued)
    ensures old(svc.CachedNews(userId)).None? ==> r == Failure(Expired) && svc.store == old(svc.store)
    ensures old(svc.CachedNews(userId)).Some? ==>
      match Mark(old(svc.CachedNews(userId)).value, targetArticleId, flag)
      case None => r == Failure(ArticleNotFound(targetArticleId)) && svc.store == old(svc.store)
      case Some(marked) =>
        r == Success(Reply("success", None))
        && svc.store == old(svc.store)[NewsKey(userId) := CacheEntry(marked, svc.cacheWindow)]
  {
    var news := svc.GetCachedNewsByUserId(userId);
    if news.None? {
      return Failure(Expired);
    }
    var parsed := new FeedObject(news.value);
    var outcome;
    if flag == Read {
      outcome := svc.MarkNewsArticleAsRead(targetArticleId, parsed, userId);
    } else {
      outcome := svc.MarkNewsArticleAsFavorite(targetArticleId, parsed, userId);
    }
    if outcome.Failure? {
      return Failure(outcome.error);
    }
    r := Success(Reply("success", None));
  }

  method MarkNewsArticleRead(svc: NewsService, userId: Option<string>, targetArticleId: string)
    returns (r: Result<Reply, ServerError>)
    modifies svc
    ensures svc.calls == old(svc.calls) && svc.idsIssued == old(svc.idsIssued)
    ensures old(svc.CachedNews(userId)).None? ==> r == Failure(Expired) && svc.store == old(svc.store)
    ensures old(svc.CachedNews(userId)).Some? ==>
      match Mark(old(svc.CachedNews(userId)).value, targetArticleId, Read)
      case None => r == Failure(ArticleNotFound(targetArticleId)) && svc.store == old(svc.store)
      case Some(marked) =>
        r == Success(Reply("success", None))
        && svc.store == old(svc.store)[NewsKey(userId) := CacheEntry(marked, svc.cacheWindow)]
  {
    r := MarkNewsArticle(svc, userId, targetArticleId, Read);
  }

  method MarkNewsArticleFavorite(svc: NewsService, userId: Option<string>, targetArticleId: string)
    returns (r: Result<Reply, ServerError>)
    modifies svc
    ensures svc.calls == old(svc.calls) && svc.idsIssued == old(svc.idsIssued)
    ensures old(svc.CachedNews(userId)).None? ==> r == Failure(Expired) && svc.store == old(svc.store)
    ensures old(svc.CachedNews(userId)).Some? ==>
      match Mark(old(svc.CachedNews(userId)).value, targetArticleId, Favorite)
      case None => r == Failure(ArticleNotFound(targetArticleId)) && svc.store == old(svc.store)
      case Some(marked) =>
        r == Success(Reply("success", None))
        && svc.store == old(svc.store)[NewsKey(userId) := CacheEntry(marked, svc.cacheWindow)]
  {
    r := MarkNewsArticle(svc, userId, targetArticleId, Favorite);
  }

  /** The articles of the cached feed carrying `flag`: 410 on a miss; never assembles, never writes. */
  method ListFlagged(svc: NewsService, userId: Option<string>, flag: Flag) returns (r: Result<Reply, ServerError>)
    ensures svc.CachedNews(userId).None? ==> r == Failure(Expired)
    ensures svc.CachedNews(userId).Some? ==>
      r == Success(Reply("success", Some(FilterFeed(svc.CachedNews(userId).value, ByFlag(flag)))))
  {
    var news := svc.GetCachedNewsByUserId(userId);
    if news.None? {
      return Failure(Expired);
    }
    var filtered := FilterNewsArticleByKey(flag, news.value);
    r := Success(Reply("success", Some(filtered)));
  }

  method GetReadNewsArticles(svc: NewsService, userId: Option<string>) returns (r: Result<Reply, ServerError>)
    ensures svc.CachedNews(userId).None? ==> r == Failure(Expired)
    ensures svc.CachedNews(userId).Some? ==>
      r == Success(Reply("success", Some(FilterFeed(svc.CachedNews(userId).value, ByFlag(Read)))))
  {
    r := ListFlagged(svc, userId, Read);
  }

  method GetFavoritesNewsArticles(svc: NewsService, userId: Option<string>) returns (r: Result<Reply, ServerError>)
    ensures svc.CachedNews(userId).None? ==> r == Failure(Expired)
    ensures svc.CachedNews(userId).Some? ==>
      r == Success(Reply("success", Some(FilterFeed(svc.CachedNews(userId).value, ByFlag(Favorite)))))
  {
    r := ListFlagged(svc, userId, Favorite);
  }

  /**
   * Keyword search: the keyword is lower-cased, then the cached feed (or,
   * on a miss, a freshly assembled one) is filtered by it.
   */
  method GetNewsArticlesByKeyword(svc: NewsService, userId: Option<string>, keyword: string)
    returns (r: Result<Reply, ServerError>)
    modifies svc
    ensures old(svc.CachedNews(userId)).Some? ==>
      && r == Success(Reply("success", Some(FilterFeed(old(svc.CachedNews(userId)).value, ByKeyword(Lower(keyword))))))
      && svc.store == old(svc.store) && svc.calls == old(svc.calls) && svc.idsIssued == old(svc.idsIssued)
    ensures old(svc.CachedNews(userId)).None? ==>
      var o := old(svc.Assembly(userId));
      && svc.calls == old(svc.calls) + o.calls && svc.idsIssued == o.ids
      && (o.Assembled? ==>
            r == Success(Reply("success", Some(FilterFeed(o.feed, ByKeyword(Lower(keyword))))))
            && svc.store == old(svc.store)[NewsKey(userId) := CacheEntry(o.feed, svc.cacheWindow)])
      && (o.FetchFailed? ==> r == Failure(FetchError) && svc.store == old(svc.store))
  {
    var lowered := Lower(keyword);
    var news := svc.GetCachedNewsByUserId(userId);
    if news.None? {
      var assembled := svc.GetNewsByPreference(userId);
      if assembled.Failure? {
        return Failure(assembled.error);
      }
      news := Some(assembled.value);
    }
    var filtered := FilterNewsByKeyword(news.value, lowered);
    r := Success(Reply("success", Some(filtered)));
  }
}
