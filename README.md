# News aggregator: feed cache and article state

A Dafny model of the core of a small news-aggregator backend. Each
user has an ordered list of preference topics. For every topic the backend
fetches articles from a news API and assembles a per-user *feed*: an ordered
dictionary from topic to a bucket `{id, articles}`. It caches the feed under
the key `news:<userId>` with a fixed expiry, and layers the `read` and
`favorite` flags of each article on top of the cached feed.

The model covers:

- **Feed assembly.** One fetch per preference, in order. The first ten
  articles of each answer are kept, and each is given a generated id and
  false flags, unless the API sent fields of those names. Any failed fetch
  aborts the assembly before anything is cached.
- **The two filters.** One filters by flag and the other by a keyword in the
  lower-cased title or description. Both drop every bucket left empty.
- **The in-place state mutator.** It sets one flag on the first article with
  a given id. It then rewrites the cache, or fails with 404 if there is no
  such article.
- **The six HTTP handlers' cache policy.** On a cache miss, the list and
  search handlers assemble a fresh feed. The mark and list-flagged handlers
  fail with 410 Gone instead.
- **The key-expiry subscriber.** It rebuilds the feed of the user named by an
  expired `news` key.
- **The bearer-token middleware.**
- **The global error handler's choice of status and body.**
- **`createTagsFromText`.**

Layout, one module per file:

| file | module | models |
|---|---|---|
| wrappers.dfy | Wrappers | `Option`, `Result` |
| strings.dfy | Strings | `toLowerCase` (ASCII), `includes`, `split` on one character, `trim` |
| errors.dfy | Errors | `ServerError` and the status codes the core uses |
| feed.dfy | Feeds | articles, buckets, the feed as an ordered dictionary, `news[key] = bucket`, the parsed feed object |
| article_state.dfy | ArticleState | the first-match scan and the flag update as functions, with their properties |
| filters.dfy | Filters | the filters as functions and their properties, plus the filters as written (see Findings) |
| assembly.dfy | Assembly | the assembly as a function over the fetch and id oracles |
| assembly_facts.dfy | AssemblyFacts | what assembly does and produces |
| news_service.dfy | News | `NewsService`: the cache keyspace, assembly, the mutator, and the filter loops as methods |
| news_controller.dfy | NewsController | the six handlers |
| expiry.dfy | Expiry | the key-expiry callback |
| auth.dfy | Auth | token extraction and the middleware |
| error_handler.dfy | ErrorHandling | `errorHandler` |
| tagger.dfy | Tagger | `createTagsFromText` |

The service's outside collaborators are fields of `News.NewsService`:

- `fetch`: the news API, given the call number and the topic.
- `generateId`: the id generator; `n` gives the n-th id.
- `preferencesOf`: the preference table.
- `cacheWindow`: the expiry every write uses.

The store is `map<string, CacheEntry>`. Each write records the feed and the
expiry it was given. The object the mutator updates in place is a
`Feeds.FeedObject`.

## Model

| member | source | states |
|---|---|---|
| Strings.Lower | src/controllers/news.js:184 | lower-casing keeps the length and lower-cases each ASCII letter |
| Strings.ContainsIff | src/services/news.js:281-282 | `includes` holds exactly when the keyword occurs at some position |
| Strings.JoinSplit | src/libs/tagger.js:10 | joining the pieces of `split(" ")` with the separator gives back the text |
| Strings.CountCharZero | src/configs/redis.js:23 | a character occurs nowhere in a text exactly when it is counted zero times |
| Strings.SplitPieces | src/configs/redis.js:23 | no piece holds the separator; there is one more piece than separators |
| Strings.SplitAfterFirst | src/configs/redis.js:23 | a text whose first separator follows `a` splits into `a` and then the pieces of the rest |
| Strings.TrimSpec | src/middlewares/auth-middleware.js:16 | `trim` removes a run of white space from each end and leaves no white space at either end |
| Strings.TrimEmptyIff | src/middlewares/auth-middleware.js:16-18 | a text trims to empty exactly when all of it is white space |
| Feeds.Article.Set | src/services/news.js:200 | `article[key] = true` sets that flag and leaves the other flag, the id and every other field unchanged |
| Feeds.PutLookup | src/services/news.js:130 | reading a topic after `news[topic] = bucket` gives that bucket; other topics are unchanged |
| Feeds.PutReplaces | src/services/news.js:130 | writing an existing topic replaces its bucket in place |
| Feeds.PutAppends | src/services/news.js:130 | writing a new topic appends it last |
| Feeds.PutWellFormed | src/services/news.js:130 | writing a topic keeps the feed's keys distinct |
| Feeds.PutAllKeys | src/services/news.js:112-131 | after a series of writes, the keys are the old keys plus the written ones |
| ArticleState.Mark | src/services/news.js:192-211 | the mutator finds no article exactly when no article has the id; otherwise the new feed has as many buckets as the old one |
| ArticleState.FindArticle | src/services/news.js:192-204 | the scan finds the first position, by bucket and then by article, whose id matches; it finds none exactly when no article matches |
| ArticleState.FindArticleAt | src/services/news.js:192-204 | a match with no match before it is where the scan stops |
| ArticleState.SetFlagFrame | src/services/news.js:200 | the update changes only the flag of the found article: keys, bucket ids and every other article stay the same |
| ArticleState.FindSameShape | src/services/news.js:192-204 | the scan depends only on topics, bucket sizes and article ids, not on flags |
| ArticleState.SetFlagNoop | src/services/news.js:200 | setting a flag that is already set changes nothing |
| ArticleState.MarkOutcome | src/services/news.js:192-211 | an unknown id gives no new feed; a known id gives a feed of the same shape with one article's flag set |
| ArticleState.MarkIdempotent | src/services/news.js:192-204 | marking the same article twice gives the same feed as marking it once |
| ArticleState.MarkCommutes | src/services/news.js:233-238 | marking read and then favorite gives the same feed as the opposite order |
| Filters.FilterArticlesCounts | src/services/news.js:159-164 | every kept article appears as often as in the bucket, and no other article appears |
| Filters.FilterArticlesOrder | src/services/news.js:159-164 | kept articles stay in their original order |
| Filters.FilterArticlesMembers | src/services/news.js:278-287 | an article is kept exactly when it is in the bucket and the criterion accepts it |
| Filters.FilterArticlesAppend | src/services/news.js:159-164 | filtering distributes over concatenation of article lists |
| Filters.FilterFeed | src/services/news.js:154-172 | the corrected filter never has more topics than its input |
| Filters.FilterFeedBuckets | src/services/news.js:166-171 | no output bucket is empty, and none carries the bucket id |
| Filters.FilterFeedTopics | src/services/news.js:155-172 | the output topics are some of the input topics, in input order |
| Filters.FilterFeedKeys | src/services/news.js:154-172 | the filter adds no topic and keeps keys distinct |
| Filters.FilterFeedLookup | src/services/news.js:154-172 | a topic of the output holds exactly the kept articles of that topic's input bucket |
| Filters.FilterFeedAppend | src/services/news.js:155-172 | filtering distributes over concatenation of feeds |
| Filters.FilterFeedNothingKept | src/services/news.js:166 | a feed in which no article is kept filters to the empty feed |
| Filters.MarkThenFilter | src/services/news.js:155-171 | marking an article in a feed where no article has the flag, then filtering by that flag, yields exactly that article under its topic |
| Filters.OnlyFlagged | src/services/news.js:155-171 | a feed with exactly one flagged article filters to that article alone |
| Filters.KeywordExample | src/services/news.js:280-285 | the keyword search matches the lower-cased title and does not search the content |
| Filters.FilterFeedAsWritten | src/services/news.js:155-172 | the filter as written, when it does not throw, never has more topics than its input |
| Filters.AsWrittenAgrees | src/services/news.js:168-171 | if no topic is `length`, an index, an array method name or an `Object.prototype` member name, the filter as written agrees with the corrected filter |
| Filters.AsWrittenLosesOnly | src/services/news.js:168-171 | when the filter as written does not throw, its result is the corrected result with some topics dropped, in the same order |
| Filters.AsWrittenDropsPrototypeTopic | src/services/news.js:168-171 | a topic `toString` with a read article is silently missing from the read filter as written, while the corrected filter keeps it |
| Filters.AsWrittenFailsOnLengthTopic | src/services/news.js:168-171 | a topic `length` with a read article makes the read filter as written throw, while the corrected filter keeps it |
| Filters.AsWrittenFailsOnIndexTopic | src/services/news.js:291-294 | a topic `0` with a matching article makes the keyword search as written throw, while the corrected filter keeps it |
| Assembly.Truncate | src/services/news.js:120 | `slice(0, 10)`: a prefix of at most ten articles, the whole list when it is shorter |
| AssemblyFacts.TruncateLength | src/services/news.js:120 | `slice(0, 10)` keeps exactly min(10, n) of n articles |
| AssemblyFacts.SeedAllSpec | src/services/news.js:120-127 | seeding keeps order and count; article `k` gets the k-th fresh id and false flags unless the API sent those fields |
| AssemblyFacts.NewBucketFrom | src/services/news.js:118-128 | a new bucket has an id and holds the first ten articles, seeded, in order |
| AssemblyFacts.NewBucketBounded | src/services/news.js:118-128 | a new bucket has an id and at most ten articles |
| Assembly.AssembleSucceedsIff | src/services/news.js:112-131 | assembly succeeds exactly when every fetch succeeds, and then it made one fetch per preference |
| Assembly.AssembleStopsAtFailure | src/services/news.js:112-115 | a failed assembly stops at the first failed fetch: every earlier fetch succeeded and no later one was made |
| Assembly.AssembleFromFails | src/services/news.js:116 | a failed fetch ends the assembly right after that fetch, with no further id drawn |
| Assembly.AssembleFromContinues | src/services/news.js:116-130 | an answered fetch writes its bucket under the preference, draws its ids and moves on to the next preference |
| Assembly.AssembleCalls | src/services/news.js:112-131 | a whole assembly makes one fetch per preference when it succeeds, and between one and that many when it fails |
| Assembly.Assemble | src/services/news.js:112-131 | an assembled feed took one fetch per preference; a failed one took at least one and at most that many |
| AssemblyFacts.AssembleIsPutAll | src/services/news.js:112-131 | the assembled feed is the series of `news[pref] = bucket` writes in preference order; the ids consumed are the sum over the answers |
| AssemblyFacts.BuiltAt | src/services/news.js:118-130 | the write for preference `i` holds the bucket of its answer, with the ids after those of the earlier preferences |
| AssemblyFacts.BuiltKeys | src/services/news.js:130 | the written topics are the preferences, in order |
| AssemblyFacts.AssembleWellFormed | src/services/news.js:112-131 | every assembled feed has distinct topics, and every bucket has an id and at most ten articles |
| AssemblyFacts.AssembleKeySet | src/services/news.js:112-131 | a topic is in the assembled feed exactly when it is one of the preferences |
| AssemblyFacts.AssembleAppends | src/services/news.js:112-131 | with distinct preferences there is one bucket per preference, in preference order |
| AssemblyFacts.AssembleBuckets | src/services/news.js:112-130 | bucket `i` is under preference `i` and holds the first ten articles of its answer, seeded |
| News.NewsKey | src/services/news.js:27 | the key is `news:` followed by the user id |
| News.NewsKeyShared | src/services/news.js:27 | two user ids share a cache key exactly when they are equal, or one is undefined and the other is the text `undefined` |
| News.CachedAfterWrite | src/services/news.js:82-92 | reading after a write gives the written feed; other users' entries are untouched |
| News.NewsService.GetCachedNewsByUserId | src/services/news.js:24-33 | a hit returns the stored feed, and an empty feed counts as a hit; a miss returns nothing |
| News.NewsService.SetNewsCache | src/services/news.js:82-92 | the feed is stored under `news:<userId>` with the given expiry, replacing the old entry |
| News.NewsService.Expire | src/services/news.js:87-91 | when the expiry of a key runs out, the cache drops that key |
| News.NewsService.FetchNews | src/services/news.js:53-73 | one outbound call; its articles on success, the 500 fetch error on failure |
| News.NewsService.GenerateId | src/services/news.js:119 | draws the next identifier |
| News.NewsService.BuildBucket | src/services/news.js:118-128 | the loop builds the bucket of the assembly specification and draws one id per article plus one for the bucket |
| News.NewsService.GetNewsByPreference | src/services/news.js:100-140 | on success, returns the assembled feed and caches it for the cache window; a failed fetch raises 500 and writes nothing |
| News.NewsService.UpdateNewsCache | src/services/news.js:42-46 | rebuilds the feed and caches it; after a failed fetch the cache is unchanged |
| News.NewsService.UpdateArticleStateWithCache | src/services/news.js:186-218 | the nested loop sets the flag on the first matching article in place and caches the feed for the cache window; an unknown id raises 404 and writes nothing |
| News.NewsService.MarkNewsArticleAsRead | src/services/news.js:228-239 | the mutator with the `read` flag |
| News.NewsService.MarkNewsArticleAsFavorite | src/services/news.js:249-260 | the mutator with the `favorite` flag |
| News.FilterNews | src/services/news.js:154-174 | the shared nested filter loop computes the filter specification and leaves its input unchanged |
| News.FilterNewsArticleByKey | src/services/news.js:149-175 | keeps exactly the articles whose flag is set |
| News.FilterNewsByKeyword | src/services/news.js:268-298 | keeps exactly the articles whose lower-cased title or description contains the keyword |
| NewsController.GetNewsByPreferences | src/controllers/news.js:16-33 | a hit returns the cached feed unchanged, without fetching; a miss assembles, caches and returns a new feed, or fails with 500, and accounts for the fetches made and ids drawn |
| NewsController.MarkNewsArticle | src/controllers/news.js:42-68 | a miss fails with 410 without calling the mutator; a hit returns the mutator's outcome |
| NewsController.MarkNewsArticleRead | src/controllers/news.js:42-68 | marks with `read`; a miss fails with 410 |
| NewsController.MarkNewsArticleFavorite | src/controllers/news.js:110-136 | marks with `favorite`; a miss fails with 410 |
| NewsController.ListFlagged | src/controllers/news.js:77-102 | a miss fails with 410; a hit returns the flag filter of the cached feed; it never assembles and never writes |
| NewsController.GetReadNewsArticles | src/controllers/news.js:77-102 | filters the cached feed by `read`; a miss fails with 410 |
| NewsController.GetFavoritesNewsArticles | src/controllers/news.js:145-170 | filters the cached feed by `favorite`; a miss fails with 410 |
| NewsController.GetNewsArticlesByKeyword | src/controllers/news.js:179-203 | lower-cases the keyword and filters the cached feed by it; on a miss it assembles a feed, with the fetches made and ids drawn stated, and filters that |
| Expiry.SecondSegment | src/configs/redis.js:23 | `split(":")[1]` is undefined exactly when the key has no `:`, and otherwise holds no `:` |
| Expiry.OnKeyExpired | src/configs/redis.js:22-24 | a key triggers a rebuild exactly when it starts with `news` |
| Expiry.ExpiredKeyUser | src/configs/redis.js:22-23 | the rebuilt user is the second `:`-separated segment: `news:a:b` gives `a`, and `newsX:7` gives `7` |
| Expiry.ExpiredKeyWithoutUser | src/configs/redis.js:23-24 | a `news` key with no `:` still rebuilds, for an undefined user |
| Expiry.NewsKeyRoundTrip | src/configs/redis.js:23-24 | the expiry of `news:<u>` rebuilds exactly user `u` when `u` has no `:` |
| Expiry.HandleExpiredKey | src/configs/redis.js:21-25 | other keys change nothing; a `news` key rebuilds and re-caches that user's feed, with the fetches made and ids drawn stated |
| Auth.ExtractToken | src/middlewares/auth-middleware.js:16 | a missing header gives no token; a token is non-empty and already trimmed |
| Auth.SecondWordIsToken | src/middlewares/auth-middleware.js:16 | the token is the trimmed second space-separated word; the first word is not checked, so `X a b` gives `a` |
| Auth.NoTokenIff | src/middlewares/auth-middleware.js:14-18 | no token exactly when the header is missing, has no space, or has a second word that is all white space |
| Auth.NoTokenExamples | src/middlewares/auth-middleware.js:16-18 | a header with no space, or with two spaces after the first word, yields no token |
| Auth.TokenShape | src/middlewares/auth-middleware.js:16 | a token is non-empty, has no space, and has no white space at either end |
| Auth.AuthMiddleware | src/middlewares/auth-middleware.js:9-30 | no token gives 401 "Auth token not found."; a verifier error passes through; on success the claims are set and `next()` is called once |
| ErrorHandling.ErrorHandler | src/middlewares/error-handler.js:18-58 | validation errors give 400, or 401 for the login password; a ServerError keeps its own status and name; anything else gives 500 "Unknown"; the status is always "error"; the stack trace appears only in development mode |
| ErrorHandling.CoreErrorsReachClient | src/errors/server-error.js:9-20 | the core's errors reach the client as 500, 404, 410 and 401, each with its own message |
| ErrorHandling.StackHiddenOutsideDevelopement | src/libs/utils.js:51-53 | only the misspelled `developement` turns stack traces on; `development` and an unset environment hide them |
| Tagger.CreateTagsFromText | src/libs/tagger.js:6-16 | a text is a tag exactly when it is a split piece whose trimmed form is longer than two; there are no more tags than pieces |
| Tagger.FilterTags | src/libs/tagger.js:10-13 | keeps exactly the pieces whose trimmed form is longer than two, untrimmed, and never more than it was given |
| Tagger.Dedup | src/libs/tagger.js:10-15 | `[...new Set(xs)]` holds exactly the values of `xs`, no more of them than `xs` has |
| Tagger.DedupDistinct | src/libs/tagger.js:10-15 | the de-duplicated list has no repeats |
| Tagger.DedupFirstOccurrence | src/libs/tagger.js:10-15 | values come in the order of their first occurrence |
| Tagger.FilterTagsKeepsOrder | src/libs/tagger.js:10-13 | filtering keeps the order of first occurrences |
| Tagger.CreateTagsSpec | src/libs/tagger.js:6-16 | the tags are distinct; they are exactly the split pieces, untrimmed, whose trimmed form is longer than two; there are no more of them than pieces; they come in first-occurrence order |
| Tagger.ShortPiecesDropped | src/libs/tagger.js:11-12 | empty pieces from repeated spaces are never tags |

## Left out

- The fetch over HTTP to the news API is the `fetch` oracle. Its answers are the article lists; any error is a failed answer.
- The id generator is the `generateId` oracle. The model does not prove that ids are unique: the mutator's first-match rule is modelled instead.
- The preference query is the `preferencesOf` oracle. JWT verification is the `verifyJwt` parameter of `Auth.AuthMiddleware`.
- src/configs/constants.js is not part of this model. So the cache window is the `cacheWindow` field, and the id length has no role.
- For `for..in`, the model visits topics in insertion order. JavaScript visits integer-like keys first, in numeric order, which is not modelled.
- JSON serialisation of the feed is taken to round-trip. The cache holds the feed value itself.
- The Redis clock is not modelled. Each write records its expiry, and `News.NewsService.Expire` removes a key.
- Connecting and subscribing to Redis are not modelled.
- The 2000 ms pause before each fetch is not modelled.
- Concurrent requests, and the interleaving of a rebuild with other handlers, are not modelled.
- A failed cache write is silently ignored by the source. The model assumes every write succeeds.
- A failed rebuild after an expiry leaves a rejected promise in the subscriber. The model only leaves the cache unchanged.
- Strings are sequences of characters. JavaScript's UTF-16 lengths, and `toLowerCase` beyond ASCII letters, are not modelled.
- The API's `id`, `read` and `favorite` fields are taken to be a string and booleans. Other JSON values, and their truthiness under `!article[key]`, are not modelled; nor are fields the model does not name.
- A `null` title or description is not modelled. The keyword search would throw on it.
- The request validators and `console.log` are HTTP plumbing and are not modelled. Responses are the `Reply` and `Response` values.
- News.FilterNews: computes the corrected filter, not lines 168-171 as written, which throw for some topic names and silently drop others (see Findings). `Filters.FilterFeedAsWritten` models the code as written.
- News.FilterNewsArticleByKey: computes the corrected filter, not the code as written, which throws for some topic names (see Findings). `Filters.FilterFeedAsWritten` models the code as written.
- News.FilterNewsByKeyword: computes the corrected filter, not the code as written, which throws for some topic names (see Findings). `Filters.FilterFeedAsWritten` models the code as written.

- Filters.FilterFeedAsWritten: for an `Object.prototype` member name such as `toString`, the code writes `articles` onto the inherited built-in (for `__proto__`, onto `Object.prototype` itself, which later `for..in` loops would then visit); the model records only that the topic is missing from the result.
- Truncate: its contract states a prefix of at most ten; the exact length min(10, n) is the separate lemma `AssemblyFacts.TruncateLength`, kept out of the function's contract because every use of `Truncate` would then carry it.
- Feeds.Put: models `news[key] = bucket` as a key write for every key. For the key `__proto__`, line 130 of src/services/news.js sets the object's prototype instead. That topic is then missing from the cached JSON. On the search path after a miss, the `for..in` at line 274 visits the inherited `id` and `articles`, and line 278 throws on `.length` of undefined. The model, and so `AssemblyFacts.AssembleKeySet`, keeps the topic.

## Findings

| source | as written | input that shows it | evidently intended | confidence | as-written member | corrected member |
|---|---|---|---|---|---|---|
| src/services/news.js:168-171 | tests `!filteredArticles[preference]`, a property of the article array, then sets `filteredNews[preference].articles` | a topic named `length` (or `0`, `map`, …) holding a read article: the array property is truthy, so no bucket is created and `filteredNews.length.articles = …` throws a TypeError | create the output bucket when `filteredNews[preference]` is absent, which is always the case for distinct topics | not executed | Filters.AsWrittenFailsOnLengthTopic | Filters.FilterFeedLookup |
| src/services/news.js:168-171 | the same test, with `filteredNews` a plain `{}` | a topic named `toString` holding a read article: `filteredNews.toString` is the inherited function, so no bucket is created, `articles` is written onto that function, and the topic is missing from the result | the same as above | not executed | Filters.AsWrittenDropsPrototypeTopic | Filters.FilterFeedLookup |
| src/services/news.js:291-294 | the same test in the keyword search | a topic named `0` whose one article matches the keyword: `filteredArticles[0]` is that article, so the search throws | the same as above | not executed | Filters.AsWrittenFailsOnIndexTopic | Filters.FilterFeedLookup |
