/**
 * Feed assembly as a specification: one fetch per preference, in order;
 * the first ten articles of each answer, each given a generated id and the
 * `read`/`favorite` flags set to false, unless the fetched article itself
 * carries fields of those names; any failed fetch aborts the assembly.
 */
module Assembly {
  import opened Wrappers
  import opened Feeds

  /**
   * An article as the news API returns it. `id`, `read` and `favorite` are
   * present only if the API sends fields with those names; they are spread
   * after the seeded ones and so replace them.
   */
  datatype FetchedArticle = FetchedArticle(
    title: string,
    description: string,
    content: string,
    url: string,
    publishedAt: string,
    id: Option<string>,
    read: Option<bool>,
    favorite: Option<bool>)

  /** `slice(0, 10)` */
  const MaxArticlesPerPreference: nat := 10

  /** The fetch for the `n`-th outbound call, on a topic: the articles, or None when the call failed. */
  type Fetcher = (nat, string) -> Option<seq<FetchedArticle>>

  /** The `n`-th identifier the id generator produces. */
  type IdSource = nat -> string

  function Truncate(srcs: seq<FetchedArticle>): (r: seq<FetchedArticle>)
    ensures |r| <= MaxArticlesPerPreference && |r| <= |srcs|
    ensures r == srcs[..|r|]
    ensures |srcs| <= MaxArticlesPerPreference ==> r == srcs
  {
    if |srcs| <= MaxArticlesPerPreference then srcs else srcs[..MaxArticlesPerPreference]
  }

  /** `{ id: generated, read: false, favorite: false, ...src }` */
  function Seed(src: FetchedArticle, generated: string): Article {
    Article(
      src.id.GetOr(generated), src.read.GetOr(false), src.favorite.GetOr(false),
      src.title, src.description, src.content, src.url, src.publishedAt)
  }

  /** `srcs.map(seed)`, the `k`-th article taking id number `nextId + k`. */
  function SeedAll(srcs: seq<FetchedArticle>, nextId: nat, gen: IdSource): seq<Article>
  {
    if srcs == [] then [] else [Seed(srcs[0], gen(nextId))] + SeedAll(srcs[1..], nextId + 1, gen)
  }

  /** The bucket for one answer: id number `nextId` for the bucket, the following ones for its articles. */
  function NewBucket(srcs: seq<FetchedArticle>, nextId: nat, gen: IdSource): Bucket {
    Bucket(Some(gen(nextId)), SeedAll(Truncate(srcs), nextId + 1, gen))
  }

  /** How many ids building the bucket for `srcs` draws. */
  function IdsDrawn(srcs: seq<FetchedArticle>): nat {
    1 + |Truncate(srcs)|
  }

  /** `a` is `src` seeded: its fields copied, its flags false unless sent, its id the sent one if sent. */
  ghost predicate SeededFrom(a: Article, src: FetchedArticle) {
    && a.title == src.title && a.description == src.description && a.content == src.content
    && a.url == src.url && a.publishedAt == src.publishedAt
    && a.read == src.read.GetOr(false) && a.favorite == src.favorite.GetOr(false)
    && (src.id.Some? ==> a.id == src.id.value)
  }

  /** `b` holds the first (at most ten) articles of `srcs`, each seeded, in their order, under a bucket id. */
  ghost predicate BucketFrom(b: Bucket, srcs: seq<FetchedArticle>) {
    && b.id.Some?
    && |b.articles| == |Truncate(srcs)|
    && forall j :: 0 <= j < |b.articles| ==> SeededFrom(b.articles[j], srcs[j])
  }

  /** Every bucket carries an id and at most ten articles. */
  ghost predicate Bounded(f: Feed) {
    forall i :: 0 <= i < |f| ==> f[i].1.id.Some? && |f[i].1.articles| <= MaxArticlesPerPreference
  }

  /** How an assembly ended: the feed, or the failure; with the number of fetches made and the next id number. */
  datatype Outcome =
    | Assembled(feed: Feed, calls: nat, ids: nat)
    | FetchFailed(calls: nat, ids: nat)

  /** The answer to the fetch for preference `i`, outbound call number `call0 + i`. */
  function Answer(fetch: Fetcher, call0: nat, prefs: seq<string>, i: nat): Option<seq<FetchedArticle>>
    requires i < |prefs|
  {
    fetch(call0 + i, prefs[i])
  }

  /**
   * The assembly loop from index `idx` on, with the feed built so far and
   * the number of the next id; the fetch for `prefs[i]` is outbound call
   * number `call0 + i`.
   */
  function AssembleFrom(news: Feed, prefs: seq<string>, idx: nat, call0: nat, nextId: nat, fetch: Fetcher, gen: IdSource): Outcome
    requires idx <= |prefs|
    decreases |prefs| - idx
  {
    if idx == |prefs| then Assembled(news, idx, nextId)
    else
      match Answer(fetch, call0, prefs, idx)
      case None => FetchFailed(idx + 1, nextId)
      case Some(srcs) =>
        AssembleFrom(Put(news, prefs[idx], NewBucket(srcs, nextId, gen)), prefs, idx + 1,
                     call0, nextId + IdsDrawn(srcs), fetch, gen)
  }

  /** A failed fetch ends the assembly, after that fetch and with no further id drawn. */
  lemma AssembleFromFails(news: Feed, prefs: seq<string>, idx: nat, call0: nat, nextId: nat, fetch: Fetcher, gen: IdSource)
    requires idx < |prefs| && Answer(fetch, call0, prefs, idx).None?
    ensures AssembleFrom(news, prefs, idx, call0, nextId, fetch, gen) == FetchFailed(idx + 1, nextId)
  {
  }

  /** An answered fetch adds its bucket, draws its ids, and the assembly moves on to the next preference. */
  lemma AssembleFromContinues(news: Feed, prefs: seq<string>, idx: nat, call0: nat, nextId: nat, fetch: Fetcher, gen: IdSource, srcs: seq<FetchedArticle>)
    requires idx < |prefs| && Answer(fetch, call0, prefs, idx) == Some(srcs)
    ensures AssembleFrom(news, prefs, idx, call0, nextId, fetch, gen) ==
      AssembleFrom(Put(news, prefs[idx], NewBucket(srcs, nextId, gen)), prefs, idx + 1,
                   call0, nextId + IdsDrawn(srcs), fetch, gen)
  {
  }

  /** Assembly succeeds exactly when every preference's fetch succeeds, and then it made one fetch per preference. */
  lemma {:induction false} AssembleSucceedsIff(news: Feed, prefs: seq<string>, idx: nat, call0: nat, nextId: nat, fetch: Fetcher, gen: IdSource)
    requires idx <= |prefs|
    ensures AssembleFrom(news, prefs, idx, call0, nextId, fetch, gen).Assembled? <==>
      forall i :: idx <= i < |prefs| ==> Answer(fetch, call0, prefs, i).Some?
    ensures AssembleFrom(news, prefs, idx, call0, nextId, fetch, gen).Assembled? ==>
      AssembleFrom(news, prefs, idx, call0, nextId, fetch, gen).calls == |prefs|
    decreases |prefs| - idx
  {
    if idx < |prefs| {
      match Answer(fetch, call0, prefs, idx)
      case None =>
      case Some(srcs) =>
        var next := Put(news, prefs[idx], NewBucket(srcs, nextId, gen));
        AssembleSucceedsIff(next, prefs, idx + 1, call0, nextId + IdsDrawn(srcs), fetch, gen);
    }
  }

  /** A failed assembly stopped right after the first failing fetch: all earlier fetches succeeded, no later one was made. */
  lemma {:induction false} AssembleStopsAtFailure(news: Feed, prefs: seq<string>, idx: nat, call0: nat, nextId: nat, fetch: Fetcher, gen: IdSource)
    requires idx <= |prefs|
    requires AssembleFrom(news, prefs, idx, call0, nextId, fetch, gen).FetchFailed?
    ensures var n := AssembleFrom(news, prefs, idx, call0, nextId, fetch, gen).calls;
      && idx < n <= |prefs|
      && Answer(fetch, call0, prefs, n - 1).None?
      && forall i :: idx <= i < n - 1 ==> Answer(fetch, call0, prefs, i).Some?
    decreases |prefs| - idx
  {
    match Answer(fetch, call0, prefs, idx)
    case None =>
    case Some(srcs) =>
      var next := Put(news, prefs[idx], NewBucket(srcs, nextId, gen));
      AssembleStopsAtFailure(next, prefs, idx + 1, call0, nextId + IdsDrawn(srcs), fetch, gen);
  }

  /** A whole assembly makes one fetch per preference, or stops after a failed one. */
  lemma AssembleCalls(prefs: seq<string>, call0: nat, nextId: nat, fetch: Fetcher, gen: IdSource)
    ensures var o := AssembleFrom([], prefs, 0, call0, nextId, fetch, gen);
      && (o.Assembled? ==> o.calls == |prefs|)
      && (o.FetchFailed? ==> 0 < o.calls <= |prefs|)
  {
    AssembleSucceedsIff([], prefs, 0, call0, nextId, fetch, gen);
    if AssembleFrom([], prefs, 0, call0, nextId, fetch, gen).FetchFailed? {
      AssembleStopsAtFailure([], prefs, 0, call0, nextId, fetch, gen);
    }
  }

  /** The whole assembly for a preference list. */
  function Assemble(prefs: seq<string>, call0: nat, nextId: nat, fetch: Fetcher, gen: IdSource): (r: Outcome)
    ensures r.Assembled? ==> r.calls == |prefs|
    ensures r.FetchFailed? ==> 0 < r.calls <= |prefs|
  {
    AssembleCalls(prefs, call0, nextId, fetch, gen);
    AssembleFrom([], prefs, 0, call0, nextId, fetch, gen)
  }
}
