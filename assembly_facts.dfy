/**
 * Properties of the feed assembly: when it succeeds, which fetches it
 * makes, and the shape of the feed it builds.
 */
module AssemblyFacts {
  import opened Wrappers
  import opened Feeds
  import opened Assembly

  /** Seeding keeps the order and the number of articles; article `k` takes id number `nextId + k` unless it sends its own. */
  lemma {:induction false} SeedAllSpec(srcs: seq<FetchedArticle>, nextId: nat, gen: IdSource)
    ensures |SeedAll(srcs, nextId, gen)| == |srcs|
    ensures forall k :: 0 <= k < |srcs| ==> SeedAll(srcs, nextId, gen)[k] == Seed(srcs[k], gen(nextId + k))
  {
    if srcs != [] {
      SeedAllSpec(srcs[1..], nextId + 1, gen);
      var r := SeedAll(srcs, nextId, gen);
      forall k | 0 <= k < |srcs|
        ensures r[k] == Seed(srcs[k], gen(nextId + k))
      {
        if k > 0 {
          assert r[k] == SeedAll(srcs[1..], nextId + 1, gen)[k - 1];
        }
      }
    }
  }

  /** `slice(0, 10)` keeps exactly min(10, n) articles. */
  lemma TruncateLength(srcs: seq<FetchedArticle>)
    ensures |Truncate(srcs)| == if |srcs| <= MaxArticlesPerPreference then |srcs| else MaxArticlesPerPreference
  {
  }

  /** A new bucket is built from its answer. */
  lemma NewBucketFrom(srcs: seq<FetchedArticle>, nextId: nat, gen: IdSource)
    ensures BucketFrom(NewBucket(srcs, nextId, gen), srcs)
  {
    SeedAllSpec(Truncate(srcs), nextId + 1, gen);
  }

  /** Adding a bucket with an id and at most ten articles keeps a well-formed feed bounded. */
  lemma PutBounded(f: Feed, key: string, b: Bucket)
    requires WellFormed(f) && Bounded(f)
    requires b.id.Some? && |b.articles| <= MaxArticlesPerPreference
    ensures Bounded(Put(f, key, b))
  {
    if key in Keys(f) {
      var i :| 0 <= i < |f| && Keys(f)[i] == key;
      PutReplaces(f, key, b, i);
    } else {
      PutAppends(f, key, b);
    }
  }

  lemma {:induction false} PutAllBounded(f: Feed, es: Feed)
    requires WellFormed(f) && Bounded(f) && Bounded(es)
    ensures Bounded(PutAll(f, es))
    decreases |es|
  {
    if es != [] {
      PutBounded(f, es[0].0, es[0].1);
      PutWellFormed(f, es[0].0, es[0].1);
      PutAllBounded(Put(f, es[0].0, es[0].1), es[1..]);
    }
  }

  /** The number of ids a fetch answer uses up; a failed fetch uses none. */
  function Drawn(answer: Option<seq<FetchedArticle>>): nat {
    match answer
    case None => 0
    case Some(srcs) => IdsDrawn(srcs)
  }

  /** The ids used up by the preferences from `idx` up to (excluding) `i`. */
  function IdOffset(fetch: Fetcher, call0: nat, prefs: seq<string>, idx: nat, i: nat): nat
    requires i <= |prefs|
    decreases i - idx
  {
    if i <= idx then 0 else Drawn(Answer(fetch, call0, prefs, idx)) + IdOffset(fetch, call0, prefs, idx + 1, i)
  }

  /** One write of the assembly: a preference, the answer to its fetch and the first id number its bucket takes. */
  datatype Write = Write(pref: string, srcs: seq<FetchedArticle>, firstId: nat)

  /** The writes the preferences from `idx` on make, in order, when every fetch answers. */
  function Plan(prefs: seq<string>, idx: nat, call0: nat, nextId: nat, fetch: Fetcher): seq<Write>
    requires idx <= |prefs|
    decreases |prefs| - idx
  {
    if idx == |prefs| then []
    else
      var answer := Answer(fetch, call0, prefs, idx);
      [Write(prefs[idx], answer.GetOr([]), nextId)] + Plan(prefs, idx + 1, call0, nextId + Drawn(answer), fetch)
  }

  /** The feed entry one write puts. */
  function Entry(w: Write, gen: IdSource): (string, Bucket) {
    (w.pref, NewBucket(w.srcs, w.firstId, gen))
  }

  /** The feed entries a series of writes puts. */
  function Entries(plan: seq<Write>, gen: IdSource): Feed
  {
    if plan == [] then [] else [Entry(plan[0], gen)] + Entries(plan[1..], gen)
  }

  /** The writes the preferences from `idx` on make. */
  function Built(prefs: seq<string>, idx: nat, call0: nat, nextId: nat, fetch: Fetcher, gen: IdSource): Feed
    requires idx <= |prefs|
  {
    Entries(Plan(prefs, idx, call0, nextId, fetch), gen)
  }

  /** A successful assembly is the series of writes `Built` lists. */
  lemma {:induction false} AssembleIsPutAll(news: Feed, prefs: seq<string>, idx: nat, call0: nat, nextId: nat, fetch: Fetcher, gen: IdSource)
    requires idx <= |prefs|
    requires AssembleFrom(news, prefs, idx, call0, nextId, fetch, gen).Assembled?
    ensures AssembleFrom(news, prefs, idx, call0, nextId, fetch, gen).feed == PutAll(news, Built(prefs, idx, call0, nextId, fetch, gen))
    ensures AssembleFrom(news, prefs, idx, call0, nextId, fetch, gen).ids == nextId + IdOffset(fetch, call0, prefs, idx, |prefs|)
    decreases |prefs| - idx
  {
    if idx < |prefs| {
      var srcs := Answer(fetch, call0, prefs, idx).value;
      var plan := Plan(prefs, idx, call0, nextId, fetch);
      AssembleIsPutAll(Put(news, prefs[idx], NewBucket(srcs, nextId, gen)), prefs, idx + 1, call0, nextId + IdsDrawn(srcs), fetch, gen);
      assert plan[0] == Write(prefs[idx], srcs, nextId);
      assert plan[1..] == Plan(prefs, idx + 1, call0, nextId + IdsDrawn(srcs), fetch);
      assert Entries(plan, gen) == [Entry(plan[0], gen)] + Entries(plan[1..], gen);
    }
  }

  /** The written keys are the preferences, in order. */
  lemma {:induction false} PlanKeys(prefs: seq<string>, idx: nat, call0: nat, nextId: nat, fetch: Fetcher, i: nat)
    requires idx <= i < |prefs|
    ensures |Plan(prefs, idx, call0, nextId, fetch)| == |prefs| - idx
    ensures Plan(prefs, idx, call0, nextId, fetch)[i - idx]
      == Write(prefs[i], Answer(fetch, call0, prefs, i).GetOr([]), nextId + IdOffset(fetch, call0, prefs, idx, i))
    decreases |prefs| - idx
  {
    var answer := Answer(fetch, call0, prefs, idx);
    if i > idx {
      PlanKeys(prefs, idx + 1, call0, nextId + Drawn(answer), fetch, i);
    } else if idx + 1 < |prefs| {
      PlanKeys(prefs, idx + 1, call0, nextId + Drawn(answer), fetch, idx + 1);
    }
  }

  /** Entry `j` is the bucket write `j` builds. */
  lemma {:induction false} EntriesAt(plan: seq<Write>, gen: IdSource, j: nat)
    requires j < |plan|
    ensures |Entries(plan, gen)| == |plan|
    ensures Entries(plan, gen)[j] == Entry(plan[j], gen)
    decreases |plan|
  {
    if j > 0 {
      EntriesAt(plan[1..], gen, j - 1);
    } else if |plan| > 1 {
      EntriesAt(plan[1..], gen, 0);
    }
  }

  /** Write `i - idx` is the bucket for preference `i`, with the ids after those of the earlier preferences. */
  lemma BuiltAt(prefs: seq<string>, idx: nat, call0: nat, nextId: nat, fetch: Fetcher, gen: IdSource, i: nat)
    requires idx <= i < |prefs|
    ensures |Built(prefs, idx, call0, nextId, fetch, gen)| == |prefs| - idx
    ensures Built(prefs, idx, call0, nextId, fetch, gen)[i - idx]
      == (prefs[i], NewBucket(Answer(fetch, call0, prefs, i).GetOr([]), nextId + IdOffset(fetch, call0, prefs, idx, i), gen))
  {
    var plan := Plan(prefs, idx, call0, nextId, fetch);
    PlanKeys(prefs, idx, call0, nextId, fetch, i);
    EntriesAt(plan, gen, i - idx);
    var w := Write(prefs[i], Answer(fetch, call0, prefs, i).GetOr([]), nextId + IdOffset(fetch, call0, prefs, idx, i));
    assert plan[i - idx] == w;
    assert Entry(w, gen) == (prefs[i], NewBucket(w.srcs, w.firstId, gen));
  }

  /** The written keys are the preferences, in order. */
  lemma BuiltKeys(prefs: seq<string>, idx: nat, call0: nat, nextId: nat, fetch: Fetcher, gen: IdSource)
    requires idx <= |prefs|
    ensures Keys(Built(prefs, idx, call0, nextId, fetch, gen)) == prefs[idx..]
  {
    var es := Built(prefs, idx, call0, nextId, fetch, gen);
    if idx < |prefs| {
      BuiltAt(prefs, idx, call0, nextId, fetch, gen, idx);
    }
    forall i | idx <= i < |prefs|
      ensures Keys(es)[i - idx] == prefs[i]
    {
      BuiltAt(prefs, idx, call0, nextId, fetch, gen, i);
    }
  }

  /** A new bucket carries an id and at most ten articles. */
  lemma NewBucketBounded(srcs: seq<FetchedArticle>, nextId: nat, gen: IdSource)
    ensures NewBucket(srcs, nextId, gen).id.Some?
    ensures |NewBucket(srcs, nextId, gen).articles| <= MaxArticlesPerPreference
  {
    SeedAllSpec(Truncate(srcs), nextId + 1, gen);
  }

  /** Every built bucket carries an id and at most ten articles. */
  lemma EntriesBounded(plan: seq<Write>, gen: IdSource)
    ensures Bounded(Entries(plan, gen))
  {
    var es := Entries(plan, gen);
    if plan != [] {
      EntriesAt(plan, gen, 0);
    }
    forall j | 0 <= j < |es|
      ensures es[j].1.id.Some? && |es[j].1.articles| <= MaxArticlesPerPreference
    {
      EntriesAt(plan, gen, j);
      NewBucketBounded(plan[j].srcs, plan[j].firstId, gen);
    }
  }

  /** An assembled feed keeps its keys distinct, and every bucket carries an id and at most ten articles. */
  lemma AssembleWellFormed(news: Feed, prefs: seq<string>, idx: nat, call0: nat, nextId: nat, fetch: Fetcher, gen: IdSource)
    requires idx <= |prefs|
    requires WellFormed(news) && Bounded(news)
    requires AssembleFrom(news, prefs, idx, call0, nextId, fetch, gen).Assembled?
    ensures WellFormed(AssembleFrom(news, prefs, idx, call0, nextId, fetch, gen).feed)
    ensures Bounded(AssembleFrom(news, prefs, idx, call0, nextId, fetch, gen).feed)
  {
    AssembleIsPutAll(news, prefs, idx, call0, nextId, fetch, gen);
    var es := Built(prefs, idx, call0, nextId, fetch, gen);
    PutAllWellFormed(news, es);
    EntriesBounded(Plan(prefs, idx, call0, nextId, fetch), gen);
    PutAllBounded(news, es);
  }

  /** A key is in the assembled feed exactly when it was there before or is one of the preferences. */
  lemma AssembleKeySet(news: Feed, prefs: seq<string>, idx: nat, call0: nat, nextId: nat, fetch: Fetcher, gen: IdSource, k: string)
    requires idx <= |prefs|
    requires AssembleFrom(news, prefs, idx, call0, nextId, fetch, gen).Assembled?
    ensures k in Keys(AssembleFrom(news, prefs, idx, call0, nextId, fetch, gen).feed) <==> k in Keys(news) || k in prefs[idx..]
  {
    AssembleIsPutAll(news, prefs, idx, call0, nextId, fetch, gen);
    PutAllKeys(news, Built(prefs, idx, call0, nextId, fetch, gen), k);
    BuiltKeys(prefs, idx, call0, nextId, fetch, gen);
  }

  /**
   * With distinct preferences that are new to the feed, assembly only
   * appends, one bucket per preference, after the buckets it started with.
   */
  lemma AssembleAppends(news: Feed, prefs: seq<string>, idx: nat, call0: nat, nextId: nat, fetch: Fetcher, gen: IdSource)
    requires idx <= |prefs|
    requires forall i, j :: idx <= i < j < |prefs| ==> prefs[i] != prefs[j]
    requires forall i :: idx <= i < |prefs| ==> prefs[i] !in Keys(news)
    requires AssembleFrom(news, prefs, idx, call0, nextId, fetch, gen).Assembled?
    ensures AssembleFrom(news, prefs, idx, call0, nextId, fetch, gen).feed == news + Built(prefs, idx, call0, nextId, fetch, gen)
  {
    AssembleIsPutAll(news, prefs, idx, call0, nextId, fetch, gen);
    var es := Built(prefs, idx, call0, nextId, fetch, gen);
    BuiltKeys(prefs, idx, call0, nextId, fetch, gen);
    forall i | 0 <= i < |es|
      ensures es[i].0 == prefs[idx + i]
    {
      assert Keys(es)[i] == es[i].0;
    }
    PutAllAppends(news, es);
  }

  /** ... so the bucket for preference `i` sits at position `i` after the starting ones and holds the first ten articles of its answer, seeded, under a bucket id. */
  lemma AssembleBuckets(news: Feed, prefs: seq<string>, idx: nat, call0: nat, nextId: nat, fetch: Fetcher, gen: IdSource, i: nat)
    requires idx <= i < |prefs|
    requires forall i, j :: idx <= i < j < |prefs| ==> prefs[i] != prefs[j]
    requires forall i :: idx <= i < |prefs| ==> prefs[i] !in Keys(news)
    requires AssembleFrom(news, prefs, idx, call0, nextId, fetch, gen).Assembled?
    ensures Answer(fetch, call0, prefs, i).Some?
    ensures var f := AssembleFrom(news, prefs, idx, call0, nextId, fetch, gen).feed;
      && |f| == |news| + |prefs| - idx
      && f[|news| + i - idx].0 == prefs[i]
      && BucketFrom(f[|news| + i - idx].1, Answer(fetch, call0, prefs, i).value)
  {
    AssembleAppends(news, prefs, idx, call0, nextId, fetch, gen);
    AssembleSucceedsIff(news, prefs, idx, call0, nextId, fetch, gen);
    BuiltAt(prefs, idx, call0, nextId, fetch, gen, i);
    NewBucketFrom(Answer(fetch, call0, prefs, i).value, nextId + IdOffset(fetch, call0, prefs, idx, i), gen);
  }
}
