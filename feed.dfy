/**
 * The cached feed: an ordered dictionary from preference topic to a bucket
 * of articles. The dictionary is a sequence of (topic, bucket) pairs whose
 * order is the order in which `for..in` visits the topics.
 */
module Feeds {
  import opened Wrappers

  /** The two article flags the core assigns and updates. */
  datatype Flag = Read | Favorite {
    /** The property name used for the flag on an article. */
    function Name(): string {
      match this
      case Read => "read"
      case Favorite => "favorite"
    }
  }

  datatype Article = Article(
    id: string,
    read: bool,
    favorite: bool,
    title: string,
    description: string,
    content: string,
    url: string,
    publishedAt: string)
  {
    /** `article[flag]`. */
    function Get(flag: Flag): bool {
      match flag
      case Read => read
      case Favorite => favorite
    }

    /** `article[flag] = true`. */
    function Set(flag: Flag): (a: Article)
      ensures a.Get(flag)
      ensures flag == Read ==> a.favorite == favorite
      ensures flag == Favorite ==> a.read == read
      ensures a.id == id && a.title == title && a.description == description
      ensures a.content == content && a.url == url && a.publishedAt == publishedAt
    {
      match flag
      case Read => this.(read := true)
      case Favorite => this.(favorite := true)
    }
  }

  /** A topic bucket. Assembled buckets carry a generated id; filtered ones do not. */
  datatype Bucket = Bucket(id: Option<string>, articles: seq<Article>)

  type Feed = seq<(string, Bucket)>

  /** The keys of a JavaScript object are distinct. */
  ghost predicate WellFormed(f: Feed) {
    forall i, j :: 0 <= i < j < |f| ==> f[i].0 != f[j].0
  }

  function Keys(f: Feed): (ks: seq<string>)
    ensures |ks| == |f|
    ensures forall i :: 0 <= i < |f| ==> ks[i] == f[i].0
  {
    if f == [] then [] else [f[0].0] + Keys(f[1..])
  }

  /** `news[key]`: the bucket stored under `key`, if any. */
  function Lookup(f: Feed, key: string): (r: Option<Bucket>)
    ensures r.None? <==> key !in Keys(f)
  {
    if f == [] then None
    else if f[0].0 == key then Some(f[0].1)
    else Lookup(f[1..], key)
  }

  /** Looking a key up in a feed extended at the end: earlier entries win. */
  lemma {:induction false} LookupAppend(f: Feed, key: string, b: Bucket, k: string)
    ensures Lookup(f + [(key, b)], k)
         == if k in Keys(f) then Lookup(f, k) else if k == key then Some(b) else None
  {
    if f != [] {
      assert (f + [(key, b)])[1..] == f[1..] + [(key, b)];
      LookupAppend(f[1..], key, b, k);
    }
  }

  lemma KeysAppend(f: Feed, g: Feed)
    ensures Keys(f + g) == Keys(f) + Keys(g)
  {
  }

  /**
   * `news[key] = bucket`: an existing key keeps its place and gets the new
   * bucket; a new key is added at the end.
   */
  function Put(f: Feed, key: string, b: Bucket): Feed
  {
    if f == [] then [(key, b)]
    else if f[0].0 == key then [(key, b)] + f[1..]
    else [f[0]] + Put(f[1..], key, b)
  }

  /** Reading a key back after writing it gives the written bucket; other keys are untouched. */
  lemma {:induction false} PutLookup(f: Feed, key: string, b: Bucket, other: string)
    ensures Lookup(Put(f, key, b), key) == Some(b)
    ensures other != key ==> Lookup(Put(f, key, b), other) == Lookup(f, other)
  {
    if f != [] && f[0].0 != key {
      PutLookup(f[1..], key, b, other);
    }
  }

  /** The keys after a write are the keys before it and the written key. */
  lemma PutKeys(f: Feed, key: string, b: Bucket, k: string)
    ensures k in Keys(Put(f, key, b)) <==> k in Keys(f) || k == key
  {
    PutLookup(f, key, b, k);
  }

  /** Writing an existing key replaces its bucket where it stands. */
  lemma {:induction false} PutReplaces(f: Feed, key: string, b: Bucket, i: nat)
    requires WellFormed(f)
    requires i < |f| && f[i].0 == key
    ensures Put(f, key, b) == f[i := (key, b)]
  {
    if i > 0 {
      assert f[0].0 != key;
      PutReplaces(f[1..], key, b, i - 1);
      assert f[1..][i - 1 := (key, b)] == f[i := (key, b)][1..];
    }
  }

  /** Writing a new key appends it. */
  lemma {:induction false} PutAppends(f: Feed, key: string, b: Bucket)
    requires key !in Keys(f)
    ensures Put(f, key, b) == f + [(key, b)]
  {
    if f != [] {
      assert f[0].0 != key;
      PutAppends(f[1..], key, b);
      assert [f[0]] + (f[1..] + [(key, b)]) == f + [(key, b)];
    }
  }

  /** Writing a key keeps the keys of the object distinct. */
  lemma PutWellFormed(f: Feed, key: string, b: Bucket)
    requires WellFormed(f)
    ensures WellFormed(Put(f, key, b))
  {
    if key in Keys(f) {
      var i :| 0 <= i < |f| && Keys(f)[i] == key;
      PutReplaces(f, key, b, i);
    } else {
      PutAppends(f, key, b);
    }
  }

  /** Writing the entries of `es` one after another, in order. */
  function PutAll(f: Feed, es: Feed): Feed
    decreases |es|
  {
    if es == [] then f else PutAll(Put(f, es[0].0, es[0].1), es[1..])
  }

  /** After a series of writes the keys are the old keys and the written ones. */
  lemma {:induction false} PutAllKeys(f: Feed, es: Feed, k: string)
    ensures k in Keys(PutAll(f, es)) <==> k in Keys(f) || k in Keys(es)
    decreases |es|
  {
    if es != [] {
      PutKeys(f, es[0].0, es[0].1, k);
      PutAllKeys(Put(f, es[0].0, es[0].1), es[1..], k);
      assert Keys(es) == [es[0].0] + Keys(es[1..]);
    }
  }

  /** A series of writes keeps the keys distinct. */
  lemma {:induction false} PutAllWellFormed(f: Feed, es: Feed)
    requires WellFormed(f)
    ensures WellFormed(PutAll(f, es))
    decreases |es|
  {
    if es != [] {
      PutWellFormed(f, es[0].0, es[0].1);
      PutAllWellFormed(Put(f, es[0].0, es[0].1), es[1..]);
    }
  }

  /** Writing distinct new keys appends their entries in order. */
  lemma {:induction false} PutAllAppends(f: Feed, es: Feed)
    requires WellFormed(es)
    requires forall i :: 0 <= i < |es| ==> es[i].0 !in Keys(f)
    ensures PutAll(f, es) == f + es
    decreases |es|
  {
    if es != [] {
      PutAppends(f, es[0].0, es[0].1);
      var next := f + [es[0]];
      KeysAppend(f, [es[0]]);
      forall i | 0 <= i < |es[1..]|
        ensures es[1..][i].0 !in Keys(next)
      {
        assert es[1..][i] == es[i + 1];
      }
      PutAllAppends(next, es[1..]);
      assert next + es[1..] == f + es;
    }
  }

  /**
   * The parsed JSON object of a cached feed, which the state mutator
   * updates in place.
   */
  class FeedObject {
    var buckets: Feed

    constructor (f: Feed)
      ensures buckets == f
    {
      buckets := f;
    }
  }
}
