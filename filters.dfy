/**
 * The two feed filters: by a flag (`read`, `favorite`) and by a keyword in
 * the lower-cased title or description. Both build a new feed and drop
 * every bucket left without articles.
 */
module Filters {
  import opened Wrappers
  import opened Strings
  import opened Feeds
  import opened ArticleState

  /** What a filter keeps. */
  datatype Criterion = ByFlag(flag: Flag) | ByKeyword(keyword: string)

  /** The keyword occurs in the lower-cased title or the lower-cased description; the content is not searched. */
  predicate KeywordMatch(a: Article, keyword: string) {
    Contains(Lower(a.title), keyword) || Contains(Lower(a.description), keyword)
  }

  predicate Keeps(c: Criterion, a: Article) {
    match c
    case ByFlag(flag) => a.Get(flag)
    case ByKeyword(keyword) => KeywordMatch(a, keyword)
  }

  /** `t` can be obtained from `s` by deleting elements. */
  ghost predicate IsSubsequence<T>(t: seq<T>, s: seq<T>)
    decreases |s|
  {
    t == [] ||
    (s != [] &&
      ((t[|t| - 1] == s[|s| - 1] && IsSubsequence(t[..|t| - 1], s[..|s| - 1]))
       || IsSubsequence(t, s[..|s| - 1])))
  }

  lemma {:induction false} SubsequenceMembers<T>(t: seq<T>, s: seq<T>)
    requires IsSubsequence(t, s)
    ensures forall x :: x in t ==> x in s
    ensures (forall i, j :: 0 <= i < j < |s| ==> s[i] != s[j])
        ==> (forall i, j :: 0 <= i < j < |t| ==> t[i] != t[j])
    decreases |s|
  {
    if t != [] {
      var t', s' := t[..|t| - 1], s[..|s| - 1];
      assert t == t' + [t[|t| - 1]];
      if t[|t| - 1] == s[|s| - 1] && IsSubsequence(t', s') {
        SubsequenceMembers(t', s');
        assert s == s' + [s[|s| - 1]];
        if forall i, j :: 0 <= i < j < |s| ==> s[i] != s[j] {
          assert forall i :: 0 <= i < |s'| ==> s'[i] != s[|s| - 1];
          assert t[|t| - 1] !in t';
        }
      } else {
        SubsequenceMembers(t, s');
      }
    }
  }

  /** The articles of a bucket that the criterion keeps, in their order. */
  function FilterArticles(arts: seq<Article>, c: Criterion): seq<Article>
    decreases |arts|
  {
    if arts == [] then []
    else
      var last := arts[|arts| - 1];
      FilterArticles(arts[..|arts| - 1], c) + if Keeps(c, last) then [last] else []
  }

  /** The filter keeps each article the criterion accepts as often as it occurs, and none of the others. */
  lemma {:induction false} FilterArticlesCounts(arts: seq<Article>, c: Criterion)
    ensures forall a :: multiset(FilterArticles(arts, c))[a] == if Keeps(c, a) then multiset(arts)[a] else 0
    decreases |arts|
  {
    if arts != [] {
      var init, last := arts[..|arts| - 1], arts[|arts| - 1];
      assert arts == init + [last];
      assert multiset(arts) == multiset(init) + multiset{last};
      FilterArticlesCounts(init, c);
    }
  }

  /** The kept articles keep their original order. */
  lemma {:induction false} FilterArticlesOrder(arts: seq<Article>, c: Criterion)
    ensures IsSubsequence(FilterArticles(arts, c), arts)
    decreases |arts|
  {
    if arts != [] {
      var init, last := arts[..|arts| - 1], arts[|arts| - 1];
      FilterArticlesOrder(init, c);
      var r := FilterArticles(arts, c);
      if Keeps(c, last) {
        assert r == FilterArticles(init, c) + [last];
        assert r[..|r| - 1] == FilterArticles(init, c) && r[|r| - 1] == last;
        assert IsSubsequence(r[..|r| - 1], arts[..|arts| - 1]);
        assert r[|r| - 1] == arts[|arts| - 1];
        assert r != [] && arts != [];
        assert IsSubsequence(r, arts);
      } else {
        assert r == FilterArticles(init, c);
        assert IsSubsequence(r, arts[..|arts| - 1]);
      }
    }
  }

  /** An article is in the filtered bucket exactly when it is in the bucket and the criterion keeps it. */
  lemma FilterArticlesMembers(arts: seq<Article>, c: Criterion)
    ensures forall a :: a in FilterArticles(arts, c) <==> a in arts && Keeps(c, a)
  {
  }

  lemma {:induction false} FilterArticlesNone(arts: seq<Article>, c: Criterion)
    requires forall j :: 0 <= j < |arts| ==> !Keeps(c, arts[j])
    ensures FilterArticles(arts, c) == []
    decreases |arts|
  {
    if arts != [] {
      FilterArticlesNone(arts[..|arts| - 1], c);
    }
  }

  /** The bucket a filter emits for `b`: only the kept articles, no id; none if nothing is kept. */
  function FilterBucket(b: Bucket, c: Criterion): Option<Bucket> {
    var kept := FilterArticles(b.articles, c);
    if kept == [] then None else Some(Bucket(None, kept))
  }

  /** The filtered feed, built bucket by bucket in the feed's order. */
  function FilterFeed(f: Feed, c: Criterion): (r: Feed)
    ensures |r| <= |f|
    decreases |f|
  {
    if f == [] then []
    else
      var last := f[|f| - 1];
      var rest := FilterFeed(f[..|f| - 1], c);
      match FilterBucket(last.1, c)
      case None => rest
      case Some(b) => rest + [(last.0, b)]
  }

  /** No filtered bucket is empty or carries a bucket id. */
  lemma {:induction false} FilterFeedBuckets(f: Feed, c: Criterion)
    ensures forall i :: 0 <= i < |FilterFeed(f, c)| ==>
      FilterFeed(f, c)[i].1.id == None && FilterFeed(f, c)[i].1.articles != []
    decreases |f|
  {
    if f != [] {
      FilterFeedBuckets(f[..|f| - 1], c);
    }
  }

  /** The filtered topics are some of the input's topics, in the input's order. */
  lemma {:induction false} FilterFeedTopics(f: Feed, c: Criterion)
    ensures IsSubsequence(Keys(FilterFeed(f, c)), Keys(f))
    decreases |f|
  {
    if f != [] {
      var init, last := f[..|f| - 1], f[|f| - 1];
      FilterFeedTopics(init, c);
      var rest := FilterFeed(init, c);
      assert f == init + [last];
      KeysAppend(init, [last]);
      var kf := Keys(f);
      assert kf[..|kf| - 1] == Keys(init);
      match FilterBucket(last.1, c)
      case None =>
        assert IsSubsequence(Keys(rest), kf[..|kf| - 1]);
      case Some(b) =>
        KeysAppend(rest, [(last.0, b)]);
        var kr := Keys(rest + [(last.0, b)]);
        assert kr[..|kr| - 1] == Keys(rest) && kr[|kr| - 1] == kf[|kf| - 1];
    }
  }

  /** Filtering keeps the keys distinct and adds no topic. */
  lemma FilterFeedKeys(f: Feed, c: Criterion)
    ensures forall k :: k in Keys(FilterFeed(f, c)) ==> k in Keys(f)
    ensures WellFormed(f) ==> WellFormed(FilterFeed(f, c))
  {
    var r := FilterFeed(f, c);
    FilterFeedTopics(f, c);
    SubsequenceMembers(Keys(r), Keys(f));
    if WellFormed(f) {
      assert forall i, j :: 0 <= i < j < |f| ==> Keys(f)[i] != Keys(f)[j];
      assert forall i, j :: 0 <= i < j < |r| ==> Keys(r)[i] != Keys(r)[j];
    }
  }

  /**
   * Looking a topic up in the filtered feed gives the filtered bucket of
   * that topic, or nothing when the topic is absent or keeps no article.
   */
  lemma {:induction false} FilterFeedLookup(f: Feed, c: Criterion, k: string)
    requires WellFormed(f)
    ensures Lookup(FilterFeed(f, c), k)
         == match Lookup(f, k) case None => None case Some(b) => FilterBucket(b, c)
    decreases |f|
  {
    if f != [] {
      var init, last := f[..|f| - 1], f[|f| - 1];
      assert f == init + [last];
      FilterFeedLookup(init, c, k);
      var rest := FilterFeed(init, c);
      FilterFeedKeys(init, c);
      LookupAppend(init, last.0, last.1, k);
      assert last.0 !in Keys(init);
      match FilterBucket(last.1, c)
      case None =>
      case Some(b) =>
        LookupAppend(rest, last.0, b, k);
    }
  }

  lemma {:induction false} FilterArticlesAppend(a: seq<Article>, b: seq<Article>, c: Criterion)
    ensures FilterArticles(a + b, c) == FilterArticles(a, c) + FilterArticles(b, c)
    decreases |b|
  {
    if b == [] {
      assert a + b == a;
    } else {
      var b', x := b[..|b| - 1], b[|b| - 1];
      assert (a + b)[..|a + b| - 1] == a + b';
      assert (a + b)[|a + b| - 1] == x;
      FilterArticlesAppend(a, b', c);
      var tail := if Keeps(c, x) then [x] else [];
      calc {
        FilterArticles(a + b, c);
        FilterArticles(a + b', c) + tail;
        FilterArticles(a, c) + FilterArticles(b', c) + tail;
        FilterArticles(a, c) + (FilterArticles(b', c) + tail);
        FilterArticles(a, c) + FilterArticles(b, c);
      }
    }
  }

  lemma {:induction false} FilterFeedAppend(f: Feed, g: Feed, c: Criterion)
    ensures FilterFeed(f + g, c) == FilterFeed(f, c) + FilterFeed(g, c)
    decreases |g|
  {
    if g == [] {
      assert f + g == f;
    } else {
      var g', x := g[..|g| - 1], g[|g| - 1];
      assert (f + g)[..|f + g| - 1] == f + g';
      assert (f + g)[|f + g| - 1] == x;
      FilterFeedAppend(f, g', c);
      var tail := match FilterBucket(x.1, c) case None => [] case Some(b) => [(x.0, b)];
      calc {
        FilterFeed(f + g, c);
        FilterFeed(f + g', c) + tail;
        FilterFeed(f, c) + FilterFeed(g', c) + tail;
        FilterFeed(f, c) + (FilterFeed(g', c) + tail);
        FilterFeed(f, c) + FilterFeed(g, c);
      }
    }
  }

  /** A filter over buckets none of whose articles is kept yields the empty feed. */
  lemma {:induction false} FilterFeedNothingKept(f: Feed, c: Criterion)
    requires forall i, j :: 0 <= i < |f| && 0 <= j < |f[i].1.articles| ==> !Keeps(c, f[i].1.articles[j])
    ensures FilterFeed(f, c) == []
    decreases |f|
  {
    if f != [] {
      FilterFeedNothingKept(f[..|f| - 1], c);
      FilterArticlesNone(f[|f| - 1].1.articles, c);
    }
  }

  /** Only the article at index `j` is kept. */
  lemma FilterArticlesSingle(arts: seq<Article>, c: Criterion, j: nat)
    requires j < |arts| && Keeps(c, arts[j])
    requires forall k :: 0 <= k < |arts| && k != j ==> !Keeps(c, arts[k])
    ensures FilterArticles(arts, c) == [arts[j]]
  {
    var a, b := arts[..j], arts[j + 1..];
    assert arts == a + [arts[j]] + b;
    FilterArticlesAppend(a + [arts[j]], b, c);
    FilterArticlesAppend(a, [arts[j]], c);
    assert FilterArticles([arts[j]], c) == [arts[j]] by {
      assert [arts[j]][..0] == [];
    }
    FilterArticlesNone(a, c);
    assert forall k :: 0 <= k < |b| ==> b[k] == arts[j + 1 + k];
    FilterArticlesNone(b, c);
  }

  /**
   * Marking an article in a feed where no article yet carries the flag, and
   * then filtering by that flag, yields exactly the marked article under its
   * own topic.
   */
  lemma MarkThenFilter(f: Feed, id: string, flag: Flag)
    requires forall p :: ValidPos(f, p) ==> !At(f, p).Get(flag)
    requires Mark(f, id, flag).Some?
    ensures FilterFeed(Mark(f, id, flag).value, ByFlag(flag))
         == [(f[FindArticle(f, id).value.bucket].0, Bucket(None, [At(f, FindArticle(f, id).value).Set(flag)]))]
  {
    var p := FindArticle(f, id).value;
    MarkedOnlyAt(f, p, flag);
    OnlyFlagged(Mark(f, id, flag).value, p, flag);
  }

  /** A feed in which exactly one article carries the flag filters to that article under its topic. */
  lemma OnlyFlagged(g: Feed, p: Position, flag: Flag)
    requires ValidPos(g, p) && At(g, p).Get(flag)
    requires forall q :: ValidPos(g, q) && q != p ==> !At(g, q).Get(flag)
    ensures FilterFeed(g, ByFlag(flag)) == [(g[p.bucket].0, Bucket(None, [At(g, p)]))]
  {
    var c := ByFlag(flag);
    var before, here, after := g[..p.bucket], g[p.bucket], g[p.bucket + 1..];
    assert g == before + [here] + after;
    FilterFeedAppend(before + [here], after, c);
    FilterFeedAppend(before, [here], c);
    UnflaggedSlice(g, 0, p.bucket, p, flag);
    assert g[0..p.bucket] == before;
    UnflaggedSlice(g, p.bucket + 1, |g|, p, flag);
    assert g[p.bucket + 1..|g|] == after;
    forall k | 0 <= k < |here.1.articles| && k != p.index
      ensures !Keeps(c, here.1.articles[k])
    {
      assert At(g, Position(p.bucket, k)) == here.1.articles[k];
    }
    FilterArticlesSingle(here.1.articles, c, p.index);
    assert [here][..0] == [];
  }

  /** After setting a flag no article had, exactly the article at `p` carries it. */
  lemma MarkedOnlyAt(f: Feed, p: Position, flag: Flag)
    requires ValidPos(f, p)
    requires forall q :: ValidPos(f, q) ==> !At(f, q).Get(flag)
    ensures SameShape(f, SetFlag(f, p, flag))
    ensures ValidPos(SetFlag(f, p, flag), p) && At(SetFlag(f, p, flag), p) == At(f, p).Set(flag)
    ensures forall q :: ValidPos(SetFlag(f, p, flag), q) && q != p ==> !At(SetFlag(f, p, flag), q).Get(flag)
  {
  }

  /** Buckets `lo` to `hi` of a feed whose only flagged article sits outside them filter to nothing. */
  lemma UnflaggedSlice(g: Feed, lo: nat, hi: nat, p: Position, flag: Flag)
    requires lo <= hi <= |g| && (p.bucket < lo || hi <= p.bucket)
    requires forall q :: ValidPos(g, q) && q != p ==> !At(g, q).Get(flag)
    ensures FilterFeed(g[lo..hi], ByFlag(flag)) == []
  {
    var s := g[lo..hi];
    forall i, j | 0 <= i < |s| && 0 <= j < |s[i].1.articles|
      ensures !Keeps(ByFlag(flag), s[i].1.articles[j])
    {
      var q := Position(lo + i, j);
      assert ValidPos(g, q) && q != p;
      assert At(g, q) == s[i].1.articles[j];
    }
    FilterFeedNothingKept(s, ByFlag(flag));
  }

  // ---------------------------------------------------------------------
  // The filters as written
  // ---------------------------------------------------------------------

  /** The error JavaScript raises when assigning a property of `undefined`. */
  datatype TypeError = TypeError(message: string)

  const SetArticlesOfUndefined := TypeError("Cannot set properties of undefined (setting 'articles')")

  /** String-named properties a Node.js array inherits from Array.prototype but a plain object does not have. */
  const ArrayOnlyProperties: set<string> := {
    "at", "concat", "copyWithin", "entries", "every", "fill", "filter", "find",
    "findIndex", "findLast", "findLastIndex", "flat", "flatMap", "forEach", "includes", "indexOf",
    "join", "keys", "lastIndexOf", "map", "pop", "push", "reduce", "reduceRight", "reverse",
    "shift", "slice", "some", "sort", "splice", "toReversed", "toSorted",
    "toSpliced", "unshift", "values", "with"
  }

  /** String-named properties every object, plain or array, inherits from Object.prototype; all are truthy. */
  const ObjectPrototypeProperties: set<string> := {
    "constructor", "toString", "toLocaleString", "valueOf",
    "hasOwnProperty", "isPrototypeOf", "propertyIsEnumerable",
    "__defineGetter__", "__defineSetter__", "__lookupGetter__", "__lookupSetter__", "__proto__"
  }

  predicate IsDigit(ch: char) {
    '0' as int <= ch as int <= '9' as int
  }

  /** A canonical array index: decimal digits without a leading zero. */
  predicate IsIndexKey(k: string) {
    k != [] && (forall i :: 0 <= i < |k| ==> IsDigit(k[i])) && (k[0] == '0' ==> |k| == 1)
  }

  function DecimalValue(k: string): nat
    requires forall i :: 0 <= i < |k| ==> IsDigit(k[i])
    decreases |k|
  {
    if k == [] then 0
    else
      assert IsDigit(k[|k| - 1]);
      10 * DecimalValue(k[..|k| - 1]) + (k[|k| - 1] as int - '0' as int)
  }

  /** `arr[key]` is truthy for a non-empty array of article objects. */
  predicate ArrayPropertyTruthy(arr: seq<Article>, key: string) {
    (key == "length" && arr != [])
    || (IsIndexKey(key) && DecimalValue(key) < |arr|)
    || key in ArrayOnlyProperties
    || key in ObjectPrototypeProperties
  }

  /**
   * The filter loop as written: it tests `filteredArticles[preference]`
   * where `filteredNews[preference]` is meant. When that array property is
   * truthy the output bucket is not created, and the following assignment
   * `filteredNews[preference].articles = ...` then depends on what the
   * plain output object holds under that name: nothing for `length`, an
   * index or an array-only method name, so the assignment throws; an
   * inherited Object.prototype member for the other names, so the
   * assignment lands on that built-in and the topic is silently missing
   * from the result.
   */
  function FilterFeedAsWritten(f: Feed, c: Criterion): (r: Result<Feed, TypeError>)
    ensures r.Success? ==> |r.value| <= |f|
    decreases |f|
  {
    if f == [] then Success([])
    else
      var init, last := f[..|f| - 1], f[|f| - 1];
      match FilterFeedAsWritten(init, c)
      case Failure(e) => Failure(e)
      case Success(rest) =>
        var kept := FilterArticles(last.1.articles, c);
        if kept == [] then Success(rest)
        else if last.0 in ObjectPrototypeProperties then Success(rest)
        else if ArrayPropertyTruthy(kept, last.0) then Failure(SetArticlesOfUndefined)
        else Success(rest + [(last.0, Bucket(None, kept))])
  }

  /** On topics that name no property of an array or of Object.prototype, the code as written agrees with the corrected filter. */
  lemma {:induction false} AsWrittenAgrees(f: Feed, c: Criterion)
    requires forall i :: 0 <= i < |f| ==>
      && f[i].0 != "length" && !IsIndexKey(f[i].0)
      && f[i].0 !in ArrayOnlyProperties && f[i].0 !in ObjectPrototypeProperties
    ensures FilterFeedAsWritten(f, c) == Success(FilterFeed(f, c))
    decreases |f|
  {
    if f != [] {
      AsWrittenAgrees(f[..|f| - 1], c);
    }
  }

  /** When the code as written does return, it returns some of the corrected filter's buckets, in order: it can only lose topics. */
  lemma {:induction false} AsWrittenLosesOnly(f: Feed, c: Criterion)
    requires FilterFeedAsWritten(f, c).Success?
    ensures IsSubsequence(FilterFeedAsWritten(f, c).value, FilterFeed(f, c))
    decreases |f|
  {
    if f != [] {
      var init, last := f[..|f| - 1], f[|f| - 1];
      AsWrittenLosesOnly(init, c);
      var rest := FilterFeedAsWritten(init, c).value;
      var good := FilterFeed(init, c);
      var kept := FilterArticles(last.1.articles, c);
      if kept != [] {
        var e := (last.0, Bucket(None, kept));
        assert FilterFeed(f, c) == good + [e];
        assert (good + [e])[..|good|] == good;
        if FilterFeedAsWritten(f, c).value == rest + [e] {
          assert (rest + [e])[..|rest|] == rest;
        }
      }
    }
  }

  /**
   * A feed whose only topic is "length" and whose one article is read: the
   * code as written throws, while the corrected filter returns that bucket.
   */
  lemma AsWrittenFailsOnLengthTopic(a: Article, id: Option<string>)
    requires a.read
    ensures FilterFeedAsWritten([("length", Bucket(id, [a]))], ByFlag(Read)) == Failure(SetArticlesOfUndefined)
    ensures FilterFeed([("length", Bucket(id, [a]))], ByFlag(Read)) == [("length", Bucket(None, [a]))]
  {
    var f := [("length", Bucket(id, [a]))];
    assert f[..0] == [];
    assert FilterArticles([a], ByFlag(Read)) == [a] by { assert [a][..0] == []; }
  }

  /**
   * A topic "0" whose bucket has a title matching the keyword: the keyword
   * search as written throws, while the corrected filter returns that bucket.
   */
  lemma AsWrittenFailsOnIndexTopic(a: Article, keyword: string)
    requires KeywordMatch(a, keyword)
    ensures FilterFeedAsWritten([("0", Bucket(None, [a]))], ByKeyword(keyword)) == Failure(SetArticlesOfUndefined)
    ensures FilterFeed([("0", Bucket(None, [a]))], ByKeyword(keyword)) == [("0", Bucket(None, [a]))]
  {
    var f := [("0", Bucket(None, [a]))];
    assert f[..0] == [];
    assert FilterArticles([a], ByKeyword(keyword)) == [a] by { assert [a][..0] == []; }
    assert DecimalValue("0") == 0 by { assert "0"[..0] == []; }
  }

  /**
   * A feed whose only topic is "toString" and whose one article is read:
   * the code as written returns without that topic (the articles are
   * written onto the inherited `Object.prototype.toString`), while the
   * corrected filter returns its bucket.
   */
  lemma AsWrittenDropsPrototypeTopic(a: Article, id: Option<string>)
    requires a.read
    ensures FilterFeedAsWritten([("toString", Bucket(id, [a]))], ByFlag(Read)) == Success([])
    ensures FilterFeed([("toString", Bucket(id, [a]))], ByFlag(Read)) == [("toString", Bucket(None, [a]))]
  {
    var f := [("toString", Bucket(id, [a]))];
    assert f[..0] == [];
    assert FilterArticles([a], ByFlag(Read)) == [a] by { assert [a][..0] == []; }
  }

  /** The example search: "ai" finds "AI breakthrough" in a title, but not an "ai" that only the content holds. */
  lemma KeywordExample(a: Article, b: Article)
    requires a.title == "AI breakthrough"
    requires b.title == "" && b.description == "" && b.content == "ai"
    ensures KeywordMatch(a, "ai")
    ensures !KeywordMatch(b, "ai")
  {
  }
}
