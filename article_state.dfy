/**
 * The read/favorite state transition: find the first article with a given
 * id, scanning buckets in order and articles in order within a bucket, and
 * set one flag on it.
 */
module ArticleState {
  import opened Wrappers
  import opened Feeds

  /** Where an article sits: the bucket's index in the feed and the article's index in the bucket. */
  datatype Position = Position(bucket: nat, index: nat)

  ghost predicate ValidPos(f: Feed, p: Position) {
    p.bucket < |f| && p.index < |f[p.bucket].1.articles|
  }

  function At(f: Feed, p: Position): Article
    requires ValidPos(f, p)
  {
    f[p.bucket].1.articles[p.index]
  }

  /** `p` is visited before `q` by the nested scan. */
  ghost predicate Before(p: Position, q: Position) {
    p.bucket < q.bucket || (p.bucket == q.bucket && p.index < q.index)
  }

  /** The index of the first article of `arts`, from `j` on, whose id is `id`. */
  function FirstIndexFrom(arts: seq<Article>, id: string, j: nat): (r: Option<nat>)
    requires j <= |arts|
    ensures r.Some? ==> (j <= r.value < |arts| && arts[r.value].id == id
      && forall k :: j <= k < r.value ==> arts[k].id != id)
    ensures r.None? ==> forall k :: j <= k < |arts| ==> arts[k].id != id
    decreases |arts| - j
  {
    if j == |arts| then None
    else if arts[j].id == id then Some(j)
    else FirstIndexFrom(arts, id, j + 1)
  }

  /** The first position, from bucket `i` on, holding an article whose id is `id`. */
  function FindFrom(f: Feed, id: string, i: nat): (r: Option<Position>)
    requires i <= |f|
    ensures r.Some? ==> (ValidPos(f, r.value) && i <= r.value.bucket && At(f, r.value).id == id
      && forall p :: ValidPos(f, p) && i <= p.bucket && Before(p, r.value) ==> At(f, p).id != id)
    ensures r.None? ==> forall p :: ValidPos(f, p) && i <= p.bucket ==> At(f, p).id != id
    decreases |f| - i
  {
    if i == |f| then None
    else
      match FirstIndexFrom(f[i].1.articles, id, 0)
      case Some(j) => Some(Position(i, j))
      case None => FindFrom(f, id, i + 1)
  }

  /**
   * The position the scan stops at: the first article, in bucket order and
   * then article order, whose id equals `id`; none when no article has it.
   */
  function FindArticle(f: Feed, id: string): (r: Option<Position>)
    ensures r.Some? ==> (ValidPos(f, r.value) && At(f, r.value).id == id
      && forall p :: ValidPos(f, p) && Before(p, r.value) ==> At(f, p).id != id)
    ensures r.None? <==> forall p :: ValidPos(f, p) ==> At(f, p).id != id
  {
    FindFrom(f, id, 0)
  }

  /** A matching position with no match before it is the one the scan stops at. */
  lemma FindArticleAt(f: Feed, id: string, p: Position)
    requires ValidPos(f, p) && At(f, p).id == id
    requires forall q :: ValidPos(f, q) && Before(q, p) ==> At(f, q).id != id
    ensures FindArticle(f, id) == Some(p)
  {
    var r := FindArticle(f, id);
    assert r.Some?;
    assert !Before(r.value, p);
    assert !Before(p, r.value);
  }

  /** Sets `flag` on the article at `p`. */
  function SetFlag(f: Feed, p: Position, flag: Flag): Feed
    requires ValidPos(f, p)
  {
    var (key, b) := f[p.bucket];
    f[p.bucket := (key, b.(articles := b.articles[p.index := b.articles[p.index].Set(flag)]))]
  }

  /** The feed after marking article `id` with `flag`; None when no article has that id. */
  function Mark(f: Feed, id: string, flag: Flag): (r: Option<Feed>)
    ensures r.None? <==> forall p :: ValidPos(f, p) ==> At(f, p).id != id
    ensures r.Some? ==> |r.value| == |f|
  {
    match FindArticle(f, id)
    case None => None
    case Some(p) => Some(SetFlag(f, p, flag))
  }

  /** Two feeds with the same keys, bucket ids and article ids; only article fields other than the id may differ. */
  ghost predicate SameShape(f: Feed, g: Feed) {
    && |f| == |g|
    && (forall i :: 0 <= i < |f| ==>
          f[i].0 == g[i].0 && f[i].1.id == g[i].1.id && |f[i].1.articles| == |g[i].1.articles|)
    && (forall p :: ValidPos(f, p) ==> At(f, p).id == At(g, p).id)
  }

  /**
   * Setting a flag changes only the article at `p`, and of that article only
   * the flag, which becomes true; keys, bucket ids and all other articles stay.
   */
  lemma SetFlagFrame(f: Feed, p: Position, flag: Flag)
    requires ValidPos(f, p)
    ensures SameShape(f, SetFlag(f, p, flag))
    ensures forall q :: ValidPos(f, q) ==>
      At(SetFlag(f, p, flag), q) == if q == p then At(f, p).Set(flag) else At(f, q)
    ensures WellFormed(f) ==> WellFormed(SetFlag(f, p, flag))
  {
    var g := SetFlag(f, p, flag);
    forall q | ValidPos(f, q)
      ensures At(g, q) == if q == p then At(f, p).Set(flag) else At(f, q)
    {
      if q.bucket == p.bucket && q.index != p.index {
        assert q != p;
      }
    }
  }

  /** The scan's answer depends only on the feed's shape and article ids. */
  lemma {:induction false} FindSameShape(f: Feed, g: Feed, id: string)
    requires SameShape(f, g)
    ensures FindArticle(f, id) == FindArticle(g, id)
  {
    var r, s := FindArticle(f, id), FindArticle(g, id);
    if r.Some? {
      assert ValidPos(g, r.value) && At(g, r.value).id == id;
    }
    if s.Some? {
      assert ValidPos(f, s.value) && At(f, s.value).id == id;
    }
    if r.Some? && s.Some? {
      assert !Before(r.value, s.value);
      assert !Before(s.value, r.value);
    }
  }

  /** Setting a flag that is already set changes nothing. */
  lemma SetFlagNoop(f: Feed, p: Position, flag: Flag)
    requires ValidPos(f, p) && At(f, p).Get(flag)
    ensures SetFlag(f, p, flag) == f
  {
    var (key, b) := f[p.bucket];
    assert b.articles[p.index].Set(flag) == b.articles[p.index];
    assert b.articles[p.index := b.articles[p.index]] == b.articles;
    assert (key, b.(articles := b.articles)) == f[p.bucket];
  }

  /** An unknown id leaves no feed to write; a known one yields a feed of the same shape with the flag set. */
  lemma MarkOutcome(f: Feed, id: string, flag: Flag)
    ensures Mark(f, id, flag).None? <==> forall p :: ValidPos(f, p) ==> At(f, p).id != id
    ensures Mark(f, id, flag).Some? ==>
      var p := FindArticle(f, id).value;
      && SameShape(f, Mark(f, id, flag).value)
      && At(Mark(f, id, flag).value, p) == At(f, p).Set(flag)
      && (forall q :: ValidPos(f, q) && q != p ==> At(Mark(f, id, flag).value, q) == At(f, q))
  {
    if FindArticle(f, id).Some? {
      SetFlagFrame(f, FindArticle(f, id).value, flag);
    }
  }

  /** Marking the same article twice gives the same feed as marking it once. */
  lemma MarkIdempotent(f: Feed, id: string, flag: Flag)
    requires Mark(f, id, flag).Some?
    ensures Mark(Mark(f, id, flag).value, id, flag) == Mark(f, id, flag)
  {
    var p := FindArticle(f, id).value;
    var g := SetFlag(f, p, flag);
    SetFlagFrame(f, p, flag);
    FindSameShape(f, g, id);
    SetFlagNoop(g, p, flag);
  }

  /** Marking read and marking favorite commute. */
  lemma MarkCommutes(f: Feed, id: string)
    requires Mark(f, id, Read).Some?
    ensures Mark(Mark(f, id, Read).value, id, Favorite).Some?
    ensures Mark(Mark(f, id, Favorite).value, id, Read)
         == Mark(Mark(f, id, Read).value, id, Favorite)
  {
    var p := FindArticle(f, id).value;
    var r := SetFlag(f, p, Read);
    SetFlagFrame(f, p, Read);
    FindSameShape(f, r, id);
    var v := SetFlag(f, p, Favorite);
    SetFlagFrame(f, p, Favorite);
    FindSameShape(f, v, id);
    var (key, b) := f[p.bucket];
    var a := b.articles[p.index];
    var both := a.(read := true, favorite := true);
    assert r[p.bucket].1.articles[p.index := both] == b.articles[p.index := both];
    assert v[p.bucket].1.articles[p.index := both] == b.articles[p.index := both];
    assert SetFlag(r, p, Favorite) == f[p.bucket := (key, b.(articles := b.articles[p.index := both]))];
    assert SetFlag(v, p, Read) == f[p.bucket := (key, b.(articles := b.articles[p.index := both]))];
  }
}
