/**
 * `createTagsFromText`: the distinct space-separated words of a text whose
 * trimmed form is longer than two characters, in order of first occurrence.
 */
module Tagger {
  import opened Strings

  /** The filter's test: `item.trim()`, then truthy and longer than 2. */
  predicate IsTag(item: string) {
    |Trim(item)| > 2
  }

  /** `pieces.filter(IsTag)`: the kept pieces themselves, not their trimmed forms. */
  function FilterTags(pieces: seq<string>): (kept: seq<string>)
    ensures forall x :: x in kept <==> x in pieces && IsTag(x)
    ensures |kept| <= |pieces|
  {
    if pieces == [] then []
    else
      var rest := FilterTags(pieces[..|pieces| - 1]);
      if IsTag(pieces[|pieces| - 1]) then rest + [pieces[|pieces| - 1]] else rest
  }

  /** `[...new Set(items)]`: a `Set` keeps the first insertion of each value. */
  function Dedup(items: seq<string>): (r: seq<string>)
    ensures forall x :: x in r <==> x in items
    ensures |r| <= |items|
  {
    if items == [] then []
    else
      var rest := Dedup(items[..|items| - 1]);
      if items[|items| - 1] in rest then rest else rest + [items[|items| - 1]]
  }

  function CreateTagsFromText(text: string): (tags: seq<string>)
    ensures forall x :: x in tags <==> x in Split(text, ' ') && IsTag(x)
    ensures |tags| <= |Split(text, ' ')|
  {
    Dedup(FilterTags(Split(text, ' ')))
  }

  ghost predicate Distinct(s: seq<string>) {
    forall i, j :: 0 <= i < j < |s| ==> s[i] != s[j]
  }

  /** The index of the first occurrence of `x` in `s`. */
  function FirstIndex(s: seq<string>, x: string): (r: nat)
    requires x in s
    ensures r < |s| && s[r] == x
    ensures forall k :: 0 <= k < r ==> s[k] != x
  {
    if s[0] == x then 0 else 1 + FirstIndex(s[1..], x)
  }

  /** Any first occurrence is the one `FirstIndex` finds. */
  lemma FirstIndexUnique(s: seq<string>, x: string, r: nat)
    requires r < |s| && s[r] == x
    requires forall k :: 0 <= k < r ==> s[k] != x
    ensures FirstIndex(s, x) == r
  {
  }

  /** Appending an element moves no first occurrence, and places the first occurrence of a new value last. */
  lemma FirstIndexAppend(s: seq<string>, y: string, x: string)
    requires x in s + [y]
    ensures x in s ==> FirstIndex(s + [y], x) == FirstIndex(s, x)
    ensures x !in s ==> FirstIndex(s + [y], x) == |s|
  {
    var t := s + [y];
    if x in s {
      var f := FirstIndex(s, x);
      assert t[f] == x;
      FirstIndexUnique(t, x, f);
    } else {
      assert t[|s|] == x;
      FirstIndexUnique(t, x, |s|);
    }
  }

  /** De-duplication keeps each value once. */
  lemma {:induction false} DedupDistinct(items: seq<string>)
    ensures Distinct(Dedup(items))
  {
    if items != [] {
      var init := items[..|items| - 1];
      DedupDistinct(init);
      assert items == init + [items[|items| - 1]];
    }
  }

  /** De-duplication lists the values in the order of their first occurrence. */
  lemma {:induction false} DedupFirstOccurrence(items: seq<string>)
    ensures forall i, j :: 0 <= i < j < |Dedup(items)| ==>
      FirstIndex(items, Dedup(items)[i]) < FirstIndex(items, Dedup(items)[j])
  {
    if items != [] {
      var init := items[..|items| - 1];
      var y := items[|items| - 1];
      assert items == init + [y];
      DedupFirstOccurrence(init);
      var d := Dedup(items);
      forall i, j | 0 <= i < j < |d|
        ensures FirstIndex(items, d[i]) < FirstIndex(items, d[j])
      {
        FirstIndexAppend(init, y, d[i]);
        FirstIndexAppend(init, y, d[j]);
        if y !in Dedup(init) && j == |d| - 1 {
          assert d[i] in init by { assert d[i] == Dedup(init)[i]; }
        } else {
          assert d[i] == Dedup(init)[i] && d[j] == Dedup(init)[j];
        }
      }
    }
  }

  /** The filter keeps the relative order of the first occurrences of the values it keeps. */
  lemma {:induction false} FilterTagsKeepsOrder(pieces: seq<string>, x: string, y: string)
    requires x in FilterTags(pieces) && y in FilterTags(pieces)
    requires FirstIndex(FilterTags(pieces), x) < FirstIndex(FilterTags(pieces), y)
    ensures FirstIndex(pieces, x) < FirstIndex(pieces, y)
  {
    var init := pieces[..|pieces| - 1];
    var z := pieces[|pieces| - 1];
    assert pieces == init + [z];
    var kept := FilterTags(init);
    if IsTag(z) {
      assert FilterTags(pieces) == kept + [z];
      FirstIndexAppend(kept, z, x);
      FirstIndexAppend(kept, z, y);
      assert x in kept;
      FirstIndexAppend(init, z, x);
      FirstIndexAppend(init, z, y);
      if y in kept {
        FilterTagsKeepsOrder(init, x, y);
      }
    } else {
      FirstIndexAppend(init, z, x);
      FirstIndexAppend(init, z, y);
      FilterTagsKeepsOrder(init, x, y);
    }
  }

  /**
   * The tags are distinct; a value is a tag exactly when it is one of the
   * space-separated pieces and its trimmed form is longer than two (the
   * piece is kept untrimmed, empty pieces from repeated spaces are dropped);
   * there are no more tags than pieces; and the tags come in the order of
   * their first occurrence in the text.
   */
  lemma CreateTagsSpec(text: string)
    ensures Distinct(CreateTagsFromText(text))
    ensures forall x :: x in CreateTagsFromText(text) <==> x in Split(text, ' ') && IsTag(x)
    ensures |CreateTagsFromText(text)| <= |Split(text, ' ')|
    ensures forall i, j :: 0 <= i < j < |CreateTagsFromText(text)| ==>
      FirstIndex(Split(text, ' '), CreateTagsFromText(text)[i]) < FirstIndex(Split(text, ' '), CreateTagsFromText(text)[j])
  {
    var pieces := Split(text, ' ');
    var kept := FilterTags(pieces);
    var r := Dedup(kept);
    DedupDistinct(kept);
    DedupFirstOccurrence(kept);
    forall i, j | 0 <= i < j < |r|
      ensures FirstIndex(pieces, r[i]) < FirstIndex(pieces, r[j])
    {
      FilterTagsKeepsOrder(pieces, r[i], r[j]);
    }
  }

  /** Pieces with no more than two non-space characters, such as the empty pieces between two spaces, are never tags. */
  lemma ShortPiecesDropped(text: string)
    ensures "" !in CreateTagsFromText(text)
    ensures " " !in CreateTagsFromText(text)
  {
    CreateTagsSpec(text);
    assert Trim("") == "";
    assert |TrimEnd(TrimStart(" "))| == 0;
  }
}
