/**
 * The maintenance pass that strips whitespace off existing tags' span text
 * and moves their offsets inward by what was stripped.
 */
module Trim {
  import opened PyBuiltins
  import opened Model

  /**
   * One tag after the pass: unchanged when its span text is already
   * stripped; otherwise the stripped text, the start moved right by the
   * leading whitespace, the end moved left by the trailing whitespace, and
   * an end that no longer lies after the start re-placed at start + length.
   */
  function TrimTag(t: Tag): (r: Tag)
    ensures r.spanText == Strip(t.spanText)
    ensures r == t <==> IsStripped(t.spanText)
    ensures r.(spanText := t.spanText, startOffset := t.startOffset, endOffset := t.endOffset) == t
    ensures r != t ==> t.startOffset <= r.startOffset && r.startOffset <= r.endOffset
  {
    StrippedIsFixed(t.spanText);
    var s := t.spanText;
    var trimmed := Strip(s);
    if trimmed == s then t
    else
      var left := |s| - |LStrip(s)|;
      var right := |s| - |RStrip(s)|;
      var newStart := t.startOffset + left;
      var newEnd := t.endOffset - right;
      t.(spanText := trimmed, startOffset := newStart,
         endOffset := if newEnd <= newStart then newStart + |trimmed| else newEnd)
  }

  /** The offsets the pass computes, in terms of the leading and trailing whitespace counts. */
  lemma {:induction false} TrimTagOffsets(t: Tag)
    requires !IsStripped(t.spanText)
    ensures var s := t.spanText;
            var newStart := t.startOffset + LeadCount(s);
            var newEnd := t.endOffset - TrailCount(s);
            TrimTag(t).startOffset == newStart &&
            TrimTag(t).endOffset == (if newEnd <= newStart then newStart + |Strip(s)| else newEnd)
  {
    StrippedIsFixed(t.spanText);
  }

  /**
   * When the tag's window is as long as its span text and the text is not
   * all whitespace, the new window is exactly as long as the stripped text.
   */
  lemma {:induction false} TrimKeepsWindowLength(t: Tag)
    requires t.endOffset - t.startOffset == |t.spanText|
    requires !AllSpace(t.spanText)
    ensures TrimTag(t).endOffset - TrimTag(t).startOffset == |TrimTag(t).spanText| > 0
  {
    var s := t.spanText;
    StripWindow(s);
    if IsStripped(s) {
      StrippedIsFixed(s);
    } else {
      TrimTagOffsets(t);
    }
  }

  /**
   * A tag whose offsets select its span text in the document's text still
   * does after the pass.
   */
  lemma {:induction false} TrimKeepsSlice(t: Tag, text: string)
    requires 0 <= t.startOffset <= t.endOffset <= |text|
    requires text[t.startOffset..t.endOffset] == t.spanText
    ensures 0 <= TrimTag(t).startOffset <= TrimTag(t).endOffset <= |text|
    ensures text[TrimTag(t).startOffset..TrimTag(t).endOffset] == TrimTag(t).spanText
  {
    if !IsStripped(t.spanText) {
      var s := t.spanText;
      StripWindow(s);
      TrimTagOffsets(t);
      if LeadCount(s) < |s| {
        SliceInner(text, t.startOffset, t.endOffset, s, LeadCount(s), TrailCount(s), TrimTag(t));
      }
    }
  }

  lemma {:induction false} SliceInner(text: string, a: int, b: int, s: string, l: nat, k: nat, r: Tag)
    requires 0 <= a <= b <= |text| && text[a..b] == s && l + k < |s|
    requires r.startOffset == a + l && r.endOffset == b - k && r.spanText == s[l..|s| - k]
    ensures text[r.startOffset..r.endOffset] == r.spanText
  {
    SliceOfSlice(text, a, b, l, k);
  }

  lemma {:induction false} SliceOfSlice(text: string, a: int, b: int, l: nat, k: nat)
    requires 0 <= a <= b <= |text| && l + k <= b - a
    ensures text[a..b][l..b - a - k] == text[a + l..b - k]
  {
    var x, y := text[a..b][l..b - a - k], text[a + l..b - k];
    assert |x| == |y|;
    forall j | 0 <= j < |x| ensures x[j] == y[j] {
      assert x[j] == text[a + l + j];
    }
  }

  /** A span of nothing but whitespace collapses to an empty window at its end. */
  lemma {:induction false} TrimAllSpace(t: Tag)
    requires t.endOffset - t.startOffset == |t.spanText| > 0
    requires AllSpace(t.spanText)
    ensures TrimTag(t).spanText == ""
    ensures TrimTag(t).startOffset == TrimTag(t).endOffset == t.endOffset
  {
    var s := t.spanText;
    StripWindow(s);
    assert IsSpace(s[0]);
    TrimTagOffsets(t);
  }

  /** A second pass over a tag changes nothing. */
  lemma {:induction false} TrimTagIdempotent(t: Tag)
    ensures TrimTag(TrimTag(t)) == TrimTag(t)
  {
    StripIdempotent(t.spanText);
  }

  /** Every tag after the pass, in the same order. */
  function TrimAll(tags: seq<Tag>): (r: seq<Tag>)
    ensures |r| == |tags|
    ensures forall i :: 0 <= i < |tags| ==> r[i] == TrimTag(tags[i])
  {
    if |tags| == 0 then [] else TrimAll(tags[..|tags| - 1]) + [TrimTag(tags[|tags| - 1])]
  }

  /** How many tags the pass changes. */
  function CountUntrimmed(tags: seq<Tag>): (n: nat)
    ensures n <= |tags|
  {
    if |tags| == 0 then 0
    else CountUntrimmed(tags[..|tags| - 1]) + (if IsStripped(tags[|tags| - 1].spanText) then 0 else 1)
  }

  /** The pass changes no tag exactly when every span text is already stripped. */
  lemma {:induction false} CountUntrimmedZero(tags: seq<Tag>)
    ensures CountUntrimmed(tags) == 0 <==> forall i :: 0 <= i < |tags| ==> IsStripped(tags[i].spanText)
  {
    if |tags| > 0 {
      var init := tags[..|tags| - 1];
      CountUntrimmedZero(init);
      assert forall i :: 0 <= i < |init| ==> init[i] == tags[i];
    }
  }

  lemma {:induction false} CountUntrimmedSnoc(tags: seq<Tag>, i: nat)
    requires i < |tags|
    ensures CountUntrimmed(tags[..i + 1]) ==
            CountUntrimmed(tags[..i]) + (if IsStripped(tags[i].spanText) then 0 else 1)
  {
    assert tags[..i + 1][..i] == tags[..i];
  }

  /** Running the pass twice is running it once, and the second run updates no tag. */
  lemma {:induction false} TrimAllIdempotent(tags: seq<Tag>)
    ensures TrimAll(TrimAll(tags)) == TrimAll(tags)
    ensures CountUntrimmed(TrimAll(tags)) == 0
  {
    var once := TrimAll(tags);
    forall i | 0 <= i < |tags|
      ensures TrimAll(once)[i] == once[i] && IsStripped(once[i].spanText)
    {
      TrimTagIdempotent(tags[i]);
      StripIdempotent(tags[i].spanText);
    }
    CountUntrimmedZero(once);
  }

  /** The pass leaves each tag's id, document and category alone, so the store stays well formed. */
  lemma {:induction false} TrimAllWellFormed(tags: seq<Tag>, docIds: set<DocId>, cats: set<string>, nextTagId: TagId)
    requires TagsWellFormed(tags, docIds, cats, nextTagId)
    ensures TagsWellFormed(TrimAll(tags), docIds, cats, nextTagId)
  {
    var r := TrimAll(tags);
    assert forall i :: 0 <= i < |r| ==> r[i].id == tags[i].id && r[i].document == tags[i].document &&
                                         r[i].category == tags[i].category;
  }

  /** The first `i` tags have been through the pass and the rest are as they were. */
  ghost predicate TrimmedPrefix(cur: seq<Tag>, tags: seq<Tag>, i: nat) {
    |cur| == |tags| && i <= |tags| &&
    (forall k :: 0 <= k < i ==> cur[k] == TrimTag(tags[k])) &&
    (forall k :: i <= k < |tags| ==> cur[k] == tags[k])
  }

  /** One more tag through the pass: stored back when it changed, left alone otherwise. */
  lemma {:induction false} TrimmedPrefixStep(cur: seq<Tag>, tags: seq<Tag>, i: nat, changed: bool, r: Tag)
    requires TrimmedPrefix(cur, tags, i) && i < |tags|
    requires r == TrimTag(tags[i])
    requires changed <==> r.spanText != tags[i].spanText
    ensures TrimmedPrefix(if changed then cur[i := r] else cur, tags, i + 1)
    ensures CountUntrimmed(tags[..i + 1]) == CountUntrimmed(tags[..i]) + (if changed then 1 else 0)
  {
    StrippedIsFixed(tags[i].spanText);
    CountUntrimmedSnoc(tags, i);
    if !changed {
      assert TrimTag(tags[i]) == tags[i];
    }
  }

  lemma {:induction false} TrimmedPrefixAll(cur: seq<Tag>, tags: seq<Tag>)
    requires TrimmedPrefix(cur, tags, |tags|)
    ensures cur == TrimAll(tags)
  {
  }

  /** trim_existing_tags: the pass over every tag, counting those it updates. */
  method TrimExistingTags(store: Store) returns (updatedCount: nat)
    modifies store`tags
    ensures store.tags == TrimAll(old(store.tags))
    ensures updatedCount == CountUntrimmed(old(store.tags))
    ensures store.docs == old(store.docs) && store.categories == old(store.categories)
    ensures store.nextDocId == old(store.nextDocId) && store.nextTagId == old(store.nextTagId)
    ensures old(store.Valid()) ==> store.Valid()
  {
    ghost var tags0 := store.tags;
    updatedCount := 0;
    var i := 0;
    while i < |store.tags|
      invariant TrimmedPrefix(store.tags, tags0, i)
      invariant updatedCount == CountUntrimmed(tags0[..i])
    {
      var tag := store.tags[i];
      var trimmedTag := TrimTag(tag);
      var changed := trimmedTag.spanText != tag.spanText;
      TrimmedPrefixStep(store.tags, tags0, i, changed, trimmedTag);
      if changed {
        store.tags := store.tags[i := trimmedTag];
        updatedCount := updatedCount + 1;
      }
      i := i + 1;
    }
    assert tags0[..|tags0|] == tags0;
    TrimmedPrefixAll(store.tags, tags0);
    if old(store.Valid()) {
      TrimAllWellFormed(tags0, store.docs.Keys, store.categories.Keys, store.nextTagId);
    }
  }
}
