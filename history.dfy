/** The history operations of services/storage.ts on a history snapshot:
    each one locates the FIRST item with the given id (`Array.prototype.find`)
    and edits only that item. The store in storage.dfy reads a snapshot,
    applies one of these edits in place and writes the snapshot back. */
module History {
  import opened Types
  import opened Seqs

  /** Index of the first item whose id is `id`, or None if there is none. */
  function FirstIndex(h: seq<HistoryItem>, id: string): (r: Option<nat>)
    ensures r.Some? ==> r.value < |h| && h[r.value].id == id
    ensures r.Some? ==> forall j :: 0 <= j < r.value ==> h[j].id != id
    ensures r.None? <==> forall j :: 0 <= j < |h| ==> h[j].id != id
  {
    if h == [] then None
    else if h[0].id == id then Some(0)
    else match FirstIndex(h[1..], id)
      case None => None
      case Some(k) => Some(k + 1)
  }

  /** No two items share an id. */
  predicate UniqueIds(h: seq<HistoryItem>) {
    forall i, j :: 0 <= i < j < |h| ==> h[i].id != h[j].id
  }

  /** `id` is not yet used by any item. */
  predicate IsFreshId(h: seq<HistoryItem>, id: string) {
    forall j :: 0 <= j < |h| ==> h[j].id != id
  }

  /** `r` differs from `h` at most at index `at`, and there only in field `tags`
      (when `tagsOnly`) or only in field `feedback`. */
  predicate ChangedOnlyAt(h: seq<HistoryItem>, r: seq<HistoryItem>, at: Option<nat>, tagsOnly: bool) {
    && |r| == |h|
    && (forall j :: 0 <= j < |h| && at != Some(j) ==> r[j] == h[j])
    && (at.Some? && at.value < |h| ==>
          if tagsOnly then r[at.value] == h[at.value].(tags := r[at.value].tags)
          else r[at.value] == h[at.value].(feedback := r[at.value].feedback))
  }

  /** Every item's tag list is free of duplicates. */
  predicate TagsUnique(h: seq<HistoryItem>) {
    forall i :: 0 <= i < |h| ==> NoDuplicates(h[i].tags)
  }

  /** The record `saveHistory` creates: the concept is the default and only
      tag and there is no feedback yet, so putting it in front of a history
      whose tag lists are duplicate-free keeps them so. */
  function NewItem(id: string, question: string, analysis: AnalysisResult, now: int): (item: HistoryItem)
    ensures item.id == id && item.question == question && item.analysis == analysis && item.timestamp == now
    ensures item.tags == [analysis.concept] && item.feedback.None?
    ensures forall h :: TagsUnique(h) ==> TagsUnique([item] + h)
  {
    HistoryItem(id, question, analysis, [analysis.concept], now, None)
  }

  /** The history left by saving `items` one after another, oldest first,
      onto `h` (each save puts its record in front). */
  function SaveAll(h: seq<HistoryItem>, items: seq<HistoryItem>): seq<HistoryItem>
    decreases |items|
  {
    if items == [] then h else SaveAll([items[0]] + h, items[1..])
  }

  /** Successive saves leave the history newest first: the saved records in
      reverse order, followed by the earlier history in its own order. */
  lemma {:induction false} SaveAllNewestFirst(h: seq<HistoryItem>, items: seq<HistoryItem>)
    ensures SaveAll(h, items) == Reversed(items) + h
    decreases |items|
  {
    if items != [] {
      SaveAllNewestFirst([items[0]] + h, items[1..]);
      assert Reversed(items) == Reversed(items[1..]) + [items[0]];
    }
  }

  /** Prepending a record with a fresh id keeps the ids unique. */
  lemma PrependKeepsIdsUnique(h: seq<HistoryItem>, item: HistoryItem)
    requires UniqueIds(h) && IsFreshId(h, item.id)
    ensures UniqueIds([item] + h)
  {
  }

  // ---- tags of one item --------------------------------------------------

  /** `tags.includes(t) ? tags : [...tags, t]`. */
  function WithTag(tags: seq<string>, t: string): (r: seq<string>)
    ensures t in r
    ensures forall x :: x in r <==> x in tags || x == t
    ensures tags <= r && |r| <= |tags| + 1
    ensures t in tags ==> r == tags
    ensures t !in tags ==> r == tags + [t]
    ensures NoDuplicates(tags) ==> NoDuplicates(r)
  {
    if t in tags then tags else tags + [t]
  }

  /** `tags.filter(x => x !== t)`. */
  function Without(tags: seq<string>, t: string): (r: seq<string>)
    ensures forall x :: x in r <==> x in tags && x != t
    ensures |r| <= |tags|
    ensures multiset(r) == multiset(tags)[t := 0]
  {
    if tags == [] then []
    else
      assert tags == [tags[0]] + tags[1..];
      assert multiset(tags) == multiset([tags[0]]) + multiset(tags[1..]);
      (if tags[0] == t then [] else [tags[0]]) + Without(tags[1..], t)
  }

  /** Removing a tag keeps the remaining tags in their order. */
  lemma {:induction false} WithoutIsSubsequence(tags: seq<string>, t: string)
    ensures IsSubsequence(Without(tags, t), tags)
  {
    if tags != [] {
      WithoutIsSubsequence(tags[1..], t);
      var r := Without(tags, t);
      if tags[0] != t {
        assert r == [tags[0]] + Without(tags[1..], t);
        assert r[0] == tags[0] && r[1..] == Without(tags[1..], t);
      } else {
        assert r == Without(tags[1..], t);
        if r != [] {
          assert r[0] in r;
        }
      }
    }
  }

  /** Removing a tag that is not there changes nothing. */
  lemma {:induction false} WithoutAbsent(tags: seq<string>, t: string)
    requires t !in tags
    ensures Without(tags, t) == tags
  {
    if tags != [] {
      WithoutAbsent(tags[1..], t);
    }
  }

  /** Removing a tag from a duplicate-free list leaves it duplicate-free. */
  lemma {:induction false} WithoutKeepsNoDuplicates(tags: seq<string>, t: string)
    requires NoDuplicates(tags)
    ensures NoDuplicates(Without(tags, t))
  {
    if tags != [] {
      assert NoDuplicates(tags[1..]);
      WithoutKeepsNoDuplicates(tags[1..], t);
      assert tags[0] !in tags[1..];
    }
  }

  /** Removing a tag once removes every occurrence: a second removal is a no-op. */
  lemma WithoutIdempotent(tags: seq<string>, t: string)
    ensures Without(Without(tags, t), t) == Without(tags, t)
  {
    WithoutAbsent(Without(tags, t), t);
  }

  lemma {:induction false} WithoutAppend(a: seq<string>, b: seq<string>, t: string)
    ensures Without(a + b, t) == Without(a, t) + Without(b, t)
  {
    if a != [] {
      WithoutAppend(a[1..], b, t);
      assert (a + b)[0] == a[0] && (a + b)[1..] == a[1..] + b;
      assert Without(a + b, t) == (if a[0] == t then [] else [a[0]]) + Without(a[1..] + b, t);
    } else {
      assert a + b == b;
    }
  }

  /** Adding a new tag and then removing it restores the tags exactly. */
  lemma AddThenRemoveRestores(tags: seq<string>, t: string)
    requires t !in tags
    ensures Without(WithTag(tags, t), t) == tags
  {
    WithoutAppend(tags, [t], t);
    WithoutAbsent(tags, t);
  }

  // ---- whole-history edits -----------------------------------------------

  /** The edits keep every id, so the item they locate stays the same. */
  lemma FirstIndexSameIds(h: seq<HistoryItem>, r: seq<HistoryItem>, id: string)
    requires |r| == |h| && forall j :: 0 <= j < |h| ==> r[j].id == h[j].id
    ensures FirstIndex(r, id) == FirstIndex(h, id)
  {
  }

  /** `addTag` on a snapshot: the first item with `id` gets `t` appended,
      unless it already has it; nothing else changes. */
  function AddTag(h: seq<HistoryItem>, id: string, t: string): (r: seq<HistoryItem>)
    ensures ChangedOnlyAt(h, r, FirstIndex(h, id), true)
    ensures FirstIndex(h, id).None? ==> r == h
    ensures FirstIndex(h, id).Some? ==>
              var i := FirstIndex(h, id).value;
              if t in h[i].tags then r == h else r[i].tags == h[i].tags + [t]
  {
    match FirstIndex(h, id)
    case None => h
    case Some(i) => h[i := h[i].(tags := WithTag(h[i].tags, t))]
  }

  /** Adding the same tag twice is the same as adding it once. */
  lemma AddTagIdempotent(h: seq<HistoryItem>, id: string, t: string)
    ensures AddTag(AddTag(h, id, t), id, t) == AddTag(h, id, t)
  {
  }

  /** `removeTag` on a snapshot: every occurrence of `t` leaves the tags of the
      first item with `id`; nothing else changes. */
  function RemoveTag(h: seq<HistoryItem>, id: string, t: string): (r: seq<HistoryItem>)
    ensures ChangedOnlyAt(h, r, FirstIndex(h, id), true)
    ensures FirstIndex(h, id).None? ==> r == h
    ensures FirstIndex(h, id).Some? ==>
              var i := FirstIndex(h, id).value;
              t !in r[i].tags && forall x :: x in r[i].tags <==> x in h[i].tags && x != t
  {
    match FirstIndex(h, id)
    case None => h
    case Some(i) => h[i := h[i].(tags := Without(h[i].tags, t))]
  }

  /** Removing a tag keeps the order of the item's other tags. */
  lemma RemoveTagKeepsOrder(h: seq<HistoryItem>, id: string, t: string)
    requires FirstIndex(h, id).Some?
    ensures IsSubsequence(RemoveTag(h, id, t)[FirstIndex(h, id).value].tags, h[FirstIndex(h, id).value].tags)
  {
    WithoutIsSubsequence(h[FirstIndex(h, id).value].tags, t);
  }

  /** A second removal of the same tag is a no-op. */
  lemma RemoveTagIdempotent(h: seq<HistoryItem>, id: string, t: string)
    ensures RemoveTag(RemoveTag(h, id, t), id, t) == RemoveTag(h, id, t)
  {
    var r := RemoveTag(h, id, t);
    FirstIndexSameIds(h, r, id);
    if FirstIndex(h, id).Some? {
      WithoutIdempotent(h[FirstIndex(h, id).value].tags, t);
    }
  }

  /** Adding a tag the item lacks and then removing it restores the history exactly. */
  lemma AddTagThenRemoveTag(h: seq<HistoryItem>, id: string, t: string)
    requires FirstIndex(h, id).Some? ==> t !in h[FirstIndex(h, id).value].tags
    ensures RemoveTag(AddTag(h, id, t), id, t) == h
  {
    var r := AddTag(h, id, t);
    FirstIndexSameIds(h, r, id);
    if FirstIndex(h, id).Some? {
      var i := FirstIndex(h, id).value;
      AddThenRemoveRestores(h[i].tags, t);
      assert RemoveTag(r, id, t)[i] == h[i];
    }
  }

  // ---- feedback ----------------------------------------------------------

  /** `submitFeedback` on a snapshot: the first item with `id` gets `f` as its
      feedback, replacing any earlier one; nothing else changes. */
  function SetFeedback(h: seq<HistoryItem>, id: string, f: Feedback): (r: seq<HistoryItem>)
    ensures ChangedOnlyAt(h, r, FirstIndex(h, id), false)
    ensures FirstIndex(h, id).None? ==> r == h
    ensures FirstIndex(h, id).Some? ==> r[FirstIndex(h, id).value].feedback == Some(f)
  {
    match FirstIndex(h, id)
    case None => h
    case Some(i) => h[i := h[i].(feedback := Some(f))]
  }

  /** The feedback of the first item with `id`:
      `history.find(h => h.id === id)?.feedback`. */
  function FeedbackOf(h: seq<HistoryItem>, id: string): (r: Option<Feedback>)
    ensures (forall j :: 0 <= j < |h| ==> h[j].id != id) ==> r.None?
    ensures r.Some? ==> exists j :: 0 <= j < |h| && h[j].id == id && h[j].feedback == r
    ensures forall j :: 0 <= j < |h| && h[j].id == id && (forall k :: 0 <= k < j ==> h[k].id != id) ==> r == h[j].feedback
  {
    match FirstIndex(h, id)
    case None => None
    case Some(i) => h[i].feedback
  }

  /** Submitting twice leaves only the second feedback. */
  lemma SetFeedbackOverwrites(h: seq<HistoryItem>, id: string, f1: Feedback, f2: Feedback)
    ensures SetFeedback(SetFeedback(h, id, f1), id, f2) == SetFeedback(h, id, f2)
  {
  }

  /** Feedback submitted for an existing item is what the item then reports. */
  lemma SetFeedbackThenRead(h: seq<HistoryItem>, id: string, f: Feedback)
    ensures FirstIndex(h, id).Some? ==> FeedbackOf(SetFeedback(h, id, f), id) == Some(f)
    ensures FirstIndex(h, id).None? ==> FeedbackOf(SetFeedback(h, id, f), id) == None
  {
  }

  /** The edits never add, drop or reorder items, so ids stay unique. */
  lemma EditsKeepIdsUnique(h: seq<HistoryItem>, id: string, t: string, f: Feedback)
    requires UniqueIds(h)
    ensures UniqueIds(AddTag(h, id, t)) && UniqueIds(RemoveTag(h, id, t)) && UniqueIds(SetFeedback(h, id, f))
  {
  }

  /** The edits keep every tag list duplicate-free: `addTag` appends only a
      missing tag and `removeTag` only filters. */
  lemma EditsKeepTagsUnique(h: seq<HistoryItem>, id: string, t: string, f: Feedback)
    requires TagsUnique(h)
    ensures TagsUnique(AddTag(h, id, t)) && TagsUnique(RemoveTag(h, id, t)) && TagsUnique(SetFeedback(h, id, f))
  {
    if FirstIndex(h, id).Some? {
      WithoutKeepsNoDuplicates(h[FirstIndex(h, id).value].tags, t);
    }
  }
}
