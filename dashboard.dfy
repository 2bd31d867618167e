/** components/Dashboard.tsx: the library screen. The tag list and the
    filtered list are pure functions of the component's state; adding a tag
    goes through the store and updates that state. */
module Dashboard {
  import opened Types
  import opened Seqs
  import opened Text
  import History
  import Storage

  /** `history.flatMap(h => h.tags)`. */
  function FlatTags(h: seq<HistoryItem>): (r: seq<string>)
    ensures forall t :: t in r <==> exists i :: 0 <= i < |h| && t in h[i].tags
  {
    if h == [] then []
    else
      var rest := FlatTags(h[1..]);
      assert forall t :: (exists i :: 0 <= i < |h| && t in h[i].tags) <==> t in h[0].tags || exists i :: 0 <= i < |h[1..]| && t in h[1..][i].tags by {
        forall t | exists i :: 0 <= i < |h| && t in h[i].tags
          ensures t in h[0].tags || exists i :: 0 <= i < |h[1..]| && t in h[1..][i].tags
        {
          var i :| 0 <= i < |h| && t in h[i].tags;
          if i > 0 {
            assert t in h[1..][i - 1].tags;
          }
        }
      }
      h[0].tags + rest
  }

  /** `Array.from(new Set(s))`: each element once, at its first occurrence. */
  function Distinct(s: seq<string>): (r: seq<string>)
    ensures NoDuplicates(r)
    ensures forall x :: x in r <==> x in s
  {
    if s == [] then []
    else
      var init, last := s[..|s| - 1], s[|s| - 1];
      assert s == init + [last];
      var d := Distinct(init);
      if last in d then d else d + [last]
  }

  /** `allTags`: every tag of every item, each exactly once. */
  function AllTags(h: seq<HistoryItem>): (r: seq<string>)
    ensures NoDuplicates(r)
    ensures forall i, t :: 0 <= i < |h| && t in h[i].tags ==> t in r
    ensures forall t :: t in r ==> exists i :: 0 <= i < |h| && t in h[i].tags
  {
    Distinct(FlatTags(h))
  }

  /** The search test: the lower-cased query is a substring of the lower-cased
      question or of the lower-cased concept. */
  predicate MatchesSearch(item: HistoryItem, query: string)
    ensures MatchesSearch(item, query) <==>
              (exists i :: OccursAt(Lower(item.question), Lower(query), i))
              || (exists i :: OccursAt(Lower(item.analysis.concept), Lower(query), i))
    ensures query == "" ==> MatchesSearch(item, query)
  {
    Includes(Lower(item.question), Lower(query)) || Includes(Lower(item.analysis.concept), Lower(query))
  }

  /** The tag test, `selectedTag ? item.tags.includes(selectedTag) : true`;
      the empty string is falsy, so it filters nothing. */
  predicate MatchesTag(item: HistoryItem, selected: Option<string>)
    ensures MatchesTag(item, selected) <==> selected.None? || selected.value == "" || selected.value in item.tags
  {
    match selected
    case None => true
    case Some(t) => t == "" || t in item.tags
  }

  /** An item is listed when it passes both tests; with an empty search and
      no tag every item is listed. */
  predicate Shown(item: HistoryItem, query: string, selected: Option<string>): (shown: bool)
    ensures shown <==> MatchesSearch(item, query) && MatchesTag(item, selected)
    ensures query == "" && (selected.None? || selected == Some("")) ==> shown
  {
    MatchesSearch(item, query) && MatchesTag(item, selected)
  }

  /** `filteredHistory`: the items passing both tests. */
  function FilteredHistory(h: seq<HistoryItem>, query: string, selected: Option<string>): (r: seq<HistoryItem>)
    ensures |r| <= |h|
    ensures forall x :: x in r ==> x in h && Shown(x, query, selected)
    ensures forall x :: x in h && Shown(x, query, selected) ==> x in r
    ensures selected.Some? && selected.value != "" ==> forall x :: x in r ==> selected.value in x.tags
    ensures selected.None? ==> forall x :: x in h ==> (x in r <==> MatchesSearch(x, query))
    ensures forall x :: multiset(r)[x] == if Shown(x, query, selected) then multiset(h)[x] else 0
  {
    if h == [] then []
    else
      assert h == [h[0]] + h[1..];
      assert multiset(h) == multiset([h[0]]) + multiset(h[1..]);
      (if Shown(h[0], query, selected) then [h[0]] else []) + FilteredHistory(h[1..], query, selected)
  }

  /** The filtered list keeps the items in the order of the history. */
  lemma {:induction false} FilteredIsSubsequence(h: seq<HistoryItem>, query: string, selected: Option<string>)
    ensures IsSubsequence(FilteredHistory(h, query, selected), h)
  {
    if h != [] {
      FilteredIsSubsequence(h[1..], query, selected);
      var r := FilteredHistory(h, query, selected);
      if Shown(h[0], query, selected) {
        assert r[0] == h[0] && r[1..] == FilteredHistory(h[1..], query, selected);
      } else {
        assert r == FilteredHistory(h[1..], query, selected);
        if r != [] {
          assert r[0] in r;
        }
      }
    }
  }

  /** With an empty search and no tag selected every item is shown, in order. */
  lemma {:induction false} NoFilterShowsAll(h: seq<HistoryItem>)
    ensures FilteredHistory(h, "", None) == h
  {
    if h != [] {
      EmptyIsIncluded(Lower(h[0].question));
      NoFilterShowsAll(h[1..]);
    }
  }

  /** The pending tag of an item: `newTagInputs[itemId]?.trim()`, with an
      absent entry read as the empty string (both are falsy). */
  function PendingTag(inputs: map<string, string>, itemId: string): (r: string)
    ensures itemId !in inputs ==> r == ""
    ensures itemId in inputs ==> (r == "" <==> AllWhitespace(inputs[itemId]))
  {
    if itemId in inputs then Trim(inputs[itemId]) else ""
  }

  /** The state of one mounted Dashboard component. */
  class View {
    const store: Storage.Store
    var history: seq<HistoryItem>
    var selectedTag: Option<string>
    var searchQuery: string
    var newTagInputs: map<string, string>

    constructor(store: Storage.Store)
      ensures this.store == store
      ensures history == [] && selectedTag == None && searchQuery == "" && newTagInputs == map[]
    {
      this.store := store;
      history := [];
      selectedTag := None;
      searchQuery := "";
      newTagInputs := map[];
    }

    /** The mount effect: loads the stored history (a parse error escapes
        and leaves the state as it was). */
    method Mount()
      modifies this
      ensures Storage.ReadHistory(store.entries).Ok? ==> history == Storage.ReadHistory(store.entries).value
      ensures Storage.ReadHistory(store.entries).Err? ==> history == old(history)
      ensures selectedTag == old(selectedTag) && searchQuery == old(searchQuery) && newTagInputs == old(newTagInputs)
    {
      var read := store.GetHistory();
      if read.Ok? {
        history := read.value;
      }
    }

    method SetSearchQuery(query: string)
      modifies this
      ensures searchQuery == query
      ensures history == old(history) && selectedTag == old(selectedTag) && newTagInputs == old(newTagInputs)
    {
      searchQuery := query;
    }

    /** The tag selector: `setSelectedTag(value || null)`. */
    method SelectTag(value: string)
      modifies this
      ensures selectedTag == if value == "" then None else Some(value)
      ensures history == old(history) && searchQuery == old(searchQuery) && newTagInputs == old(newTagInputs)
    {
      selectedTag := if value == "" then None else Some(value);
    }

    /** Typing into the tag box of one item. */
    method SetTagInput(itemId: string, text: string)
      modifies this
      ensures newTagInputs == old(newTagInputs)[itemId := text]
      ensures history == old(history) && selectedTag == old(selectedTag) && searchQuery == old(searchQuery)
    {
      newTagInputs := newTagInputs[itemId := text];
    }

    /** `handleAddTag`: a blank pending tag does nothing; otherwise the trimmed
        tag is added through the store, the returned history replaces the
        shown one and only this item's tag box is cleared. */
    method HandleAddTag(itemId: string)
      modifies this, store
      ensures Storage.OnlyHistoryWritten(old(store.entries), store.entries)
      ensures Storage.ReadUsers(store.entries) == old(Storage.ReadUsers(store.entries))
      ensures selectedTag == old(selectedTag) && searchQuery == old(searchQuery)
      ensures PendingTag(old(newTagInputs), itemId) == "" ==>
                history == old(history) && newTagInputs == old(newTagInputs) && store.entries == old(store.entries)
      ensures PendingTag(old(newTagInputs), itemId) != "" && old(Storage.ReadHistory(store.entries)).Err? ==>
                history == old(history) && newTagInputs == old(newTagInputs) && store.entries == old(store.entries)
      ensures PendingTag(old(newTagInputs), itemId) != "" && old(Storage.ReadHistory(store.entries)).Ok? ==>
                && history == History.AddTag(old(Storage.ReadHistory(store.entries)).value, itemId, PendingTag(old(newTagInputs), itemId))
                && newTagInputs == old(newTagInputs)[itemId := ""]
                && Storage.ReadHistory(store.entries) == Ok(history)
    {
      var tagToAdd := PendingTag(newTagInputs, itemId);
      if tagToAdd != "" {
        var updated := store.AddTag(itemId, tagToAdd);
        Storage.OnlyHistoryWrittenKeepsUsers(old(store.entries), store.entries);
        if updated.Ok? {
          history := updated.value;
          newTagInputs := newTagInputs[itemId := ""];
        }
      }
    }
  }
}
