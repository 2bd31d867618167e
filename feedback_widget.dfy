/** components/FeedbackWidget.tsx: a five-star rating with an optional
    comment for one history record. */
module FeedbackWidget {
  import opened Types
  import History
  import Storage

  /** `existingFeedback?.rating || 0`. */
  function InitialRating(existing: Option<Feedback>): (r: int)
    ensures existing.None? ==> r == 0
    ensures existing.Some? ==> r == existing.value.rating
  {
    match existing
    case None => 0
    case Some(f) => if f.rating != 0 then f.rating else 0
  }

  /** `existingFeedback?.comment || ''`. */
  function InitialComment(existing: Option<Feedback>): (r: string)
    ensures existing.None? ==> r == ""
    ensures existing.Some? ==> r == existing.value.comment
  {
    match existing
    case None => ""
    case Some(f) => if f.comment != "" then f.comment else ""
  }

  /** Star `star` is drawn filled when `rating >= star`. */
  predicate StarFilled(rating: int, star: int): (filled: bool)
    ensures filled ==> star <= rating
    ensures star == rating ==> filled
  {
    rating >= star
  }

  /** The filled stars are a prefix of the row, ending at the rated star. */
  lemma FilledStarsFormPrefix(rating: int, a: int, b: int)
    requires a <= b
    ensures StarFilled(rating, b) ==> StarFilled(rating, a)
    ensures StarFilled(rating, rating) && !StarFilled(rating, rating + 1)
  {
  }

  /** How many of the stars 1 .. n are drawn filled. */
  function FilledStars(rating: int, n: nat): nat {
    if n == 0 then 0 else FilledStars(rating, n - 1) + (if StarFilled(rating, n) then 1 else 0)
  }

  /** With a rating between 0 and n, exactly `rating` of the stars 1 .. n are filled. */
  lemma {:induction false} FilledStarsIsRating(rating: int, n: nat)
    requires 0 <= rating <= n
    ensures FilledStars(rating, n) == rating
  {
    if rating == n {
      if n > 0 {
        FilledStarsIsRating(rating - 1, n - 1);
        FilledStarsSameBelow(rating - 1, rating, n - 1);
      }
    } else {
      FilledStarsIsRating(rating, n - 1);
    }
  }

  /** Ratings at or above n fill the same stars among 1 .. n. */
  lemma {:induction false} FilledStarsSameBelow(a: int, b: int, n: nat)
    requires n <= a && n <= b
    ensures FilledStars(a, n) == FilledStars(b, n)
  {
    if n > 0 {
      FilledStarsSameBelow(a, b, n - 1);
    }
  }

  /** A widget opened again on a record whose feedback was just stored starts
      in the thanks view with the stored rating and comment. */
  lemma ReopenShowsStoredFeedback(h: seq<HistoryItem>, id: string, f: Feedback)
    requires History.FirstIndex(h, id).Some?
    ensures History.FeedbackOf(History.SetFeedback(h, id, f), id).Some?
    ensures InitialRating(History.FeedbackOf(History.SetFeedback(h, id, f), id)) == f.rating
    ensures InitialComment(History.FeedbackOf(History.SetFeedback(h, id, f), id)) == f.comment
  {
  }

  /** The state of one mounted widget. The stars, the comment box and the
      submit button are drawn only while `submitted` is false. */
  class Widget {
    const itemId: string
    const store: Storage.Store
    var rating: int
    var comment: string
    var submitted: bool

    /** Before submission the rating is 0 (no star yet) or one of the five
        stars. */
    predicate Valid()
      reads this
    {
      !submitted ==> 0 <= rating <= 5
    }

    /** The initial state comes from the record's existing feedback. */
    constructor(itemId: string, existing: Option<Feedback>, store: Storage.Store)
      ensures this.itemId == itemId && this.store == store
      ensures rating == InitialRating(existing) && comment == InitialComment(existing)
      ensures submitted <==> existing.Some?
      ensures Valid()
    {
      this.itemId := itemId;
      this.store := store;
      rating := InitialRating(existing);
      comment := InitialComment(existing);
      submitted := existing.Some?;
    }

    /** A click on one of the five stars. */
    method ClickStar(star: int)
      requires Valid() && !submitted && 1 <= star <= 5
      modifies this
      ensures Valid()
      ensures rating == star && 1 <= rating <= 5
      ensures comment == old(comment) && submitted == old(submitted)
    {
      rating := star;
    }

    method SetComment(text: string)
      requires Valid() && !submitted
      modifies this
      ensures Valid()
      ensures comment == text
      ensures rating == old(rating) && submitted == old(submitted)
    {
      comment := text;
    }

    /** `handleSubmit`: blocked while no star is chosen; otherwise stores the
        rating and comment with the time `now` and shows the thanks view. */
    method HandleSubmit(now: int)
      requires Valid() && !submitted
      modifies this, store
      ensures Valid()
      ensures submitted ==> 1 <= rating <= 5
      ensures Storage.OnlyHistoryWritten(old(store.entries), store.entries)
      ensures Storage.ReadUsers(store.entries) == old(Storage.ReadUsers(store.entries))
      ensures rating == old(rating) && comment == old(comment)
      ensures old(rating) == 0 ==> !submitted && store.entries == old(store.entries)
      ensures old(rating) != 0 && old(Storage.ReadHistory(store.entries)).Err? ==>
                !submitted && store.entries == old(store.entries)
      ensures old(rating) != 0 && old(Storage.ReadHistory(store.entries)).Ok? ==>
                && submitted
                && Storage.ReadHistory(store.entries) ==
                     Ok(History.SetFeedback(old(Storage.ReadHistory(store.entries)).value, itemId, Feedback(rating, comment, now)))
    {
      if rating == 0 {
        return;
      }
      var written := store.SubmitFeedback(itemId, Feedback(rating, comment, now));
      Storage.OnlyHistoryWrittenKeepsUsers(old(store.entries), store.entries);
      if written.Ok? {
        submitted := true;
      }
    }
  }
}
