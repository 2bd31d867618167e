# Study Buddy: history, tags, feedback and view state in Dafny

Study Buddy is a browser application. A student submits a question, a hosted
model explains the underlying concept, and every explanation is kept in a local
history. In that history the student can tag, search and rate explanations and
take practice quizzes. This project models the parts of the application that
hold logic:

- `storage.dfy`: the snapshot store behind `services/storage.ts`. It is a class
  whose state is a map from localStorage keys to parsed snapshots. Each method
  reads a snapshot, edits it and writes the whole snapshot back.
- `history.dfy`, `accounts.dfy`: the same operations as pure functions on one
  snapshot, with the lemmas about them: ordering, idempotence, overwrite,
  add-then-remove, "only that item changes", and login after signup.
- `dashboard.dfy`: the library screen. It holds the de-duplicated tag list, the
  case-insensitive search combined with the tag filter, and the add-tag handler.
- `app.dfy`: the view-state controller (IDLE, ANALYZING, LEARNING, DASHBOARD).
  A call to the hosted model is an outcome parameter (`Success(result)` or
  `Failed`). An `async` handler is split at its `await` into a `Begin…` method
  and a `Resolve…` method, and a `Handle…` method runs both.
- `quiz_modal.dfy`: checking an answer and moving on, the `isCorrect` test and
  the style of each option button.
- `feedback_widget.dfy`: the star rating, the guarded submit and the
  star-fill rule.
- `text.dfy`, `seqs.dfy`, `types.dfy`: `trim`, ASCII `toLowerCase`,
  `includes`, sequence notions and the records of `types.ts`.

`crypto.randomUUID()` and `Date.now()` are parameters (`id`, `now`).
`SaveHistory` requires the id to be unused in the stored history. The source
does not check this; a random UUID makes it hold in practice.

Behaviour of the code that is easy to miss:

- A snapshot that `JSON.parse` rejects is not read as an empty list. The parse
  throws, and the model returns `Err(MalformedSnapshot)` and writes nothing.
  Only an absent key or an empty string reads as `[]`.
- "Ask another question" clears only the question box and returns to IDLE. It
  keeps the analysis and the current history id.
- The library button and the header title switch screens from every screen.
- A selected tag equal to the empty string filters nothing, because the empty
  string is falsy in JavaScript.
- The quiz dialog stays mounted while it is closed, so its answer state
  survives into the next quiz (see "## Findings").

## Model

| member | source | states |
|---|---|---|
| `Storage.ReadHistory` | services/storage.ts:27 | an absent key or empty text reads as the empty history, a stored history list as itself, and anything else as a parse error |
| `Storage.ReadUsers` | services/storage.ts:62 | the account key is read the same way: absent or empty means no accounts, a stored account list reads as itself, anything else is a parse error |
| `Storage.OnlyHistoryWrittenKeepsUsers` | services/storage.ts:4-7 | a change confined to the history key leaves the account list as it was |
| `Storage.Store.constructor` | services/storage.ts:4-7 | the store starts with whatever the two keys hold |
| `Storage.Store.GetHistory` | services/storage.ts:26-28 | an absent key or empty text reads as the empty history; a stored list reads back unchanged; unparsable text is an error, not an empty list |
| `Storage.Store.SaveHistory` | services/storage.ts:11-24 | the stored history becomes `[item] + old`; the item keeps question and analysis verbatim, has tags `[concept]`, the given id and time and no feedback, and is returned; unique ids stay unique and duplicate-free tag lists stay so; only the history key is written; a parse error writes nothing |
| `Storage.Store.AddTag` | services/storage.ts:30-38 | returns the history with the tag added to the first item with that id; writes only when that item exists and lacks the tag, and only the history key; a parse error writes nothing |
| `Storage.Store.RemoveTag` | services/storage.ts:40-48 | returns the history with the tag filtered out of the first matching item; writes the history key whenever that item exists and otherwise changes nothing |
| `Storage.Store.SubmitFeedback` | services/storage.ts:51-58 | the first item with that id gets the feedback, replacing any earlier one; only the history key is written, and an unknown id writes nothing |
| `Storage.Store.GetUsers` | services/storage.ts:62 | the account list is read like the history: absent means empty, unparsable is an error |
| `Storage.Store.Login` | services/storage.ts:61-69 | the result is the pure `Login` on the stored accounts, and the store is not changed |
| `Storage.Store.Signup` | services/storage.ts:71-82 | a taken email fails with nothing written; otherwise the account list is written with `{email, name, password}` appended and `{name, email}` is returned |
| `Storage.KeysIndependent` | services/storage.ts:4-7 | writing the history key never changes what the account key reads, and the reverse |
| `History.FirstIndex` | services/storage.ts:32 | `find` locates the first item with the id: it has the id, no earlier item has it, and None means no item has it |
| `History.NewItem` | services/storage.ts:13-19 | the new record has the given id, question, analysis and time, the concept as its only tag and no feedback, so prepending it keeps every tag list duplicate-free |
| `History.SaveAllNewestFirst` | services/storage.ts:21 | after any sequence of saves the history is the saved records newest first, followed by the earlier history |
| `History.PrependKeepsIdsUnique` | services/storage.ts:14-21 | saving a record with a fresh id keeps ids unique |
| `History.WithTag` | services/storage.ts:33-34 | the tag is present afterwards; a tag already there leaves the list unchanged, a new one is appended at the end; a duplicate-free list stays duplicate-free |
| `History.Without` | services/storage.ts:44 | the result holds exactly the tags other than the removed one, each as often as before: the multiset of tags with the removed tag's count set to zero |
| `History.WithoutIsSubsequence` | services/storage.ts:44 | `filter` keeps the remaining tags in their order |
| `History.WithoutKeepsNoDuplicates` | services/storage.ts:44 | filtering a duplicate-free tag list leaves it duplicate-free |
| `History.WithoutAbsent` | services/storage.ts:44 | removing a tag that is not there changes nothing |
| `History.WithoutIdempotent` | services/storage.ts:44 | a second removal of the same tag changes nothing |
| `History.AddThenRemoveRestores` | services/storage.ts:33-34 | adding a tag the list lacks and then removing it restores the list exactly |
| `History.AddTag` | services/storage.ts:31-37 | only the first matching item changes, and only in its tags; an absent tag is appended at the end; a present tag or an unknown id leaves the history unchanged |
| `History.AddTagIdempotent` | services/storage.ts:31-37 | adding the same tag twice equals adding it once |
| `History.RemoveTag` | services/storage.ts:41-47 | only the first matching item changes, and only in its tags; every occurrence of the tag is gone; an unknown id leaves the history unchanged |
| `History.RemoveTagKeepsOrder` | services/storage.ts:44 | the item's remaining tags keep their order |
| `History.RemoveTagIdempotent` | services/storage.ts:41-47 | a second removal is a no-op |
| `History.AddTagThenRemoveTag` | services/storage.ts:30-48 | adding a tag the item lacks and then removing it restores the whole history exactly |
| `History.SetFeedback` | services/storage.ts:52-57 | only the first matching item changes, and only in its feedback, which becomes the new feedback; an unknown id changes nothing |
| `History.FeedbackOf` | App.tsx:190 | the feedback of the first item with the id (Some or None as that item has it), and None when no item has the id |
| `History.SetFeedbackOverwrites` | services/storage.ts:55 | two submissions leave the second |
| `History.SetFeedbackThenRead` | App.tsx:190 | the feedback looked up for an existing item is the one just stored; for an unknown id the lookup finds none |
| `History.EditsKeepIdsUnique` | services/storage.ts:30-58 | adding or removing tags and setting feedback keep ids unique |
| `History.EditsKeepTagsUnique` | services/storage.ts:30-58 | adding a tag (only when missing), removing a tag and setting feedback keep every item's tag list duplicate-free |
| `Accounts.FindAccount` | services/storage.ts:63 | the first account matching both email and password, and None iff there is none |
| `Accounts.Login` | services/storage.ts:61-69 | succeeds iff some account matches both fields exactly, returning the name of the first such account with the email; otherwise fails with invalid credentials |
| `Accounts.Signup` | services/storage.ts:71-82 | fails iff the email is taken; otherwise the old accounts are followed by exactly the new one, and `{name, email}` is returned |
| `Accounts.EmailTaken` | services/storage.ts:73 | an email is taken iff some stored account has it; the empty list has no taken email |
| `Accounts.LoginAfterSignup` | services/storage.ts:61-82 | logging in right after a successful signup, with the same credentials, yields the new user |
| `Accounts.SignupKeepsEmailsUnique` | services/storage.ts:73-78 | signup keeps emails unique |
| `Accounts.WrongPasswordFails` | services/storage.ts:63-67 | with unique emails, a known email with a wrong password fails |
| `Text.Trim` | App.tsx:23 | the result is the input with only whitespace cut at both ends, starts and ends with non-whitespace, and is empty iff the input is all whitespace |
| `Text.Lower` | components/Dashboard.tsx:23-24 | same length as the input, no ASCII capital left, every other character kept |
| `Text.Includes` | components/Dashboard.tsx:23-24 | `includes` holds iff the needle occurs at some offset of the haystack |
| `Text.EmptyIsIncluded` | components/Dashboard.tsx:23-24 | the empty string occurs in every string |
| `Dashboard.FlatTags` | components/Dashboard.tsx:20 | `flatMap` holds exactly the tags of all items |
| `Dashboard.Distinct` | components/Dashboard.tsx:20 | `Array.from(new Set(...))` has no duplicates and the same elements |
| `Dashboard.AllTags` | components/Dashboard.tsx:20 | every tag of every item is listed, each listed tag belongs to some item, and none is listed twice |
| `Dashboard.MatchesSearch` | components/Dashboard.tsx:23-24 | an item matches iff the lower-cased query occurs at some offset of its lower-cased question or of its lower-cased concept; the empty query matches every item |
| `Dashboard.MatchesTag` | components/Dashboard.tsx:25 | an item passes iff no tag is selected, the selected tag is the empty string, or the item has the selected tag |
| `Dashboard.Shown` | components/Dashboard.tsx:26 | an item is listed iff it passes both the search and the tag test; an empty search with no tag (or the empty tag) lists every item |
| `Dashboard.FilteredHistory` | components/Dashboard.tsx:22-27 | the shown items are exactly the history items passing the search and the tag test; with a non-empty tag selected every shown item has it; with no tag only the search applies; each passing item appears exactly as often as in the history and no other item appears |
| `Dashboard.FilteredIsSubsequence` | components/Dashboard.tsx:22-27 | the shown items keep the history's order |
| `Dashboard.NoFilterShowsAll` | components/Dashboard.tsx:23-26 | an empty search with no tag selected shows the whole history |
| `Dashboard.PendingTag` | components/Dashboard.tsx:30 | the pending tag is empty iff the item's box is missing or all whitespace |
| `Dashboard.View.constructor` | components/Dashboard.tsx:11-14 | empty history, no tag, empty search, no tag boxes |
| `Dashboard.View.Mount` | components/Dashboard.tsx:16-18 | the shown history becomes the stored one; a parse error leaves it as it was |
| `Dashboard.View.SetSearchQuery` | components/Dashboard.tsx:53 | only the search text changes |
| `Dashboard.View.SelectTag` | components/Dashboard.tsx:62 | the empty choice turns the tag filter off; any other choice selects that tag |
| `Dashboard.View.SetTagInput` | components/Dashboard.tsx:103 | only that item's tag box changes |
| `Dashboard.View.HandleAddTag` | components/Dashboard.tsx:29-36 | a blank box changes nothing; otherwise the trimmed tag is added through the store, the returned history is shown and equals the stored one, and only that item's box is cleared; on every path the account key is untouched |
| `App.Controller.constructor` | App.tsx:14-20 | the initial screen is IDLE with empty input and no analysis, quiz or current id |
| `App.Controller.SetInput` | App.tsx:109 | only the question box changes |
| `App.Controller.BeginAnalysis` | App.tsx:22-27 | a blank question changes nothing; otherwise the screen is ANALYZING with the analysis and current id cleared |
| `App.Controller.ResolveAnalysis` | App.tsx:29-42 | on success the analysis is the result, the history grows by exactly the new record in front, its id is current and the screen is LEARNING; on failure, or when saving throws, the screen is IDLE and a failed call changes no history; on every path only the history key may change, so the accounts are untouched |
| `App.Controller.HandleAnalyze` | App.tsx:22-43 | the whole handler: a blank question changes nothing, and otherwise the combined effect of the two parts; the account key is untouched |
| `App.Controller.HandleHistorySelect` | App.tsx:45-50 | question, analysis and id come from the record, the screen is LEARNING, and the store is untouched (no remote call) |
| `App.Controller.BeginQuiz` | App.tsx:52-55 | without an analysis nothing happens; otherwise the quiz button is busy during the call |
| `App.Controller.ResolveQuiz` | App.tsx:56-64 | the busy flag is cleared on both outcomes; the question is set and the quiz opened only on success |
| `App.Controller.HandleQuizStart` | App.tsx:52-69 | the whole quiz handler, also run for "next question": no analysis means no change, and otherwise the combined effect of the two parts |
| `App.Controller.CloseQuiz` | App.tsx:211 | only the quiz closes |
| `App.Controller.GoHome` | App.tsx:76 | IDLE from any screen, nothing else changes |
| `App.Controller.OpenLibrary` | App.tsx:85 | DASHBOARD from any screen, nothing else changes |
| `App.Controller.AskAnother` | App.tsx:196 | the input is cleared and the screen is IDLE; the analysis and current id are kept |
| `App.Controller.ExistingFeedback` | App.tsx:190 | the feedback given to the widget is the stored feedback of the first record with the current id |
| `QuizModal.IsCorrect` | components/QuizModal.tsx:29 | correct iff an option is selected and it is the correct index |
| `QuizModal.StyleOf` | components/QuizModal.tsx:48-58 | after submission: correct iff its index is the correct one, wrong iff it is the selected wrong one, dimmed otherwise; before submission only the selected option is highlighted |
| `QuizModal.Styles` | components/QuizModal.tsx:45 | one style per option, each given by the rule for its index |
| `QuizModal.ExactlyOneCorrect` | components/QuizModal.tsx:48-50 | with the correct index in range exactly one option is marked correct |
| `QuizModal.AtMostOneWrong` | components/QuizModal.tsx:51-52 | one option is marked wrong iff a wrong in-range option was selected, otherwise none |
| `QuizModal.OneHighlightBeforeSubmit` | components/QuizModal.tsx:56-58 | before submission exactly the selected in-range option is highlighted, or none |
| `QuizModal.Modal.constructor` | components/QuizModal.tsx:14-15 | nothing selected, not submitted |
| `QuizModal.Modal.ClickOption` | components/QuizModal.tsx:63 | selects the option before submission; once submitted the selection does not change |
| `QuizModal.Modal.HandleSubmit` | components/QuizModal.tsx:19-21 | submitted only when an option is selected; a submitted answer is never empty |
| `QuizModal.Modal.HandleNext` | components/QuizModal.tsx:23-27 | not submitted and nothing selected afterwards, and the parent is asked for a question iff it passed `onNext` |
| `QuizModal.Modal.ReceiveQuestion` | components/QuizModal.tsx:13-15 | a new question from the parent keeps the dialog's selection and submitted flag |
| `QuizModal.Modal.ReceiveFreshQuestion` | components/QuizModal.tsx:14-15 | a new question starts with nothing selected and not submitted |
| `QuizModal.StaleAnswerAfterReopen` | App.tsx:208-216 | answer, close, open a new quiz: the new question is shown already submitted with the old choice |
| `QuizModal.FreshAnswerAfterReopen` | components/QuizModal.tsx:14-15 | the same steps with the state cleared on a new question: the new question starts unanswered |
| `FeedbackWidget.InitialRating` | components/FeedbackWidget.tsx:11 | the existing rating, or 0 without feedback |
| `FeedbackWidget.InitialComment` | components/FeedbackWidget.tsx:12 | the existing comment, or empty without feedback |
| `FeedbackWidget.StarFilled` | components/FeedbackWidget.tsx:54 | a filled star is at or below the rating, and the rated star itself is filled |
| `FeedbackWidget.FilledStarsIsRating` | components/FeedbackWidget.tsx:47-54 | with a rating from 0 to n, exactly that many of the stars 1 to n are filled |
| `FeedbackWidget.FilledStarsFormPrefix` | components/FeedbackWidget.tsx:54 | star `s` is drawn filled iff `rating >= s`, so a filled star has every star to its left filled, and the rated star is the last filled one |
| `FeedbackWidget.ReopenShowsStoredFeedback` | components/FeedbackWidget.tsx:11-13 | a widget reopened on a record with just-stored feedback starts submitted with that rating and comment |
| `FeedbackWidget.Widget.constructor` | components/FeedbackWidget.tsx:11-13 | rating and comment from the existing feedback; submitted iff feedback exists; before submission the rating is 0 to 5 |
| `FeedbackWidget.Widget.ClickStar` | components/FeedbackWidget.tsx:47-50 | the rating becomes the clicked star, between 1 and 5, keeping the widget's rating bound |
| `FeedbackWidget.Widget.SetComment` | components/FeedbackWidget.tsx:62 | only the comment changes, keeping the rating bound |
| `FeedbackWidget.Widget.HandleSubmit` | components/FeedbackWidget.tsx:15-23 | a 0 rating writes nothing and stays unsubmitted; otherwise the stored history gets the current rating, comment and time for the item, and the widget is submitted with a rating from 1 to 5, so stored feedback is rated 1 to 5; the account key is untouched |

## Left out

- services/geminiService.ts is not part of this model: the prompts, the network calls to the hosted model and the parsing of its replies. Each call is an outcome parameter.
- components/CodeSandbox.tsx: a remote hint call and a "run" button that shows a fixed string. There is no logic in it.
- components/AuthModal.tsx: form handling that delegates to `login` and `signup`. Its one check, that a blank name is refused before `signup`, is not modelled.
- components/MarkdownRenderer.tsx, components/Spinner.tsx and all JSX and CSS rendering are presentation only. The alerts and `console.error` calls are left out too.
- Storage.Store.SaveHistory, Storage.Store.AddTag, Storage.Store.RemoveTag, Storage.Store.SubmitFeedback and Storage.Store.Signup: every `localStorage.setItem` write is taken to succeed. A write that throws (a full store's `QuotaExceededError`) is not modelled, so neither is the error reaching the caller, for instance `handleAnalyze` showing IDLE with the analysis already set.
- JSON text: a stored list is already a parsed Dafny value, so we rely on `JSON.parse(JSON.stringify(x)) == x`. Text that does not parse is the `Unparsable` entry.
- Storage.ReadHistory: a list of the wrong kind under the history key (an account list, even an empty one) reads as a parse error. In the source, `JSON.parse` would succeed there and the code would work on objects without the expected fields.
- Storage.ReadUsers: likewise, a history list under the account key (even an empty one, which `JSON.parse` reads as an empty account list) reads as a parse error, because stored lists are typed values in the model.
- `toLocaleDateString` in the library list is presentation.
- Text.Lower: lower-cases ASCII letters only, because full Unicode case mapping is not modelled.
- Dashboard.Distinct: does not state that the tags keep the first-occurrence order of a JavaScript `Set`, although it is built to keep that order. Dashboard.AllTags inherits this.
- Async interleaving is concurrency, not logic. This covers completions that arrive after the user has navigated away, and `handleNextQuizQuestion` not awaiting `handleQuizStart`. Each handler's two parts run back to back.
- App.Controller.HandleAnalyze: the question saved with the history record is the value of `input` when the handler started (the closure's value). Edits made while the call is pending are not modelled.
- FeedbackWidget.Widget.ClickStar, SetComment and HandleSubmit require `!submitted`, because their controls are drawn only before submission.

## Findings

| source | as written | input that shows it | evidently intended | confidence | as-written member | corrected member |
|---|---|---|---|---|---|---|
| components/QuizModal.tsx:14-17 with App.tsx:208-216 | the dialog's `selectedOption` and `isSubmitted` live in `useState` above `if (!isOpen) return null`, and the parent keeps the dialog mounted while it is closed, so its answer state survives closing | answer a quiz question and submit, close with X, press "Quiz Me" again: the new question appears already submitted, with the old option index marked against its options | a new question starts unanswered | not executed | `QuizModal.StaleAnswerAfterReopen` (with `QuizModal.Modal.ReceiveQuestion`) | `QuizModal.FreshAnswerAfterReopen` (with `QuizModal.Modal.ReceiveFreshQuestion`) |
