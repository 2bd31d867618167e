/** App.tsx: the view-state controller. Each handler is a sequence of
    state updates; an `async` handler is split at its `await` into the part
    before the remote call and the part that handles its outcome. */
module App {
  import opened Types
  import Text
  import History
  import Storage

  class Controller {
    const store: Storage.Store
    var input: string
    var viewState: ViewState
    var analysis: Option<AnalysisResult>
    var quizData: Option<QuizQuestion>
    var isQuizOpen: bool
    var isGeneratingQuiz: bool
    var currentHistoryId: Option<string>

    constructor(store: Storage.Store)
      ensures this.store == store
      ensures input == "" && viewState == Idle && analysis == None && quizData == None
      ensures !isQuizOpen && !isGeneratingQuiz && currentHistoryId == None
    {
      this.store := store;
      input := "";
      viewState := Idle;
      analysis := None;
      quizData := None;
      isQuizOpen := false;
      isGeneratingQuiz := false;
      currentHistoryId := None;
    }

    /** The question box. */
    method SetInput(text: string)
      modifies this
      ensures input == text
      ensures viewState == old(viewState) && analysis == old(analysis) && currentHistoryId == old(currentHistoryId)
      ensures quizData == old(quizData) && isQuizOpen == old(isQuizOpen) && isGeneratingQuiz == old(isGeneratingQuiz)
    {
      input := text;
    }

    /** `handleAnalyze` up to its `await`: a blank question does nothing;
        otherwise the screen becomes ANALYZING and the current analysis and
        history id are cleared. */
    method BeginAnalysis() returns (started: bool)
      modifies this
      ensures started <==> !Text.AllWhitespace(old(input))
      ensures !started ==>
                && viewState == old(viewState) && analysis == old(analysis) && currentHistoryId == old(currentHistoryId)
      ensures started ==> viewState == Analyzing && analysis == None && currentHistoryId == None
      ensures input == old(input) && quizData == old(quizData) && isQuizOpen == old(isQuizOpen)
      ensures isGeneratingQuiz == old(isGeneratingQuiz)
    {
      if Text.Trim(input) == "" {
        return false;
      }
      viewState := Analyzing;
      analysis := None;
      currentHistoryId := None;
      started := true;
    }

    /** `handleAnalyze` after its `await`. On success the result is shown,
        saved in front of the history, its id becomes current and the screen
        becomes LEARNING; if the remote call or the save throws, the screen
        returns to IDLE. */
    method ResolveAnalysis(question: string, outcome: Remote<AnalysisResult>, id: string, now: int)
      requires store.IdIsFresh(id)
      modifies this, store
      ensures Storage.OnlyHistoryWritten(old(store.entries), store.entries)
      ensures Storage.ReadUsers(store.entries) == old(Storage.ReadUsers(store.entries))
      ensures input == old(input) && quizData == old(quizData) && isQuizOpen == old(isQuizOpen)
      ensures isGeneratingQuiz == old(isGeneratingQuiz)
      ensures outcome.Failed? ==>
                && viewState == Idle && analysis == old(analysis) && currentHistoryId == old(currentHistoryId)
                && store.entries == old(store.entries)
      ensures outcome.Success? ==> analysis == Some(outcome.value)
      ensures outcome.Success? && old(Storage.ReadHistory(store.entries)).Ok? ==>
                && viewState == Learning && currentHistoryId == Some(id)
                && Storage.ReadHistory(store.entries) ==
                     Ok([History.NewItem(id, question, outcome.value, now)] + old(Storage.ReadHistory(store.entries)).value)
      ensures outcome.Success? && old(Storage.ReadHistory(store.entries)).Err? ==>
                && viewState == Idle && currentHistoryId == old(currentHistoryId)
                && store.entries == old(store.entries)
    {
      if outcome.Failed? {
        viewState := Idle;
        return;
      }
      var result := outcome.value;
      analysis := Some(result);
      var saved := store.SaveHistory(question, result, id, now);
      Storage.OnlyHistoryWrittenKeepsUsers(old(store.entries), store.entries);
      if saved.Err? {
        viewState := Idle;
        return;
      }
      currentHistoryId := Some(saved.value.id);
      viewState := Learning;
    }

    /** The whole of `handleAnalyze`, with the remote call's outcome given.
        `id` and `now` stand for `crypto.randomUUID()` and `Date.now()`. */
    method HandleAnalyze(outcome: Remote<AnalysisResult>, id: string, now: int)
      requires store.IdIsFresh(id)
      modifies this, store
      ensures Storage.OnlyHistoryWritten(old(store.entries), store.entries)
      ensures Storage.ReadUsers(store.entries) == old(Storage.ReadUsers(store.entries))
      ensures Text.AllWhitespace(old(input)) ==>
                && viewState == old(viewState) && analysis == old(analysis) && currentHistoryId == old(currentHistoryId)
                && store.entries == old(store.entries)
      ensures input == old(input) && quizData == old(quizData) && isQuizOpen == old(isQuizOpen)
      ensures isGeneratingQuiz == old(isGeneratingQuiz)
      ensures !Text.AllWhitespace(old(input)) && outcome.Failed? ==>
                && viewState == Idle && analysis == None && currentHistoryId == None
                && store.entries == old(store.entries)
      ensures !Text.AllWhitespace(old(input)) && outcome.Success? && old(Storage.ReadHistory(store.entries)).Ok? ==>
                && viewState == Learning && analysis == Some(outcome.value) && currentHistoryId == Some(id)
                && Storage.ReadHistory(store.entries) ==
                     Ok([History.NewItem(id, old(input), outcome.value, now)] + old(Storage.ReadHistory(store.entries)).value)
      ensures !Text.AllWhitespace(old(input)) && outcome.Success? && old(Storage.ReadHistory(store.entries)).Err? ==>
                && viewState == Idle && analysis == Some(outcome.value) && currentHistoryId == None
                && store.entries == old(store.entries)
    {
      var started := BeginAnalysis();
      if started {
        ResolveAnalysis(input, outcome, id, now);
      }
    }

    /** `handleHistorySelect`: shows a stored record as it is, with no remote
        call and no change to the store. */
    method HandleHistorySelect(item: HistoryItem)
      modifies this
      ensures input == item.question && analysis == Some(item.analysis) && currentHistoryId == Some(item.id)
      ensures viewState == Learning
      ensures quizData == old(quizData) && isQuizOpen == old(isQuizOpen) && isGeneratingQuiz == old(isGeneratingQuiz)
      ensures store.entries == old(store.entries)
    {
      input := item.question;
      analysis := Some(item.analysis);
      currentHistoryId := Some(item.id);
      viewState := Learning;
    }

    /** `handleQuizStart` up to its `await`: nothing without an analysis;
        otherwise the quiz button becomes busy. */
    method BeginQuiz() returns (started: bool)
      modifies this
      ensures started <==> old(analysis).Some?
      ensures isGeneratingQuiz == (started || old(isGeneratingQuiz))
      ensures input == old(input) && viewState == old(viewState) && analysis == old(analysis)
      ensures currentHistoryId == old(currentHistoryId) && quizData == old(quizData) && isQuizOpen == old(isQuizOpen)
    {
      if analysis.None? {
        return false;
      }
      isGeneratingQuiz := true;
      started := true;
    }

    /** `handleQuizStart` after its `await`: a question is shown only on
        success; the busy flag is cleared either way (`finally`). */
    method ResolveQuiz(outcome: Remote<QuizQuestion>)
      modifies this
      ensures !isGeneratingQuiz
      ensures outcome.Success? ==> quizData == Some(outcome.value) && isQuizOpen
      ensures outcome.Failed? ==> quizData == old(quizData) && isQuizOpen == old(isQuizOpen)
      ensures input == old(input) && viewState == old(viewState) && analysis == old(analysis)
      ensures currentHistoryId == old(currentHistoryId)
    {
      if outcome.Success? {
        quizData := Some(outcome.value);
        isQuizOpen := true;
      }
      isGeneratingQuiz := false;
    }

    /** The whole of `handleQuizStart` (also what "next question" runs). */
    method HandleQuizStart(outcome: Remote<QuizQuestion>)
      modifies this
      ensures old(analysis).None? ==>
                isGeneratingQuiz == old(isGeneratingQuiz) && quizData == old(quizData) && isQuizOpen == old(isQuizOpen)
      ensures old(analysis).Some? ==> !isGeneratingQuiz
      ensures old(analysis).Some? && outcome.Success? ==> quizData == Some(outcome.value) && isQuizOpen
      ensures old(analysis).Some? && outcome.Failed? ==> quizData == old(quizData) && isQuizOpen == old(isQuizOpen)
      ensures input == old(input) && viewState == old(viewState) && analysis == old(analysis)
      ensures currentHistoryId == old(currentHistoryId)
      ensures store.entries == old(store.entries)
    {
      var started := BeginQuiz();
      if started {
        ResolveQuiz(outcome);
      }
    }

    /** The quiz's close button. */
    method CloseQuiz()
      modifies this
      ensures !isQuizOpen
      ensures input == old(input) && viewState == old(viewState) && analysis == old(analysis)
      ensures currentHistoryId == old(currentHistoryId) && quizData == old(quizData)
      ensures isGeneratingQuiz == old(isGeneratingQuiz)
    {
      isQuizOpen := false;
    }

    /** The header title: back to IDLE from any screen, nothing else changes. */
    method GoHome()
      modifies this
      ensures viewState == Idle
      ensures input == old(input) && analysis == old(analysis) && currentHistoryId == old(currentHistoryId)
      ensures quizData == old(quizData) && isQuizOpen == old(isQuizOpen) && isGeneratingQuiz == old(isGeneratingQuiz)
    {
      viewState := Idle;
    }

    /** "My Library" (header or breadcrumb): DASHBOARD from any screen. */
    method OpenLibrary()
      modifies this
      ensures viewState == Dashboard
      ensures input == old(input) && analysis == old(analysis) && currentHistoryId == old(currentHistoryId)
      ensures quizData == old(quizData) && isQuizOpen == old(isQuizOpen) && isGeneratingQuiz == old(isGeneratingQuiz)
    {
      viewState := Dashboard;
    }

    /** "Ask another question": clears the question box and returns to IDLE;
        the analysis and its history id are kept. */
    method AskAnother()
      modifies this
      ensures input == "" && viewState == Idle
      ensures analysis == old(analysis) && currentHistoryId == old(currentHistoryId)
      ensures quizData == old(quizData) && isQuizOpen == old(isQuizOpen) && isGeneratingQuiz == old(isGeneratingQuiz)
    {
      input := "";
      viewState := Idle;
    }

    /** The feedback handed to the feedback widget:
        `getHistory().find(h => h.id === currentHistoryId)?.feedback`. */
    method ExistingFeedback() returns (r: Result<Option<Feedback>>)
      requires currentHistoryId.Some?
      ensures Storage.ReadHistory(store.entries).Err? ==> r == Err(MalformedSnapshot)
      ensures Storage.ReadHistory(store.entries).Ok? ==>
                r == Ok(History.FeedbackOf(Storage.ReadHistory(store.entries).value, currentHistoryId.value))
    {
      var read := store.GetHistory();
      if read.Err? {
        return Err(read.error);
      }
      r := Ok(History.FeedbackOf(read.value, currentHistoryId.value));
    }
  }
}
