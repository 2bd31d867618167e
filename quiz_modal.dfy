/** components/QuizModal.tsx: choosing an answer, checking it and moving on,
    and the style each option button is drawn with. */
module QuizModal {
  import opened Types

  /** The look of one option button. */
  datatype OptionStyle = Plain | Highlighted | MarkedCorrect | MarkedWrong | Dimmed

  /** `isCorrect`: `selectedOption === data.correctOptionIndex`, never true
      while nothing is selected. */
  function IsCorrect(selected: Option<int>, correct: int): (r: bool)
    ensures r <==> selected == Some(correct)
  {
    match selected
    case None => false
    case Some(s) => s == correct
  }

  /** The style of the option at `idx`. Once submitted: the correct option is
      marked correct, a selected wrong one is marked wrong, the rest are
      dimmed. Before: only the selected option is highlighted. */
  function StyleOf(idx: int, selected: Option<int>, submitted: bool, correct: int): (r: OptionStyle)
    ensures submitted ==> (r == MarkedCorrect <==> idx == correct)
    ensures submitted ==> (r == MarkedWrong <==> idx != correct && selected == Some(idx))
    ensures submitted ==> (r == Dimmed <==> idx != correct && selected != Some(idx))
    ensures !submitted ==> (r == Highlighted <==> selected == Some(idx))
    ensures !submitted ==> (r == Plain <==> selected != Some(idx))
  {
    if submitted then
      if idx == correct then MarkedCorrect
      else if selected == Some(idx) && idx != correct then MarkedWrong
      else Dimmed
    else if selected == Some(idx) then Highlighted
    else Plain
  }

  /** The styles of options 0 .. n-1, as `data.options.map` draws them. */
  function Styles(n: nat, selected: Option<int>, submitted: bool, correct: int): (r: seq<OptionStyle>)
    ensures |r| == n
    ensures forall i :: 0 <= i < n ==> r[i] == StyleOf(i, selected, submitted, correct)
  {
    seq(n, i requires 0 <= i < n => StyleOf(i, selected, submitted, correct))
  }

  function Occurrences(s: seq<OptionStyle>, x: OptionStyle): nat {
    if s == [] then 0 else (if s[0] == x then 1 else 0) + Occurrences(s[1..], x)
  }

  /** A style found at no index does not occur. */
  lemma {:induction false} OccursNowhere(s: seq<OptionStyle>, x: OptionStyle)
    requires forall i :: 0 <= i < |s| ==> s[i] != x
    ensures Occurrences(s, x) == 0
  {
    if s != [] {
      OccursNowhere(s[1..], x);
    }
  }

  /** A style found at exactly one index occurs once. */
  lemma {:induction false} OccursOnce(s: seq<OptionStyle>, x: OptionStyle, k: nat)
    requires k < |s| && forall i :: 0 <= i < |s| ==> (s[i] == x <==> i == k)
    ensures Occurrences(s, x) == 1
  {
    if k == 0 {
      OccursNowhere(s[1..], x);
    } else {
      OccursOnce(s[1..], x, k - 1);
    }
  }

  /** When the correct index is in range, exactly one option is marked correct. */
  lemma ExactlyOneCorrect(n: nat, selected: Option<int>, correct: int)
    requires 0 <= correct < n
    ensures Occurrences(Styles(n, selected, true, correct), MarkedCorrect) == 1
  {
    OccursOnce(Styles(n, selected, true, correct), MarkedCorrect, correct);
  }

  /** After submission an option is marked wrong only when a wrong answer in
      range was selected, and then just that one. */
  lemma AtMostOneWrong(n: nat, selected: Option<int>, correct: int)
    ensures Occurrences(Styles(n, selected, true, correct), MarkedWrong) ==
              if selected.Some? && 0 <= selected.value < n && selected.value != correct then 1 else 0
  {
    var s := Styles(n, selected, true, correct);
    if selected.Some? && 0 <= selected.value < n && selected.value != correct {
      OccursOnce(s, MarkedWrong, selected.value);
    } else {
      OccursNowhere(s, MarkedWrong);
    }
  }

  /** Before submission at most the selected option is highlighted. */
  lemma OneHighlightBeforeSubmit(n: nat, selected: Option<int>, correct: int)
    ensures Occurrences(Styles(n, selected, false, correct), Highlighted) ==
              if selected.Some? && 0 <= selected.value < n then 1 else 0
  {
    var s := Styles(n, selected, false, correct);
    if selected.Some? && 0 <= selected.value < n {
      OccursOnce(s, Highlighted, selected.value);
    } else {
      OccursNowhere(s, Highlighted);
    }
  }

  /** The state of the mounted quiz dialog. */
  class Modal {
    var data: QuizQuestion
    const hasOnNext: bool
    var selectedOption: Option<int>
    var isSubmitted: bool

    /** Submitted answers are never empty. */
    predicate Valid()
      reads this
    {
      isSubmitted ==> selectedOption.Some?
    }

    constructor(data: QuizQuestion, hasOnNext: bool)
      ensures Valid()
      ensures this.data == data && this.hasOnNext == hasOnNext
      ensures selectedOption == None && !isSubmitted
    {
      this.data := data;
      this.hasOnNext := hasOnNext;
      selectedOption := None;
      isSubmitted := false;
    }

    /** A click on option `idx`: `!isSubmitted && setSelectedOption(idx)`. */
    method ClickOption(idx: int)
      requires Valid()
      modifies this
      ensures Valid()
      ensures selectedOption == if old(isSubmitted) then old(selectedOption) else Some(idx)
      ensures isSubmitted == old(isSubmitted) && data == old(data)
    {
      if !isSubmitted {
        selectedOption := Some(idx);
      }
    }

    /** `handleSubmit`: checks the answer only when one is selected. */
    method HandleSubmit()
      requires Valid()
      modifies this
      ensures Valid()
      ensures isSubmitted <==> old(isSubmitted) || old(selectedOption).Some?
      ensures selectedOption == old(selectedOption) && data == old(data)
    {
      if selectedOption.Some? {
        isSubmitted := true;
      }
    }

    /** `handleNext`: resets the answer, then asks the parent for a new
        question when it passed `onNext`. */
    method HandleNext() returns (callsOnNext: bool)
      requires Valid()
      modifies this
      ensures Valid()
      ensures !isSubmitted && selectedOption == None && data == old(data)
      ensures callsOnNext == hasOnNext
    {
      isSubmitted := false;
      selectedOption := None;
      callsOnNext := hasOnNext;
    }

    /** The parent passes a new question; the dialog's own state is kept. */
    method ReceiveQuestion(next: QuizQuestion)
      requires Valid()
      modifies this
      ensures Valid()
      ensures data == next && selectedOption == old(selectedOption) && isSubmitted == old(isSubmitted)
    {
      data := next;
    }

    /** A new question with the answer state cleared, as a dialog that is
        mounted afresh for each question (for instance keyed by the question)
        would show it. */
    method ReceiveFreshQuestion(next: QuizQuestion)
      modifies this
      ensures Valid()
      ensures data == next && selectedOption == None && !isSubmitted
    {
      data := next;
      selectedOption := None;
      isSubmitted := false;
    }
  }

  /** Answering a question, closing the dialog with X and opening a new quiz.
      Closing only clears the app's `isQuizOpen` (`App.Controller.CloseQuiz`
      keeps `quizData`), so `{quizData && <QuizModal .../>}` stays rendered
      and the dialog instance, here `m`, lives on with its own state; closing
      therefore changes nothing in `m`. The next quiz arrives as a new `data`
      prop, and the new question is shown already submitted, with the old
      choice marked against its options. */
  method StaleAnswerAfterReopen(first: QuizQuestion, second: QuizQuestion, choice: int) returns (stale: bool)
    ensures stale
  {
    var m := new Modal(first, true);
    m.ClickOption(choice);
    m.HandleSubmit();
    m.ReceiveQuestion(second);
    stale := m.isSubmitted && m.selectedOption == Some(choice) && m.data == second;
  }

  /** The same steps with the answer state cleared on a new question: the
      new question starts unanswered. */
  method FreshAnswerAfterReopen(first: QuizQuestion, second: QuizQuestion, choice: int) returns (stale: bool)
    ensures !stale
  {
    var m := new Modal(first, true);
    m.ClickOption(choice);
    m.HandleSubmit();
    m.ReceiveFreshQuestion(second);
    stale := m.isSubmitted || m.selectedOption.Some?;
  }
}
