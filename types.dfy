/** The records of types.ts, plus the small wrappers the model uses for
    optional values, thrown errors and the outcome of a remote call. */
module Types {

  datatype Option<T> = None | Some(value: T)

  /** The errors the core throws: `JSON.parse` rejecting a stored snapshot,
      and the two messages of the mock account service. */
  datatype Failure = MalformedSnapshot | InvalidCredentials | UserAlreadyExists

  /** A value, or the error a call would have thrown. */
  datatype Result<T> = Ok(value: T) | Err(error: Failure)

  /** What a call to the hosted model came back with; its content is opaque. */
  datatype Remote<T> = Success(value: T) | Failed

  /** The four screens of the application: `ViewState` in types.ts. */
  datatype ViewState = Idle | Analyzing | Learning | Dashboard

  datatype AnalysisResult = AnalysisResult(concept: string, explanationMarkdown: string)

  /** A quiz question as produced by the remote model; the options are shown by index. */
  datatype QuizQuestion = QuizQuestion(question: string, options: seq<string>, correctOptionIndex: int, explanation: string)

  datatype Feedback = Feedback(rating: int, comment: string, timestamp: int)

  /** One stored question with its explanation. `feedback` is the optional `feedback?` field. */
  datatype HistoryItem = HistoryItem(
    id: string,
    question: string,
    analysis: AnalysisResult,
    tags: seq<string>,
    timestamp: int,
    feedback: Option<Feedback>)

  /** The public view of an account, as `login` and `signup` return it. */
  datatype User = User(name: string, email: string)
}
