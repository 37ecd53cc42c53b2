/** The two persisted records: a daily prompt and a user-submitted question. */
module Records {
  import opened Lists
  import opened Strings

  /** One day's question, its ten ranked answers and the wider pool of answers
      offered for autocomplete. An absent pool falls back to the ranked answers. */
  datatype Prompt = Prompt(
    id: int,
    question: string,
    answers: seq<string>,
    allPossibleAnswers: Option<seq<string>>,
    date: string)

  datatype Status = Pending

  /** A question proposed by a player. The submission form fills in only the
      first four fields; the admin panel also reads ranked answers and an
      answer pool when a stored submission carries them. */
  datatype Submission = Submission(
    id: int,
    question: string,
    submittedAt: string,
    status: Status,
    answers: Option<seq<string>>,
    allPossibleAnswers: Option<seq<string>>)

  /** `prompt.allPossibleAnswers || prompt.answers`: the pool offered to the player. */
  function AnswerPool(p: Prompt): seq<string> {
    match p.allPossibleAnswers
    case Some(pool) => pool
    case None => p.answers
  }

  /** What an authored prompt guarantees: a non-blank trimmed question and ten
      non-blank trimmed ranked answers. */
  predicate WellFormed(p: Prompt) {
    && p.question != "" && IsTrimmed(p.question)
    && |p.answers| == 10
    && (forall i :: 0 <= i < 10 ==> p.answers[i] != "" && IsTrimmed(p.answers[i]))
    && p.date != ""
  }
}
