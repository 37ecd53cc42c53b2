/** The question proposal form (src/components/QuestionSubmission.js). */
module QuestionSubmission {
  import opened Lists
  import opened Strings
  import opened Records

  const QuestionError := "Question is required"

  /** The error map `validate` stores: an entry for a blank question and
      nothing else. */
  function SubmissionErrors(question: string): (errors: map<string, string>)
    ensures "question" in errors <==> Trim(question) == ""
    ensures errors.Keys <= {"question"}
    ensures "question" in errors ==> errors["question"] == QuestionError
  {
    if Trim(question) == "" then map["question" := QuestionError] else map[]
  }

  /** The record `handleSubmit` hands to `onSubmit`: the trimmed question,
      pending, with no answers attached; the id and time stamp come from the
      clock. */
  function NewSubmission(id: int, question: string, submittedAt: string): Submission {
    Submission(id, Trim(question), submittedAt, Pending, None, None)
  }

  /** A sent submission carries a non-empty, trimmed question and is
      pending, with no answers or pool. */
  lemma NewSubmissionClean(id: int, question: string, submittedAt: string)
    requires Trim(question) != ""
    ensures var s := NewSubmission(id, question, submittedAt);
      && s.question != "" && IsTrimmed(s.question) && s.status == Pending
      && s.answers.None? && s.allPossibleAnswers.None?
      && s.id == id && s.submittedAt == submittedAt
  {
    TrimFacts(question);
  }

  class SubmissionForm {
    var question: string
    var errors: map<string, string>
    var submitted: bool

    constructor ()
      ensures question == "" && errors == map[] && !submitted
    {
      question := "";
      errors := map[];
      submitted := false;
    }

    method HandleQuestionChange(text: string)
      modifies this
      ensures question == text && errors == old(errors) && submitted == old(submitted)
    {
      question := text;
    }

    /** `validate`. */
    method Validate() returns (ok: bool)
      modifies this
      ensures errors == SubmissionErrors(question)
      ensures ok <==> Trim(question) != ""
      ensures question == old(question) && submitted == old(submitted)
    {
      var newErrors: map<string, string> := map[];
      if Trim(question) == "" {
        newErrors := newErrors["question" := QuestionError];
      }
      errors := newErrors;
      ok := |newErrors| == 0;
    }

    /** `handleSubmit`: the record passed to `onSubmit` when the question is
        not blank, after which the form shows its thank-you view. */
    method HandleSubmit(id: int, submittedAt: string) returns (sent: Option<Submission>)
      modifies this
      ensures sent.Some? <==> Trim(old(question)) != ""
      ensures sent.Some? ==> sent.value == NewSubmission(id, old(question), submittedAt) && submitted
      ensures sent.None? ==> submitted == old(submitted)
      ensures errors == SubmissionErrors(old(question)) && question == old(question)
    {
      var ok := Validate();
      if !ok {
        return None;
      }
      var submission := Submission(id, Trim(question), submittedAt, Pending, None, None);
      submitted := true;
      return Some(submission);
    }

    /** `handleClose`, also run by the source's two-second timer after a
        submission. */
    method HandleClose()
      modifies this
      ensures question == "" && errors == map[] && !submitted
    {
      question := "";
      errors := map[];
      submitted := false;
    }
  }
}
