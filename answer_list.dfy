/** The answer browser (src/components/AnswerListModal.js): the search over the
    pool, which rows are marked as guessed, and what a click passes on. */
module AnswerList {
  import opened Lists
  import opened Strings

  /** `isGuessed`: some guessed answer normalizes equal to this one. */
  predicate IsGuessed(guessed: seq<string>, answer: string) {
    MatchesAny(guessed, answer)
  }

  /** `answers.filter(...)`: the answers whose normalized form contains the
      normalized search term, in pool order. */
  function Listed(term: string, answers: seq<string>): (r: seq<string>)
    ensures |r| <= |answers|
  {
    if answers == [] then []
    else (if Contains(Normalize(answers[0]), term) then [answers[0]] else []) + Listed(term, answers[1..])
  }

  /** What clicking a row hands to `onSelect`: the answer, unless it is
      already guessed. */
  function Click(guessed: seq<string>, answer: string): (r: Option<string>)
    ensures r.Some? <==> !IsGuessed(guessed, answer)
    ensures r.Some? ==> r.value == answer
  {
    if IsGuessed(guessed, answer) then None else Some(answer)
  }

  /** The modal's one piece of state, the search box. */
  class AnswerListModal {
    var searchTerm: string

    constructor ()
      ensures searchTerm == ""
    {
      searchTerm := "";
    }

    method HandleSearchChange(text: string)
      modifies this
      ensures searchTerm == text
    {
      searchTerm := text;
    }

    /** The rows shown for the pool `answers`. */
    function Shown(answers: seq<string>): seq<string>
      reads this
    {
      Listed(Normalize(searchTerm), answers)
    }
  }
}
