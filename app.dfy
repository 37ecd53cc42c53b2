/** The game screen's wiring (src/components/TriviaGame.js): the handlers that
    pass a typed or picked guess to the session, and the callbacks the
    authoring panel and the proposal form call with what they produce. */
module App {
  import opened Records
  import opened Storage
  import opened StorageProperties
  import opened Game

  /** Once a prompt for `p.date` is saved, the prompt chosen for that day is `p`:
      the reload after saving today's prompt shows the new prompt. */
  lemma AdminSaveToday(data: Data, p: Prompt)
    ensures !PromptsMisshapen(data) ==> TodaysPrompt(AfterSave(data, p, true), p.date) == p
  {
    if !PromptsMisshapen(data) {
      AfterSaveReads(data, p, true);
      SavedSameDate(AllPrompts(data), p);
      TodaysPromptChoice(AfterSave(data, p, true), p.date);
    }
  }

  /** The parts of the game screen's state its wiring touches: the session,
      the browser storage, and whether the answer browser is open. */
  class Screen {
    const session: GameSession
    const store: Store
    var showAnswerList: bool

    constructor (g: GameSession, st: Store)
      ensures session == g && store == st && !showAnswerList
    {
      session := g;
      store := st;
      showAnswerList := false;
    }

    /** `handleFormSubmit`: submit what is in the guess box. */
    method HandleFormSubmit() returns (outcome: Outcome)
      modifies session
      ensures outcome == Classify(session.prompt.answers, old(session.State()), old(session.inputValue))
      ensures session.State() == Next(session.prompt.answers, old(session.State()), old(session.inputValue))
      ensures session.inputValue ==
        if outcome.Correct? || outcome.Incorrect? then "" else old(session.inputValue)
    {
      outcome := session.HandleSubmit(session.inputValue);
    }

    /** `handleAnswerSelect`: submit an answer picked in the answer browser,
        then close the browser. */
    method HandleAnswerSelect(answer: string) returns (outcome: Outcome)
      modifies this, session
      ensures outcome == Classify(session.prompt.answers, old(session.State()), answer)
      ensures session.State() == Next(session.prompt.answers, old(session.State()), answer)
      ensures session.inputValue ==
        if outcome.Correct? || outcome.Incorrect? then "" else old(session.inputValue)
      ensures !showAnswerList
    {
      outcome := session.HandleSubmit(answer);
      showAnswerList := false;
    }

    /** `handleAdminSave`: store the panel's prompt and ask for a reload when it
        is today's; after a successful write the reloaded game loads it. */
    method HandleAdminSave(p: Prompt, today: string, writable: bool) returns (reload: bool)
      modifies store
      ensures store.data == AfterSave(old(store.data), p, writable)
      ensures reload == (p.date == today)
      ensures reload && writable && !PromptsMisshapen(old(store.data)) ==>
        TodaysPrompt(store.data, today) == p
    {
      var _ := store.SavePrompt(p, writable);
      reload := p.date == today;
      AdminSaveToday(old(store.data), p);
    }

    /** `handleQuestionSubmission`: store the form's proposal. */
    method HandleQuestionSubmission(s: Submission, writable: bool)
      modifies store
      ensures store.data == AfterSaveSubmission(old(store.data), s, writable)
      ensures writable && !SubmissionsMisshapen(old(store.data)) ==>
        Submissions(store.data) == Submissions(old(store.data)) + [s]
    {
      var _ := store.SaveSubmission(s, writable);
      SubmissionRoundTrip(old(store.data), s);
    }
  }
}
