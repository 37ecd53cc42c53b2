/** The authoring panel (src/components/AdminPanel.js): parsing the answer
    pool text, field-keyed validation, building the saved prompt, and an
    `AdminPanel` class whose handlers update the panel's fields in place. */
module Admin {
  import opened Lists
  import opened Strings
  import opened Records
  import opened Storage

  const AdminPassword := "pooppoop"
  const TopTenSlots := 10

  // ---------------------------------------------------------------------------
  // `parseAllAnswers`

  /** The characters of the pattern `/[\n,]/`. */
  predicate IsSeparator(c: char) {
    c == '\n' || c == ','
  }

  predicate NoSeparator(t: string) {
    forall c :: c in t ==> !IsSeparator(c)
  }

  /** `split(/[\n,]/)`: the pieces between separators; the empty string
      splits into one empty piece. */
  function Split(s: string): (r: seq<string>)
    ensures |r| >= 1
    ensures forall i :: 0 <= i < |r| ==> NoSeparator(r[i])
    decreases |s|
  {
    if s == [] then [""]
    else
      var rest := Split(s[1..]);
      if IsSeparator(s[0]) then [""] + rest
      else [[s[0]] + rest[0]] + rest[1..]
  }

  predicate NotEmpty(t: string) {
    t != ""
  }

  /** `split(...).map(trim).filter(a => a.length > 0)`. */
  function Tokens(s: string): seq<string> {
    Filter(Map(Split(s), Trim), NotEmpty)
  }

  /** `parseAllAnswers`: no tokens for blank text, otherwise the tokens. */
  function ParseAllAnswers(text: string): seq<string> {
    if Trim(text) == "" then [] else Tokens(text)
  }

  // ---------------------------------------------------------------------------
  // `validate`

  const QuestionError := "Question is required"
  const TopTenError := "All 10 answers are required"
  const DateError := "Date is required"

  predicate SomeBlank(xs: seq<string>) {
    exists i :: 0 <= i < |xs| && Trim(xs[i]) == ""
  }

  /** The error map `validate` stores: one entry per failing field. */
  function ValidationErrors(question: string, topTen: seq<string>, date: string): (errors: map<string, string>)
    ensures "question" in errors <==> Trim(question) == ""
    ensures "topTen" in errors <==> SomeBlank(topTen)
    ensures "date" in errors <==> date == ""
    ensures errors.Keys <= {"question", "topTen", "date"}
    ensures "question" in errors ==> errors["question"] == QuestionError
    ensures "topTen" in errors ==> errors["topTen"] == TopTenError
    ensures "date" in errors ==> errors["date"] == DateError
  {
    var e1: map<string, string> := if Trim(question) == "" then map["question" := QuestionError] else map[];
    var e2 := if SomeBlank(topTen) then e1["topTen" := TopTenError] else e1;
    if date == "" then e2["date" := DateError] else e2
  }

  /** `validate()` returns true exactly when the error map is empty. */
  predicate Valid(question: string, topTen: seq<string>, date: string) {
    |ValidationErrors(question, topTen, date)| == 0
  }

  // ---------------------------------------------------------------------------
  // `handleSave`

  /** The prompt `handleSave` hands to `onSave`: trimmed question and ranked
      answers, the parsed pool or else the ranked answers, and the date. */
  function BuildPrompt(id: int, question: string, topTen: seq<string>, allAnswers: string, date: string): Prompt {
    var ranked := Map(topTen, Trim);
    var pool := ParseAllAnswers(allAnswers);
    Prompt(id, Trim(question), ranked, Some(if |pool| > 0 then pool else ranked), date)
  }

  // ---------------------------------------------------------------------------
  // The panel

  datatype Tab = AddTab | SubmissionsTab

  function EmptyTopTen(): (r: seq<string>)
    ensures |r| == TopTenSlots && forall i :: 0 <= i < |r| ==> r[i] == ""
  {
    seq(TopTenSlots, _ => "")
  }

  class AdminPanel {
    var isAuthenticated: bool
    var password: string
    var passwordError: string
    var activeTab: Tab
    var question: string
    var allAnswers: string
    var topTen: seq<string>
    var date: string
    var errors: map<string, string>
    var submissions: seq<Submission>

    /** The form fields as they are when the panel opens or closes. */
    predicate FormReset()
      reads this
    {
      && password == "" && passwordError == ""
      && question == "" && allAnswers == "" && topTen == EmptyTopTen() && date == ""
      && errors == map[] && activeTab == AddTab
    }

    constructor ()
      ensures !isAuthenticated && FormReset() && submissions == []
    {
      isAuthenticated := false;
      password := "";
      passwordError := "";
      activeTab := AddTab;
      question := "";
      allAnswers := "";
      topTen := EmptyTopTen();
      date := "";
      errors := map[];
      submissions := [];
    }

    /** Typing in the password box clears the error message. */
    method HandlePasswordChange(value: string)
      modifies this
      ensures password == value && passwordError == ""
      ensures isAuthenticated == old(isAuthenticated) && activeTab == old(activeTab)
      ensures question == old(question) && allAnswers == old(allAnswers) && topTen == old(topTen)
      ensures date == old(date) && errors == old(errors) && submissions == old(submissions)
    {
      password := value;
      passwordError := "";
    }

    /** `handlePasswordSubmit`, followed by the effect that loads the
        submissions when the panel becomes authenticated. */
    method HandlePasswordSubmit(store: Store)
      modifies this
      ensures isAuthenticated == (old(isAuthenticated) || old(password) == AdminPassword)
      ensures passwordError == if old(password) == AdminPassword then "" else "Incorrect password"
      ensures submissions == if !old(isAuthenticated) && old(password) == AdminPassword
        then Submissions(store.data) else old(submissions)
      ensures password == old(password) && activeTab == old(activeTab)
      ensures question == old(question) && allAnswers == old(allAnswers) && topTen == old(topTen)
      ensures date == old(date) && errors == old(errors)
    {
      if password == AdminPassword {
        var wasAuthenticated := isAuthenticated;
        isAuthenticated := true;
        passwordError := "";
        if !wasAuthenticated {
          submissions := store.GetSubmissions();
        }
      } else {
        passwordError := "Incorrect password";
      }
    }

    /** `handleTopTenChange`: a copy with one slot replaced. */
    method HandleTopTenChange(index: int, value: string)
      requires 0 <= index < |topTen|
      modifies this
      ensures topTen == old(topTen)[index := value]
      ensures |topTen| == |old(topTen)|
      ensures forall i :: 0 <= i < |topTen| && i != index ==> topTen[i] == old(topTen)[i]
      ensures isAuthenticated == old(isAuthenticated) && password == old(password)
      ensures passwordError == old(passwordError) && activeTab == old(activeTab)
      ensures question == old(question) && allAnswers == old(allAnswers)
      ensures date == old(date) && errors == old(errors) && submissions == old(submissions)
    {
      var newTopTen := topTen;
      newTopTen := newTopTen[index := value];
      topTen := newTopTen;
    }

    /** `validate`: store the error map and report whether it is empty. */
    method Validate() returns (ok: bool)
      modifies this
      ensures errors == ValidationErrors(question, topTen, date)
      ensures ok == Valid(question, topTen, date)
      ensures question == old(question) && topTen == old(topTen) && date == old(date)
      ensures allAnswers == old(allAnswers) && isAuthenticated == old(isAuthenticated)
      ensures password == old(password) && passwordError == old(passwordError)
      ensures activeTab == old(activeTab) && submissions == old(submissions)
    {
      var newErrors: map<string, string> := map[];
      if Trim(question) == "" {
        newErrors := newErrors["question" := QuestionError];
      }
      if SomeBlank(topTen) {
        newErrors := newErrors["topTen" := TopTenError];
      }
      if date == "" {
        newErrors := newErrors["date" := DateError];
      }
      errors := newErrors;
      ok := |newErrors| == 0;
    }

    /** `handleClose`: reset the form and drop authentication. */
    method HandleClose()
      modifies this
      ensures !isAuthenticated && FormReset()
      ensures submissions == old(submissions)
    {
      isAuthenticated := false;
      password := "";
      passwordError := "";
      question := "";
      allAnswers := "";
      topTen := EmptyTopTen();
      date := "";
      errors := map[];
      activeTab := AddTab;
    }

    /** `handleSave`: the prompt passed to `onSave` when the form validates,
        after which the panel closes; otherwise only the errors change. */
    method HandleSave(id: int) returns (saved: Option<Prompt>)
      modifies this
      ensures saved.Some? <==> Valid(old(question), old(topTen), old(date))
      ensures saved.Some? ==>
        saved.value == BuildPrompt(id, old(question), old(topTen), old(allAnswers), old(date))
        && !isAuthenticated && FormReset()
      ensures saved.None? ==>
        errors == ValidationErrors(old(question), old(topTen), old(date))
        && question == old(question) && topTen == old(topTen) && date == old(date)
        && allAnswers == old(allAnswers) && isAuthenticated == old(isAuthenticated)
        && password == old(password) && passwordError == old(passwordError) && activeTab == old(activeTab)
      ensures submissions == old(submissions)
    {
      var ok := Validate();
      if !ok {
        return None;
      }
      var pool := ParseAllAnswers(allAnswers);
      var ranked := Map(topTen, Trim);
      var newPrompt := Prompt(id, Trim(question), ranked, Some(if |pool| > 0 then pool else ranked), date);
      HandleClose();
      return Some(newPrompt);
    }

    /** `handleUseSubmission`: copy a submission into the form. */
    method HandleUseSubmission(s: Submission)
      modifies this
      ensures question == s.question
      ensures topTen == if s.answers.Some? then s.answers.value else old(topTen)
      ensures allAnswers == if s.allPossibleAnswers.Some? then Join(s.allPossibleAnswers.value, "\n") else old(allAnswers)
      ensures activeTab == AddTab
      ensures date == old(date) && errors == old(errors) && isAuthenticated == old(isAuthenticated)
      ensures password == old(password) && passwordError == old(passwordError) && submissions == old(submissions)
    {
      question := s.question;
      if s.answers.Some? {
        topTen := s.answers.value;
      }
      if s.allPossibleAnswers.Some? {
        allAnswers := Join(s.allPossibleAnswers.value, "\n");
      }
      activeTab := AddTab;
    }

    /** `handleDeleteSubmission`, with the confirmation dialog's answer passed in. */
    method HandleDeleteSubmission(id: int, confirmed: bool, store: Store, writable: bool)
      modifies this, store
      ensures store.data == if confirmed then AfterDeleteSubmission(old(store.data), id, writable) else old(store.data)
      ensures submissions == if confirmed then Submissions(store.data) else old(submissions)
      ensures question == old(question) && topTen == old(topTen) && date == old(date)
      ensures allAnswers == old(allAnswers) && isAuthenticated == old(isAuthenticated) && activeTab == old(activeTab)
      ensures password == old(password) && passwordError == old(passwordError) && errors == old(errors)
    {
      if confirmed {
        var _ := store.DeleteSubmission(id, writable);
        submissions := store.GetSubmissions();
      }
    }

    /** The clear-data button, with the confirmation dialog's answer passed in. */
    method HandleClearData(confirmed: bool, store: Store)
      modifies store
      ensures store.data == if confirmed then Cleared(old(store.data)) else old(store.data)
    {
      if confirmed {
        var _ := store.ClearAllData();
      }
    }
  }
}
