/** The persistence layer (src/utils/storage.js) over an abstract key-value
    store. Each key holds an `Entry`: text that does not parse, a document
    with a list of prompts, or a list of submissions. The pure functions say
    what each operation reads and writes; the `Store` class performs the
    operations on a `data` field, and every method is proved against those
    functions. */
module Storage {
  import opened Lists
  import opened Strings
  import opened Records

  const PromptsKey := "dailyTriviaData"
  const SubmissionsKey := "dailyTriviaSubmissions"

  /** A stored value as `JSON.parse` would see it. */
  datatype Entry =
    | Unparsable
    | PromptDoc(prompts: seq<Prompt>)
    | SubmissionList(items: seq<Submission>)

  type Data = map<string, Entry>

  // ---------------------------------------------------------------------------
  // Reading

  /** `getStoredPrompts`: the stored prompt list, or `None` when the key is
      missing or its text does not parse. */
  function StoredPrompts(data: Data): Option<seq<Prompt>> {
    if PromptsKey in data && data[PromptsKey].PromptDoc? then Some(data[PromptsKey].prompts) else None
  }

  /** `getAllPrompts`: the stored prompts, `[]` when there are none. */
  function AllPrompts(data: Data): seq<Prompt> {
    match StoredPrompts(data)
    case Some(ps) => ps
    case None => []
  }

  /** `getSubmissions`: the stored submissions, `[]` when the key is missing
      or its text does not parse. */
  function Submissions(data: Data): seq<Submission> {
    if SubmissionsKey in data && data[SubmissionsKey].SubmissionList? then data[SubmissionsKey].items else []
  }

  // ---------------------------------------------------------------------------
  // Prompts by date

  function DateIs(d: string): Prompt -> bool {
    (q: Prompt) => q.date == d
  }

  /** The prompts dated `d`, in stored order. */
  function WithDate(ps: seq<Prompt>, d: string): seq<Prompt> {
    Filter(ps, DateIs(d))
  }

  /** No two prompts share a date. */
  ghost predicate DatesUnique(ps: seq<Prompt>) {
    forall d :: |WithDate(ps, d)| <= 1
  }

  predicate SortedByDate(ps: seq<Prompt>) {
    forall i :: 0 <= i < |ps| - 1 ==> LexLeq(ps[i].date, ps[i + 1].date)
  }

  /** Replace the first prompt dated `p.date` by `p`, or append `p` when there
      is none (lines 22-30). */
  function Upsert(ps: seq<Prompt>, p: Prompt): seq<Prompt> {
    match FindIndex(ps, DateIs(p.date))
    case Some(i) => ps[i := p]
    case None => ps + [p]
  }

  /** Put `x` before the first prompt whose date is not earlier than its own. */
  function Insert(x: Prompt, ps: seq<Prompt>): (r: seq<Prompt>)
    ensures |r| == |ps| + 1
    ensures r[0] == x || (ps != [] && r[0] == ps[0])
  {
    if ps == [] then [x]
    else if LexLeq(x.date, ps[0].date) then [x] + ps
    else
      assert ps == [ps[0]] + ps[1..];
      [ps[0]] + Insert(x, ps[1..])
  }

  /** `sort((a, b) => new Date(a.date) - new Date(b.date))`: a stable sort by
      date; for `YYYY-MM-DD` dates the order is the lexicographic one. */
  function SortByDate(ps: seq<Prompt>): (r: seq<Prompt>)
    ensures |r| == |ps|
  {
    if ps == [] then []
    else
      assert ps == [ps[0]] + ps[1..];
      Insert(ps[0], SortByDate(ps[1..]))
  }

  /** The prompt list `savePrompt(p)` writes back. */
  function Saved(ps: seq<Prompt>, p: Prompt): seq<Prompt> {
    SortByDate(Upsert(ps, p))
  }

  /** The prompts key holds a list rather than a document: `prompts.prompts`
      is undefined, so `savePrompt` throws before it writes. */
  predicate PromptsMisshapen(data: Data) {
    PromptsKey in data && data[PromptsKey].SubmissionList?
  }

  /** The store after `savePrompt(p)`; nothing is written when the stored
      value is misshapen or writing fails. */
  function AfterSave(data: Data, p: Prompt, writable: bool): Data {
    if writable && !PromptsMisshapen(data) then data[PromptsKey := PromptDoc(Saved(AllPrompts(data), p))] else data
  }

  // ---------------------------------------------------------------------------
  // Today's prompt

  const DefaultQuestion := "Name the top 10 most populous countries in the world"
  const DefaultAnswers: seq<string> := [
    "China", "India", "United States", "Indonesia", "Pakistan",
    "Brazil", "Bangladesh", "Russia", "Mexico", "Japan"]
  const DefaultPool: seq<string> := DefaultAnswers + [
    "Nigeria", "Germany", "Philippines", "Vietnam", "Turkey", "Iran", "Thailand",
    "United Kingdom", "France", "Italy"]

  /** The prompt seeded when the store holds none. */
  function DefaultPrompt(today: string): (r: Prompt)
    ensures r.date == today && |r.answers| == 10
    ensures r.allPossibleAnswers.Some? && |r.allPossibleAnswers.value| == 20
    ensures r.answers == r.allPossibleAnswers.value[..10]
  {
    Prompt(1, DefaultQuestion, DefaultAnswers, Some(DefaultPool), today)
  }

  /** What `getTodaysPrompt` returns: the first prompt dated `today`, else the
      last stored prompt, else the default for `today`. */
  function TodaysPrompt(data: Data, today: string): Prompt {
    var ps := AllPrompts(data);
    if |ps| > 0 then
      match FindIndex(ps, DateIs(today))
      case Some(i) => ps[i]
      case None => ps[|ps| - 1]
    else DefaultPrompt(today)
  }

  /** The store after `getTodaysPrompt`: the default is saved only when no
      prompt was stored. */
  function AfterTodays(data: Data, today: string, writable: bool): Data {
    if |AllPrompts(data)| > 0 then data else AfterSave(data, DefaultPrompt(today), writable)
  }

  // ---------------------------------------------------------------------------
  // Submissions

  function IdIsNot(id: int): Submission -> bool {
    (s: Submission) => s.id != id
  }

  /** `submissions.filter(s => s.id !== submissionId)`. */
  function RemoveById(subs: seq<Submission>, id: int): seq<Submission> {
    Filter(subs, IdIsNot(id))
  }

  /** The submissions key holds a document rather than a list: it has no
      `push` or `filter`, so `saveSubmission` and `deleteSubmission` throw
      before they write. */
  predicate SubmissionsMisshapen(data: Data) {
    SubmissionsKey in data && data[SubmissionsKey].PromptDoc?
  }

  function AfterSaveSubmission(data: Data, s: Submission, writable: bool): Data {
    if writable && !SubmissionsMisshapen(data) then data[SubmissionsKey := SubmissionList(Submissions(data) + [s])] else data
  }

  function AfterDeleteSubmission(data: Data, id: int, writable: bool): Data {
    if writable && !SubmissionsMisshapen(data) then data[SubmissionsKey := SubmissionList(RemoveById(Submissions(data), id))] else data
  }

  /** `clearAllData`: both keys removed, every other key kept. */
  function Cleared(data: Data): Data {
    data - {PromptsKey, SubmissionsKey}
  }

  // ---------------------------------------------------------------------------
  // The store

  /** The key-value store. `writable` parameters stand for `setItem`
      succeeding; when it throws the operation returns false and the store
      is unchanged. */
  class Store {
    var data: Data

    constructor (initial: Data)
      ensures data == initial
    {
      data := initial;
    }

    /** `savePrompt`: upsert by date, sort by date, write back. */
    method SavePrompt(p: Prompt, writable: bool) returns (ok: bool)
      modifies this
      ensures ok == (writable && !PromptsMisshapen(old(data)))
      ensures data == AfterSave(old(data), p, writable)
    {
      if PromptsMisshapen(data) {
        return false;
      }
      var prompts := AllPrompts(data);
      var existingIndex := FindIndex(prompts, DateIs(p.date));
      if existingIndex.Some? {
        prompts := prompts[existingIndex.value := p];
      } else {
        prompts := prompts + [p];
      }
      prompts := SortByDate(prompts);
      if !writable {
        return false;
      }
      data := data[PromptsKey := PromptDoc(prompts)];
      return true;
    }

    /** `getTodaysPrompt`, with today's date passed in. */
    method GetTodaysPrompt(today: string, writable: bool) returns (p: Prompt)
      modifies this
      ensures p == TodaysPrompt(old(data), today)
      ensures data == AfterTodays(old(data), today, writable)
    {
      var stored := StoredPrompts(data);
      if stored.Some? && |stored.value| > 0 {
        var ps := stored.value;
        var i := FindIndex(ps, DateIs(today));
        if i.Some? {
          return ps[i.value];
        }
        return ps[|ps| - 1];
      }
      p := DefaultPrompt(today);
      var _ := SavePrompt(p, writable);
    }

    method GetAllPrompts() returns (ps: seq<Prompt>)
      ensures ps == AllPrompts(data)
    {
      var stored := StoredPrompts(data);
      ps := if stored.Some? then stored.value else [];
    }

    method GetSubmissions() returns (subs: seq<Submission>)
      ensures subs == Submissions(data)
    {
      subs := Submissions(data);
    }

    /** `saveSubmission`: append and write back. */
    method SaveSubmission(s: Submission, writable: bool) returns (ok: bool)
      modifies this
      ensures ok == (writable && !SubmissionsMisshapen(old(data)))
      ensures data == AfterSaveSubmission(old(data), s, writable)
    {
      if SubmissionsMisshapen(data) {
        return false;
      }
      var submissions := Submissions(data);
      submissions := submissions + [s];
      if !writable {
        return false;
      }
      data := data[SubmissionsKey := SubmissionList(submissions)];
      return true;
    }

    /** `deleteSubmission`: drop every submission with that id and write back. */
    method DeleteSubmission(id: int, writable: bool) returns (ok: bool)
      modifies this
      ensures ok == (writable && !SubmissionsMisshapen(old(data)))
      ensures data == AfterDeleteSubmission(old(data), id, writable)
    {
      if SubmissionsMisshapen(data) {
        return false;
      }
      var submissions := Submissions(data);
      var filtered := RemoveById(submissions, id);
      if !writable {
        return false;
      }
      data := data[SubmissionsKey := SubmissionList(filtered)];
      return true;
    }

    /** `clearAllData`. */
    method ClearAllData() returns (ok: bool)
      modifies this
      ensures ok
      ensures data == Cleared(old(data))
    {
      data := data - {PromptsKey};
      data := data - {SubmissionsKey};
      assert data == old(data) - {PromptsKey, SubmissionsKey};
      return true;
    }
  }
}
