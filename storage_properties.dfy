/** What the persistence layer of src/utils/storage.js promises: the date sort
    is a stable, ordered permutation; saving replaces or appends by date,
    keeps every other date, keeps dates unique, and is idempotent; today's
    prompt is chosen as documented and seeding it is stable; submissions are
    appended, deleted by id, and cleared. */
module StorageProperties {
  import opened Lists
  import opened Strings
  import opened Records
  import opened Storage

  // ---------------------------------------------------------------------------
  // The date sort

  lemma {:induction false} InsertSorted(x: Prompt, ps: seq<Prompt>)
    requires SortedByDate(ps)
    ensures SortedByDate(Insert(x, ps))
  {
    if ps != [] && !LexLeq(x.date, ps[0].date) {
      InsertSorted(x, ps[1..]);
      LexLeqTotal(x.date, ps[0].date);
      var r := Insert(x, ps);
      assert r == [ps[0]] + Insert(x, ps[1..]);
      assert LexLeq(r[0].date, r[1].date);
    }
  }

  /** The saved list is in ascending date order. */
  lemma {:induction false} SortByDateSorted(ps: seq<Prompt>)
    ensures SortedByDate(SortByDate(ps))
  {
    if ps != [] {
      SortByDateSorted(ps[1..]);
      InsertSorted(ps[0], SortByDate(ps[1..]));
    }
  }

  lemma {:induction false} InsertPermutes(x: Prompt, ps: seq<Prompt>)
    ensures multiset(Insert(x, ps)) == multiset(ps) + multiset{x}
  {
    if ps != [] && !LexLeq(x.date, ps[0].date) {
      InsertPermutes(x, ps[1..]);
      assert ps == [ps[0]] + ps[1..];
    }
  }

  /** The sort is a permutation: it neither loses nor duplicates a prompt. */
  lemma {:induction false} SortByDatePermutes(ps: seq<Prompt>)
    ensures multiset(SortByDate(ps)) == multiset(ps)
  {
    if ps != [] {
      SortByDatePermutes(ps[1..]);
      InsertPermutes(ps[0], SortByDate(ps[1..]));
      assert ps == [ps[0]] + ps[1..];
    }
  }

  /** Ascending between any two positions, not only neighbours. */
  lemma {:induction false} SortedAscending(ps: seq<Prompt>, i: nat, j: nat)
    requires SortedByDate(ps) && i <= j < |ps|
    ensures LexLeq(ps[i].date, ps[j].date)
    decreases j - i
  {
    if i == j {
      LexLeqRefl(ps[i].date);
    } else {
      SortedAscending(ps, i + 1, j);
      LexLeqTrans(ps[i].date, ps[i + 1].date, ps[j].date);
    }
  }

  /** Inserting `x` adds it in front of the prompts that share its date, and
      leaves the prompts of every other date as they were. */
  lemma {:induction false} InsertWithDate(x: Prompt, ps: seq<Prompt>, d: string)
    ensures WithDate(Insert(x, ps), d) == (if x.date == d then [x] else []) + WithDate(ps, d)
  {
    var hx: seq<Prompt> := if x.date == d then [x] else [];
    if ps == [] {
      FilterCons(x, [], DateIs(d));
      assert Insert(x, ps) == [x] + [];
    } else if LexLeq(x.date, ps[0].date) {
      FilterCons(x, ps, DateIs(d));
    } else {
      var head := ps[0];
      var tail := ps[1..];
      var h0: seq<Prompt> := if head.date == d then [head] else [];
      var rest := WithDate(tail, d);
      assert ps == [head] + tail;
      var inserted := Insert(x, tail);
      assert Insert(x, ps) == [head] + inserted;
      assert WithDate(Insert(x, ps), d) == h0 + WithDate(inserted, d) by {
        FilterCons(head, inserted, DateIs(d));
      }
      assert WithDate(inserted, d) == hx + rest by {
        InsertWithDate(x, tail, d);
      }
      assert WithDate(ps, d) == h0 + rest by {
        FilterCons(head, tail, DateIs(d));
      }
      assert h0 == [] || hx == [] by {
        LexLeqRefl(x.date);
      }
      SwapEmpty(h0, hx, rest);
    }
  }

  /** The sort is stable: prompts with equal dates keep their relative order. */
  lemma {:induction false} SortByDateStable(ps: seq<Prompt>, d: string)
    ensures WithDate(SortByDate(ps), d) == WithDate(ps, d)
  {
    if ps != [] {
      SortByDateStable(ps[1..], d);
      InsertWithDate(ps[0], SortByDate(ps[1..]), d);
      assert ps == [ps[0]] + ps[1..];
      FilterConcat([ps[0]], ps[1..], DateIs(d));
    }
  }

  /** Sorting an already sorted list changes nothing. */
  lemma {:induction false} SortByDateSortedFixed(ps: seq<Prompt>)
    requires SortedByDate(ps)
    ensures SortByDate(ps) == ps
  {
    if ps != [] {
      assert SortedByDate(ps[1..]);
      SortByDateSortedFixed(ps[1..]);
      assert ps == [ps[0]] + ps[1..];
    }
  }

  // ---------------------------------------------------------------------------
  // Upsert by date

  /** Upserting `p` keeps the prompts of every other date, in order. */
  lemma UpsertOtherDates(ps: seq<Prompt>, p: Prompt, d: string)
    requires d != p.date
    ensures WithDate(Upsert(ps, p), d) == WithDate(ps, d)
  {
    match FindIndex(ps, DateIs(p.date))
    case Some(i) =>
      assert ps == ps[..i] + [ps[i]] + ps[i + 1..];
      assert ps[i := p] == ps[..i] + [p] + ps[i + 1..];
      FilterConcat(ps[..i] + [ps[i]], ps[i + 1..], DateIs(d));
      FilterConcat(ps[..i], [ps[i]], DateIs(d));
      FilterConcat(ps[..i] + [p], ps[i + 1..], DateIs(d));
      FilterConcat(ps[..i], [p], DateIs(d));
    case None =>
      FilterConcat(ps, [p], DateIs(d));
  }

  /** Upserting `p` makes `p` the first prompt of its date, in place of the
      first one that had that date. */
  lemma UpsertSameDate(ps: seq<Prompt>, p: Prompt)
    ensures var old_ := WithDate(ps, p.date);
      WithDate(Upsert(ps, p), p.date) == [p] + (if old_ == [] then [] else old_[1..])
  {
    FindIndexHeadsFilter(ps, DateIs(p.date));
    match FindIndex(ps, DateIs(p.date))
    case Some(i) =>
      FilterReplaceFirst(ps, DateIs(p.date), i, p);
    case None =>
      FilterConcat(ps, [p], DateIs(p.date));
  }

  /** The list grows by one exactly when no prompt had `p.date`. */
  lemma UpsertLength(ps: seq<Prompt>, p: Prompt)
    ensures |Upsert(ps, p)| == |ps| + (if WithDate(ps, p.date) == [] then 1 else 0)
  {
    FindIndexHeadsFilter(ps, DateIs(p.date));
  }

  // ---------------------------------------------------------------------------
  // savePrompt

  /** After `savePrompt` the list is in ascending date order. */
  lemma SavedSorted(ps: seq<Prompt>, p: Prompt)
    ensures SortedByDate(Saved(ps, p))
    ensures p in Saved(ps, p)
  {
    SortByDateSorted(Upsert(ps, p));
    UpsertSameDate(ps, p);
    SortByDateStable(Upsert(ps, p), p.date);
    assert p in WithDate(Saved(ps, p), p.date);
  }

  /** `savePrompt` keeps every prompt dated differently from `p`, in order. */
  lemma SavedKeepsOtherDates(ps: seq<Prompt>, p: Prompt, d: string)
    requires d != p.date
    ensures WithDate(Saved(ps, p), d) == WithDate(ps, d)
  {
    SortByDateStable(Upsert(ps, p), d);
    UpsertOtherDates(ps, p, d);
  }

  /** `savePrompt` makes `p` the first prompt of its date. */
  lemma SavedSameDate(ps: seq<Prompt>, p: Prompt)
    ensures var old_ := WithDate(ps, p.date);
      WithDate(Saved(ps, p), p.date) == [p] + (if old_ == [] then [] else old_[1..])
  {
    SortByDateStable(Upsert(ps, p), p.date);
    UpsertSameDate(ps, p);
  }

  /** The list grows by one exactly when no prompt had `p.date`, and keeps
      its length otherwise. */
  lemma SavedLength(ps: seq<Prompt>, p: Prompt)
    ensures |Saved(ps, p)| == |ps| + (if WithDate(ps, p.date) == [] then 1 else 0)
  {
    UpsertLength(ps, p);
  }

  /** With unique dates before, exactly one prompt has `p.date` afterwards,
      it is `p`, and dates stay unique. */
  lemma SavedUnique(ps: seq<Prompt>, p: Prompt)
    requires DatesUnique(ps)
    ensures WithDate(Saved(ps, p), p.date) == [p]
    ensures DatesUnique(Saved(ps, p))
  {
    SavedSameDate(ps, p);
    assert |WithDate(ps, p.date)| <= 1;
    forall d
      ensures |WithDate(Saved(ps, p), d)| <= 1
    {
      if d != p.date {
        SavedKeepsOtherDates(ps, p, d);
        assert |WithDate(ps, d)| <= 1;
      }
    }
  }

  /** Upserting a prompt that already heads its date changes nothing. */
  lemma UpsertFirstOfDate(ps: seq<Prompt>, p: Prompt)
    requires WithDate(ps, p.date) != [] && WithDate(ps, p.date)[0] == p
    ensures Upsert(ps, p) == ps
  {
    FindIndexHeadsFilter(ps, DateIs(p.date));
    var j := FindIndex(ps, DateIs(p.date)).value;
    assert ps[j] == p;
    assert ps[j := p] == ps;
  }

  /** Saving the same prompt twice gives the same list as saving it once. */
  lemma SavedIdempotent(ps: seq<Prompt>, p: Prompt)
    ensures Saved(Saved(ps, p), p) == Saved(ps, p)
  {
    var r := Saved(ps, p);
    SavedSameDate(ps, p);
    SavedSorted(ps, p);
    UpsertFirstOfDate(r, p);
    SortByDateSortedFixed(r);
  }

  /** What `savePrompt` writes is what the next read sees, and it writes only
      the prompts key; a misshapen stored value is left as it was. */
  lemma AfterSaveReads(data: Data, p: Prompt, writable: bool)
    ensures AllPrompts(AfterSave(data, p, writable)) ==
      if writable && !PromptsMisshapen(data) then Saved(AllPrompts(data), p) else AllPrompts(data)
    ensures PromptsMisshapen(data) ==> AfterSave(data, p, writable) == data
    ensures Submissions(AfterSave(data, p, writable)) == Submissions(data)
    ensures forall k :: k != PromptsKey ==> (k in data <==> k in AfterSave(data, p, writable))
  {
    var d1 := AfterSave(data, p, writable);
    if writable && !PromptsMisshapen(data) {
      assert d1 == data[PromptsKey := PromptDoc(Saved(AllPrompts(data), p))];
      assert d1[PromptsKey].PromptDoc?;
    }
  }

  /** Calling `savePrompt` twice leaves the store as one call does. */
  lemma SaveTwice(data: Data, p: Prompt)
    ensures AfterSave(AfterSave(data, p, true), p, true) == AfterSave(data, p, true)
  {
    SavedIdempotent(AllPrompts(data), p);
  }

  // ---------------------------------------------------------------------------
  // getTodaysPrompt

  /** `getTodaysPrompt` returns the first stored prompt dated today, else
      the last stored prompt, else the default prompt dated today. */
  lemma TodaysPromptChoice(data: Data, today: string)
    ensures var ps := AllPrompts(data);
      && (WithDate(ps, today) != [] ==> TodaysPrompt(data, today) == WithDate(ps, today)[0])
      && (WithDate(ps, today) == [] && ps != [] ==> TodaysPrompt(data, today) == ps[|ps| - 1])
      && (ps == [] ==> TodaysPrompt(data, today) == DefaultPrompt(today))
      && (ps == [] || WithDate(ps, today) != [] ==> TodaysPrompt(data, today).date == today)
  {
    var ps := AllPrompts(data);
    FindIndexHeadsFilter(ps, DateIs(today));
    if WithDate(ps, today) != [] {
      assert WithDate(ps, today)[0] in WithDate(ps, today);
    }
  }

  /** The default prompt offers a pool of twenty answers that holds every
      ranked answer. */
  lemma DefaultPoolHoldsRanked(today: string)
    ensures var p := DefaultPrompt(today);
      |AnswerPool(p)| == 20 && forall i :: 0 <= i < |p.answers| ==> p.answers[i] in AnswerPool(p)
  {
    var p := DefaultPrompt(today);
    forall i | 0 <= i < |p.answers|
      ensures p.answers[i] in AnswerPool(p)
    {
      assert p.answers[i] == p.allPossibleAnswers.value[i];
    }
  }

  /** A second `getTodaysPrompt` with the same date returns an equal prompt;
      when the first call could write, the second leaves the store unchanged. */
  lemma TodaysPromptStable(data: Data, today: string, writable: bool)
    ensures var d1 := AfterTodays(data, today, writable);
      && TodaysPrompt(d1, today) == TodaysPrompt(data, today)
      && (writable ==> AfterTodays(d1, today, writable) == d1)
  {
    var d1 := AfterTodays(data, today, writable);
    if |AllPrompts(data)| == 0 && writable && !PromptsMisshapen(data) {
      var dp := DefaultPrompt(today);
      assert Upsert([], dp) == [dp];
      assert AllPrompts(d1) == [dp];
      assert FindIndex([dp], DateIs(today)) == Some(0);
    }
  }

  // ---------------------------------------------------------------------------
  // Submissions

  /** `deleteSubmission` keeps exactly the submissions with another id. */
  lemma RemoveByIdMembers(subs: seq<Submission>, id: int, s: Submission)
    ensures s in RemoveById(subs, id) <==> s in subs && s.id != id
  {
    if s in subs && s.id != id {
      FilterComplete(subs, IdIsNot(id), s);
    }
  }

  /** Deletion keeps order: deleting from a concatenation deletes from each part. */
  lemma RemoveByIdConcat(a: seq<Submission>, b: seq<Submission>, id: int)
    ensures RemoveById(a + b, id) == RemoveById(a, id) + RemoveById(b, id)
  {
    FilterConcat(a, b, IdIsNot(id));
  }

  /** Deleting twice is deleting once. */
  lemma RemoveByIdIdempotent(subs: seq<Submission>, id: int)
    ensures RemoveById(RemoveById(subs, id), id) == RemoveById(subs, id)
  {
    FilterIdempotent(subs, IdIsNot(id));
  }

  /** Deleting an id nobody has changes nothing. */
  lemma RemoveAbsentId(subs: seq<Submission>, id: int)
    requires forall i :: 0 <= i < |subs| ==> subs[i].id != id
    ensures RemoveById(subs, id) == subs
  {
    FilterAll(subs, IdIsNot(id));
  }

  /** `saveSubmission` appends at the end and keeps earlier entries in order;
      `deleteSubmission` then removes it again along with its id-mates. Over a
      misshapen stored value both throw and leave the store as it was. */
  lemma SubmissionRoundTrip(data: Data, s: Submission)
    ensures !SubmissionsMisshapen(data) ==>
      Submissions(AfterSaveSubmission(data, s, true)) == Submissions(data) + [s]
    ensures AllPrompts(AfterSaveSubmission(data, s, true)) == AllPrompts(data)
    ensures !SubmissionsMisshapen(data) ==>
      var d2 := AfterDeleteSubmission(AfterSaveSubmission(data, s, true), s.id, true);
      Submissions(d2) == RemoveById(Submissions(data), s.id)
    ensures SubmissionsMisshapen(data) ==>
      AfterDeleteSubmission(AfterSaveSubmission(data, s, true), s.id, true) == data
  {
    RemoveByIdConcat(Submissions(data), [s], s.id);
  }

  /** `deleteSubmission` writes only the submissions key. */
  lemma AfterDeleteReads(data: Data, id: int, writable: bool)
    ensures Submissions(AfterDeleteSubmission(data, id, writable)) ==
      if writable && !SubmissionsMisshapen(data) then RemoveById(Submissions(data), id) else Submissions(data)
    ensures AllPrompts(AfterDeleteSubmission(data, id, writable)) == AllPrompts(data)
  {
  }

  /** After `clearAllData` both reads are empty and every other key is kept. */
  lemma ClearedReadsEmpty(data: Data, today: string)
    ensures AllPrompts(Cleared(data)) == [] && Submissions(Cleared(data)) == []
    ensures forall k :: k in data && k != PromptsKey && k != SubmissionsKey ==>
      k in Cleared(data) && Cleared(data)[k] == data[k]
    ensures TodaysPrompt(Cleared(data), today) == DefaultPrompt(today)
  {
  }
}
