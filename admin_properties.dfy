/** What the authoring panel guarantees: how the answer pool text is split
    and cleaned, when validation passes, and what a saved prompt looks like. */
module AdminProperties {
  import opened Lists
  import opened Strings
  import opened Records
  import opened Admin

  // ---------------------------------------------------------------------------
  // Splitting

  /** Every piece is made of characters of the input. */
  lemma {:induction false} SplitChars(s: string)
    ensures forall i, c :: 0 <= i < |Split(s)| && c in Split(s)[i] ==> c in s
    decreases |s|
  {
    if s != [] {
      SplitChars(s[1..]);
      assert forall c :: c in s[1..] ==> c in s;
    }
  }

  /** Text without a separator is one piece. */
  lemma {:induction false} SplitNoSeparator(t: string)
    requires NoSeparator(t)
    ensures Split(t) == [t]
    decreases |t|
  {
    if t != [] {
      assert t[0] in t;
      SplitNoSeparator(t[1..]);
      assert t == [t[0]] + t[1..];
    }
  }

  /** A separator cuts the text into the pieces before it and after it. */
  lemma {:induction false} SplitAtSeparator(a: string, c: char, b: string)
    requires IsSeparator(c)
    ensures Split(a + [c] + b) == Split(a) + Split(b)
    decreases |a|
  {
    if a == [] {
      assert a + [c] + b == [c] + b;
      assert ([c] + b)[1..] == b;
    } else {
      var s := a + [c] + b;
      assert s[0] == a[0];
      assert s[1..] == a[1..] + [c] + b;
      SplitAtSeparator(a[1..], c, b);
    }
  }

  // ---------------------------------------------------------------------------
  // Tokens

  /** The tokens of text joined at a separator are the tokens of each side,
      in order. */
  lemma TokensAtSeparator(a: string, c: char, b: string)
    requires IsSeparator(c)
    ensures Tokens(a + [c] + b) == Tokens(a) + Tokens(b)
  {
    SplitAtSeparator(a, c, b);
    MapConcat(Split(a), Split(b), Trim);
    FilterConcat(Map(Split(a), Trim), Map(Split(b), Trim), NotEmpty);
  }

  /** Every token is non-empty, trimmed and free of separators. */
  lemma TokensClean(s: string)
    ensures forall t :: t in Tokens(s) ==> t != "" && IsTrimmed(t) && NoSeparator(t)
  {
    var pieces := Split(s);
    var trimmed := Map(pieces, Trim);
    forall t | t in Tokens(s)
      ensures t != "" && IsTrimmed(t) && NoSeparator(t)
    {
      assert t in trimmed && NotEmpty(t);
      var i :| 0 <= i < |trimmed| && trimmed[i] == t;
      TrimFacts(pieces[i]);
    }
  }

  /** The early return for blank text changes nothing: blank text has no
      tokens anyway. */
  lemma ParseIsTokens(text: string)
    ensures ParseAllAnswers(text) == Tokens(text)
  {
    if Trim(text) == "" {
      TrimFacts(text);
      SplitChars(text);
      var pieces := Split(text);
      var trimmed := Map(pieces, Trim);
      forall i | 0 <= i < |trimmed|
        ensures !NotEmpty(trimmed[i])
      {
        forall j | 0 <= j < |pieces[i]|
          ensures IsSpace(pieces[i][j])
        {
          assert pieces[i][j] in pieces[i];
          assert pieces[i][j] in text;
          var k :| 0 <= k < |text| && text[k] == pieces[i][j];
        }
        TrimFacts(pieces[i]);
      }
      FilterNone(trimmed, NotEmpty);
    }
  }

  /** Answers fit for the pool: non-empty, trimmed, no separators. */
  predicate CleanAnswers(xs: seq<string>) {
    forall i :: 0 <= i < |xs| ==> xs[i] != "" && IsTrimmed(xs[i]) && NoSeparator(xs[i])
  }

  /** The tokens of clean answers written one per line are those answers. */
  lemma {:induction false} TokensOfLines(xs: seq<string>)
    requires CleanAnswers(xs)
    ensures Tokens(Join(xs, "\n")) == xs
    decreases |xs|
  {
    if |xs| == 0 {
      assert Map(Split(""), Trim) == [Trim("")];
      TrimFacts("");
      FilterNone([Trim("")], NotEmpty);
    } else if |xs| == 1 {
      SplitNoSeparator(xs[0]);
      TrimFacts(xs[0]);
    } else {
      SplitNoSeparator(xs[0]);
      TrimFacts(xs[0]);
      TokensOfLines(xs[1..]);
      TokensAtSeparator(xs[0], '\n', Join(xs[1..], "\n"));
      assert Join(xs, "\n") == xs[0] + ['\n'] + Join(xs[1..], "\n");
      assert xs == [xs[0]] + xs[1..];
    }
  }

  /** Parsing the text `handleUseSubmission` writes into the pool box gives
      back the submission's clean pool. */
  lemma ParseJoinRoundTrip(xs: seq<string>)
    requires CleanAnswers(xs)
    ensures ParseAllAnswers(Join(xs, "\n")) == xs
  {
    ParseIsTokens(Join(xs, "\n"));
    TokensOfLines(xs);
  }

  /** Parsing is a fixed point on its own output. */
  lemma ParseIdempotent(text: string)
    ensures ParseAllAnswers(Join(ParseAllAnswers(text), "\n")) == ParseAllAnswers(text)
  {
    var xs := ParseAllAnswers(text);
    ParseIsTokens(text);
    TokensClean(text);
    assert forall i :: 0 <= i < |xs| ==> xs[i] in Tokens(text);
    ParseJoinRoundTrip(xs);
  }

  // ---------------------------------------------------------------------------
  // Validation and the saved prompt

  /** The form validates exactly when the question and every ranked slot are
      non-blank and a date is set. */
  lemma ValidIff(question: string, topTen: seq<string>, date: string)
    ensures Valid(question, topTen, date) <==>
      Trim(question) != "" && (forall i :: 0 <= i < |topTen| ==> Trim(topTen[i]) != "") && date != ""
  {
    var e := ValidationErrors(question, topTen, date);
    if "question" !in e && "topTen" !in e && "date" !in e {
      assert e.Keys == {};
      assert e == map[];
    }
  }

  /** A prompt saved from a valid form with ten slots is well formed; its
      ranked answers are the trimmed slots and its pool is the parsed text or,
      when that is empty, the ranked answers. */
  lemma SavedPromptFacts(id: int, question: string, topTen: seq<string>, allAnswers: string, date: string)
    requires Valid(question, topTen, date) && |topTen| == TopTenSlots
    ensures var p := BuildPrompt(id, question, topTen, allAnswers, date);
      && WellFormed(p)
      && p.id == id && p.date == date
      && (forall i :: 0 <= i < |topTen| ==> p.answers[i] == Trim(topTen[i]))
      && p.allPossibleAnswers.Some?
      && p.allPossibleAnswers.value ==
           (if |ParseAllAnswers(allAnswers)| > 0 then ParseAllAnswers(allAnswers) else p.answers)
  {
    ValidIff(question, topTen, date);
    TrimFacts(question);
    forall i | 0 <= i < |topTen|
      ensures IsTrimmed(Trim(topTen[i]))
    {
      TrimFacts(topTen[i]);
    }
  }

  /** The pool the game offers for a saved prompt is the parsed pool text,
      or, when that has no answers, the trimmed ranked answers; it is never
      empty when there is a ranked slot. */
  lemma SavedPromptPool(id: int, question: string, topTen: seq<string>, allAnswers: string, date: string)
    ensures var pool := AnswerPool(BuildPrompt(id, question, topTen, allAnswers, date));
      && (|ParseAllAnswers(allAnswers)| > 0 ==> pool == ParseAllAnswers(allAnswers))
      && (|ParseAllAnswers(allAnswers)| == 0 ==> forall i :: 0 <= i < |topTen| ==> Trim(topTen[i]) in pool)
      && (|topTen| > 0 ==> |pool| > 0)
  {
    var pool := AnswerPool(BuildPrompt(id, question, topTen, allAnswers, date));
    if |ParseAllAnswers(allAnswers)| == 0 {
      forall i | 0 <= i < |topTen|
        ensures Trim(topTen[i]) in pool
      {
        assert pool[i] == Trim(topTen[i]);
      }
    }
  }

  /** Every answer in a saved pool is non-empty and trimmed. */
  lemma SavedPoolClean(id: int, question: string, topTen: seq<string>, allAnswers: string, date: string)
    requires Valid(question, topTen, date)
    ensures var pool := BuildPrompt(id, question, topTen, allAnswers, date).allPossibleAnswers.value;
      forall i :: 0 <= i < |pool| ==> pool[i] != "" && IsTrimmed(pool[i])
  {
    var pool := ParseAllAnswers(allAnswers);
    if |pool| > 0 {
      ParseIsTokens(allAnswers);
      TokensClean(allAnswers);
      assert forall i :: 0 <= i < |pool| ==> pool[i] in Tokens(allAnswers);
    } else {
      ValidIff(question, topTen, date);
      forall i | 0 <= i < |topTen|
        ensures IsTrimmed(Trim(topTen[i]))
      {
        TrimFacts(topTen[i]);
      }
    }
  }

  /** The pool is not forced to contain the ranked answers: a non-empty pool
      text replaces them outright. */
  lemma PoolMayOmitRanked(question: string, topTen: seq<string>, date: string)
    requires Valid(question, topTen, date) && |topTen| > 0
    requires forall i :: 0 <= i < |topTen| ==> Trim(topTen[i]) != "x"
    ensures var p := BuildPrompt(0, question, topTen, "x", date);
      p.allPossibleAnswers.value == ["x"] && p.answers[0] !in p.allPossibleAnswers.value
  {
    var text := "x";
    SplitNoSeparator(text);
    assert IsTrimmed(text);
    TrimFacts(text);
  }
}
