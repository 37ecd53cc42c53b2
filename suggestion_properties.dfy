/** What the guess box and the answer browser guarantee: which pool entries
    they offer, how the highlight moves, and that the guessed list hides
    exactly the answers the game would reject as repeats. */
module SuggestionProperties {
  import opened Lists
  import opened Strings
  import opened Records
  import opened Game
  import opened Autocomplete
  import opened AnswerList

  // ---------------------------------------------------------------------------
  // The suggestion filter

  /** An entry is matched exactly when it is in the pool and passes the test. */
  lemma {:induction false} MatchesIff(input: string, pool: seq<string>, guessed: seq<string>, x: string)
    ensures x in Matches(input, pool, guessed) <==> x in pool && IsSuggestion(input, guessed, x)
    decreases |pool|
  {
    if pool != [] {
      MatchesIff(input, pool[1..], guessed, x);
      assert pool == [pool[0]] + pool[1..];
    }
  }

  /** Matching a concatenated pool matches each part, in order. */
  lemma {:induction false} MatchesConcat(input: string, a: seq<string>, b: seq<string>, guessed: seq<string>)
    ensures Matches(input, a + b, guessed) == Matches(input, a, guessed) + Matches(input, b, guessed)
    decreases |a|
  {
    if a == [] {
      assert a + b == b;
    } else {
      var h := if IsSuggestion(input, guessed, a[0]) then [a[0]] else [];
      assert (a + b)[0] == a[0];
      assert (a + b)[1..] == a[1..] + b;
      assert Matches(input, a + b, guessed) == h + Matches(input, a[1..] + b, guessed);
      MatchesConcat(input, a[1..], b, guessed);
      assert Matches(input, a, guessed) == h + Matches(input, a[1..], guessed);
    }
  }

  /** Every suggestion is a pool entry that contains the typed text and has
      not been guessed. */
  lemma SuggestionsSound(value: string, pool: seq<string>, guessed: seq<string>, x: string)
    requires x in Suggestions(value, pool, guessed)
    ensures Trim(value) != ""
    ensures x in pool && Contains(Normalize(x), Normalize(value)) && !MatchesAny(guessed, x)
  {
    var m := Matches(Normalize(value), pool, guessed);
    if |m| > MaxSuggestions {
      assert x in m;
    }
    MatchesIff(Normalize(value), pool, guessed, x);
  }

  /** With at most ten matches, every match is suggested. */
  lemma SuggestionsCompleteWhenFew(value: string, pool: seq<string>, guessed: seq<string>, x: string)
    requires Trim(value) != "" && |Matches(Normalize(value), pool, guessed)| <= MaxSuggestions
    requires x in pool && Contains(Normalize(x), Normalize(value)) && !MatchesAny(guessed, x)
    ensures x in Suggestions(value, pool, guessed)
  {
    MatchesIff(Normalize(value), pool, guessed, x);
  }

  /** The suggestions are the first matches, in pool order. */
  lemma SuggestionsArePrefix(value: string, pool: seq<string>, guessed: seq<string>)
    requires Trim(value) != ""
    ensures var m := Matches(Normalize(value), pool, guessed);
      Suggestions(value, pool, guessed) <= m
      && |Suggestions(value, pool, guessed)| == if |m| < MaxSuggestions then |m| else MaxSuggestions
  {
  }

  /** A guessed answer is never suggested. */
  lemma GuessedNeverSuggested(value: string, pool: seq<string>, guessed: seq<string>, x: string)
    requires MatchesAny(guessed, x)
    ensures x !in Suggestions(value, pool, guessed)
  {
    if x in Suggestions(value, pool, guessed) {
      SuggestionsSound(value, pool, guessed, x);
    }
  }

  /** A chosen pool answer that has not been guessed matches itself, so the
      filter run after choosing it opens the dropdown again. */
  lemma ChosenAnswerMatchesItself(answer: string, pool: seq<string>, guessed: seq<string>)
    requires answer in pool && !MatchesAny(guessed, answer)
    ensures |Matches(Normalize(answer), pool, guessed)| > 0
  {
    assert Contains(Normalize(answer), Normalize(answer));
    MatchesIff(Normalize(answer), pool, guessed, answer);
  }

  // ---------------------------------------------------------------------------
  // The guessed list and the game

  /** `Object.values(revealedPositions)`: a list holding exactly the revealed
      answers. */
  ghost predicate ValuesOf(guessed: seq<string>, revealed: map<int, string>) {
    (forall x :: x in guessed ==> exists k :: k in revealed && revealed[k] == x)
    && (forall k :: k in revealed ==> revealed[k] in guessed)
  }

  /** Against the values of the revealed map, "already guessed" in the
      components is the game's repeat test. */
  lemma GuessedIsRevealed(guessed: seq<string>, revealed: map<int, string>, a: string)
    requires ValuesOf(guessed, revealed)
    ensures MatchesAny(guessed, a) <==> AlreadyRevealed(revealed, a)
  {
    if MatchesAny(guessed, a) {
      var x :| x in guessed && Normalize(x) == Normalize(a);
      var k :| k in revealed && revealed[k] == x;
      assert Normalize(revealed[k]) == Normalize(a);
    }
    if AlreadyRevealed(revealed, a) {
      var k :| k in revealed && Normalize(revealed[k]) == Normalize(a);
      assert revealed[k] in guessed;
    }
  }

  /** Submitting a suggestion is never rejected as a repeat. */
  lemma SuggestionNotRepeat(answers: seq<string>, s: GameState, value: string, pool: seq<string>,
                            guessed: seq<string>, x: string)
    requires ValuesOf(guessed, s.revealed) && x in Suggestions(value, pool, guessed)
    ensures Classify(answers, s, x) != AlreadyGuessed
  {
    SuggestionsSound(value, pool, guessed, x);
    GuessedIsRevealed(guessed, s.revealed, x);
  }

  /** A row the answer browser lets the player click is never rejected as
      a repeat either. */
  lemma ClickNotRepeat(answers: seq<string>, s: GameState, guessed: seq<string>, a: string)
    requires ValuesOf(guessed, s.revealed) && Click(guessed, a).Some?
    ensures Classify(answers, s, Click(guessed, a).value) != AlreadyGuessed
  {
    GuessedIsRevealed(guessed, s.revealed, a);
  }

  /** In a running session, every suggestion the guess box offers is an
      entry of the prompt's pool that the game does not reject as a repeat. */
  lemma SessionSuggestionNotRepeat(g: GameSession, value: string, guessed: seq<string>, x: string)
    requires ValuesOf(guessed, g.State().revealed) && x in Suggestions(value, g.Pool(), guessed)
    ensures x in AnswerPool(g.prompt)
    ensures Classify(g.prompt.answers, g.State(), x) != AlreadyGuessed
  {
    SuggestionsSound(value, g.Pool(), guessed, x);
    SuggestionNotRepeat(g.prompt.answers, g.State(), value, g.Pool(), guessed, x);
  }

  /** Every row of the session's answer browser that can be clicked is an
      entry of the prompt's pool that the game does not reject as a repeat. */
  lemma SessionClickNotRepeat(g: GameSession, term: string, guessed: seq<string>, x: string)
    requires ValuesOf(guessed, g.State().revealed)
    requires x in Listed(Normalize(term), g.Pool()) && Click(guessed, x).Some?
    ensures x in AnswerPool(g.prompt)
    ensures Classify(g.prompt.answers, g.State(), Click(guessed, x).value) != AlreadyGuessed
  {
    ListedIff(Normalize(term), g.Pool(), x);
    ClickNotRepeat(g.prompt.answers, g.State(), guessed, x);
  }

  // ---------------------------------------------------------------------------
  // The highlight

  function Min(a: int, b: int): int { if a <= b then a else b }
  function Max(a: int, b: int): int { if a >= b then a else b }

  /** Pressing `key` `k` times. */
  function Presses(key: Key, k: nat, selected: int, count: nat): int {
    if k == 0 then selected else Presses(key, k - 1, Highlight(key, selected, count), count)
  }

  /** An arrow key keeps the highlight on -1 or a row. */
  lemma HighlightInRange(key: Key, selected: int, count: nat)
    requires -1 <= selected < count
    ensures -1 <= Highlight(key, selected, count) < count
  {
  }

  /** Pressing down `k` times moves `k` rows, stopping at the last. */
  lemma {:induction false} DownPresses(k: nat, selected: int, count: nat)
    requires -1 <= selected <= count - 1
    ensures Presses(ArrowDown, k, selected, count) == Min(selected + k, count - 1)
  {
    if k > 0 {
      DownPresses(k - 1, Highlight(ArrowDown, selected, count), count);
    }
  }

  /** Pressing up `k` times moves `k` rows, stopping at no row. */
  lemma {:induction false} UpPresses(k: nat, selected: int, count: nat)
    requires -1 <= selected
    ensures Presses(ArrowUp, k, selected, count) == Max(selected - k, -1)
  {
    if k > 0 {
      UpPresses(k - 1, Highlight(ArrowUp, selected, count), count);
    }
  }

  /** Up undoes down below the last row. */
  lemma UpUndoesDown(selected: int, count: nat)
    requires -1 <= selected < count - 1
    ensures Highlight(ArrowUp, Highlight(ArrowDown, selected, count), count) == selected
  {
  }

  // ---------------------------------------------------------------------------
  // The answer browser

  /** An answer is listed exactly when it is in the pool and contains the search. */
  lemma {:induction false} ListedIff(term: string, answers: seq<string>, x: string)
    ensures x in Listed(term, answers) <==> x in answers && Contains(Normalize(x), term)
    decreases |answers|
  {
    if answers != [] {
      ListedIff(term, answers[1..], x);
      assert answers == [answers[0]] + answers[1..];
    }
  }

  /** Listing a concatenated pool lists each part, in order. */
  lemma {:induction false} ListedConcat(term: string, a: seq<string>, b: seq<string>)
    ensures Listed(term, a + b) == Listed(term, a) + Listed(term, b)
    decreases |a|
  {
    if a == [] {
      assert a + b == b;
    } else {
      var h := if Contains(Normalize(a[0]), term) then [a[0]] else [];
      assert (a + b)[0] == a[0];
      assert (a + b)[1..] == a[1..] + b;
      assert Listed(term, a + b) == h + Listed(term, a[1..] + b);
      ListedConcat(term, a[1..], b);
      assert Listed(term, a) == h + Listed(term, a[1..]);
    }
  }

  /** A blank search lists the whole pool, in order. */
  lemma {:induction false} BlankSearchListsAll(searchTerm: string, answers: seq<string>)
    requires Trim(searchTerm) == ""
    ensures Listed(Normalize(searchTerm), answers) == answers
    decreases |answers|
  {
    TrimFacts(searchTerm);
    NormalizeBlank(searchTerm);
    if answers != [] {
      ContainsEmpty(Normalize(answers[0]));
      BlankSearchListsAll(searchTerm, answers[1..]);
      assert answers == [answers[0]] + answers[1..];
    }
  }

  /** The autocomplete offers exactly the unguessed answers the browser
      would list for the same text. */
  lemma MatchesAreUnguessedListed(value: string, pool: seq<string>, guessed: seq<string>, x: string)
    ensures x in Matches(Normalize(value), pool, guessed) <==>
      x in Listed(Normalize(value), pool) && !IsGuessed(guessed, x)
  {
    MatchesIff(Normalize(value), pool, guessed, x);
    ListedIff(Normalize(value), pool, x);
  }
}
