/** What the guessing state machine of src/components/TriviaGame.js promises:
    the session invariant, the effect of each kind of guess, winning and losing
    runs, the duplicate-answer dead end, the share summary and the slot view. */
module GameProperties {
  import opened Lists
  import opened Strings
  import opened Game

  /** No two ranked answers normalize equal. */
  ghost predicate DistinctAnswers(answers: seq<string>) {
    forall i, j :: 0 <= i < j < |answers| ==> Normalize(answers[i]) != Normalize(answers[j])
  }

  /** No ranked answer is blank once normalized. */
  ghost predicate NonBlankAnswers(answers: seq<string>) {
    forall i :: 0 <= i < |answers| ==> Normalize(answers[i]) != ""
  }

  /** The ranks 1..n. */
  function Ranks(n: nat): (r: set<int>)
    ensures forall k :: k in r <==> 1 <= k <= n
    ensures |r| == n
  {
    if n == 0 then {} else Ranks(n - 1) + {n}
  }

  lemma SubsetCard<T>(a: set<T>, b: set<T>)
    requires a <= b
    ensures |a| <= |b|
  {
    if a != {} {
      var x :| x in a;
      SubsetCard(a - {x}, b - {x});
    }
  }

  // ---------------------------------------------------------------------------
  // The invariant

  /** A fresh session satisfies the invariant. */
  lemma InvInitial(answers: seq<string>)
    ensures Inv(answers, Initial())
  {
  }

  /** The rank a guess lands on depends only on its normalized form. */
  lemma PositionByKey(answers: seq<string>, g1: string, g2: string)
    requires Normalize(g1) == Normalize(g2)
    ensures AnswerPosition(answers, g1) == AnswerPosition(answers, g2)
  {
  }

  /** A correct guess reveals a rank that was not yet revealed. */
  lemma CorrectRankIsNew(answers: seq<string>, s: GameState, guess: string)
    requires Inv(answers, s)
    requires Classify(answers, s, guess).Correct?
    ensures Classify(answers, s, guess).rank !in s.revealed
  {
    var p := Classify(answers, s, guess).rank;
    if p in s.revealed {
      assert AlreadyRevealed(s.revealed, guess);
      assert false;
    }
  }

  lemma CorrectPreservesInv(answers: seq<string>, s: GameState, guess: string)
    requires Inv(answers, s)
    requires Classify(answers, s, guess).Correct?
    ensures Inv(answers, Next(answers, s, guess))
  {
    var p := Classify(answers, s, guess).rank;
    CorrectRankIsNew(answers, s, guess);
    PositionByKey(answers, answers[p - 1], guess);
    var r := s.revealed[p := answers[p - 1]];
    assert |r| == |s.revealed| + 1;
    var t := Next(answers, s, guess);
    assert t.revealed == r;
    assert t.lives == s.lives && t.incorrectGuesses == s.incorrectGuesses;
    assert t.gameWon == t.gameOver == (|r| == RankCount);
  }

  lemma IncorrectPreservesInv(answers: seq<string>, s: GameState, guess: string)
    requires Inv(answers, s)
    requires Classify(answers, s, guess) == Incorrect
    ensures Inv(answers, Next(answers, s, guess))
  {
    var t := Next(answers, s, guess);
    assert t.revealed == s.revealed && t.lives == s.lives - 1;
  }

  /** One guess preserves the invariant: lives stay in 0..5, lives used equal
      the wrong guesses, revealed ranks hold their canonical answers, and the
      game is won exactly when ten ranks are revealed. */
  lemma NextPreservesInv(answers: seq<string>, s: GameState, guess: string)
    requires Inv(answers, s)
    ensures Inv(answers, Next(answers, s, guess))
  {
    var o := Classify(answers, s, guess);
    if o.Correct? {
      CorrectPreservesInv(answers, s, guess);
    } else if o == Incorrect {
      IncorrectPreservesInv(answers, s, guess);
    } else {
      assert Next(answers, s, guess) == s;
    }
  }

  /** The invariant holds after any sequence of guesses. */
  lemma {:induction false} RunPreservesInv(answers: seq<string>, s: GameState, guesses: seq<string>)
    requires Inv(answers, s)
    ensures Inv(answers, Run(answers, s, guesses))
    decreases |guesses|
  {
    if guesses != [] {
      NextPreservesInv(answers, s, guesses[0]);
      RunPreservesInv(answers, Next(answers, s, guesses[0]), guesses[1..]);
    }
  }

  /** Every session reached from a fresh one, for a ten-answer prompt, has
      0 <= lives <= 5, 5 - lives wrong guesses and revealed ranks in 1..10. */
  lemma ReachableBounds(answers: seq<string>, guesses: seq<string>)
    requires |answers| == RankCount
    ensures var t := Run(answers, Initial(), guesses);
      && 0 <= t.lives <= MaxLives
      && MaxLives - t.lives == |t.incorrectGuesses|
      && t.revealed.Keys <= Ranks(RankCount)
  {
    InvInitial(answers);
    RunPreservesInv(answers, Initial(), guesses);
  }

  // ---------------------------------------------------------------------------
  // The kinds of guess

  /** An empty guess, or any guess once the game is over, changes nothing. */
  lemma IgnoredGuess(answers: seq<string>, s: GameState, guess: string)
    requires guess == "" || s.gameOver || s.gameWon
    ensures Classify(answers, s, guess) == Ignored
    ensures Next(answers, s, guess) == s
  {
  }

  /** A guess that normalizes equal to an already revealed answer is rejected
      and changes nothing. */
  lemma RepeatedGuess(answers: seq<string>, s: GameState, guess: string, rank: int)
    requires guess != "" && !s.gameOver && !s.gameWon
    requires rank in s.revealed && Normalize(s.revealed[rank]) == Normalize(guess)
    ensures Classify(answers, s, guess) == AlreadyGuessed
    ensures Next(answers, s, guess) == s
  {
  }

  /** In a reachable session a guess leaves the state unchanged exactly when
      it is ignored or rejected as a repeat. */
  lemma UnchangedIffIgnoredOrRepeat(answers: seq<string>, s: GameState, guess: string)
    requires Inv(answers, s)
    ensures Next(answers, s, guess) == s <==> Classify(answers, s, guess) in {Ignored, AlreadyGuessed}
  {
    if Classify(answers, s, guess).Correct? {
      CorrectRankIsNew(answers, s, guess);
      var p := Classify(answers, s, guess).rank;
      assert p in Next(answers, s, guess).revealed;
    }
  }

  /** A correct guess at rank p stores `answers[p - 1]` there, keeps lives and
      wrong guesses, and ends the game as won exactly when ten ranks are revealed. */
  lemma CorrectGuess(answers: seq<string>, s: GameState, guess: string)
    requires Inv(answers, s)
    requires Classify(answers, s, guess).Correct?
    ensures var p := Classify(answers, s, guess).rank;
      var t := Next(answers, s, guess);
      && 1 <= p <= |answers|
      && Normalize(answers[p - 1]) == Normalize(guess)
      && p !in s.revealed
      && t.revealed == s.revealed[p := answers[p - 1]]
      && |t.revealed| == |s.revealed| + 1
      && t.lives == s.lives && t.incorrectGuesses == s.incorrectGuesses
      && (t.gameWon <==> |t.revealed| == RankCount)
      && (t.gameOver <==> |t.revealed| == RankCount)
  {
    CorrectRankIsNew(answers, s, guess);
  }

  /** A wrong guess spends exactly one life, records the guess as typed, and
      ends the game exactly when no life is left. */
  lemma IncorrectGuess(answers: seq<string>, s: GameState, guess: string)
    requires Inv(answers, s)
    requires Classify(answers, s, guess) == Incorrect
    ensures var t := Next(answers, s, guess);
      && t.lives == s.lives - 1 && 0 <= t.lives
      && t.incorrectGuesses == s.incorrectGuesses + [guess]
      && t.revealed == s.revealed
      && !t.gameWon
      && (t.gameOver <==> t.lives == 0)
  {
  }

  /** A guess no revealed rank's answer matches is not a repeat. */
  lemma NotRepeat(answers: seq<string>, s: GameState, guess: string)
    requires Inv(answers, s)
    requires forall k :: k in s.revealed ==> Normalize(answers[k - 1]) != Normalize(guess)
    ensures !AlreadyRevealed(s.revealed, guess)
  {
    forall k | k in s.revealed
      ensures Normalize(s.revealed[k]) != Normalize(guess)
    {
      assert s.revealed[k] == answers[k - 1];
    }
  }

  lemma DistinctRanksDiffer(answers: seq<string>, k: int, p: int)
    requires DistinctAnswers(answers)
    requires 1 <= k <= |answers| && 1 <= p <= |answers| && k != p
    ensures Normalize(answers[k - 1]) != Normalize(answers[p - 1])
  {
    if k < p {
      assert Normalize(answers[k - 1]) != Normalize(answers[p - 1]);
    } else {
      assert Normalize(answers[p - 1]) != Normalize(answers[k - 1]);
    }
  }

  /** With distinct answers, a guess matching rank p lands on rank p. */
  lemma PositionOfDistinct(answers: seq<string>, guess: string, p: int)
    requires DistinctAnswers(answers)
    requires 1 <= p <= |answers| && Normalize(guess) == Normalize(answers[p - 1])
    ensures AnswerPosition(answers, guess) == Some(p)
  {
    assert AnswerPosition(answers, guess).Some?;
  }

  /** A non-empty guess matching no ranked answer is a miss while the game runs. */
  lemma MissedGuess(answers: seq<string>, s: GameState, guess: string)
    requires Inv(answers, s) && !s.gameOver && guess != ""
    requires AnswerPosition(answers, guess).None?
    ensures Classify(answers, s, guess) == Incorrect
  {
    forall k | k in s.revealed
      ensures Normalize(answers[k - 1]) != Normalize(guess)
    {
      assert 0 <= k - 1 < |answers|;
    }
    NotRepeat(answers, s, guess);
  }

  /** A guess matching a not yet revealed rank of distinct, non-blank answers
      reveals that rank while the game runs. */
  lemma RankGuess(answers: seq<string>, s: GameState, guess: string, p: int)
    requires Inv(answers, s) && !s.gameOver
    requires DistinctAnswers(answers) && NonBlankAnswers(answers)
    requires 1 <= p <= |answers| && p !in s.revealed
    requires Normalize(guess) == Normalize(answers[p - 1])
    ensures Classify(answers, s, guess) == Correct(p)
  {
    assert guess != "";
    forall k | k in s.revealed
      ensures Normalize(answers[k - 1]) != Normalize(guess)
    {
      DistinctRanksDiffer(answers, k, p);
    }
    NotRepeat(answers, s, guess);
    PositionOfDistinct(answers, guess, p);
  }

  /** A guess of white space only is not empty, so it is not ignored: it
      costs a life when no answer is blank. */
  lemma BlankGuessCostsLife(answers: seq<string>, s: GameState, guess: string)
    requires Inv(answers, s) && NonBlankAnswers(answers)
    requires guess != "" && !s.gameOver
    requires forall i :: 0 <= i < |guess| ==> IsSpace(guess[i])
    ensures Classify(answers, s, guess) == Incorrect
    ensures Next(answers, s, guess).lives == s.lives - 1
  {
    NormalizeBlank(guess);
    MissedGuess(answers, s, guess);
  }

  /** Guessing the same correct answer again is rejected as a repeat (or
      ignored, when that guess ended the game). */
  lemma SecondGuessRejected(answers: seq<string>, s: GameState, guess: string)
    requires Inv(answers, s)
    requires Classify(answers, s, guess).Correct?
    ensures var t := Next(answers, s, guess);
      Classify(answers, t, guess) == if t.gameOver then Ignored else AlreadyGuessed
  {
    var p := Classify(answers, s, guess).rank;
    var t := Next(answers, s, guess);
    assert Normalize(t.revealed[p]) == Normalize(guess);
  }

  // ---------------------------------------------------------------------------
  // Duplicate answers across ranks

  /** When two ranks hold answers with equal normalized forms, the later rank
      is never revealed: a matching guess goes to the earlier rank, and a
      second attempt is a repeat. */
  lemma DuplicateRankNeverRevealed(answers: seq<string>, s: GameState, i: nat, j: nat)
    requires Inv(answers, s)
    requires i < j < |answers| && Normalize(answers[i]) == Normalize(answers[j])
    ensures j + 1 !in s.revealed
  {
  }

  /** Hence fewer ranks than answers are ever revealed ... */
  lemma DuplicateRanksLimitReveals(answers: seq<string>, s: GameState, i: nat, j: nat)
    requires Inv(answers, s)
    requires i < j < |answers| && Normalize(answers[i]) == Normalize(answers[j])
    ensures |s.revealed| < |answers|
  {
    DuplicateRankNeverRevealed(answers, s, i, j);
    var all := Ranks(|answers|);
    assert s.revealed.Keys <= all - {j + 1};
    SubsetCard(s.revealed.Keys, all - {j + 1});
    assert |all - {j + 1}| == |all| - 1;
  }

  /** ... and a ten-answer prompt with such a pair can never be won. */
  lemma DuplicateRanksBlockWin(answers: seq<string>, s: GameState, i: nat, j: nat)
    requires |answers| == RankCount && Inv(answers, s)
    requires i < j < |answers| && Normalize(answers[i]) == Normalize(answers[j])
    ensures !s.gameWon
  {
    DuplicateRanksLimitReveals(answers, s, i, j);
  }

  // ---------------------------------------------------------------------------
  // Winning and losing runs

  /** One step of a winning run: the guess for a fresh rank reveals it. */
  lemma RankGuessStep(answers: seq<string>, s: GameState, guess: string, p: int)
    requires Inv(answers, s) && !s.gameOver
    requires DistinctAnswers(answers) && NonBlankAnswers(answers)
    requires 1 <= p <= |answers| && p !in s.revealed
    requires Normalize(guess) == Normalize(answers[p - 1])
    ensures var t := Next(answers, s, guess);
      && Inv(answers, t)
      && t.revealed.Keys == s.revealed.Keys + {p}
      && |t.revealed| == |s.revealed| + 1
      && t.lives == s.lives && t.incorrectGuesses == s.incorrectGuesses
      && (t.gameOver <==> |t.revealed| == RankCount)
  {
    RankGuess(answers, s, guess, p);
    CorrectGuess(answers, s, guess);
    NextPreservesInv(answers, s, guess);
  }

  /** `guesses[i]` names the answer of rank `ranks[i]`; the ranks are
      distinct and none is in `seen`. */
  ghost predicate RankPlan(answers: seq<string>, seen: set<int>, guesses: seq<string>, ranks: seq<int>) {
    && |ranks| == |guesses|
    && (forall i :: 0 <= i < |ranks| ==> 1 <= ranks[i] <= |answers| && ranks[i] !in seen)
    && (forall i :: 0 <= i < |ranks| ==> Normalize(guesses[i]) == Normalize(answers[ranks[i] - 1]))
    && (forall i, j :: 0 <= i < j < |ranks| ==> ranks[i] != ranks[j])
  }

  /** What is left of a plan once its first rank is revealed is a plan. */
  lemma PlanTail(answers: seq<string>, seen: set<int>, guesses: seq<string>, ranks: seq<int>)
    requires RankPlan(answers, seen, guesses, ranks) && ranks != []
    ensures RankPlan(answers, seen + {ranks[0]}, guesses[1..], ranks[1..])
  {
    var gs, rs := guesses[1..], ranks[1..];
    forall i | 0 <= i < |rs|
      ensures 1 <= rs[i] <= |answers| && rs[i] !in seen + {ranks[0]}
      ensures Normalize(gs[i]) == Normalize(answers[rs[i] - 1])
    {
      assert rs[i] == ranks[i + 1] && gs[i] == guesses[i + 1];
    }
    forall i, j | 0 <= i < j < |rs|
      ensures rs[i] != rs[j]
    {
      assert rs[i] == ranks[i + 1] && rs[j] == ranks[j + 1];
    }
  }

  /** Guessing answers of distinct, not yet revealed ranks reveals each of
      those ranks in turn without spending a life. */
  lemma {:induction false} GuessingRanksReveals(
    answers: seq<string>, s: GameState, guesses: seq<string>, ranks: seq<int>)
    requires Inv(answers, s) && !s.gameOver
    requires DistinctAnswers(answers) && NonBlankAnswers(answers)
    requires RankPlan(answers, s.revealed.Keys, guesses, ranks)
    requires |s.revealed| + |guesses| <= RankCount
    ensures var t := Run(answers, s, guesses);
      && Inv(answers, t)
      && |t.revealed| == |s.revealed| + |guesses|
      && t.lives == s.lives && t.incorrectGuesses == s.incorrectGuesses
    decreases |guesses|
  {
    if guesses != [] {
      var g, p := guesses[0], ranks[0];
      assert 1 <= p <= |answers| && p !in s.revealed.Keys;
      assert Normalize(g) == Normalize(answers[p - 1]);
      RankGuessStep(answers, s, g, p);
      var s' := Next(answers, s, g);
      assert Run(answers, s, guesses) == Run(answers, s', guesses[1..]);
      if s'.gameOver {
        assert guesses[1..] == [];
      } else {
        PlanTail(answers, s.revealed.Keys, guesses, ranks);
        GuessingRanksReveals(answers, s', guesses[1..], ranks[1..]);
      }
    }
  }

  /** Guessing each of ten distinct ranked answers once, in any order and with
      any case or surrounding white space, wins the game. */
  lemma AllRanksGuessedWins(answers: seq<string>, guesses: seq<string>, ranks: seq<int>)
    requires |answers| == RankCount && DistinctAnswers(answers) && NonBlankAnswers(answers)
    requires |ranks| == RankCount && |guesses| == RankCount
    requires forall i :: 0 <= i < |ranks| ==> 1 <= ranks[i] <= RankCount
    requires forall i :: 0 <= i < |ranks| ==> Normalize(guesses[i]) == Normalize(answers[ranks[i] - 1])
    requires forall i, j :: 0 <= i < j < |ranks| ==> ranks[i] != ranks[j]
    ensures Run(answers, Initial(), guesses).gameWon
    ensures Run(answers, Initial(), guesses).lives == MaxLives
  {
    InvInitial(answers);
    assert RankPlan(answers, Initial().revealed.Keys, guesses, ranks);
    GuessingRanksReveals(answers, Initial(), guesses, ranks);
  }

  /** Non-empty guesses that match no ranked answer each spend one life. */
  lemma {:induction false} MissesSpendLives(answers: seq<string>, s: GameState, guesses: seq<string>)
    requires Inv(answers, s) && !s.gameOver && |guesses| <= s.lives
    requires forall i :: 0 <= i < |guesses| ==> guesses[i] != "" && AnswerPosition(answers, guesses[i]).None?
    ensures var t := Run(answers, s, guesses);
      && Inv(answers, t)
      && t.revealed == s.revealed
      && t.lives == s.lives - |guesses|
      && t.incorrectGuesses == s.incorrectGuesses + guesses
      && !t.gameWon
      && (t.gameOver <==> t.lives == 0)
    decreases |guesses|
  {
    if guesses != [] {
      var g := guesses[0];
      MissedGuess(answers, s, g);
      IncorrectGuess(answers, s, g);
      NextPreservesInv(answers, s, g);
      var s' := Next(answers, s, g);
      assert s.incorrectGuesses + guesses == s'.incorrectGuesses + guesses[1..];
      if s'.gameOver {
        assert guesses[1..] == [];
      } else {
        MissesSpendLives(answers, s', guesses[1..]);
      }
    }
  }

  /** Five wrong guesses from a fresh session lose the game, and a sixth
      guess is ignored. */
  lemma FiveMissesLose(answers: seq<string>, guesses: seq<string>, sixth: string)
    requires |guesses| == MaxLives
    requires forall i :: 0 <= i < |guesses| ==> guesses[i] != "" && AnswerPosition(answers, guesses[i]).None?
    ensures var t := Run(answers, Initial(), guesses);
      && t.gameOver && !t.gameWon && t.lives == 0
      && t.incorrectGuesses == guesses
      && Next(answers, t, sixth) == t
  {
    InvInitial(answers);
    MissesSpendLives(answers, Initial(), guesses);
  }

  // ---------------------------------------------------------------------------
  // The share summary

  function CountChar(s: string, c: char): nat {
    if s == [] then 0 else (if s[0] == c then 1 else 0) + CountChar(s[1..], c)
  }

  lemma {:induction false} CountCharConcat(a: string, b: string, c: char)
    ensures CountChar(a + b, c) == CountChar(a, c) + CountChar(b, c)
  {
    if a == [] {
      assert a + b == b;
    } else {
      assert (a + b)[1..] == a[1..] + b;
      CountCharConcat(a[1..], b, c);
    }
  }

  lemma {:induction false} CountCharAbsent(s: string, c: char)
    requires forall i :: 0 <= i < |s| ==> s[i] != c
    ensures CountChar(s, c) == 0
  {
    if s != [] {
      CountCharAbsent(s[1..], c);
    }
  }

  /** The ranks among 1..n whose grid line shows a check mark. */
  function FoundRanks(revealed: map<int, string>, n: nat): set<int> {
    set i | 1 <= i <= n && ShowsFound(revealed, i)
  }

  lemma GridLineCount(revealed: map<int, string>, i: nat, c: char)
    requires i >= 1 && !IsDigit(c)
    ensures CountChar(GridLine(revealed, i), c) ==
      CountChar([if ShowsFound(revealed, i) then Check else Blank], c) + (if c == '\n' then 1 else 0)
      + (if c == '.' then 1 else 0) + (if c == ' ' then 1 else 0)
  {
    var digits := IntToString(i);
    var mark := if ShowsFound(revealed, i) then Check else Blank;
    CountCharConcat(digits, ". ", c);
    CountCharConcat(digits + ". ", [mark], c);
    CountCharConcat(digits + ". " + [mark], "\n", c);
    CountCharAbsent(digits, c);
    assert ". "[1..] == " " && " "[1..] == "" && "\n"[1..] == "" && [mark][1..] == "";
  }

  lemma GridLineCounts(revealed: map<int, string>, i: nat)
    requires i >= 1
    ensures CountChar(GridLine(revealed, i), Check) == if ShowsFound(revealed, i) then 1 else 0
    ensures CountChar(GridLine(revealed, i), Blank) == if ShowsFound(revealed, i) then 0 else 1
    ensures CountChar(GridLine(revealed, i), '\n') == 1
  {
    GridLineCount(revealed, i, Check);
    GridLineCount(revealed, i, Blank);
    GridLineCount(revealed, i, '\n');
  }

  /** The grid for ranks 1..n has n lines, a check mark for each found rank
      and a blank square for each other rank. */
  lemma {:induction false} GridCounts(revealed: map<int, string>, n: nat)
    ensures CountChar(Grid(revealed, n), Check) == |FoundRanks(revealed, n)|
    ensures CountChar(Grid(revealed, n), Blank) == n - |FoundRanks(revealed, n)|
    ensures CountChar(Grid(revealed, n), '\n') == n
    ensures |FoundRanks(revealed, n)| <= n
  {
    if n > 0 {
      GridCounts(revealed, n - 1);
      GridLineCounts(revealed, n);
      CountCharConcat(Grid(revealed, n - 1), GridLine(revealed, n), Check);
      CountCharConcat(Grid(revealed, n - 1), GridLine(revealed, n), Blank);
      CountCharConcat(Grid(revealed, n - 1), GridLine(revealed, n), '\n');
      FoundRanksStep(revealed, n);
    }
  }

  lemma FoundRanksStep(revealed: map<int, string>, n: nat)
    requires n > 0
    ensures |FoundRanks(revealed, n)| == |FoundRanks(revealed, n - 1)| + if ShowsFound(revealed, n) then 1 else 0
  {
    if ShowsFound(revealed, n) {
      assert FoundRanks(revealed, n) == FoundRanks(revealed, n - 1) + {n};
    } else {
      assert FoundRanks(revealed, n) == FoundRanks(revealed, n - 1);
    }
  }

  /** In a reachable session of a prompt with ten non-empty answers, the
      share grid has exactly ten lines and a check mark exactly at the
      revealed ranks, as many as the "Found k/10" count. */
  lemma ShareGridMatchesRevealed(answers: seq<string>, s: GameState)
    requires |answers| == RankCount && Inv(answers, s)
    requires forall i :: 0 <= i < |answers| ==> answers[i] != ""
    ensures FoundRanks(s.revealed, RankCount) == s.revealed.Keys
    ensures CountChar(Grid(s.revealed, RankCount), Check) == |s.revealed|
    ensures CountChar(Grid(s.revealed, RankCount), Blank) == RankCount - |s.revealed|
    ensures CountChar(Grid(s.revealed, RankCount), '\n') == RankCount
  {
    GridCounts(s.revealed, RankCount);
    assert FoundRanks(s.revealed, RankCount) == s.revealed.Keys;
  }

  lemma {:induction false} GridAgrees(m1: map<int, string>, m2: map<int, string>, n: nat)
    requires forall i :: 1 <= i <= n ==> ShowsFound(m1, i) == ShowsFound(m2, i)
    ensures Grid(m1, n) == Grid(m2, n)
  {
    if n > 0 {
      GridAgrees(m1, m2, n - 1);
      assert GridLine(m1, n) == GridLine(m2, n);
    }
  }

  /** The share text never depends on which answers were found, only on which
      ranks were, on the counts and on the outcome. */
  lemma ShareTextHidesAnswers(question: string, s1: GameState, s2: GameState)
    requires s1.lives == s2.lives && |s1.incorrectGuesses| == |s2.incorrectGuesses|
    requires s1.gameOver == s2.gameOver && s1.gameWon == s2.gameWon
    requires |s1.revealed| == |s2.revealed|
    requires forall i :: 1 <= i <= RankCount ==> ShowsFound(s1.revealed, i) == ShowsFound(s2.revealed, i)
    ensures ShareText(question, s1) == ShareText(question, s2)
  {
    GridAgrees(s1.revealed, s2.revealed, RankCount);
  }

  /** `x + y` begins every longer concatenation that starts with it. */
  lemma PrefixOfAppend(x: string, y: string, z: string, g: string, f: string)
    ensures x + y <= x + y + z + g + f
  {
    assert x + y + z + g + f == (x + y) + (z + g + f);
  }

  /** With ten ranks revealed the header opens with "Found 10/10 answers". */
  lemma TenFoundHeader(question: string, s: GameState)
    requires |s.revealed| == RankCount
    ensures Title + " - " + question + "\n\n" + "Found 10/10 answers\n" <= ShareText(question, s)
  {
    assert NatToString(1) == "1";
    assert NatToString(10) == NatToString(1) + [DigitChar(0)];
    assert IntToString(|s.revealed|) == "10";
    var found := "Found " + IntToString(|s.revealed|) + "/10 answers\n";
    assert found == "Found 10/10 answers\n";
    PrefixOfAppend(Title + " - " + question + "\n\n", found,
      "Guesses: " + IntToString(|s.revealed| + |s.incorrectGuesses|)
        + " | Lives used: " + IntToString(MaxLives - s.lives) + "/5\n\n",
      Grid(s.revealed, RankCount), ShareFooter(s));
  }

  predicate EndsWith(s: string, suffix: string) {
    |suffix| <= |s| && s[|s| - |suffix|..] == suffix
  }

  lemma EndsWithAppend(a: string, b: string)
    ensures EndsWith(a + b, b)
  {
    assert (a + b)[|a|..] == b;
  }

  /** A won game's summary reads "Found 10/10 answers" and ends "Perfect!"; a
      lost one ends "Game Over"; an unfinished one ends with the grid line of
      the last rank. */
  lemma ShareTextOutcome(answers: seq<string>, question: string, s: GameState)
    requires Inv(answers, s)
    ensures s.gameWon ==>
      Title + " - " + question + "\n\n" + "Found 10/10 answers\n" <= ShareText(question, s)
    ensures s.gameWon ==> EndsWith(ShareText(question, s), "\n\U{1F389} Perfect!")
    ensures s.gameOver && !s.gameWon ==> EndsWith(ShareText(question, s), "\n\U{1F494} Game Over")
    ensures !s.gameOver ==> EndsWith(ShareText(question, s), GridLine(s.revealed, RankCount))
  {
    var h := ShareHeader(question, s);
    var f := ShareFooter(s);
    if s.gameWon {
      TenFoundHeader(question, s);
    }
    if s.gameOver {
      EndsWithAppend(h + Grid(s.revealed, RankCount), f);
    } else {
      var g9 := Grid(s.revealed, RankCount - 1);
      var line := GridLine(s.revealed, RankCount);
      assert f == "";
      assert ShareText(question, s) == (h + g9) + line;
      EndsWithAppend(h + g9, line);
    }
  }

  // ---------------------------------------------------------------------------
  // The answer slots

  /** Slot p shows its answer with a check once revealed, every answer as
      missed once the game is over, and "?" otherwise. */
  lemma SlotViewShowsAnswers(answers: seq<string>, s: GameState, p: int)
    requires Inv(answers, s) && 1 <= p <= |answers| && answers[p - 1] != ""
    ensures SlotView(answers, s, p).status ==
      if p in s.revealed then RevealedCorrect else if s.gameOver then RevealedMissed else Hidden
    ensures SlotView(answers, s, p).text == if p in s.revealed || s.gameOver then answers[p - 1] else "?"
  {
  }
}
