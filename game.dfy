/** The guessing state machine of the game screen (src/components/TriviaGame.js):
    a session state, the pure transition a submitted guess causes, the share
    summary, the answer-slot view, and a `GameSession` class whose methods
    update the session fields in place and are proved against the pure
    transition. */
module Game {
  import opened Lists
  import opened Strings
  import opened Records

  const MaxLives := 5
  const RankCount := 10
  const Title := "Daily Fuck"

  /** The per-page-load session: rank -> canonical answer, lives left, wrong
      guesses as typed, and the two terminal flags. */
  datatype GameState = GameState(
    revealed: map<int, string>,
    lives: int,
    incorrectGuesses: seq<string>,
    gameOver: bool,
    gameWon: bool)

  /** What a submission did: nothing, rejected as a repeat, revealed a rank,
      or spent a life. */
  datatype Outcome = Ignored | AlreadyGuessed | Correct(rank: nat) | Incorrect

  function Initial(): GameState {
    GameState(map[], MaxLives, [], false, false)
  }

  /** `getAnswerPosition`: the smallest 1-based rank whose answer normalizes
      equal to the guess, or `None` when no rank does. */
  function AnswerPosition(answers: seq<string>, guess: string): (r: Option<nat>)
    ensures r.Some? ==> 1 <= r.value <= |answers|
    ensures r.Some? ==> Normalize(answers[r.value - 1]) == Normalize(guess)
    ensures r.Some? ==> forall j :: 0 <= j < r.value - 1 ==> Normalize(answers[j]) != Normalize(guess)
    ensures r.None? <==> forall j :: 0 <= j < |answers| ==> Normalize(answers[j]) != Normalize(guess)
  {
    var key := Normalize(guess);
    match FindIndex(answers, (a: string) => Normalize(a) == key)
    case Some(i) => Some(i + 1)
    case None => None
  }

  /** `isAlreadyGuessed`: some revealed answer normalizes equal to the guess. */
  predicate AlreadyRevealed(revealed: map<int, string>, guess: string) {
    exists k :: k in revealed && Normalize(revealed[k]) == Normalize(guess)
  }

  /** The decision `handleSubmit` takes for a guess. */
  function Classify(answers: seq<string>, s: GameState, guess: string): Outcome {
    if guess == "" || s.gameOver || s.gameWon then Ignored
    else if AlreadyRevealed(s.revealed, guess) then AlreadyGuessed
    else match AnswerPosition(answers, guess)
      case Some(p) => Correct(p)
      case None => Incorrect
  }

  /** The session after `handleSubmit(guess)`. */
  function Next(answers: seq<string>, s: GameState, guess: string): GameState {
    match Classify(answers, s, guess)
    case Correct(p) =>
      if 1 <= p <= |answers| then
        var r := s.revealed[p := answers[p - 1]];
        if |r| == RankCount then s.(revealed := r, gameWon := true, gameOver := true)
        else s.(revealed := r)
      else s
    case Incorrect =>
      var l := s.lives - 1;
      s.(lives := l, incorrectGuesses := s.incorrectGuesses + [guess], gameOver := s.gameOver || l == 0)
    case _ => s
  }

  /** The session after a sequence of guesses, one `handleSubmit` each. */
  function Run(answers: seq<string>, s: GameState, guesses: seq<string>): GameState
    decreases |guesses|
  {
    if guesses == [] then s else Run(answers, Next(answers, s, guesses[0]), guesses[1..])
  }

  /** Rank k is the first rank whose answer has its normalized form, so a
      guess of that answer lands on k. */
  ghost predicate FirstOfKind(answers: seq<string>, k: int)
    requires 1 <= k <= |answers|
  {
    forall j :: 0 <= j < k - 1 ==> Normalize(answers[j]) != Normalize(answers[k - 1])
  }

  /** What every reachable session satisfies. */
  ghost predicate Inv(answers: seq<string>, s: GameState) {
    && 0 <= s.lives <= MaxLives
    && MaxLives - s.lives == |s.incorrectGuesses|
    && (forall k :: k in s.revealed ==>
          && 1 <= k <= |answers|
          && s.revealed[k] == answers[k - 1]
          && FirstOfKind(answers, k))
    && |s.revealed| <= RankCount
    && (s.gameWon <==> |s.revealed| == RankCount)
    && (s.gameOver <==> s.gameWon || s.lives == 0)
  }

  // ---------------------------------------------------------------------------
  // Share summary (`generateShareText`)

  /** JavaScript truthiness of `revealedPositions[i]`: present and not "". */
  predicate ShowsFound(revealed: map<int, string>, i: int) {
    i in revealed && revealed[i] != ""
  }

  const Check := '\U{2705}'
  const Blank := '\U{2B1C}'

  function GridLine(revealed: map<int, string>, i: int): string {
    IntToString(i) + ". " + [if ShowsFound(revealed, i) then Check else Blank] + "\n"
  }

  /** The grid lines for ranks 1..n. */
  function Grid(revealed: map<int, string>, n: nat): string {
    if n == 0 then "" else Grid(revealed, n - 1) + GridLine(revealed, n)
  }

  function ShareHeader(question: string, s: GameState): string {
    var found := |s.revealed|;
    (Title + " - " + question + "\n\n")
    + ("Found " + IntToString(found) + "/10 answers\n")
    + ("Guesses: " + IntToString(found + |s.incorrectGuesses|)
       + " | Lives used: " + IntToString(MaxLives - s.lives) + "/5\n\n")
  }

  function ShareFooter(s: GameState): string {
    if s.gameWon then "\n\U{1F389} Perfect!"
    else if s.gameOver then "\n\U{1F494} Game Over"
    else ""
  }

  function ShareText(question: string, s: GameState): string {
    ShareHeader(question, s) + Grid(s.revealed, RankCount) + ShareFooter(s)
  }

  // ---------------------------------------------------------------------------
  // Answer slots (the grid of ranks 1..10 on the game screen)

  datatype SlotStatus = RevealedCorrect | RevealedMissed | Hidden
  datatype Slot = Slot(status: SlotStatus, text: string)

  /** `prompt.answers[position - 1]`, `undefined` outside the array. */
  function AnswerAt(answers: seq<string>, position: int): Option<string> {
    if 1 <= position <= |answers| then Some(answers[position - 1]) else None
  }

  /** What slot `position` shows: a found answer with a check, every answer
      once the game is over, otherwise "?". */
  function SlotView(answers: seq<string>, s: GameState, position: int): Slot {
    var isRevealed := ShowsFound(s.revealed, position);
    var answer := if isRevealed || s.gameOver then AnswerAt(answers, position) else None;
    Slot(
      if isRevealed then RevealedCorrect else if s.gameOver then RevealedMissed else Hidden,
      if answer.Some? && answer.value != "" then answer.value else "?")
  }

  // ---------------------------------------------------------------------------
  // The session object

  class GameSession {
    const prompt: Prompt
    var revealedPositions: map<int, string>
    var lives: int
    var incorrectGuesses: seq<string>
    var gameOver: bool
    var gameWon: bool
    var inputValue: string

    function State(): GameState
      reads this
    {
      GameState(revealedPositions, lives, incorrectGuesses, gameOver, gameWon)
    }

    /** A fresh session for the day's prompt. */
    constructor (p: Prompt)
      ensures prompt == p && State() == Initial() && inputValue == ""
    {
      prompt := p;
      revealedPositions := map[];
      lives := MaxLives;
      incorrectGuesses := [];
      gameOver := false;
      gameWon := false;
      inputValue := "";
    }

    /** `handleSubmit`: reveal the first matching rank or spend a life; the
        input box is cleared unless the guess was ignored or a repeat. */
    method HandleSubmit(answer: string) returns (outcome: Outcome)
      modifies this
      ensures outcome == Classify(prompt.answers, old(State()), answer)
      ensures State() == Next(prompt.answers, old(State()), answer)
      ensures inputValue == if outcome.Correct? || outcome.Incorrect? then "" else old(inputValue)
    {
      ghost var s := State();
      if answer == "" || gameOver || gameWon {
        return Ignored;
      }
      if AlreadyRevealed(revealedPositions, answer) {
        return AlreadyGuessed;
      }
      var position := AnswerPosition(prompt.answers, answer);
      assert Classify(prompt.answers, s, answer) == if position.Some? then Correct(position.value) else Incorrect;
      if position.Some? {
        var newRevealed := revealedPositions[position.value := prompt.answers[position.value - 1]];
        revealedPositions := newRevealed;
        if |newRevealed| == RankCount {
          gameWon := true;
          gameOver := true;
        }
        outcome := Correct(position.value);
      } else {
        var newLives := lives - 1;
        lives := newLives;
        incorrectGuesses := incorrectGuesses + [answer];
        if newLives == 0 {
          gameOver := true;
        }
        outcome := Incorrect;
      }
      inputValue := "";
    }

    /** `generateShareText`: builds the summary line by line. */
    method GenerateShareText() returns (text: string)
      ensures text == ShareText(prompt.question, State())
    {
      var revealed := revealedPositions;
      var correctCount := |revealed|;
      var totalGuesses := correctCount + |incorrectGuesses|;
      var livesUsed := MaxLives - lives;
      text := Title + " - " + prompt.question + "\n\n";
      text := text + ("Found " + IntToString(correctCount) + "/10 answers\n");
      text := text + ("Guesses: " + IntToString(totalGuesses) + " | Lives used: " + IntToString(livesUsed) + "/5\n\n");
      ghost var header := text;
      assert header == ShareHeader(prompt.question, State());
      for i := 1 to RankCount + 1
        invariant text == header + Grid(revealed, i - 1)
      {
        AppendAssoc(header, Grid(revealed, i - 1), GridLine(revealed, i));
        if ShowsFound(revealed, i) {
          text := text + (IntToString(i) + ". " + [Check] + "\n");
        } else {
          text := text + (IntToString(i) + ". " + [Blank] + "\n");
        }
      }
      assert text == ShareHeader(prompt.question, State()) + Grid(State().revealed, RankCount);
      if gameWon {
        text := text + "\n\U{1F389} Perfect!";
      } else if gameOver {
        text := text + "\n\U{1F494} Game Over";
      }
    }

    /** `allPossibleAnswers`: the pool the game hands to the guess box and
        to the answer browser. */
    function Pool(): seq<string> {
      AnswerPool(prompt)
    }

    /** The slot for `position` as the game screen renders it. */
    function Slot(position: int): Slot
      reads this
    {
      SlotView(prompt.answers, State(), position)
    }
  }
}
