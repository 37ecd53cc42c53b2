# Daily trivia game: a Dafny model

This project models the core of a single-page daily trivia game. Each day holds one prompt, made of a question and ten ranked answers. The player has five lives to guess all ten answers. A guess counts when it matches an answer after lower-casing and trimming, and it reveals the first rank whose answer matches. A wrong guess costs one life. When the game ends, the player can copy a share summary that shows which ranks were found but never the answers themselves.

Around the game there are four other parts:

- a persistence layer over the browser's key-value store;
- a password-protected authoring panel that validates and saves prompts;
- an autocomplete guess box;
- an answer browser and a question proposal form.

The modules follow the source files:

| module | models |
|---|---|
| `Strings`, `Lists` | the string and list operations the source uses: trim, lower-case, `includes`, `join`, `split`, filter, find, map |
| `Records` | the prompt and submission records |
| `Game`, `GameProperties` | `src/components/TriviaGame.js`: the guess transition as pure functions, a `GameSession` class proved against them, the share summary and the answer slots |
| `Storage`, `StorageProperties` | `src/utils/storage.js`: a `Store` class over a map from keys to stored entries, proved against pure functions of the old map |
| `Admin`, `AdminProperties` | `src/components/AdminPanel.js`: pool parsing, validation, the saved prompt and an `AdminPanel` class |
| `Autocomplete`, `SuggestionProperties` | `src/components/AutocompleteInput.js`: the suggestion filter, the highlight, and an `AutocompleteInput` class |
| `AnswerList` | `src/components/AnswerListModal.js` |
| `QuestionSubmission` | `src/components/QuestionSubmission.js` |
| `App` | the wiring in `src/components/TriviaGame.js`: the handlers that pass guesses to the session and the callbacks that store the panel's prompt and the form's proposal |

Each React component becomes a class. Its state hooks become fields, and its handlers become methods that update those fields. A React effect becomes a method that the handler which triggers it calls right after the state change:

- The autocomplete filter effect is `Refilter`. It runs on every render, because the game passes a fresh `Object.values` array each time.
- The admin panel's "load submissions on login" effect is folded into `HandlePasswordSubmit`.

The game's whole state lives in a `GameState` value. The `GameSession` methods are specified by the pure transition `Next`, which is what makes lemmas over whole guess sequences possible.

Where this description and the code differ, the model follows the code:

- The answer pool is meant to be a superset of the ranked answers. `handleSave` does not enforce this: typed pool text replaces the ranked answers outright (`AdminProperties.PoolMayOmitRanked`).
- `validate` never checks that there are exactly ten ranked slots. `handleUseSubmission` can load any number of slots, so the lemmas about a saved prompt assume ten slots explicitly.

## Model

| member | source | states |
|---|---|---|
| Strings.NormalizeIsLowerThenTrim | src/components/TriviaGame.js:32 | the model's normal form (trim, then lower-case) equals the source's `toLowerCase().trim()` on every string |
| Strings.NormalizeIdempotent | src/components/AutocompleteInput.js:17 | normalizing an already normalized string changes nothing |
| Strings.NormalizeBlank | src/components/TriviaGame.js:32 | a string normalizes to "" exactly when every character is white space |
| Strings.TrimFacts | src/components/AdminPanel.js:56 | `trim` gives a string with no white space at either end, never longer than the input and made of its characters; it is empty iff the input is all white space, and it leaves trimmed text unchanged |
| Strings.LexLeqTotal | src/utils/storage.js:33 | any two ISO dates are ordered one way or the other by the sort's comparison |
| Strings.LexLeqTrans | src/utils/storage.js:33 | the date comparison is transitive |
| Strings.Lower | src/components/TriviaGame.js:32 | defines `toLowerCase` on ASCII letters; `NormalizeIsLowerThenTrim` states that it commutes with trimming |
| Strings.Trim | src/components/TriviaGame.js:32 | defines `trim`; `TrimFacts` states its properties |
| Strings.Normalize | src/components/TriviaGame.js:32 | defines the comparison key used by the game, the guess box and the answer browser; `NormalizeIsLowerThenTrim`, `NormalizeIdempotent` and `NormalizeBlank` state its properties |
| Records.AnswerPool | src/components/TriviaGame.js:35 | defines the pool the game hands to the guess box and the answer browser: the stored pool when one exists (even an empty one, since `[]` is truthy), and the ranked answers otherwise; `GameSession.Pool` is this pool, and `DefaultPoolHoldsRanked`, `SavedPromptPool` and `SessionSuggestionNotRepeat` state what it holds and what offering it guarantees |
| Game.AnswerPosition | src/components/TriviaGame.js:38-44 | the result is the smallest 1-based rank whose answer matches the guess after normalization, and it is None exactly when no rank matches |
| Game.AlreadyRevealed | src/components/TriviaGame.js:47-52 | defines the repeat check: some revealed answer has the guess's normal form; `RepeatedGuess`, `NotRepeat` and `GuessedIsRevealed` state its consequences |
| Game.Classify | src/components/TriviaGame.js:55-87 | defines which branch a submission takes (ignored, repeat, correct for a rank, wrong); `IgnoredGuess`, `RepeatedGuess`, `CorrectGuess`, `IncorrectGuess` and `MissedGuess` state when each is taken |
| Game.Next | src/components/TriviaGame.js:55-90 | defines the session after one submission; `NextPreservesInv`, `CorrectGuess`, `IncorrectGuess` and `UnchangedIffIgnoredOrRepeat` state what it changes |
| Game.Run | src/components/TriviaGame.js:55-90 | defines the session after a sequence of submissions; `RunPreservesInv`, `ReachableBounds`, `AllRanksGuessedWins` and `FiveMissesLose` state what whole games do |
| Game.ShareHeader | src/components/TriviaGame.js:121-127 | defines the summary's title line, found count, guess count and lives used; `TenFoundHeader` and `ShareTextHidesAnswers` state its properties |
| Game.GridLine | src/components/TriviaGame.js:131-135 | defines one grid line, a check mark for a found rank and a blank square otherwise; `GridLineCounts` counts its symbols |
| Game.Grid | src/components/TriviaGame.js:130-136 | defines the grid of ranks 1..n; `GridCounts`, `GridAgrees` and `ShareGridMatchesRevealed` state what it shows |
| Game.ShareFooter | src/components/TriviaGame.js:138-142 | defines the closing line, "Perfect!" when won and "Game Over" when lost; `ShareTextOutcome` states how the summary ends |
| Game.ShareText | src/components/TriviaGame.js:119-145 | defines the whole share summary; `ShareTextHidesAnswers`, `ShareTextOutcome` and `ShareGridMatchesRevealed` state what it reveals and how it ends |
| Game.SlotView | src/components/TriviaGame.js:258-279 | defines what an answer slot shows; `SlotViewShowsAnswers` states each case |
| Game.GameSession.Slot | src/components/TriviaGame.js:258-279 | the session's view of one answer slot, the `SlotView` of its prompt and state |
| Game.GameSession.Pool | src/components/TriviaGame.js:35 | the session's answer pool, the `AnswerPool` of its prompt |
| Game.GameSession.constructor | src/components/TriviaGame.js:10-25 | a new session has the loaded prompt, no revealed ranks, five lives, no wrong guesses and an empty input |
| Game.GameSession.HandleSubmit | src/components/TriviaGame.js:55-90 | the outcome reported and the new session fields are those of the pure transition; the input box is cleared only after a correct or wrong guess |
| Game.GameSession.GenerateShareText | src/components/TriviaGame.js:120-145 | the text the loop builds is the share summary of the current session |
| GameProperties.InvInitial | src/components/TriviaGame.js:10-19 | the fresh session satisfies the reachability invariant: lives between 0 and 5 with 5 - lives wrong guesses, each revealed rank holding its own answer, won iff ten revealed, over iff won or out of lives |
| GameProperties.PositionByKey | src/components/TriviaGame.js:38-44 | two guesses with the same normal form land on the same rank |
| GameProperties.CorrectRankIsNew | src/components/TriviaGame.js:58-69 | a guess that gets past the repeat check never lands on a rank that is already revealed |
| GameProperties.CorrectPreservesInv | src/components/TriviaGame.js:65-77 | a correct guess keeps the invariant |
| GameProperties.IncorrectPreservesInv | src/components/TriviaGame.js:78-87 | a wrong guess keeps the invariant |
| GameProperties.NextPreservesInv | src/components/TriviaGame.js:55-90 | every submission keeps the invariant |
| GameProperties.RunPreservesInv | src/components/TriviaGame.js:55-90 | every sequence of submissions keeps the invariant |
| GameProperties.ReachableBounds | src/components/TriviaGame.js:13-19 | in every session reachable from a fresh one, lives stay in 0..5, the lives used equal the wrong guesses and revealed ranks lie in 1..10 |
| GameProperties.IgnoredGuess | src/components/TriviaGame.js:56 | an empty guess, or any guess once the game is over or won, changes nothing |
| GameProperties.RepeatedGuess | src/components/TriviaGame.js:58-61 | a guess matching a revealed answer is rejected as a repeat and changes nothing |
| GameProperties.UnchangedIffIgnoredOrRepeat | src/components/TriviaGame.js:55-90 | a submission leaves the session unchanged exactly when it is ignored or rejected as a repeat |
| GameProperties.CorrectGuess | src/components/TriviaGame.js:63-77 | a correct guess reveals one new rank with that rank's canonical answer, matching the guess, and spends no life; the game is won and over exactly when ten ranks are revealed |
| GameProperties.IncorrectGuess | src/components/TriviaGame.js:78-87 | a wrong guess spends exactly one life, records the guess as typed, reveals nothing, and ends the game exactly when no life is left |
| GameProperties.NotRepeat | src/components/TriviaGame.js:47-52 | a guess that matches none of the revealed ranks' answers is not a repeat |
| GameProperties.PositionOfDistinct | src/components/TriviaGame.js:38-44 | when the ranked answers are pairwise distinct after normalization, a guess matching rank p lands on p |
| GameProperties.MissedGuess | src/components/TriviaGame.js:63-87 | a non-empty guess matching no rank, in a running game, is wrong |
| GameProperties.RankGuess | src/components/TriviaGame.js:58-69 | with distinct, non-blank answers, a guess matching an unrevealed rank p is classified as correct for p |
| GameProperties.BlankGuessCostsLife | src/components/TriviaGame.js:56-86 | a guess made only of spaces passes the emptiness check and costs a life when no answer is blank |
| GameProperties.SecondGuessRejected | src/components/TriviaGame.js:47-61 | repeating a correct guess right away is rejected as a repeat, or ignored if it ended the game |
| GameProperties.DuplicateRankNeverRevealed | src/components/TriviaGame.js:38-70 | when two ranks hold answers with the same normal form, the later one is never revealed |
| GameProperties.DuplicateRanksLimitReveals | src/components/TriviaGame.js:67-74 | with such a duplicate, fewer ranks than answers can ever be revealed |
| GameProperties.DuplicateRanksBlockWin | src/components/TriviaGame.js:73-77 | with such a duplicate among ten answers, the game can never be won |
| GameProperties.RankGuessStep | src/components/TriviaGame.js:63-77 | with distinct, non-blank answers, a guess of an unrevealed rank reveals exactly that rank and spends no life |
| GameProperties.GuessingRanksReveals | src/components/TriviaGame.js:55-90 | guessing answers of distinct unrevealed ranks, one after another, reveals one rank per guess and spends no life |
| GameProperties.AllRanksGuessedWins | src/components/TriviaGame.js:73-77 | guessing each of ten distinct answers once, in any order and any case or spacing, wins with all five lives left |
| GameProperties.MissesSpendLives | src/components/TriviaGame.js:78-87 | a run of wrong guesses spends one life each, records them in order, and ends the game exactly when the lives reach zero |
| GameProperties.FiveMissesLose | src/components/TriviaGame.js:13-86 | five wrong guesses from a fresh session lose the game with zero lives, and a sixth guess changes nothing |
| GameProperties.GridLineCount | src/components/TriviaGame.js:130-136 | a grid line holds a chosen non-digit symbol as often as its rank-number prefix does, plus one if it is that line's mark |
| GameProperties.GridLineCounts | src/components/TriviaGame.js:130-136 | each grid line holds one check mark if its rank shows as found, otherwise one blank square, and exactly one line break |
| GameProperties.GridCounts | src/components/TriviaGame.js:130-136 | the grid for ranks 1..n has a check mark per found rank, a blank square per other rank, and n lines |
| GameProperties.ShareGridMatchesRevealed | src/components/TriviaGame.js:121-136 | in a reachable session the ranks shown as found are the revealed ranks, and the grid has as many check marks as the "Found k/10" count, 10 - k blank squares and ten lines |
| GameProperties.GridAgrees | src/components/TriviaGame.js:130-136 | the grid depends only on which ranks show as found |
| GameProperties.ShareTextHidesAnswers | src/components/TriviaGame.js:119-145 | two sessions with the same found ranks, counts and outcome share the same text, whatever answers were found, so the summary reveals no answer |
| GameProperties.TenFoundHeader | src/components/TriviaGame.js:125-126 | with ten revealed ranks the summary opens with the title, the question and "Found 10/10 answers" |
| GameProperties.ShareTextOutcome | src/components/TriviaGame.js:125-142 | a won game's summary reports ten of ten found; the text ends with "Perfect!" when won, with "Game Over" when lost, and with the tenth grid line while the game is running |
| GameProperties.SlotViewShowsAnswers | src/components/TriviaGame.js:258-279 | a slot shows its answer with a check once revealed, every answer as missed once the game is over, and "?" otherwise |
| Storage.AllPrompts | src/utils/storage.js:79-82 | defines the stored prompt list, empty when the key is missing or holds another shape; `AfterSaveReads` and `ClearedReadsEmpty` state what writes do to it |
| Storage.Submissions | src/utils/storage.js:87-97 | defines the stored submission list, empty when the key is missing or holds another shape; `SubmissionRoundTrip` and `AfterDeleteReads` state what writes do to it |
| Storage.PromptsMisshapen | src/utils/storage.js:19-22 | defines when the stored prompt value has no `prompts` list, the case in which saving throws and writes nothing |
| Storage.SubmissionsMisshapen | src/utils/storage.js:101-102 | defines when the stored submission value is not a list, the case in which saving or deleting throws and writes nothing |
| Storage.Upsert | src/utils/storage.js:22-30 | defines replace-or-append by date; `UpsertOtherDates`, `UpsertSameDate`, `UpsertLength` and `UpsertFirstOfDate` state its properties |
| Storage.Insert | src/utils/storage.js:33 | inserts a prompt before the first prompt not dated earlier; `InsertSorted`, `InsertPermutes` and `InsertWithDate` state its properties |
| Storage.SortByDate | src/utils/storage.js:33 | defines the stable date sort; `SortByDateSorted`, `SortByDatePermutes`, `SortByDateStable` and `SortByDateSortedFixed` state that it is an ordered, stable permutation |
| Storage.Saved | src/utils/storage.js:19-33 | defines the prompt list a save writes; `SavedSorted`, `SavedKeepsOtherDates`, `SavedSameDate`, `SavedLength`, `SavedUnique` and `SavedIdempotent` state its properties |
| Storage.AfterSave | src/utils/storage.js:17-41 | defines the store after a save; `AfterSaveReads` and `SaveTwice` state what it writes and keeps |
| Storage.TodaysPrompt | src/utils/storage.js:43-77 | defines the prompt a game loads; `TodaysPromptChoice` and `TodaysPromptStable` state which one it is |
| Storage.AfterTodays | src/utils/storage.js:43-77 | defines the store after loading a game, which seeds the default prompt only when no prompt is stored; `TodaysPromptStable` states that a second load changes nothing |
| Storage.RemoveById | src/utils/storage.js:114 | defines deletion by id; `RemoveByIdMembers`, `RemoveByIdConcat`, `RemoveByIdIdempotent` and `RemoveAbsentId` state its properties |
| Storage.AfterSaveSubmission | src/utils/storage.js:99-109 | defines the store after a submission is saved; `SubmissionRoundTrip` states what is read back |
| Storage.AfterDeleteSubmission | src/utils/storage.js:111-121 | defines the store after a deletion; `AfterDeleteReads` and `SubmissionRoundTrip` state what it writes |
| Storage.Cleared | src/utils/storage.js:124-133 | defines the store after clearing; `ClearedReadsEmpty` states what the next reads and game load see |
| Storage.DefaultPrompt | src/utils/storage.js:58-72 | the fallback prompt is dated today with ten ranked answers and a 20-answer pool that begins with them |
| Storage.Store.constructor | src/utils/storage.js:1-3 | the store starts with the given stored entries |
| Storage.Store.SavePrompt | src/utils/storage.js:17-41 | it reports success exactly when the write can happen and the stored value has a `prompts` list; the store afterwards is the upsert-then-sort of the old prompts written back, or unchanged on failure |
| Storage.Store.GetTodaysPrompt | src/utils/storage.js:43-77 | it returns the choice of today's prompt for the old store, and writes the default prompt only when no prompt was stored |
| Storage.Store.GetAllPrompts | src/utils/storage.js:79-82 | it returns the stored prompts, or none when the key is missing or unreadable |
| Storage.Store.GetSubmissions | src/utils/storage.js:87-97 | it returns the stored submissions, or none when the key is missing or unreadable |
| Storage.Store.SaveSubmission | src/utils/storage.js:99-109 | it reports success exactly when the write can happen and the stored value is a list; then the submission is appended, and otherwise nothing is written |
| Storage.Store.DeleteSubmission | src/utils/storage.js:111-121 | it reports success exactly when the write can happen and the stored value is a list; then every submission with that id is removed, and otherwise nothing is written |
| Storage.Store.ClearAllData | src/utils/storage.js:124-133 | it removes both keys and keeps every other key |
| StorageProperties.InsertSorted | src/utils/storage.js:33 | inserting into a date-sorted list keeps it sorted |
| StorageProperties.SortByDateSorted | src/utils/storage.js:33 | the sorted list is in ascending date order |
| StorageProperties.InsertPermutes | src/utils/storage.js:33 | insertion adds exactly the new prompt |
| StorageProperties.SortByDatePermutes | src/utils/storage.js:33 | the sort is a permutation: it neither loses nor duplicates a prompt |
| StorageProperties.SortedAscending | src/utils/storage.js:33 | in a sorted list any earlier prompt is dated no later than any later one |
| StorageProperties.InsertWithDate | src/utils/storage.js:33 | insertion puts the new prompt ahead of the prompts sharing its date and keeps the order of every date's prompts |
| StorageProperties.SortByDateStable | src/utils/storage.js:33 | the sort is stable: prompts with equal dates keep their relative order |
| StorageProperties.SortByDateSortedFixed | src/utils/storage.js:33 | sorting an already sorted list changes nothing |
| StorageProperties.UpsertOtherDates | src/utils/storage.js:22-30 | replace-or-append keeps the prompts of every other date, in order |
| StorageProperties.UpsertSameDate | src/utils/storage.js:22-30 | replace-or-append makes the new prompt the first of its date, in place of the first one that had it |
| StorageProperties.UpsertLength | src/utils/storage.js:22-30 | the list grows by one exactly when no prompt had the new prompt's date |
| StorageProperties.SavedSorted | src/utils/storage.js:19-33 | after a save the list is sorted by date and holds the saved prompt |
| StorageProperties.SavedKeepsOtherDates | src/utils/storage.js:19-33 | a save keeps every prompt of another date, in order |
| StorageProperties.SavedSameDate | src/utils/storage.js:19-33 | a save makes the new prompt the first of its date, in place of the first one that had it |
| StorageProperties.SavedLength | src/utils/storage.js:19-33 | a save grows the list by one exactly when the date was new |
| StorageProperties.SavedUnique | src/utils/storage.js:19-33 | when dates were unique before a save, they stay unique and the saved prompt is the only one of its date |
| StorageProperties.UpsertFirstOfDate | src/utils/storage.js:22-27 | replacing a prompt that already heads its date changes nothing |
| StorageProperties.SavedIdempotent | src/utils/storage.js:17-41 | saving the same prompt twice gives the same list as saving it once |
| StorageProperties.AfterSaveReads | src/utils/storage.js:17-41 | the next read of prompts sees exactly what the save wrote, a misshapen stored value leaves the store unchanged, and submissions and the presence of every other key are untouched |
| StorageProperties.SaveTwice | src/utils/storage.js:17-41 | two identical saves leave the store as one does |
| StorageProperties.TodaysPromptChoice | src/utils/storage.js:43-77 | today's prompt is the first stored prompt dated today, else the last stored prompt, else the default prompt, and in the first and last cases it is dated today |
| StorageProperties.TodaysPromptStable | src/utils/storage.js:43-77 | a second call with the same date returns the same prompt, and leaves the store as the first call left it |
| StorageProperties.RemoveByIdMembers | src/utils/storage.js:114 | deletion keeps exactly the submissions with another id |
| StorageProperties.RemoveByIdConcat | src/utils/storage.js:114 | deletion keeps the order of the others |
| StorageProperties.RemoveByIdIdempotent | src/utils/storage.js:111-121 | deleting twice is deleting once |
| StorageProperties.RemoveAbsentId | src/utils/storage.js:114 | deleting an id nobody has changes nothing |
| StorageProperties.SubmissionRoundTrip | src/utils/storage.js:99-121 | over a well-shaped store a saved submission is read back at the end and deleting its id afterwards leaves the old list without that id; over a misshapen one the two calls change nothing; prompts are untouched |
| StorageProperties.AfterDeleteReads | src/utils/storage.js:111-121 | deletion writes only the submissions key |
| StorageProperties.ClearedReadsEmpty | src/utils/storage.js:124-133 | after clearing, both reads are empty, every other key is kept, and the next game load, for any date, falls back to the default prompt |
| StorageProperties.DefaultPoolHoldsRanked | src/utils/storage.js:58-72 | the fallback prompt offers a 20-answer pool that holds every one of its ranked answers |
| Admin.Split | src/components/AdminPanel.js:55 | splitting gives at least one piece, and no piece holds a line break or a comma |
| Admin.Tokens | src/components/AdminPanel.js:54-57 | defines the split, trim and drop-empty pipeline; `TokensClean`, `TokensAtSeparator` and `TokensOfLines` state its properties |
| Admin.ParseAllAnswers | src/components/AdminPanel.js:52-58 | defines the parsed pool; `ParseIsTokens`, `ParseJoinRoundTrip` and `ParseIdempotent` state its properties |
| Admin.ValidationErrors | src/components/AdminPanel.js:60-77 | the error map has an entry for the question exactly when it is blank, for the ranked slots exactly when one is blank, and for the date exactly when it is unset, with those messages and no other keys |
| Admin.Valid | src/components/AdminPanel.js:60-77 | defines when the form validates; `ValidIff` states it field by field |
| Admin.BuildPrompt | src/components/AdminPanel.js:84-94 | defines the saved prompt; `SavedPromptFacts`, `SavedPoolClean`, `SavedPromptPool` and `PoolMayOmitRanked` state its properties |
| Admin.EmptyTopTen | src/components/AdminPanel.js:15 | the initial ranked slots are ten empty strings |
| Admin.AdminPanel.constructor | src/components/AdminPanel.js:8-19 | the panel opens unauthenticated on the add tab with an empty form and no submissions |
| Admin.AdminPanel.HandlePasswordChange | src/components/AdminPanel.js:147-150 | typing stores the password and clears the error, and nothing else changes |
| Admin.AdminPanel.HandlePasswordSubmit | src/components/AdminPanel.js:21-40 | the panel becomes authenticated exactly when the password matches; otherwise it shows the error; the submissions are loaded from the store only on the change to authenticated |
| Admin.AdminPanel.HandleTopTenChange | src/components/AdminPanel.js:42-46 | exactly one slot is replaced and the rest of the panel is untouched |
| Admin.AdminPanel.Validate | src/components/AdminPanel.js:60-77 | the stored errors are the validation map of the current fields, and success means the map is empty |
| Admin.AdminPanel.HandleClose | src/components/AdminPanel.js:118-129 | closing resets the form, drops authentication and keeps the loaded submissions |
| Admin.AdminPanel.HandleSave | src/components/AdminPanel.js:79-98 | a prompt is handed on exactly when the form validates; it is the prompt built from the fields, and the panel then closes; otherwise only the error map changes, and every other field keeps its value |
| Admin.AdminPanel.HandleUseSubmission | src/components/AdminPanel.js:107-116 | the form takes the submission's question, its ranked answers and pool when present (the pool one per line), and switches to the add tab |
| Admin.AdminPanel.HandleDeleteSubmission | src/components/AdminPanel.js:100-105 | after a confirmed delete the store has lost that id and the panel shows the store's new list; an unconfirmed one changes neither the store nor the panel; the form, password and error fields are never touched |
| Admin.AdminPanel.HandleClearData | src/components/AdminPanel.js:191-193 | a confirmed clear empties both keys; an unconfirmed one changes nothing |
| AdminProperties.SplitChars | src/components/AdminPanel.js:55 | every piece is made of characters of the input |
| AdminProperties.SplitNoSeparator | src/components/AdminPanel.js:55 | text without a separator is a single piece |
| AdminProperties.SplitAtSeparator | src/components/AdminPanel.js:55 | a separator cuts the text into the pieces before it and the pieces after it |
| AdminProperties.TokensAtSeparator | src/components/AdminPanel.js:54-57 | the answers of text joined at a separator are the answers of each side, in order |
| AdminProperties.TokensClean | src/components/AdminPanel.js:54-57 | every parsed answer is non-empty, trimmed and free of separators |
| AdminProperties.ParseIsTokens | src/components/AdminPanel.js:52-58 | the early return for blank text agrees with the general path, since blank text has no answers |
| AdminProperties.TokensOfLines | src/components/AdminPanel.js:54-57 | clean answers written one per line parse back to the same list |
| AdminProperties.ParseJoinRoundTrip | src/components/AdminPanel.js:52-58 | the pool text that using a submission writes parses back to that submission's clean pool |
| AdminProperties.ParseIdempotent | src/components/AdminPanel.js:52-58 | parsing the parsed pool, written one per line, gives the same pool |
| AdminProperties.ValidIff | src/components/AdminPanel.js:60-77 | the form validates exactly when the question and every ranked slot are non-blank and a date is set |
| AdminProperties.SavedPromptFacts | src/components/AdminPanel.js:79-94 | a prompt saved from a valid ten-slot form is well formed, keeps the id and date, has the trimmed slots as its ranked answers, and has the parsed pool, or the ranked answers when that is empty |
| AdminProperties.SavedPoolClean | src/components/AdminPanel.js:84-92 | every answer in a saved pool is non-empty and trimmed |
| AdminProperties.PoolMayOmitRanked | src/components/AdminPanel.js:90-92 | a non-empty pool text replaces the ranked answers, so a saved pool can miss a ranked answer |
| AdminProperties.SavedPromptPool | src/components/AdminPanel.js:84-92 | the pool the game will offer for a saved prompt is the parsed pool text when that is non-empty, and otherwise holds every trimmed ranked answer; it is non-empty whenever there are ranked slots |
| Autocomplete.Matches | src/components/AutocompleteInput.js:27-34 | defines the unlimited filter; `MatchesIff` and `MatchesConcat` state which entries it keeps and in what order |
| Autocomplete.Suggestions | src/components/AutocompleteInput.js:20-36 | at most ten suggestions, and none for blank input |
| Autocomplete.Highlight | src/components/AutocompleteInput.js:79-88 | defines how the arrow keys move the highlight; `HighlightInRange`, `DownPresses`, `UpPresses` and `UpUndoesDown` state its properties |
| Autocomplete.AutocompleteInput.constructor | src/components/AutocompleteInput.js:12-14 | the box starts empty with no suggestions, a closed dropdown and no highlight |
| Autocomplete.AutocompleteInput.Refilter | src/components/AutocompleteInput.js:20-39 | the shown list becomes the suggestions for the current props; for blank input the dropdown closes, otherwise it opens iff anything matches and the highlight resets |
| Autocomplete.AutocompleteInput.Render | src/components/AutocompleteInput.js:20-39 | a render with new props reruns the filter, so the shown list always matches the props |
| Autocomplete.AutocompleteInput.HandleChange | src/components/AutocompleteInput.js:42-45 | the new text is taken; a changed text reruns the filter, and an unchanged one just opens the dropdown |
| Autocomplete.AutocompleteInput.HandleFocus | src/components/AutocompleteInput.js:48-52 | focus opens the dropdown exactly when there are suggestions, and otherwise leaves it as it was |
| Autocomplete.AutocompleteInput.HandleBlur | src/components/AutocompleteInput.js:55-59 | blur closes the dropdown and nothing else changes |
| Autocomplete.AutocompleteInput.HandleSelect | src/components/AutocompleteInput.js:62-66 | the chosen answer fills the box; a changed non-blank text reruns the filter, so the dropdown reopens exactly when it has matches and the highlight resets |
| Autocomplete.AutocompleteInput.HandleMouseEnter | src/components/AutocompleteInput.js:131 | hovering a row highlights it |
| Autocomplete.AutocompleteInput.HandleKeyDown | src/components/AutocompleteInput.js:69-104 | with no open suggestions only Enter acts, submitting the text; otherwise the arrows move the highlight within the rows, Enter picks the highlighted row, with the same outcome as selecting it, or submits the text with the dropdown as it was, Escape closes and resets the highlight, and other keys do nothing |
| SuggestionProperties.MatchesIff | src/components/AutocompleteInput.js:28-34 | an entry matches exactly when it is in the pool, contains the input after normalization, and is not guessed |
| SuggestionProperties.MatchesConcat | src/components/AutocompleteInput.js:28-34 | the filter keeps pool order |
| SuggestionProperties.SuggestionsSound | src/components/AutocompleteInput.js:20-36 | every suggestion is a pool entry that contains the typed text and has not been guessed, and the typed text is not blank |
| SuggestionProperties.SuggestionsCompleteWhenFew | src/components/AutocompleteInput.js:36 | with at most ten matches, every match is suggested |
| SuggestionProperties.SuggestionsArePrefix | src/components/AutocompleteInput.js:36 | the suggestions are the first min(matches, 10) matches, in pool order |
| SuggestionProperties.GuessedNeverSuggested | src/components/AutocompleteInput.js:30-33 | a guessed answer is never suggested |
| SuggestionProperties.ChosenAnswerMatchesItself | src/components/AutocompleteInput.js:37 | an unguessed pool answer matches itself, so after it is selected the filter reopens the dropdown |
| SuggestionProperties.GuessedIsRevealed | src/components/TriviaGame.js:246 | against the values of the revealed map, the guess box's "guessed" test is exactly the game's repeat check |
| SuggestionProperties.SuggestionNotRepeat | src/components/TriviaGame.js:241-246 | submitting a suggestion is never rejected as a repeat |
| SuggestionProperties.ClickNotRepeat | src/components/AnswerListModal.js:51 | a row the answer browser lets the player click is never rejected as a repeat |
| SuggestionProperties.SessionSuggestionNotRepeat | src/components/TriviaGame.js:241-246 | a suggestion the guess box offers from the session's pool is an answer of that pool and is never rejected as a repeat by the session |
| SuggestionProperties.SessionClickNotRepeat | src/components/TriviaGame.js:315-319 | a row the answer browser lists from the session's pool and lets the player click is an answer of that pool and is never rejected as a repeat by the session |
| SuggestionProperties.HighlightInRange | src/components/AutocompleteInput.js:79-88 | an arrow key keeps the highlight on no row or on a shown row |
| SuggestionProperties.DownPresses | src/components/AutocompleteInput.js:79-84 | k presses of down move k rows, stopping at the last |
| SuggestionProperties.UpPresses | src/components/AutocompleteInput.js:85-88 | k presses of up move k rows, stopping at no row |
| SuggestionProperties.UpUndoesDown | src/components/AutocompleteInput.js:79-88 | below the last row, up undoes down |
| SuggestionProperties.ListedIff | src/components/AnswerListModal.js:18-20 | an answer is listed exactly when it is in the pool and contains the search after normalization |
| SuggestionProperties.BlankSearchListsAll | src/components/AnswerListModal.js:18-20 | a blank search lists the whole pool, in order |
| SuggestionProperties.ListedConcat | src/components/AnswerListModal.js:18-20 | the browser's filter keeps the pool's order |
| SuggestionProperties.MatchesAreUnguessedListed | src/components/AutocompleteInput.js:28-34 | the guess box offers exactly the unguessed answers that the browser lists for the same text |
| AnswerList.Click | src/components/AnswerListModal.js:46-52 | a click passes the answer on exactly when it is not guessed |
| AnswerList.Listed | src/components/AnswerListModal.js:18-20 | defines the browser's filter; `ListedIff`, `ListedConcat` and `BlankSearchListsAll` state which answers it keeps and in what order |
| AnswerList.AnswerListModal.Shown | src/components/AnswerListModal.js:18-20 | the rows the browser shows, the `Listed` answers for its current search |
| AnswerList.AnswerListModal.constructor | src/components/AnswerListModal.js:5 | the search box starts empty |
| AnswerList.AnswerListModal.HandleSearchChange | src/components/AnswerListModal.js:35 | typing sets the search term |
| QuestionSubmission.SubmissionErrors | src/components/QuestionSubmission.js:9-18 | the error map has the question entry exactly when the question is blank, and no other key |
| QuestionSubmission.NewSubmission | src/components/QuestionSubmission.js:25-30 | defines the record a proposal sends; `NewSubmissionClean` states its properties |
| QuestionSubmission.NewSubmissionClean | src/components/QuestionSubmission.js:25-30 | a sent submission has the given id and time stamp, a non-empty trimmed question, status pending, and no answers or pool |
| QuestionSubmission.SubmissionForm.constructor | src/components/QuestionSubmission.js:5-7 | the form starts empty, with no errors and not submitted |
| QuestionSubmission.SubmissionForm.HandleQuestionChange | src/components/QuestionSubmission.js:78 | typing sets the question |
| QuestionSubmission.SubmissionForm.Validate | src/components/QuestionSubmission.js:9-18 | the stored errors are the map for the current question, and success means the question is not blank |
| QuestionSubmission.SubmissionForm.HandleSubmit | src/components/QuestionSubmission.js:20-39 | a submission is handed on exactly when the question is not blank; it is the pending record of the trimmed question, and the form then shows its thank-you view |
| QuestionSubmission.SubmissionForm.HandleClose | src/components/QuestionSubmission.js:41-46 | closing resets the question, the errors and the thank-you flag |
| App.AdminSaveToday | src/components/TriviaGame.js:105-112 | once a prompt is saved over a well-shaped store, it is the prompt chosen for its own date, so the reload after saving today's prompt loads it |
| App.Screen.constructor | src/components/TriviaGame.js:10-19 | the screen holds the session and the store, with the answer browser closed |
| App.Screen.HandleFormSubmit | src/components/TriviaGame.js:93-96 | submitting the form submits the guess box's text: the outcome and the new session are those of the pure transition for that text |
| App.Screen.HandleAnswerSelect | src/components/TriviaGame.js:99-102 | a pick from the answer browser is submitted as a guess, and the browser closes |
| App.Screen.HandleAdminSave | src/components/TriviaGame.js:105-112 | the panel's prompt is saved, a reload is asked for exactly when it is dated today, and after a successful write the reloaded game loads that prompt |
| App.Screen.HandleQuestionSubmission | src/components/TriviaGame.js:115-117 | the form's proposal is saved, and over a well-shaped, writable store it is read back at the end of the list |

## Left out

- Rendering: JSX markup, CSS classes, the hearts, the progress bar and the overlays are not modelled. The answer slots are modelled as `Game.SlotView`.
- The clipboard (`handleShare`, TriviaGame.js:148-169) is an I/O call and is not modelled. Only the text it copies is modelled (`GenerateShareText`).
- `alert`, `window.confirm` and `window.location.reload` are not modelled. A confirmation dialog's answer is a `confirmed` parameter, and the alert shown on a repeated guess is not modelled.
- Timers: the guess box's 200 ms blur delay is not modelled, and `HandleBlur` closes the dropdown at once. The proposal form's two-second auto-close is `HandleClose`, called by whoever models the timer firing.
- The clock: `Date.now()` ids, today's date and the `submittedAt` time stamp are parameters.
- Storage encoding: `localStorage` with JSON is a map from keys to `Entry` values, each either a prompt document or a list of submissions. A value that does not parse is an absent key. Stored JSON of any other shape, such as `null`, a number or a string, is not modelled. A failing `setItem` is the `writable = false` parameter, under which the write methods return false and write nothing.
- Storage.Store.SavePrompt: a stored list in place of the prompt document (`Storage.PromptsMisshapen`) is modelled as the thrown exception: it returns false and writes nothing. A document whose `prompts` field is missing is not modelled, since the entry always holds a list.
- Storage.Submissions: a prompt document stored under the submissions key reads as no submissions. The source's `getSubmissions` returns that object as is, which only the admin panel's list rendering would see.
- Storage.Store.ClearAllData: does not model a failing `removeItem`. It always returns true.
- The date sort compares ISO `YYYY-MM-DD` strings in character order, standing in for subtracting `Date` objects. The two agree for well-formed dates. Invalid dates (NaN comparisons) are not modelled.
- Strings.Lower: lower-cases ASCII letters only. JavaScript's full Unicode case mapping is not modelled. `trim` removes JavaScript's WhiteSpace and LineTerminator characters, which `Strings.IsSpace` lists.
- App.Screen: the wiring of TriviaGame.js is modelled as the `Screen` class. `window.location.reload` is the `reload` result of `HandleAdminSave`, and the prompt load that follows it is stated through `TodaysPrompt`. The other modal flags and the prop passing into the child components are not modelled.
- Plain field setters are not modelled as separate methods: `setQuestion`, `setDate`, `handleAllAnswersChange`, `setActiveTab` and the modal show/hide flags. They assign one field and nothing else.
- React scheduling: updates are applied in order and effects run right after the handler that triggers them. Batching and stale closures are not modelled.
- Admin.AdminPanel.HandleSave: the prompt id, `Date.now()`, is a parameter. The call to `onSave` is the returned prompt, and the panel's `onClose` callback is not modelled.
- Autocomplete.Suggestions: the ensures states only the bound and the blank case. What the suggestions are is stated by `SuggestionProperties.SuggestionsSound`, `SuggestionsArePrefix` and `SuggestionsCompleteWhenFew`.
- The admin password is a constant in the source and in the model. Whether that is secure is not modelled.
- `disabled` on the guess box is not modelled. The game hides the box once the game is over.
