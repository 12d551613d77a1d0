# Duelo Metabólico — the decision logic of the game screens

Duelo Metabólico is a quiz game about metabolism, played alone (`individual`)
or by two players passing one device (`dupla`). This project models what
three of its screens decide, lifted out of React:

- **Configuration** (`ModeSelection.dfy`). The mode, type, category and player-name
  selections are staged. Choosing a mode clears the type and category; choosing a type
  clears the category. Pressing "start" runs a guard chain. It either shows an alert
  for the first failing check, or it sends `SET_PLAYERS` to the engine and then moves
  to the game.
- **The game turn** (`GameScreen.dfy`). Each handler is turned into the ordered list of
  engine commands it dispatches:
  - the start effect;
  - a submission, where a blank answer is refused and otherwise the trimmed answer is sent;
  - a hint request, sent only below level 3;
  - "next card", which in pair mode passes the turn before advancing.

  The module also covers which controls the screen shows for a snapshot. The `Screen`
  class keeps the typed answer and the log of dispatched commands.
- **Results** (`Results.dfy`). This builds the per-player statistics (score, correct
  count, total, accuracy) from the session history and picks the winner with the same
  `reduce` as the source, including its tie-break.
- `Text.dfy` models `String.prototype.trim`, which every typed value goes through.
  `Config.dfy` holds the mode and type choices. `Options.dfy` holds the absent value
  (`null`/`undefined`).

The game engine (reducer, selectors) and the card database are not part of this model.
They enter as values:
- the engine's snapshot is a datatype;
- the selector results are `SelectorValues`;
- the answer normaliser `validateAnswer` is a function parameter.

## Model

| member | source | states |
|---|---|---|
| `Text.TrimStart` | src/screens/GameScreen.js:94 | the result is a suffix of the input that is empty or starts with a non-whitespace character, and everything dropped is whitespace |
| `Text.TrimEnd` | src/screens/GameScreen.js:94 | the result is a prefix of the input that is empty or ends with a non-whitespace character, and everything dropped is whitespace |
| `Text.Trim` | src/screens/GameScreen.js:94 | `trim()` never lengthens a string, and a non-empty result neither starts nor ends with whitespace |
| `Text.TrimEmptyIffBlank` | src/screens/GameScreen.js:84 | `!s.trim()` holds exactly when every character of `s` is whitespace |
| `Text.TrimIsInfix` | src/screens/ModeSelectionScreen.js:60-70 | the trimmed string is an infix `s[i..j]` of the input, and everything outside it is whitespace |
| `Text.TrimIdempotent` | src/screens/ModeSelectionScreen.js:68-71 | trimming a trimmed name changes nothing |
| `Results.OrZero` | src/screens/ResultsScreen.js:29-32 | `x \|\| 0` on a selector's number: a present value passes through, a missing one becomes 0 |
| `Results.Accuracy` | src/screens/ResultsScreen.js:44 | 0 when there are no cards. Otherwise the result `a` satisfies `2t·a ≤ 200c + t < 2t·(a + 1)`, i.e. it is `Math.round(100c/t)` with halves rounding up, and it lies in 0..100 whenever `0 ≤ c ≤ t` |
| `Results.ScoreOf` | src/screens/ResultsScreen.js:48 | the player's entry in `scores` when both exist, 0 otherwise |
| `Results.StatsOf` | src/screens/ResultsScreen.js:41-51 | the entry is named after the player and has the player's score. Its total and correct count are those of the player's records, with `0 ≤ correct ≤ total ≤ \|history\|`, and its accuracy is `Accuracy(correct, total)`, the rounded percentage, which lies in 0..100 |
| `Results.GetPlayerStats` | src/screens/ResultsScreen.js:25-54 | individual mode gives one entry. Otherwise there is one entry per player of `players` (none when it is missing), named after that player in the same order, with `0 ≤ correct ≤ total` and accuracy in 0..100 |
| `Results.Reduce` | src/screens/ResultsScreen.js:57-59 | the callback `prev.score > current.score ? prev : current` folded over the rest of the list ends on an entry scoring at least as much as the starting entry and as every entry of the rest |
| `Results.PlayerHistory` | src/screens/ResultsScreen.js:41 | the filtered history is no longer than the history, and each record in it is from the history and belongs to the player |
| `Results.CountCorrect` | src/screens/ResultsScreen.js:42 | the correct count never exceeds the number of records counted |
| `Results.StatsForAll` | src/screens/ResultsScreen.js:40-53 | `players.map` gives one entry per player, in order, each the statistics of that player |
| `Results.Winner` | src/screens/ResultsScreen.js:57-59 | the winner is `null` exactly when there are no entries |
| `Results.IndividualStats` | src/screens/ResultsScreen.js:26-33 | individual mode gives exactly one entry. It is named after the current player, or `'Jogador'` when there is none or it is empty. A present score, correct count, total or accuracy is passed through unchanged, and a missing one becomes 0 |
| `Results.NoPlayersNoStats` | src/screens/ResultsScreen.js:36-38 | outside individual mode the list is empty exactly when `players` is missing, not an array, or empty |
| `Results.PairStats` | src/screens/ResultsScreen.js:40-53 | outside individual mode there is one entry per player, in player order. Each entry has the player's name and the player's score (0 when missing). Its total and correct count come from that player's records only, and its accuracy is `Accuracy` of those two counts |
| `Results.PlayerHistoryAppend` | src/screens/ResultsScreen.js:41 | filtering a history extended by one record adds that record exactly when it belongs to the player |
| `Results.CountCorrectAppend` | src/screens/ResultsScreen.js:42 | the correct count of a concatenation is the sum of the parts' counts |
| `Results.StatsAfterRecord` | src/screens/ResultsScreen.js:41-48 | one more history record changes only its own player's total (by one) and correct count (by one when it is correct), and leaves every score alone |
| `Results.AccuracyBounds` | src/screens/ResultsScreen.js:44 | accuracy is the nearest integer to 100·correct/total, with halves rounding up. It is 0 when there are no cards or no correct answers, and 100 when all are correct. It always lies in 0..100 |
| `Results.PairStatsBounded` | src/screens/ResultsScreen.js:41-44 | every pair-mode entry has 0 ≤ correct ≤ total ≤ number of history records, and accuracy in 0..100 |
| `Results.ReduceFindsLastMaximum` | src/screens/ResultsScreen.js:57-59 | when the entry kept so far is the last maximum of what has been seen, the rest of the `reduce` ends on the last maximum of the whole list |
| `Results.WinnerIsLastMaximum` | src/screens/ResultsScreen.js:57-59 | the winner of a non-empty list is the entry at a position whose score is at least every score, and every later entry scores strictly less, so the later entry wins a tie |
| `Results.WinnerHasMaximumScore` | src/screens/ResultsScreen.js:57-59 | a winner is one of the entries, and no entry scores more |
| `ModeSelection.AlertMessage` | src/screens/ModeSelectionScreen.js:50-66 | every refusal shows a non-empty message |
| `ModeSelection.AlertMessagesDiffer` | src/screens/ModeSelectionScreen.js:50-66 | the four refusals show four different messages, so the alert tells which check failed |
| `ModeSelection.ValidateStart` | src/screens/ModeSelectionScreen.js:47-78 | an accepted configuration has a mode and a type, and two players for a pair and one otherwise. The full characterisation is in the lemmas below |
| `ModeSelection.StartEffects` | src/screens/ModeSelectionScreen.js:47-81 | the game screen is reached and `SET_PLAYERS` is sent exactly when the start is accepted, in the order `SET_PLAYERS` then navigation. A refusal shows exactly one alert, with the fixed title and the message of the first failing check, and does nothing else |
| `ModeSelection.AcceptedIffStartable` | src/screens/ModeSelectionScreen.js:49-78 | a start is accepted exactly when mode and type are chosen, a focused game has a category, and a pair has two non-blank names that differ after trimming. The comparison is exact, so it is case-sensitive |
| `ModeSelection.RejectReasonIsFirstFailure` | src/screens/ModeSelectionScreen.js:49-67 | each refusal reason holds exactly when its check is the first to fail, in the order mode/type, category, blank names, equal names. Names are equal only when their trimmed forms match exactly, case included |
| `ModeSelection.AcceptedPlayers` | src/screens/ModeSelectionScreen.js:68-77 | an accepted individual game has exactly `['Jogador']`. An accepted pair has the two trimmed names in order, and these are non-empty, different, already trimmed and no longer than typed |
| `ModeSelection.NamesCompareCaseSensitively` | src/screens/ModeSelectionScreen.js:64-71 | `" Ana"` and `"ana "` are accepted as the two players `"Ana"` and `"ana"`: an illustration that the comparison is exact and case-sensitive |
| `ModeSelection.AcceptedNamesFit` | src/screens/ModeSelectionScreen.js:202 | names typed into the 20-character fields give accepted player names of at most 20 characters |
| `ModeSelection.ConfigScreen.constructor` | src/screens/ModeSelectionScreen.js:21-25 | nothing is selected, both names are empty, and nothing has been done yet |
| `ModeSelection.ConfigScreen.SelectMode` | src/screens/ModeSelectionScreen.js:29-34 | the mode is set, the type and category are cleared, the names are kept, and `SET_GAME_MODE` is dispatched |
| `ModeSelection.ConfigScreen.SelectType` | src/screens/ModeSelectionScreen.js:36-40 | the type is set, the category is cleared, the mode and names are kept, and `SET_GAME_TYPE` is dispatched |
| `ModeSelection.ConfigScreen.SelectCategory` | src/screens/ModeSelectionScreen.js:42-45 | only the category changes, and `SET_SELECTED_CATEGORY` is dispatched |
| `ModeSelection.ConfigScreen.SetPlayer1Name` | src/screens/ModeSelectionScreen.js:201-202 | only the first name changes. Names stay within 20 characters |
| `ModeSelection.ConfigScreen.SetPlayer2Name` | src/screens/ModeSelectionScreen.js:212-213 | only the second name changes. Names stay within 20 characters |
| `ModeSelection.ConfigScreen.StartGame` | src/screens/ModeSelectionScreen.js:47-81 | the selections are untouched, the decision is that of the guard chain, and its effects are appended to the log. Every accepted player name fits the 20-character field limit |
| `GameScreen.StartGameDispatch` | src/screens/GameScreen.js:34-41 | `START_GAME` is sent exactly when the game has not started and both mode and type are set, and nothing is sent otherwise |
| `GameScreen.SubmitDispatch` | src/screens/GameScreen.js:83-101 | nothing is sent exactly when the answer is whitespace only. Otherwise exactly one `SUBMIT_ANSWER` is sent: it carries the trimmed (non-empty, already trimmed) answer, and its `isCorrect` is `validateAnswer` applied to the answer as typed and the card's answer |
| `GameScreen.HintDispatch` | src/screens/GameScreen.js:103-107 | `REQUEST_HINT` is sent exactly when the hint level is below 3, and nothing is sent otherwise |
| `GameScreen.NextCardDispatch` | src/screens/GameScreen.js:109-117 | the last command is always `NEXT_CARD`. `NEXT_PLAYER` is sent, first, exactly in pair mode |
| `GameScreen.ControlsFor` | src/screens/GameScreen.js:248-310 | the answer controls show exactly when no explanation is shown. The hint button shows exactly below level 3, and "guess" is enabled exactly for a non-blank answer. The next button reads `'Ver Resultados'` exactly when `index + 1 >= cards.length`, and `'Próxima Carta'` otherwise. Without an active game and a card only the loading notice shows (line 137) |
| `GameScreen.ControlsAgreeWithHandlers` | src/screens/GameScreen.js:283-291 | the "guess" button is enabled exactly when pressing it sends a submission. The hint button is shown exactly when pressing it sends a hint request |
| `GameScreen.PairTurnsAlternate` | src/screens/GameScreen.js:109-117 | over any number of "next card" presses in pair mode, the log alternates `NEXT_PLAYER`, `NEXT_CARD`, one pair per card |
| `GameScreen.SoloNeverPassesTurn` | src/screens/GameScreen.js:109-117 | outside pair mode every press sends `NEXT_CARD` alone, so the turn never passes |
| `GameScreen.Screen.constructor` | src/screens/GameScreen.js:23 | the answer field starts empty, and nothing has been dispatched |
| `GameScreen.Screen.RunStartEffect` | src/screens/GameScreen.js:34-41 | appends the start effect's dispatches to the log |
| `GameScreen.Screen.TypeAnswer` | src/screens/GameScreen.js:259 | typing replaces the answer and dispatches nothing |
| `GameScreen.Screen.Submit` | src/screens/GameScreen.js:83-101 | appends the submission's dispatches. A blank answer leaves the field as it was; a submitted one clears it to `''` |
| `GameScreen.Screen.AskHint` | src/screens/GameScreen.js:103-107 | appends the hint handler's dispatches and keeps the typed answer |
| `GameScreen.Screen.Next` | src/screens/GameScreen.js:109-117 | appends `NEXT_PLAYER` (pair mode only) and then `NEXT_CARD`, and clears the answer |
| `GameScreen.Screen.ConfirmExit` | src/screens/GameScreen.js:119-135 | confirming the exit dialog dispatches `RESET_GAME` |

## Left out

- The configuration screen renders `<TextInput>` for the two name fields (`src/screens/ModeSelectionScreen.js`, lines 197 and 208), but its import list (lines 2-10) does not import `TextInput`. As written, choosing pair mode would throw a ReferenceError while rendering, so the name fields would never appear and the pair branch of the start check could not be reached. The model assumes the import is present: `SetPlayer1Name`, `SetPlayer2Name`, `AcceptedNamesFit` and the pair cases of `ValidateStart` describe the screen as evidently intended.

- The engine's reducer and selectors (`src/context/GameContext`) are not part of this model. Scoring, hint progression, attempts and turn rotation live there. The screens' view of the engine is the `EngineState` and `Snapshot` values and the `SelectorValues` record.
- The card database and `validateAnswer` (`src/data/cardsDatabase.js`) are not part of this model. `validateAnswer` is an uninterpreted function parameter. `getCategories` only feeds the category chips, so categories are any string.
- The `START_GAME` payload (the whole card database) is not modelled; the command is just `StartGame`.
- `Math.round` on floating point is modelled as integer half-up rounding `(200·correct + total) / (2·total)`. Corner cases where the float quotient misses an exact half are not captured.
- JavaScript numbers are modelled as unbounded integers. `NaN` scores and non-integer selector results are not represented. A falsy selector result is `None`.
- A `players` value that is truthy but not an array is folded into the missing case. It yields no entries, as in the source.
- Modes and types other than the two offered by the buttons cannot be represented. The source's fall-through, which navigates without `SET_PLAYERS` for an unknown mode, is therefore not modelled.
- History records carry only `player` and `isCorrect`. The question, answer, hints used and points are only displayed.
- Alerts are logged only on the configuration screen. On the game screen a blank submission just does nothing; the alert is not logged there.
- Keyboard listeners and scrolling are left out. So are the 3-second timer that dispatches `CLEAR_FEEDBACK`, the navigation to results when `gameFinished` becomes true, the navigations of the results screen's "play again" and "home" buttons (each preceded by `RESET_GAME`), the exit dialog's `navigation.navigate('Home')` after `RESET_GAME` (`ConfirmExit` models only the dispatch) and its "Cancelar" choice, which does nothing and so has no member, and all layout and styling.
- The hint handler checks only the hint level. That the explanation is not shown is guaranteed only by the button being hidden, and `ControlsFor` models that.
