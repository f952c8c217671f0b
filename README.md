# MatchWin game state, modelled in Dafny

MatchWin is a memory-matching card game played over ten levels. At level `L`
the player gets a deck of about `4L` face-down cards, `2L + 1` moves and `10L`
seconds. A move reveals a card. Revealing the same face twice in a row wins
the level. Passed levels and the score are saved between sessions.

This project models the part of the game that turns player actions into new
game states:

- the reducer in `context/GameState.tsx`, as a function from a state, an
  action and its environment to the next state plus the timer calls
  (`start`, `pause`, `restart`) it makes, in order (module
  `GameStateReducer`);
- the helpers of `utils/game-state-helpers.ts`: deck generation, the level
  constraints, the score, the fresh round and the timer restart (module
  `GameStateHelpers`, with the shared dealing pipeline in module `Decks`);
- the older helpers of `utils/generate-cards.ts` (module `LegacyCards`);
- the time helpers of `utils/timer.ts` (module `TimerUtils`), with the clock
  reading passed in as `now`.

Lodash's `shuffle` is modelled as an arbitrary permutation chosen by a
sequence of draws: every draw sequence gives a permutation, and every
permutation comes from some draws. Lodash's `uniqueId` is modelled as a
counter that is incremented before each use (module `Randomness`). The image
catalog is a parameter. A reducer step reads an `Env`, which holds:

- the catalog;
- the `initialState` built when the module loaded;
- the randomness for a new deck;
- the clock in milliseconds.

Files:

| file | module |
|---|---|
| `randomness.dfy` | `Randomness` |
| `game_types.dfy` | `GameTypes` |
| `decks.dfy` | `Decks` |
| `game_state_helpers.dfy` | `GameStateHelpers` |
| `generate_cards.dfy` | `LegacyCards` |
| `timer.dfy` | `TimerUtils` |
| `game_state.dfy` | `GameStateReducer` |

Where the code and the game's own description differ, the model follows the
code:

- A non-matching second reveal throws the round away at once. The moves left
  are never consulted for a loss, although the comment above that step says
  they are.
- `getStateForLevel` keeps `lastOpenedCard`. After a reset, the first reveal
  of that stale face wins the new round (`StaleFaceWinsWithOneReveal`).
- `SET_CURRENT_LEVEL` does no unlock check. Only the level picker does.
- A deck does not always have `4L` cards. DIFFICULT at level 1 deals five
  cards.
- Faces are not always paired. EASY duplicates only `L` of its `3L` faces.
  The older DIFFICULT level-1 deck pairs no face at all.

## Model

| member | source | states |
|---|---|---|
| Randomness.Shuffle | utils/game-state-helpers.ts:30-40 | a shuffle keeps the length of its input |
| Randomness.ShufflePermutes | utils/game-state-helpers.ts:30-40 | a shuffle is a rearrangement: the multiset of elements is unchanged |
| Randomness.ShuffleReaches | utils/game-state-helpers.ts:30-40 | every rearrangement of the input is the outcome of some draws, so the order is left fully open |
| Randomness.ShuffleKeepsDistinct | utils/game-state-helpers.ts:36-40 | shuffling a sequence without repetitions yields one without repetitions |
| Randomness.ShuffleMap | utils/game-state-helpers.ts:36-40 | shuffling commutes with an element-wise map, so faces and ids can be followed through the shuffle |
| Randomness.FreshIds | utils/game-state-helpers.ts:39 | `n` calls of `uniqueId` give `n` pairwise distinct ids above the counter, at most `counter + n` |
| Randomness.ShuffledFreshIds | utils/game-state-helpers.ts:36-40 | fresh ids stay pairwise distinct and in range after the final shuffle |
| Decks.Label | utils/game-state-helpers.ts:39 | labelling keeps every face and gives the cards the ids `counter+1 .. counter+n` in order |
| Decks.SplicePrefix | utils/game-state-helpers.ts:30-33 | `splice(0, count)` removes the leading `min(count, length)` elements, a prefix of the array |
| Decks.Duplicates | utils/game-state-helpers.ts:30-33 | the duplicate pool has `min(count, #unique)` faces and is a sub-multiset of the unique faces |
| Decks.DealCards | utils/game-state-helpers.ts:30-40 | the deal of `#unique` faces plus `count` requested duplicates has `#unique + min(count, #unique)` cards, and the id counter advances by that many |
| Decks.DealCardsSpec | utils/game-state-helpers.ts:26-41 | a deal has `#unique + min(count, #unique)` cards; it shows every unique face, none more than twice; its ids are fresh, in range and pairwise distinct; the counter advances by the deck size |
| Decks.DealFaces | utils/game-state-helpers.ts:36-40 | the faces of a deal are exactly the unique faces plus the duplicate pool, as a multiset |
| Decks.DealIds | utils/game-state-helpers.ts:39-40 | the ids of a deal are fresh, in range and pairwise distinct |
| Decks.DealUniqueIds | utils/game-state-helpers.ts:39-40 | the ids of a deal are the fresh ids in the order the final shuffle picks |
| Decks.DealCardsFaceCounts | utils/game-state-helpers.ts:36-40 | with a catalog prefix that holds no face twice, each of its faces appears once or twice in the deal, and no other face appears |
| GameStateHelpers.NumberOfCardsForLevel | utils/game-state-helpers.ts:45-47 | a level-L deck asks for a multiple of four cards, four per level |
| GameStateHelpers.GetConstraints | utils/game-state-helpers.ts:69-74 | a level allows ten seconds per level and an odd number of moves, two per level plus one |
| GameStateHelpers.ConstraintsGrow | utils/game-state-helpers.ts:69-74 | every level allows an odd number (at least 3) of moves and a multiple of ten seconds; a higher level allows strictly more of both |
| GameStateHelpers.RoundRatio | utils/game-state-helpers.ts:58-64 | `Math.round(n * p / q)` is the integer nearest the exact ratio, halves rounded up |
| GameStateHelpers.UniqueCardsForDifficultyAndLevel | utils/game-state-helpers.ts:50-66 | the unique faces are the catalog prefix of length `min(#catalog, round(total * share))` |
| GameStateHelpers.DuplicateCount | utils/game-state-helpers.ts:26-27 | the requested duplicate count is exactly the shortfall when the unique faces fall short of the deck, and exactly 1 otherwise |
| GameStateHelpers.GenerateCards | utils/game-state-helpers.ts:12-42 | length `#unique + min(count, #unique)`; every unique face present, none more than twice; fresh, in-range, pairwise distinct ids |
| GameStateHelpers.EasyUniqueCount | utils/game-state-helpers.ts:56-58 | on EASY, a level-L deck asks for exactly `3L` unique faces |
| GameStateHelpers.EasyDeckSize | utils/game-state-helpers.ts:12-42 | on EASY, with at least `3L` catalog faces, a level-L deck has `4L` cards |
| GameStateHelpers.DifficultFirstLevelDealsFive | utils/game-state-helpers.ts:26-33 | the "at least one duplicate" guard makes the DIFFICULT level-1 deck five cards long |
| GameStateHelpers.NoRoundingTie | utils/game-state-helpers.ts:58-64 | `4L * share` is never exactly halfway between two integers, so the rounding direction at a half never decides the count |
| GameStateHelpers.GeneratedFaceCounts | utils/game-state-helpers.ts:12-42 | with a catalog that holds no face twice, every face of the prefix appears once or twice, and no other face appears |
| GameStateHelpers.RoundHalfUp | utils/game-state-helpers.ts:84-88 | `Math.round` gives the nearest integer, halves rounded up |
| GameStateHelpers.CalculateScore | utils/game-state-helpers.ts:78-90 | `min(10, round(raw))`: the score is 10 exactly when the raw weighted score is at least 9.5, and otherwise the raw score rounded to the nearest integer |
| GameStateHelpers.ScoreNonNegative | utils/game-state-helpers.ts:78-90 | with non-negative inputs and a positive moves limit, the score is in [0, 10] |
| GameStateHelpers.ScoreMonotoneInMovesLeft | utils/game-state-helpers.ts:84-88 | more moves left never score less |
| GameStateHelpers.ScoreMonotoneInPreviousScore | utils/game-state-helpers.ts:84-88 | a higher previous score never gives a lower score |
| GameStateHelpers.ScoreExamples | utils/game-state-helpers.ts:84-89 | rounding comes before the cap: 30/22 rounds to 1, and 40/3 rounds to 13 and is capped to 10 |
| GameStateHelpers.GetStateForLevel | utils/game-state-helpers.ts:92-112 | fresh round: level, limits and full moves budget from the level; reveals and both flags cleared; a new EASY deck; passed levels, score, timer and last opened face kept |
| GameStateHelpers.RestartTimer | utils/game-state-helpers.ts:114-120 | one restart, not auto-started, due `timeLimit` seconds after `now`, issued exactly when a restart callback is given |
| LegacyCards.NumberOfCardsForLevel | utils/generate-cards.ts:22-27 | on the levels 1 to 10, a deck asks for a multiple of four between 4 and 40 cards |
| LegacyCards.GetConstraints | utils/generate-cards.ts:86-91 | on the levels 1 to 10, 10 to 100 seconds and an odd number of 3 to 21 moves |
| LegacyCards.UnEqualCardsForDifficultyAndLevel | utils/generate-cards.ts:71-84 | the unequal faces are a catalog prefix |
| LegacyCards.SpliceCount | utils/generate-cards.ts:52-55 | the splice count is exactly `totalCards - #unequal` when the unequal faces fall short; a non-positive difference removes nothing |
| LegacyCards.GenerateCards | utils/generate-cards.ts:41-65 | length `#unequal + min(max(0, total - #unequal), #unequal)`; faces and fresh ids as in the current generator |
| LegacyCards.CalculateScore | utils/generate-cards.ts:93-112 | `min(10, round(raw))` of the same weighted formula: 10 exactly when the raw score is at least 9.5, otherwise the raw score rounded |
| LegacyCards.HelpersAgreeWithCurrent | utils/generate-cards.ts:67-91 | card count, constraints and unequal faces equal the current helpers' results, when both files read the same image catalog |
| LegacyCards.ScoreAgreesWithCurrent | utils/generate-cards.ts:93-112 | the older score equals the current score for every input; the logged expression has no effect |
| LegacyCards.SameDealWhenShort | utils/generate-cards.ts:52-61 | whenever the unequal faces fall short of the deck size, both generators deal the same deck from the same randomness, when both files read the same image catalog |
| LegacyCards.DifficultFirstLevelHasNoPair | utils/generate-cards.ts:52-61 | without the guard, the DIFFICULT level-1 deck is the four leading faces, each exactly once |
| TimerUtils.Ceil | utils/timer.ts:2 | `Math.ceil` gives the least integer not below its argument |
| TimerUtils.JsRem | utils/timer.ts:4-6 | `%` on integers takes the sign of the dividend |
| TimerUtils.FloorDiv | utils/timer.ts:3-5 | `Math.floor(x / y)` brackets `x` between `q * y` and `(q + 1) * y` |
| TimerUtils.GetTimeFromSeconds | utils/timer.ts:1-14 | for a non-negative rounded-up total: days, hours below 24, minutes and seconds below 60, which recompose the total |
| TimerUtils.Recompose | utils/timer.ts:3-6 | the day, hour, minute and second parts of a non-negative total add back up to it |
| TimerUtils.DivModUnique | utils/timer.ts:4-6 | quotient and remainder by 60 or 3600 are the only decomposition with the remainder in range |
| TimerUtils.GetFormattedTimeFromSeconds | utils/timer.ts:46-69 | "12-hour": "pm" exactly from hour 12 on, "am" before, hours modulo 12; any other format: hours unchanged, no marker; seconds and minutes pass through |
| TimerUtils.TwelveHourClock | utils/timer.ts:58-61 | in "12-hour" format a non-negative time reads as 0 to 11 o'clock, and adding 12 for "pm" gives back the hours |
| TimerUtils.SecondsFromDistance | utils/timer.ts:19-21 | a positive distance in seconds, exact or rounded to within half a second |
| TimerUtils.GetSecondsFromExpiry | utils/timer.ts:16-24 | 0 once `expiry` has passed; otherwise the positive distance in seconds, rounded to a whole number within half a second when asked |
| TimerUtils.GetSecondsFromPrevTime | utils/timer.ts:26-37 | 0 unless `prevTime` is in the past; otherwise the elapsed seconds, exact or rounded within half a second |
| TimerUtils.Trunc | utils/timer.ts:72 | `Math.trunc` rounds towards zero |
| TimerUtils.TimeClip | utils/timer.ts:72 | `new Date(t).getTime()` is NaN exactly outside the range of dates, and otherwise `t` truncated towards zero |
| TimerUtils.ValidateExpiryTimestamp | utils/timer.ts:71-80 | valid exactly when the timestamp is at least 1 ms and within the range of dates |
| GameStateReducer.InitialState | context/GameState.tsx:203-218 | level 1, nothing passed or scored, three moves and ten seconds, a timer of 10 s and 0 min, no reveals, no last face, an EASY level-1 deck |
| GameStateReducer.FindIndex | context/GameState.tsx:67-69 | the first index holding the id, or -1 exactly when no card holds it |
| GameStateReducer.RevealCard | context/GameState.tsx:71-78 | same length and ids; the first card with the id is revealed and every other card is unchanged; with no match the deck is unchanged |
| GameStateReducer.RevealOnlyTheChosenCard | context/GameState.tsx:67-78 | with pairwise distinct ids, exactly the card carrying the id is revealed |
| GameStateReducer.NextLevel | context/GameState.tsx:39-41 | the next level is `min(level + 1, 10)` |
| GameStateReducer.Wins | context/GameState.tsx:90-92 | a winning move reopens the last opened face, which is not empty, in a round not yet won |
| GameStateReducer.EndsRound | context/GameState.tsx:96-97 | with no face opened before, the result is the state's own `isGameOver`; a move never both wins and ends the round; once a face was opened, a different face always ends it |
| GameStateReducer.StartCall | context/GameState.tsx:84-87 | at most one `start`, issued exactly when the moves budget is full |
| GameStateReducer.MakeAMoveReducer | context/GameState.tsx:62-138 | a move never leaves the game over, keeps the level and timer, changes passed levels or score only when the result is a win, and makes at most two timer calls |
| GameStateReducer.NewRound | context/GameState.tsx:46-57 | the fresh round of `onLevelWin` and `replayLevelReducer` is `getStateForLevel` at that level with the last opened face cleared, plus the restart for the level's time limit |
| GameStateReducer.OnLevelWin | context/GameState.tsx:35-58 | level `min(L+1, 10)` with `2L+1` moves and `10L` seconds, no reveals, both flags cleared, no last face; passed levels and score kept |
| GameStateReducer.ReplayLevelReducer | context/GameState.tsx:141-161 | the same level with a full budget of `2L+1` moves and `10L` seconds, no reveals, both flags cleared, no last face; passed levels and score kept |
| GameStateReducer.GameStateReducer | context/GameState.tsx:163-200 | only SET_GAME_OVER or RESET_GAME can make the game over, unless nothing changes; only a move or RESET_GAME changes passed levels or score; the actions without a round change make no timer calls |
| GameStateReducer.GeneratedIdsDistinct | context/GameState.tsx:49 | a freshly dealt deck never repeats an id |
| GameStateReducer.InitialStateValid | context/GameState.tsx:203-218 | the initial state satisfies the state invariant |
| GameStateReducer.ReducerKeepsValid | context/GameState.tsx:163-200 | every action keeps the invariant: score and passed levels in [0, 10], the level's constraints, moves between 0 and the limit, distinct ids |
| GameStateReducer.MoveThatEndsRound | context/GameState.tsx:97-103 | a move that ends the round yields `getStateForLevel` at the same level: not over, full budget, stale last face kept; then `start` if first, then the restart |
| GameStateReducer.MoveThatContinues | context/GameState.tsx:62-138 | otherwise the card is revealed; moves drop by one but not below 0; the face id joins the revealed ones and becomes the last opened face; passed levels and score change only on a win |
| GameStateReducer.WinIsAMatchWithThePreviousFace | context/GameState.tsx:90-97 | a win is exactly a repeat of the previous face in a round not yet won; once a face was opened, every non-winning move ends the round |
| GameStateReducer.MoveNeverLeavesGameOver | context/GameState.tsx:97-103 | no move leaves the game over |
| GameStateReducer.MoveTimerCalls | context/GameState.tsx:85-110 | `start` exactly on a move with the full budget, and first; `pause` exactly on a win; a restart exactly when the round ends and a restart callback is given |
| GameStateReducer.ScoreUsesMovesBeforeTheMove | context/GameState.tsx:127-133 | a winning move is scored with the moves left before the move |
| GameStateReducer.RevealedCardsKeyedByFace | context/GameState.tsx:116 | reveals are keyed by face id: revealing a recorded face again adds no key |
| GameStateReducer.NextLevelNeedsAWin | context/GameState.tsx:181-182 | MOVE_TO_NEXT_LEVEL without a win changes nothing and calls nothing |
| GameStateReducer.NextLevelIsFreshRound | context/GameState.tsx:35-58 | after a win: a fresh round at `min(L+1, 10)` with `2L+1` moves and `10L` seconds, last face forgotten; passed levels and score kept; restart issued |
| GameStateReducer.ReplayIsFreshRound | context/GameState.tsx:141-161 | REPLAY_LEVEL: the fresh round at the same level, last face forgotten, restart issued |
| GameStateReducer.ReplayTwiceSameShape | context/GameState.tsx:141-161 | two replays give decks of one size under the same constraints, whatever the shuffles |
| GameStateReducer.SetCurrentLevelAcceptsAnyLevel | context/GameState.tsx:169-176 | SET_CURRENT_LEVEL gives `getStateForLevel` at any requested level, with a restart |
| GameStateReducer.SetGameOverOnlyRaisesFlag | context/GameState.tsx:178-179 | SET_GAME_OVER changes only `isGameOver`, to true |
| GameStateReducer.ResetRestoresInitialState | context/GameState.tsx:190-193 | RESET_GAME returns the initial state: level 1, nothing passed, no score, three moves |
| GameStateReducer.UnhandledKindsAreNoOps | context/GameState.tsx:195-198 | CHANGE_TO_PREVIOUS_LEVEL, DECREMENT_MOVES_LEFT and RESTART leave everything unchanged |
| GameStateReducer.PassedLevelsOnlyRiseOnWin | context/GameState.tsx:121-125 | outside RESET_GAME, passed levels never fall or pass 10, and rise only on a winning move, to `min(10, level)` |
| GameStateReducer.ScoreOnlyChangesOnWin | context/GameState.tsx:126-134 | the score changes only on a winning move or a reset |
| GameStateReducer.RoundBookkeeping | context/GameState.tsx:99-135 | an action either grows the reveals, keeps the ids and does not raise the moves, or starts a fresh round with no reveals and a full budget |
| GameStateReducer.Run | context/GameState.tsx:163-200 | any sequence of actions from a valid state ends in a valid state |
| GameStateReducer.PassedLevelsMonotone | context/GameState.tsx:121-125 | over any sequence of actions without RESET_GAME, passed levels never decrease |
| GameStateReducer.FirstLevelMatchWins | context/GameState.tsx:62-138 | two reveals of one face at level 1 win: one move left, `start` then `pause`, level 1 passed, score 10 |
| GameStateReducer.MismatchResetsAtOnce | context/GameState.tsx:97-103 | a second reveal of a different face resets the round at once, keeping the first face as the last opened one |
| GameStateReducer.FirstMoveOnRecordedFaceWins | context/GameState.tsx:90-92 | in a fresh round, reopening the recorded last face wins at once |
| GameStateReducer.StaleFaceWinsWithOneReveal | utils/game-state-helpers.ts:98-111 | after a mismatch reset, one reveal of the stale face passes the level |
| GameStateReducer.ExpiryEndsGame | context/GameState.tsx:178-179 | the timer expiring ends the game with moves still left |
| GameStateReducer.ReducerLocalStorage | context/GameState.tsx:232-244 | the wrapped reducer returns the reducer's step and saves its passed levels and score |
| GameStateReducer.SavedProgressNeverFalls | context/GameState.tsx:232-244 | outside RESET_GAME, the saved passed levels never fall |
| GameStateReducer.SeedState | context/GameState.tsx:246-252 | start-up: `getStateForLevel(initialState, passedLevels + 1)` overlaid with the saved passed levels and score; no reveals, a full budget, and the initial state's last face and timer |
| GameStateReducer.SeedPastLastLevel | context/GameState.tsx:246-252 | with all ten levels passed, start-up opens level 11: 44 cards, 23 moves, 110 seconds |
| GameStateReducer.SeedStateCapped | context/GameState.tsx:246-252 | start-up with the level capped at 10 always opens one of the ten levels |
| GameStateReducer.SeedStateCappedValid | context/GameState.tsx:246-252 | from any snapshot the game can save, the capped start-up state is valid; below ten passed levels it equals the uncapped one |

## Left out

- The React provider wiring is left out, because it is framework plumbing around the reducer. This covers context, `useReducer`, `useCallback` and `useTimer`. It also covers the in-place update of `gameState.timer` on each tick (context/GameState.tsx:254-331).
- The mechanics of local storage are left out. Each saved snapshot is modelled as the pair of passed levels and score (`ReducerLocalStorage`).
- `hooks/useTimer.ts` is not part of this model. The reducer only issues `Start`, `Pause` and `Restart` commands to it.
- `getSecondsFromTimeNow` is left out, because it reads the clock and the time-zone offset.
- `validateOnExpire` is left out. It is a type check on a callback, with no counterpart among Dafny values.
- `console.log` and `console.warn` diagnostics are left out, because they do not affect any result.
- Floating point is not modelled. Scores and times are exact rationals, and `Math.round` is floor of `x + 1/2`. `NoRoundingTie` shows that the exact share products are never halfway between two integers, so rounding them is unambiguous.
- Face ids are strings. The numeric ids allowed by the card type are left out, and `""` is the "no card opened" sentinel.
- When `start` or `pause` is called, the source asserts that the callback exists (`start!()`, `pause!()`). The model issues the command unconditionally. It does not model the crash when the callback is missing.
- GameStateHelpers.RestartTimer: the source reads the clock twice, in `new Date().setSeconds(new Date().getSeconds() + timeLimit)`. The model uses one reading `now` for both. If the two readings fall in different minutes, the source's expiry lands up to 59 seconds early, which is already past for the levels with under a minute on the clock. The model does not capture that.
- GameStateReducer.GameStateReducer: requires a non-zero moves limit, because a zero limit would divide by zero in the score (Infinity or NaN in the source). Every level's limit is at least 3.
- GameStateReducer.SeedState: requires non-negative saved passed levels. A corrupt or missing stored value (NaN after `undefined + 1`) is left out.
- GameStateReducer.MakeAMoveReducer: copying the card array and overwriting one slot is modelled as a sequence update. A write at index -1 when no card matches leaves the elements alone.
- `revealedCards` is modelled as a set of face ids, because the source only ever stores `true` in it.
- Levels are modelled as `nat`. The current helpers cast any number to a level without a check, and only the older file's `LegacyCards.GameLevel` restricts levels to 1..10.
- Level-unlock gating and the refusal of already revealed cards happen in the components, not in the reducer. They are not modelled as reducer checks.
- The image catalog, which is not shown in the source, is a parameter. The older helpers take `links` from `./image-links` (utils/generate-cards.ts:2). The current ones take it from `@/utils/constants` (utils/game-state-helpers.ts:4). `LegacyCards.HelpersAgreeWithCurrent` and `LegacyCards.SameDealWhenShort` pass one catalog to both, so their agreement holds only when those two lists are equal.

## Findings

| source | as written | input that shows it | evidently intended | confidence | as-written member | corrected member |
|---|---|---|---|---|---|---|
| context/GameState.tsx:246-252 | start-up opens level `passedLevels + 1` | a saved snapshot with 10 passed levels opens level 11: 44 cards, 23 moves, 110 s, outside the ten levels | the level is capped at 10, as `onLevelWin` caps it and as the level type implies | medium, not executed | GameStateReducer.SeedPastLastLevel | GameStateReducer.SeedStateCapped |
