/** context/GameState.tsx: the reducer that turns player actions into new game
    states. It is modelled as a function from a state and an action to the next
    state and the list of calls it makes on the countdown timer (`start`,
    `pause`, `restart`), in the order the source makes them. The randomness a
    fresh deck consumes, the clock reading and the module-level `initialState`
    come in through `Env`. */
module GameStateReducer {
  import opened Randomness
  import opened GameTypes
  import opened Decks
  import opened GameStateHelpers

  /** `ReducerActionKind` with the payloads of `ReducerActionsSet`. A `restart`
      flag says whether the payload carried a restart callback. */
  datatype Action =
    | SetCurrentLevel(level: nat, restart: bool)
    | ChangeToPreviousLevel(newStage: nat)
    | DecrementMovesLeft
    | RestartRequest
    | MoveToNextLevel(restart: bool)
    | ReplayLevel(restart: bool)
    | MakeAMove(cardId: FaceId, uniqueId: nat, restart: bool)
    | ResetGame
    | SetGameOver

  /** What a transition may read besides the state and the action: the image
      catalog, the `initialState` computed when the module loaded, the
      randomness for a new deck and the clock in milliseconds. */
  datatype Env = Env(catalog: seq<Face>, initialState: GameState, rng: Entropy, now: int)

  /** The next state, the timer calls made on the way, and lodash's id counter
      afterwards. */
  datatype Step = Step(state: GameState, commands: seq<Command>, idCounter: nat)

  function Max(a: int, b: int): int {
    if a >= b then a else b
  }

  /** `initialState`: level 1 with its constraints, nothing passed or scored,
      and a deck dealt on EASY when the module loads. */
  function InitialState(catalog: seq<Face>, rng: Entropy): (r: Fresh)
    ensures r.state.currentLevel == 1 && r.state.passedLevels == 0 && r.state.currentScore == 0
    ensures r.state.movesLeft == r.state.movesLimit == 3 && r.state.timeLimit == 10
    ensures !r.state.isGameOver && !r.state.hasWon
    ensures r.state.revealedCards == {} && r.state.lastOpenedCard == ""
    ensures r.state.timer == Clock(10, 0)
    ensures Deal(r.state.cards, r.idCounter) == GenerateCards(catalog, Easy, 1, rng)
  {
    var deal := GenerateCards(catalog, Easy, 1, rng);
    var c := GetConstraints(1);
    Fresh(GameState(1, 0, 3, 0, false, deal.cards, c.timeLimit, c.movesLimit, Clock(10, 0), {}, "", false),
          deal.idCounter)
  }

  /** `cards.findIndex(card => card.uniqueId === uniqueId)`: the first index
      holding that id, or -1 when no card does. */
  function FindIndex(cards: seq<Card>, uniqueId: nat): (r: int)
    ensures -1 <= r < |cards|
    ensures r == -1 <==> forall j :: 0 <= j < |cards| ==> cards[j].uniqueId != uniqueId
    ensures r >= 0 ==> cards[r].uniqueId == uniqueId && forall j :: 0 <= j < r ==> cards[j].uniqueId != uniqueId
  {
    if |cards| == 0 then -1
    else if cards[0].uniqueId == uniqueId then 0
    else
      var k := FindIndex(cards[1..], uniqueId);
      if k < 0 then -1 else k + 1
  }

  /** The card at `j` is the first one carrying `uniqueId`. */
  predicate FirstWithId(cards: seq<Card>, uniqueId: nat, j: int)
    requires 0 <= j < |cards|
  {
    cards[j].uniqueId == uniqueId && forall k :: 0 <= k < j ==> cards[k].uniqueId != uniqueId
  }

  /** Steps 1.1 to 1.3 of the move: a copy of the deck in which the first card
      with the given `uniqueId` is revealed. When no card has it, the source
      writes to index -1, which is not an element of the array, so the deck
      is unchanged. */
  function RevealCard(cards: seq<Card>, uniqueId: nat): (r: seq<Card>)
    ensures |r| == |cards|
    ensures forall j :: 0 <= j < |cards| ==>
      r[j] == if FirstWithId(cards, uniqueId, j) then cards[j].(isRevealed := true) else cards[j]
    ensures UniqueIds(r) == UniqueIds(cards)
  {
    var i := FindIndex(cards, uniqueId);
    if i < 0 then cards else cards[i := cards[i].(isRevealed := true)]
  }

  /** In a deck whose ids are pairwise distinct, as every dealt deck's are,
      the move reveals exactly the card carrying `uniqueId` and no other. */
  lemma RevealOnlyTheChosenCard(cards: seq<Card>, uniqueId: nat)
    requires Distinct(UniqueIds(cards))
    ensures var r := RevealCard(cards, uniqueId);
      forall j :: 0 <= j < |cards| ==>
        r[j] == if cards[j].uniqueId == uniqueId then cards[j].(isRevealed := true) else cards[j]
  {
    forall j, k | 0 <= k < j < |cards| && cards[j].uniqueId == uniqueId
      ensures cards[k].uniqueId != uniqueId
    {
      assert UniqueIds(cards)[k] == cards[k].uniqueId && UniqueIds(cards)[j] == cards[j].uniqueId;
    }
  }

  /** Step 3: the move wins when the round is not already won and this face
      matches the face opened by the move before. */
  predicate Wins(s: GameState, cardId: FaceId): (r: bool)
    ensures r ==> !s.hasWon && cardId != "" && cardId == s.lastOpenedCard
  {
    if !s.hasWon then s.lastOpenedCard != "" && s.lastOpenedCard == cardId else false
  }

  /** Step 4: the value the source computes for `isGameOver`. With no face
      opened before, it is the current flag; otherwise it holds whenever the
      move does not win, whatever the moves left. */
  predicate EndsRound(s: GameState, cardId: FaceId): (r: bool)
    ensures r ==> !Wins(s, cardId)
    ensures s.lastOpenedCard == "" ==> (r <==> s.isGameOver)
    ensures s.lastOpenedCard != "" && s.lastOpenedCard != cardId ==> r
  {
    if s.lastOpenedCard == "" then s.isGameOver else !Wins(s, cardId)
  }

  /** Step 2.1: `start()` is called on the first move of a round. */
  function StartCall(s: GameState): (r: seq<Command>)
    ensures |r| <= 1 && forall c :: c in r ==> c == Start
    ensures r != [] <==> s.movesLeft == s.movesLimit
  {
    if s.movesLeft == s.movesLimit then [Start] else []
  }

  /** `makeAMoveReducer`. */
  function MakeAMoveReducer(s: GameState, cardId: FaceId, uniqueId: nat, restart: bool, env: Env): (r: Step)
    requires s.movesLimit != 0
    ensures !r.state.isGameOver
    ensures r.state.currentLevel == s.currentLevel && r.state.timer == s.timer
    ensures r.state.passedLevels != s.passedLevels || r.state.currentScore != s.currentScore ==> r.state.hasWon
    ensures |r.commands| <= 2
  {
    var newCards := RevealCard(s.cards, uniqueId);
    var newMovesLeft := if s.movesLeft <= 1 then 0 else s.movesLeft - 1;
    var hasWon := Wins(s, cardId);
    var isGameOver := EndsRound(s, cardId);
    if isGameOver then
      var reset := GetStateForLevel(s, s.currentLevel, env.catalog, env.rng);
      Step(reset.state, StartCall(s) + RestartTimer(restart, reset.state.timeLimit, env.now), reset.idCounter)
    else
      var pause := if hasWon || isGameOver then [Pause] else [];
      Step(s.(cards := newCards,
              revealedCards := s.revealedCards + {cardId},
              hasWon := hasWon,
              movesLeft := newMovesLeft,
              isGameOver := isGameOver,
              lastOpenedCard := cardId,
              passedLevels := if hasWon && s.currentLevel > s.passedLevels then Min(10, s.currentLevel) else s.passedLevels,
              currentScore := if hasWon then CalculateScore(s.movesLimit, s.movesLeft, s.currentLevel, s.currentScore)
                              else s.currentScore),
           StartCall(s) + pause,
           env.rng.idCounter)
  }

  /** The fresh round both `onLevelWin` and `replayLevelReducer` build: unlike
      `getStateForLevel`, they also forget the last opened face. */
  function NewRound(s: GameState, level: nat, restart: bool, env: Env): (r: Step)
    ensures var reset := GetStateForLevel(s, level, env.catalog, env.rng);
      && r.state == reset.state.(lastOpenedCard := "")
      && r.idCounter == reset.idCounter
    ensures r.commands == RestartTimer(restart, GetConstraints(level).timeLimit, env.now)
  {
    var c := GetConstraints(level);
    var deal := GenerateCards(env.catalog, Easy, level, env.rng);
    Step(s.(currentLevel := level,
            cards := deal.cards,
            revealedCards := {},
            isGameOver := false,
            timeLimit := c.timeLimit,
            movesLimit := c.movesLimit,
            movesLeft := c.movesLimit,
            hasWon := false,
            lastOpenedCard := ""),
         RestartTimer(restart, c.timeLimit, env.now),
         deal.idCounter)
  }

  /** The level after a won one: the next, but never past 10. */
  function NextLevel(level: nat): (r: nat)
    ensures r == Min(level + 1, 10)
  {
    if level < 10 then level + 1 else 10
  }

  /** `onLevelWin`. */
  function OnLevelWin(s: GameState, restart: bool, env: Env): (r: Step)
    ensures r.state.currentLevel == Min(s.currentLevel + 1, 10)
    ensures r.state.movesLeft == r.state.movesLimit == 2 * r.state.currentLevel + 1
    ensures r.state.timeLimit == 10 * r.state.currentLevel
    ensures r.state.revealedCards == {} && !r.state.hasWon && !r.state.isGameOver && r.state.lastOpenedCard == ""
    ensures r.state.passedLevels == s.passedLevels && r.state.currentScore == s.currentScore
  {
    NewRound(s, NextLevel(s.currentLevel), restart, env)
  }

  /** `replayLevelReducer`. */
  function ReplayLevelReducer(s: GameState, restart: bool, env: Env): (r: Step)
    ensures r.state.currentLevel == s.currentLevel
    ensures r.state.movesLeft == r.state.movesLimit == 2 * s.currentLevel + 1
    ensures r.state.timeLimit == 10 * s.currentLevel
    ensures r.state.revealedCards == {} && !r.state.hasWon && !r.state.isGameOver && r.state.lastOpenedCard == ""
    ensures r.state.passedLevels == s.passedLevels && r.state.currentScore == s.currentScore
  {
    NewRound(s, s.currentLevel, restart, env)
  }

  /** `gameStateReducer`. */
  function GameStateReducer(s: GameState, a: Action, env: Env): (r: Step)
    requires s.movesLimit != 0
    ensures r.state.isGameOver ==> a.SetGameOver? || a.ResetGame? || r.state == s
    ensures !a.MakeAMove? && !a.ResetGame? ==>
      r.state.passedLevels == s.passedLevels && r.state.currentScore == s.currentScore
    ensures a.SetGameOver? || a.ResetGame? || a.ChangeToPreviousLevel? || a.DecrementMovesLeft? || a.RestartRequest?
      ==> r.commands == []
  {
    match a
    case SetCurrentLevel(level, restart) =>
      var reset := GetStateForLevel(s, level, env.catalog, env.rng);
      Step(reset.state, RestartTimer(restart, reset.state.timeLimit, env.now), reset.idCounter)
    case SetGameOver =>
      Step(s.(isGameOver := true), [], env.rng.idCounter)
    case MoveToNextLevel(restart) =>
      if s.hasWon then OnLevelWin(s, restart, env) else Step(s, [], env.rng.idCounter)
    case ReplayLevel(restart) =>
      ReplayLevelReducer(s, restart, env)
    case MakeAMove(cardId, uniqueId, restart) =>
      MakeAMoveReducer(s, cardId, uniqueId, restart, env)
    case ResetGame =>
      Step(env.initialState, [], env.rng.idCounter)
    case _ =>
      Step(s, [], env.rng.idCounter)
  }

  // ---------------------------------------------------------------------------
  // Invariants of the state machine

  /** The invariants every reachable state keeps: score and passed levels in
      [0, 10], the constraints of the current level, a moves budget between 0
      and its limit, and no two cards sharing a `uniqueId`. */
  predicate Valid(s: GameState) {
    && 0 <= s.passedLevels <= 10
    && 0 <= s.currentScore <= 10
    && s.movesLimit == GetConstraints(s.currentLevel).movesLimit
    && s.timeLimit == GetConstraints(s.currentLevel).timeLimit
    && 0 <= s.movesLeft <= s.movesLimit
    && Distinct(UniqueIds(s.cards))
  }

  /** A freshly generated deck never repeats a `uniqueId`. */
  lemma GeneratedIdsDistinct(catalog: seq<Face>, level: nat, rng: Entropy)
    ensures Distinct(UniqueIds(GenerateCards(catalog, Easy, level, rng).cards))
  {
    var cards := GenerateCards(catalog, Easy, level, rng).cards;
    forall i, j | 0 <= i < j < |cards| ensures UniqueIds(cards)[i] != UniqueIds(cards)[j] {
      assert UniqueIds(cards)[i] == cards[i].uniqueId && UniqueIds(cards)[j] == cards[j].uniqueId;
    }
  }

  /** The module-level initial state is valid. */
  lemma InitialStateValid(catalog: seq<Face>, rng: Entropy)
    ensures Valid(InitialState(catalog, rng).state)
  {
    GeneratedIdsDistinct(catalog, 1, rng);
  }

  /** Every transition from a valid state yields a valid state. */
  lemma ReducerKeepsValid(s: GameState, a: Action, env: Env)
    requires Valid(s) && Valid(env.initialState)
    ensures Valid(GameStateReducer(s, a, env).state)
  {
    match a
    case SetCurrentLevel(level, _) => GeneratedIdsDistinct(env.catalog, level, env.rng);
    case MoveToNextLevel(_) => GeneratedIdsDistinct(env.catalog, NextLevel(s.currentLevel), env.rng);
    case ReplayLevel(_) => GeneratedIdsDistinct(env.catalog, s.currentLevel, env.rng);
    case MakeAMove(cardId, uniqueId, _) =>
      if EndsRound(s, cardId) {
        GeneratedIdsDistinct(env.catalog, s.currentLevel, env.rng);
      } else if Wins(s, cardId) {
        ScoreNonNegative(s.movesLimit, s.movesLeft, s.currentLevel, s.currentScore);
      }
    case _ =>
  }

  // ---------------------------------------------------------------------------
  // MAKE_A_MOVE

  /** A move that ends the round is thrown away: the result is the fresh round
      of `getStateForLevel` at the same level, so the game is not over, and
      the timer gets `start()` (on a first move) followed by a restart. The
      face opened before the move is kept. */
  lemma MoveThatEndsRound(s: GameState, cardId: FaceId, uniqueId: nat, restart: bool, env: Env)
    requires s.movesLimit != 0 && EndsRound(s, cardId)
    ensures var r := MakeAMoveReducer(s, cardId, uniqueId, restart, env);
      var reset := GetStateForLevel(s, s.currentLevel, env.catalog, env.rng);
      && r.state == reset.state && r.idCounter == reset.idCounter
      && !r.state.isGameOver && !r.state.hasWon
      && r.state.movesLeft == r.state.movesLimit
      && r.state.lastOpenedCard == s.lastOpenedCard
      && r.commands == StartCall(s) + RestartTimer(restart, r.state.timeLimit, env.now)
  {
  }

  /** A move that does not end the round reveals the chosen card, spends one
      move without going below zero, records the face id among the revealed
      ones, remembers it as the last opened face, and changes passed levels
      and score only when it wins. */
  lemma MoveThatContinues(s: GameState, cardId: FaceId, uniqueId: nat, restart: bool, env: Env)
    requires s.movesLimit != 0 && !EndsRound(s, cardId)
    ensures var r := MakeAMoveReducer(s, cardId, uniqueId, restart, env);
      && r.state.cards == RevealCard(s.cards, uniqueId)
      && r.state.movesLeft == Max(0, s.movesLeft - 1)
      && r.state.revealedCards == s.revealedCards + {cardId}
      && r.state.hasWon == Wins(s, cardId)
      && !r.state.isGameOver
      && r.state.lastOpenedCard == cardId
      && r.state.passedLevels == (if Wins(s, cardId) && s.currentLevel > s.passedLevels
                                  then Min(10, s.currentLevel) else s.passedLevels)
      && r.state.currentScore == (if Wins(s, cardId)
                                  then CalculateScore(s.movesLimit, s.movesLeft, s.currentLevel, s.currentScore)
                                  else s.currentScore)
      && r.state.currentLevel == s.currentLevel && r.state.movesLimit == s.movesLimit
      && r.state.timeLimit == s.timeLimit && r.state.timer == s.timer
      && r.idCounter == env.rng.idCounter
  {
  }

  /** A move wins exactly when the round is not yet won, a face was opened
      before, and this move opens the same face id; a move that does not win
      always ends the round once a face was opened before. */
  lemma WinIsAMatchWithThePreviousFace(s: GameState, cardId: FaceId)
    ensures Wins(s, cardId) <==> !s.hasWon && s.lastOpenedCard != "" && s.lastOpenedCard == cardId
    ensures s.lastOpenedCard != "" ==> (EndsRound(s, cardId) <==> !Wins(s, cardId))
  {
  }

  /** No move leaves the game over: either the move ends the round and a fresh
      round replaces it, or the computed flag is false. */
  lemma MoveNeverLeavesGameOver(s: GameState, cardId: FaceId, uniqueId: nat, restart: bool, env: Env)
    requires s.movesLimit != 0
    ensures !MakeAMoveReducer(s, cardId, uniqueId, restart, env).state.isGameOver
  {
  }

  /** `start()` is called exactly on a move made with the full moves budget;
      `pause()` exactly on a winning move; a restart exactly on a move that
      ends the round, when a restart callback was supplied; and `start()`
      comes first. */
  lemma MoveTimerCalls(s: GameState, cardId: FaceId, uniqueId: nat, restart: bool, env: Env)
    requires s.movesLimit != 0
    ensures var cmds := MakeAMoveReducer(s, cardId, uniqueId, restart, env).commands;
      && (Start in cmds <==> s.movesLeft == s.movesLimit)
      && (Pause in cmds <==> Wins(s, cardId))
      && ((exists c :: c in cmds && c.Restart?) <==> EndsRound(s, cardId) && restart)
      && (Start in cmds ==> cmds[0] == Start)
  {
    var cmds := MakeAMoveReducer(s, cardId, uniqueId, restart, env).commands;
    var start := StartCall(s);
    assert Start in start <==> s.movesLeft == s.movesLimit;
    if EndsRound(s, cardId) {
      var restarts := RestartTimer(restart, GetStateForLevel(s, s.currentLevel, env.catalog, env.rng).state.timeLimit, env.now);
      assert cmds == start + restarts;
      assert forall c :: c in restarts ==> c.Restart?;
      assert !Wins(s, cardId);
      if restart {
        assert restarts[0] in cmds;
      }
    } else {
      var pause: seq<Command> := if Wins(s, cardId) then [Pause] else [];
      assert cmds == start + pause;
      assert forall c :: c in cmds ==> !c.Restart?;
    }
  }

  /** The score is computed from the moves left before this move is counted:
      winning with `m` moves left scores what `calculateScore` gives for `m`,
      not for `m - 1`. */
  lemma ScoreUsesMovesBeforeTheMove(s: GameState, cardId: FaceId, uniqueId: nat, restart: bool, env: Env)
    requires s.movesLimit != 0 && Wins(s, cardId) && !EndsRound(s, cardId)
    ensures var r := MakeAMoveReducer(s, cardId, uniqueId, restart, env);
      r.state.currentScore == CalculateScore(s.movesLimit, r.state.movesLeft + 1, s.currentLevel, s.currentScore)
      || s.movesLeft <= 0
  {
  }

  /** `revealedCards` is keyed by face id, not by card: revealing the second
      card of a face that is already recorded adds no key. */
  lemma RevealedCardsKeyedByFace(s: GameState, cardId: FaceId, uniqueId: nat, restart: bool, env: Env)
    requires s.movesLimit != 0 && !EndsRound(s, cardId) && cardId in s.revealedCards
    ensures MakeAMoveReducer(s, cardId, uniqueId, restart, env).state.revealedCards == s.revealedCards
  {
  }

  // ---------------------------------------------------------------------------
  // Round transitions

  /** MOVE_TO_NEXT_LEVEL before the level is won changes nothing and calls
      nothing. */
  lemma NextLevelNeedsAWin(s: GameState, restart: bool, env: Env)
    requires s.movesLimit != 0 && !s.hasWon
    ensures GameStateReducer(s, MoveToNextLevel(restart), env) == Step(s, [], env.rng.idCounter)
  {
  }

  /** MOVE_TO_NEXT_LEVEL after a win opens a fresh round at the next level
      (capped at 10): the fresh round of `getStateForLevel`, except that the
      last opened face is forgotten too. Passed levels, score and timer stay. */
  lemma NextLevelIsFreshRound(s: GameState, restart: bool, env: Env)
    requires s.movesLimit != 0 && s.hasWon
    ensures var r := GameStateReducer(s, MoveToNextLevel(restart), env);
      var reset := GetStateForLevel(s, Min(s.currentLevel + 1, 10), env.catalog, env.rng);
      && r.state == reset.state.(lastOpenedCard := "")
      && r.idCounter == reset.idCounter
      && r.state.currentLevel == Min(s.currentLevel + 1, 10)
      && r.state.movesLeft == r.state.movesLimit == 2 * r.state.currentLevel + 1
      && r.state.timeLimit == 10 * r.state.currentLevel
      && r.state.passedLevels == s.passedLevels && r.state.currentScore == s.currentScore
      && r.commands == RestartTimer(restart, r.state.timeLimit, env.now)
  {
  }

  /** REPLAY_LEVEL opens the same fresh round at the current level, with or
      without a win. */
  lemma ReplayIsFreshRound(s: GameState, restart: bool, env: Env)
    requires s.movesLimit != 0
    ensures var r := GameStateReducer(s, ReplayLevel(restart), env);
      var reset := GetStateForLevel(s, s.currentLevel, env.catalog, env.rng);
      && r.state == reset.state.(lastOpenedCard := "")
      && r.idCounter == reset.idCounter
      && r.commands == RestartTimer(restart, r.state.timeLimit, env.now)
  {
    var r := GameStateReducer(s, ReplayLevel(restart), env);
    assert r == NewRound(s, s.currentLevel, restart, env);
    var reset := GetStateForLevel(s, s.currentLevel, env.catalog, env.rng);
    var deal := GenerateCards(env.catalog, Easy, s.currentLevel, env.rng);
    assert reset.state.cards == deal.cards && reset.idCounter == deal.idCounter;
  }

  /** Two replays in a row deal decks of the same size under the same
      constraints, whatever the shuffles. */
  lemma ReplayTwiceSameShape(s: GameState, restart: bool, env1: Env, env2: Env)
    requires s.movesLimit != 0 && env1.catalog == env2.catalog
    ensures var r1 := GameStateReducer(s, ReplayLevel(restart), env1).state;
      var r2 := GameStateReducer(r1, ReplayLevel(restart), env2).state;
      && |r1.cards| == |r2.cards|
      && r1.timeLimit == r2.timeLimit && r1.movesLimit == r2.movesLimit && r1.movesLeft == r2.movesLeft
      && r1.currentLevel == r2.currentLevel
  {
  }

  /** SET_CURRENT_LEVEL accepts any level, unlocked or not: the reducer does
      not look at `passedLevels` (only the level picker does). */
  lemma SetCurrentLevelAcceptsAnyLevel(s: GameState, level: nat, restart: bool, env: Env)
    requires s.movesLimit != 0
    ensures var r := GameStateReducer(s, SetCurrentLevel(level, restart), env);
      var reset := GetStateForLevel(s, level, env.catalog, env.rng);
      && r.state == reset.state && r.idCounter == reset.idCounter
      && r.state.currentLevel == level
      && r.commands == RestartTimer(restart, r.state.timeLimit, env.now)
  {
  }

  /** SET_GAME_OVER only raises the flag, whatever the moves left. */
  lemma SetGameOverOnlyRaisesFlag(s: GameState, env: Env)
    requires s.movesLimit != 0
    ensures GameStateReducer(s, SetGameOver, env) == Step(s.(isGameOver := true), [], env.rng.idCounter)
  {
  }

  /** RESET_GAME returns the module's initial state: level 1, nothing passed,
      no score, three moves. */
  lemma ResetRestoresInitialState(s: GameState, catalog: seq<Face>, rng0: Entropy, env: Env)
    requires s.movesLimit != 0 && env.initialState == InitialState(catalog, rng0).state
    ensures var r := GameStateReducer(s, ResetGame, env);
      && r.state == env.initialState && r.commands == []
      && r.state.currentLevel == 1 && r.state.passedLevels == 0 && r.state.currentScore == 0
      && r.state.movesLeft == 3
  {
  }

  /** The kinds the reducer has no case for leave everything as it was. */
  lemma UnhandledKindsAreNoOps(s: GameState, a: Action, env: Env)
    requires s.movesLimit != 0 && (a.ChangeToPreviousLevel? || a.DecrementMovesLeft? || a.RestartRequest?)
    ensures GameStateReducer(s, a, env) == Step(s, [], env.rng.idCounter)
  {
  }

  /** Passed levels never go down except on RESET_GAME, and they go up only on
      a winning move, to at most 10. */
  lemma PassedLevelsOnlyRiseOnWin(s: GameState, a: Action, env: Env)
    requires s.movesLimit != 0 && s.passedLevels <= 10
    ensures var r := GameStateReducer(s, a, env).state;
      && (!a.ResetGame? ==> s.passedLevels <= r.passedLevels <= 10)
      && (r.passedLevels > s.passedLevels && !a.ResetGame? ==>
            a.MakeAMove? && r.hasWon && Wins(s, a.cardId) && r.passedLevels == Min(10, s.currentLevel))
  {
  }

  /** The score changes only on a winning move or a reset. */
  lemma ScoreOnlyChangesOnWin(s: GameState, a: Action, env: Env)
    requires s.movesLimit != 0
    ensures var r := GameStateReducer(s, a, env).state;
      r.currentScore != s.currentScore ==> a.ResetGame? || (a.MakeAMove? && r.hasWon)
  {
  }

  /** Within a round the reveal bookkeeping only grows and the moves budget
      only shrinks; otherwise a fresh round starts with nothing revealed and
      the full budget. */
  lemma RoundBookkeeping(s: GameState, a: Action, env: Env)
    requires s.movesLimit != 0 && !a.ResetGame?
    ensures var r := GameStateReducer(s, a, env).state;
      || (s.revealedCards <= r.revealedCards && r.movesLeft <= Max(s.movesLeft, 0)
          && UniqueIds(r.cards) == UniqueIds(s.cards))
      || (r.revealedCards == {} && r.movesLeft == r.movesLimit && !r.hasWon && !r.isGameOver)
  {
  }

  // ---------------------------------------------------------------------------
  // Sequences of actions

  /** One action together with what it reads from outside. */
  datatype Input = Input(action: Action, env: Env)

  /** The state after dispatching `inputs` in order. */
  function Run(s: GameState, inputs: seq<Input>): (r: GameState)
    requires Valid(s)
    requires forall i :: 0 <= i < |inputs| ==> Valid(inputs[i].env.initialState)
    ensures Valid(r)
    decreases |inputs|
  {
    if |inputs| == 0 then s
    else
      ReducerKeepsValid(s, inputs[0].action, inputs[0].env);
      Run(GameStateReducer(s, inputs[0].action, inputs[0].env).state, inputs[1..])
  }

  /** Without RESET_GAME, passed levels never decrease over any run. */
  lemma {:induction false} PassedLevelsMonotone(s: GameState, inputs: seq<Input>)
    requires Valid(s)
    requires forall i :: 0 <= i < |inputs| ==> Valid(inputs[i].env.initialState)
    requires forall i :: 0 <= i < |inputs| ==> !inputs[i].action.ResetGame?
    ensures s.passedLevels <= Run(s, inputs).passedLevels
    decreases |inputs|
  {
    if |inputs| > 0 {
      var a, env := inputs[0].action, inputs[0].env;
      ReducerKeepsValid(s, a, env);
      PassedLevelsOnlyRiseOnWin(s, a, env);
      PassedLevelsMonotone(GameStateReducer(s, a, env).state, inputs[1..]);
    }
  }

  // ---------------------------------------------------------------------------
  // Scenarios

  /** A fresh level-1 round: the state a new round at level 1 starts from. */
  predicate FreshFirstLevel(s: GameState) {
    && s.currentLevel == 1 && s.movesLimit == 3 && s.movesLeft == 3
    && !s.hasWon && !s.isGameOver && s.lastOpenedCard == "" && s.passedLevels == 0
    && s.currentScore == 0
  }

  /** Two cards of face `x` opened one after the other at level 1 win the
      level: one move left, the timer started then paused, level 1 passed,
      and the score 13 capped to 10. */
  lemma FirstLevelMatchWins(s: GameState, x: FaceId, u1: nat, u2: nat, restart: bool, env1: Env, env2: Env)
    requires FreshFirstLevel(s) && x != ""
    ensures var r1 := GameStateReducer(s, MakeAMove(x, u1, restart), env1);
      var r2 := GameStateReducer(r1.state, MakeAMove(x, u2, restart), env2);
      && r1.commands == [Start]
      && r2.state.hasWon && !r2.state.isGameOver
      && r2.state.movesLeft == 1
      && r2.commands == [Pause]
      && r2.state.passedLevels == 1
      && r2.state.currentScore == 10
  {
    ScoreExamples();
  }

  /** Two different faces opened one after the other do not wait for the moves
      to run out: the second move already throws the round away and deals a
      fresh one with the full budget, and the first face stays recorded as the
      last opened one. */
  lemma MismatchResetsAtOnce(s: GameState, x: FaceId, y: FaceId, u1: nat, u2: nat, restart: bool, env1: Env, env2: Env)
    requires FreshFirstLevel(s) && x != "" && y != x
    ensures var r1 := GameStateReducer(s, MakeAMove(x, u1, restart), env1);
      var r2 := GameStateReducer(r1.state, MakeAMove(y, u2, restart), env2);
      && r2.state.movesLeft == 3
      && !r2.state.isGameOver && !r2.state.hasWon
      && r2.state.revealedCards == {}
      && r2.state.lastOpenedCard == x
      && r2.commands == RestartTimer(restart, 10, env2.now)
  {
  }

  /** The first move of a round in which a face is still recorded as the last
      opened one wins when it opens that face again. */
  lemma FirstMoveOnRecordedFaceWins(t: GameState, x: FaceId, u: nat, restart: bool, env: Env)
    requires t.currentLevel == 1 && t.movesLimit == 3 && t.movesLeft == 3 && t.passedLevels == 0
    requires !t.hasWon && t.lastOpenedCard == x && x != "" && t.revealedCards == {}
    ensures var r := GameStateReducer(t, MakeAMove(x, u, restart), env);
      && r.state.hasWon && r.state.passedLevels == 1
      && r.state.revealedCards == {x}
      && r.commands == [Start, Pause]
  {
    assert Wins(t, x) && !EndsRound(t, x);
    var r := GameStateReducer(t, MakeAMove(x, u, restart), env);
    assert r == MakeAMoveReducer(t, x, u, restart, env);
    assert r.state.revealedCards == {} + {x};
    assert r.commands == [Start] + [Pause];
  }

  /** Because the reset keeps the stale face, the first move of the new round
      wins when it opens that face: a level is passed with a single reveal. */
  lemma StaleFaceWinsWithOneReveal(s: GameState, x: FaceId, y: FaceId, u1: nat, u2: nat, u3: nat,
                                   restart: bool, env1: Env, env2: Env, env3: Env)
    requires FreshFirstLevel(s) && x != "" && y != x
    ensures var r1 := GameStateReducer(s, MakeAMove(x, u1, restart), env1);
      var r2 := GameStateReducer(r1.state, MakeAMove(y, u2, restart), env2);
      var r3 := GameStateReducer(r2.state, MakeAMove(x, u3, restart), env3);
      && r2.state.revealedCards == {}
      && r3.state.hasWon && r3.state.passedLevels == 1
      && r3.state.revealedCards == {x}
      && r3.commands == [Start, Pause]
  {
    var r1 := GameStateReducer(s, MakeAMove(x, u1, restart), env1);
    var r2 := GameStateReducer(r1.state, MakeAMove(y, u2, restart), env2);
    MismatchResetsAtOnce(s, x, y, u1, u2, restart, env1, env2);
    assert r2.state.currentLevel == 1 && r2.state.passedLevels == 0;
    FirstMoveOnRecordedFaceWins(r2.state, x, u3, restart, env3);
  }

  /** The timer expiring mid-round ends the game at once, with moves still
      left. */
  lemma ExpiryEndsGame(s: GameState, env: Env)
    requires s.movesLimit != 0 && s.movesLeft == 2 && !s.hasWon
    ensures var r := GameStateReducer(s, SetGameOver, env).state;
      r.isGameOver && r.movesLeft == 2
  {
  }

  // ---------------------------------------------------------------------------
  // Persistence and start-up

  /** The part of the state kept in local storage. */
  datatype Snapshot = Snapshot(passedLevels: int, currentScore: int)

  /** The reducer wrapped by the provider: every new state is also saved, as
      its passed levels and score. */
  function ReducerLocalStorage(s: GameState, a: Action, env: Env): (r: (Step, Snapshot))
    requires s.movesLimit != 0
    ensures r.0 == GameStateReducer(s, a, env)
    ensures r.1.passedLevels == r.0.state.passedLevels && r.1.currentScore == r.0.state.currentScore
  {
    var step := GameStateReducer(s, a, env);
    (step, Snapshot(step.state.passedLevels, step.state.currentScore))
  }

  /** What was saved survives every action but RESET_GAME: the saved passed
      levels never fall below the ones before the action. */
  lemma SavedProgressNeverFalls(s: GameState, a: Action, env: Env)
    requires Valid(s) && !a.ResetGame?
    ensures ReducerLocalStorage(s, a, env).1.passedLevels >= s.passedLevels
  {
    PassedLevelsOnlyRiseOnWin(s, a, env);
  }

  /** The state the provider starts from: a fresh round at the level after the
      saved passed levels, carrying the saved passed levels and score. */
  function SeedState(initial: GameState, saved: Snapshot, catalog: seq<Face>, rng: Entropy): (r: Fresh)
    requires saved.passedLevels >= 0
    ensures r.state.currentLevel == saved.passedLevels + 1
    ensures r.state.passedLevels == saved.passedLevels && r.state.currentScore == saved.currentScore
    ensures r.state.movesLeft == r.state.movesLimit && !r.state.hasWon && !r.state.isGameOver
    ensures var reset := GetStateForLevel(initial, saved.passedLevels + 1, catalog, rng);
      && r.state == reset.state.(passedLevels := saved.passedLevels, currentScore := saved.currentScore)
      && r.idCounter == reset.idCounter
    ensures r.state.revealedCards == {} && r.state.lastOpenedCard == initial.lastOpenedCard && r.state.timer == initial.timer
  {
    var reset := GetStateForLevel(initial, saved.passedLevels + 1, catalog, rng);
    Fresh(reset.state.(passedLevels := saved.passedLevels, currentScore := saved.currentScore), reset.idCounter)
  }

  /** A saved snapshot the game itself can produce: passed levels and score
      within [0, 10]. */
  predicate SavedInRange(saved: Snapshot) {
    0 <= saved.passedLevels <= 10 && 0 <= saved.currentScore <= 10
  }

  /** As written, a player who has passed all ten levels reloads into level
      11, which is not one of the game's levels: its deck asks for 44 cards
      and it allows 23 moves in 110 seconds. */
  lemma SeedPastLastLevel(initial: GameState, saved: Snapshot, catalog: seq<Face>, rng: Entropy)
    requires SavedInRange(saved) && saved.passedLevels == 10
    ensures var r := SeedState(initial, saved, catalog, rng).state;
      && r.currentLevel == 11
      && NumberOfCardsForLevel(r.currentLevel) == 44
      && r.movesLimit == 23 && r.timeLimit == 110
  {
  }

  /** The start-up state with the level capped at 10, as the level type of the
      source intends. */
  function SeedStateCapped(initial: GameState, saved: Snapshot, catalog: seq<Face>, rng: Entropy): (r: Fresh)
    requires saved.passedLevels >= 0
    ensures 1 <= r.state.currentLevel <= 10
    ensures r.state.currentLevel == Min(saved.passedLevels + 1, 10)
    ensures r.state.passedLevels == saved.passedLevels && r.state.currentScore == saved.currentScore
    ensures r.state.movesLeft == r.state.movesLimit && !r.state.hasWon && !r.state.isGameOver
  {
    var reset := GetStateForLevel(initial, NextLevel(saved.passedLevels), catalog, rng);
    Fresh(reset.state.(passedLevels := saved.passedLevels, currentScore := saved.currentScore), reset.idCounter)
  }

  /** From any snapshot the game can save, the capped start-up state is a
      valid state at one of the ten levels, and it agrees with the start-up
      state as written whenever fewer than ten levels are passed. */
  lemma SeedStateCappedValid(initial: GameState, saved: Snapshot, catalog: seq<Face>, rng: Entropy)
    requires SavedInRange(saved)
    ensures Valid(SeedStateCapped(initial, saved, catalog, rng).state)
    ensures saved.passedLevels < 10 ==> SeedStateCapped(initial, saved, catalog, rng) == SeedState(initial, saved, catalog, rng)
  {
    GeneratedIdsDistinct(catalog, NextLevel(saved.passedLevels), rng);
  }
}
