/** utils/game-state-helpers.ts: the deck generator, the level constraint
    table, the score formula, the fresh-round state and the timer restart. */
module GameStateHelpers {
  import opened Randomness
  import opened GameTypes
  import opened Decks

  /** `getNumberOfCardsForLevel`. */
  function NumberOfCardsForLevel(level: nat): (n: nat)
    ensures n % 4 == 0 && n / 4 == level
  {
    level * 4
  }

  datatype Constraints = Constraints(timeLimit: int, movesLimit: int)

  /** `getConstraints`: seconds on the clock and moves allowed at a level. */
  function GetConstraints(level: nat): (c: Constraints)
    ensures c.timeLimit % 10 == 0 && c.timeLimit / 10 == level
    ensures c.movesLimit % 2 == 1 && c.movesLimit / 2 == level
  {
    Constraints(level * 10, level * 2 + 1)
  }

  /** Every level allows an odd number of at least three moves and ten seconds
      per level, and a higher level allows strictly more of both. */
  lemma ConstraintsGrow(lower: nat, higher: nat)
    requires 1 <= lower < higher
    ensures GetConstraints(lower).movesLimit >= 3 && GetConstraints(lower).movesLimit % 2 == 1
    ensures GetConstraints(lower).timeLimit % 10 == 0
    ensures GetConstraints(lower).timeLimit < GetConstraints(higher).timeLimit
    ensures GetConstraints(lower).movesLimit < GetConstraints(higher).movesLimit
  {
  }

  /** `Math.round(n * p / q)` for the exact ratio: the nearest integer, a half
      rounded up. */
  function RoundRatio(n: nat, p: nat, q: nat): (r: nat)
    requires q > 0
    ensures q * (2 * r) <= 2 * n * p + q < q * (2 * r + 2)
  {
    var a := 2 * n * p + q;
    var b := 2 * q;
    assert a == b * (a / b) + a % b;
    a / b
  }

  /** The share of unique faces in a deck, as a fraction p/q. */
  function UniqueShare(difficulty: Difficulty): (pq: (nat, nat))
    ensures 0 < pq.0 < pq.1
  {
    match difficulty
    case Easy => (3, 4)
    case Medium => (4, 5)
    case Difficult => (9, 10)
  }

  /** How many distinct faces `getUniqueCardsForDifficultyAndLevel` asks for. */
  function UniqueCount(difficulty: Difficulty, totalCards: nat): nat {
    var (p, q) := UniqueShare(difficulty);
    RoundRatio(totalCards, p, q)
  }

  /** `getUniqueCardsForDifficultyAndLevel`: a prefix of the catalog (the same
      leading faces at every level), as long as the rounded share asks for
      unless the catalog is shorter. */
  function UniqueCardsForDifficultyAndLevel(data: seq<Face>, difficulty: Difficulty, totalCards: nat): (r: seq<Face>)
    ensures |r| == Min(|data|, UniqueCount(difficulty, totalCards))
    ensures r == data[..|r|]
  {
    data[..Min(|data|, UniqueCount(difficulty, totalCards))]
  }

  /** `numberOfDuplicatedCardsToGenerate`: the shortfall, but at least one. */
  function DuplicateCount(totalCards: nat, uniqueCount: nat): (n: nat)
    ensures n >= 1
    ensures uniqueCount < totalCards ==> uniqueCount + n == totalCards
    ensures uniqueCount >= totalCards ==> n == 1
  {
    if totalCards - uniqueCount > 0 then totalCards - uniqueCount else 1
  }

  /** `generateCards`: the catalog prefix plus a duplicate pool drawn from it,
      every card with a fresh `uniqueId`, in some shuffled order. */
  function GenerateCards(catalog: seq<Face>, difficulty: Difficulty, level: nat, rng: Entropy): (r: Deal)
    ensures var unique := UniqueCardsForDifficultyAndLevel(catalog, difficulty, NumberOfCardsForLevel(level));
      && |r.cards| == |unique| + Min(DuplicateCount(NumberOfCardsForLevel(level), |unique|), |unique|)
      && multiset(unique) <= multiset(FacesOf(r.cards)) <= multiset(unique) + multiset(unique)
      && r.idCounter == rng.idCounter + |r.cards|
      && (forall i :: 0 <= i < |r.cards| ==> rng.idCounter < r.cards[i].uniqueId <= r.idCounter)
      && (forall i, j :: 0 <= i < j < |r.cards| ==> r.cards[i].uniqueId != r.cards[j].uniqueId)
  {
    var totalCards := NumberOfCardsForLevel(level);
    var unique := UniqueCardsForDifficultyAndLevel(catalog, difficulty, totalCards);
    DealCardsSpec(unique, DuplicateCount(totalCards, |unique|), rng);
    DealCards(unique, DuplicateCount(totalCards, |unique|), rng)
  }

  /** On EASY the unique share of a level-L deck is exactly 3L faces. */
  lemma EasyUniqueCount(level: nat)
    ensures UniqueCount(Easy, NumberOfCardsForLevel(level)) == 3 * level
  {
    var a := 2 * (level * 4) * 3 + 4;
    assert a == 8 * (3 * level) + 4;
  }

  /** On EASY, with enough faces in the catalog, a level-L deck has 4L cards. */
  lemma EasyDeckSize(catalog: seq<Face>, level: nat, rng: Entropy)
    requires |catalog| >= 3 * level
    ensures |GenerateCards(catalog, Easy, level, rng).cards| == 4 * level
  {
    EasyUniqueCount(level);
  }

  /** The "at least one duplicate" guard makes a DIFFICULT level-1 deck five
      cards long, one more than the four cards of the level. */
  lemma DifficultFirstLevelDealsFive(catalog: seq<Face>, rng: Entropy)
    requires |catalog| >= 4
    ensures |GenerateCards(catalog, Difficult, 1, rng).cards| == 5
  {
    assert UniqueCount(Difficult, 4) == 4;
  }

  /** For deck sizes that are multiples of four, the exact product
      `totalCards * share` is never halfway between two integers, so the
      direction in which `Math.round` breaks a tie never decides the count. */
  lemma NoRoundingTie(level: nat, difficulty: Difficulty, k: int)
    ensures 2 * NumberOfCardsForLevel(level) * UniqueShare(difficulty).0
         != UniqueShare(difficulty).1 * (2 * k + 1)
  {
    match difficulty
    case Easy => assert 24 * level != 8 * k + 4;
    case Medium => assert 32 * level != 10 * k + 5;
    case Difficult => assert 72 * level != 20 * k + 10;
  }

  /** With a catalog that holds no face twice, every face of the catalog
      prefix appears in the deck once or twice, and no other face appears. */
  lemma GeneratedFaceCounts(catalog: seq<Face>, difficulty: Difficulty, level: nat, rng: Entropy, f: Face)
    requires Distinct(catalog)
    ensures var unique := UniqueCardsForDifficultyAndLevel(catalog, difficulty, NumberOfCardsForLevel(level));
      var n := multiset(FacesOf(GenerateCards(catalog, difficulty, level, rng).cards))[f];
      && (f in unique ==> 1 <= n <= 2)
      && (f !in unique ==> n == 0)
  {
    var totalCards := NumberOfCardsForLevel(level);
    var unique := UniqueCardsForDifficultyAndLevel(catalog, difficulty, totalCards);
    assert Distinct(unique);
    DealCardsFaceCounts(unique, DuplicateCount(totalCards, |unique|), rng, f);
  }

  /** `Math.round`: the nearest integer, halves rounded towards +infinity. */
  function RoundHalfUp(x: real): (r: int)
    ensures r as real - 0.5 <= x < r as real + 0.5
  {
    (x + 0.5).Floor
  }

  /** The level weight: 1 up to level 4, then 1 + level/10. */
  function LevelWeight(level: int): real {
    if level <= 4 then 1.0 else 1.0 + level as real / 10.0
  }

  /** The divisor: 1 at level 1 (nothing to average with), else 2. */
  function LevelDivisor(level: int): real {
    if level == 1 then 1.0 else 2.0
  }

  /** The score before rounding: the previous score and the level's efficiency
      (moves left plus two, per move allowed, times ten, weighted), averaged
      from level 2 on. */
  function RawScore(movesLimit: int, movesLeft: int, level: int, previousScore: int): real
    requires movesLimit != 0
  {
    (previousScore as real
      + ((movesLeft + 2) as real / movesLimit as real) * 10.0 * LevelWeight(level))
      / LevelDivisor(level)
  }

  /** `calculateScore`: rounded first, then capped at 10. */
  function CalculateScore(movesLimit: int, movesLeft: int, level: int, previousScore: int): (r: int)
    requires movesLimit != 0
    ensures r <= 10
    ensures r == 10 <==> RawScore(movesLimit, movesLeft, level, previousScore) >= 9.5
    ensures r == 10 || r as real - 0.5 <= RawScore(movesLimit, movesLeft, level, previousScore) < r as real + 0.5
  {
    var rounded := RoundHalfUp(RawScore(movesLimit, movesLeft, level, previousScore));
    if 10 <= rounded then 10 else rounded
  }

  /** The score is never negative when nothing that feeds it is. */
  lemma ScoreNonNegative(movesLimit: int, movesLeft: int, level: int, previousScore: int)
    requires movesLimit > 0 && movesLeft >= 0 && level >= 0 && previousScore >= 0
    ensures 0 <= CalculateScore(movesLimit, movesLeft, level, previousScore) <= 10
  {
    var e := (movesLeft + 2) as real / movesLimit as real;
    assert e > 0.0;
    assert e * 10.0 * LevelWeight(level) > 0.0;
  }

  /** Finishing with more moves left never scores less. */
  lemma ScoreMonotoneInMovesLeft(movesLimit: int, fewer: int, more: int, level: int, previousScore: int)
    requires movesLimit > 0 && fewer <= more && level >= 0
    ensures CalculateScore(movesLimit, fewer, level, previousScore)
         <= CalculateScore(movesLimit, more, level, previousScore)
  {
    var w := LevelWeight(level);
    var m := movesLimit as real;
    assert (fewer + 2) as real / m <= (more + 2) as real / m;
    assert ((fewer + 2) as real / m) * 10.0 * w <= ((more + 2) as real / m) * 10.0 * w;
    assert RawScore(movesLimit, fewer, level, previousScore) <= RawScore(movesLimit, more, level, previousScore);
  }

  /** A higher previous score never yields a lower new one. */
  lemma ScoreMonotoneInPreviousScore(movesLimit: int, movesLeft: int, level: int, lower: int, higher: int)
    requires movesLimit != 0 && lower <= higher
    ensures CalculateScore(movesLimit, movesLeft, level, lower)
         <= CalculateScore(movesLimit, movesLeft, level, higher)
  {
    assert RawScore(movesLimit, movesLeft, level, lower) <= RawScore(movesLimit, movesLeft, level, higher);
  }

  /** Rounding comes before the cap: at level 5 with 11 moves allowed and none
      left the raw score 30/22 rounds to 1, and at level 1 a win on the second
      of three moves rounds 40/3 to 13, which the cap brings to 10. */
  lemma ScoreExamples()
    ensures CalculateScore(11, 0, 5, 0) == 1
    ensures RoundHalfUp(RawScore(3, 2, 1, 0)) == 13
    ensures CalculateScore(3, 2, 1, 0) == 10
  {
    assert RawScore(11, 0, 5, 0) == 30.0 / 22.0;
    assert RoundHalfUp(30.0 / 22.0) == 1;
    assert RawScore(3, 2, 1, 0) == 40.0 / 3.0;
    assert RoundHalfUp(40.0 / 3.0) == 13;
  }

  /** `getStateForLevel`: a fresh round at `level`. The deck is regenerated on
      EASY, the constraints and the moves budget follow the level, the reveal
      bookkeeping and both outcome flags are cleared; passed levels, score,
      timer and the last opened face are carried over untouched. */
  function GetStateForLevel(state: GameState, level: nat, catalog: seq<Face>, rng: Entropy): (r: Fresh)
    ensures r.state.currentLevel == level
    ensures r.state.timeLimit == GetConstraints(level).timeLimit
    ensures r.state.movesLimit == r.state.movesLeft == GetConstraints(level).movesLimit
    ensures r.state.revealedCards == {} && !r.state.hasWon && !r.state.isGameOver
    ensures Deal(r.state.cards, r.idCounter) == GenerateCards(catalog, Easy, level, rng)
    ensures r.state.passedLevels == state.passedLevels && r.state.currentScore == state.currentScore
    ensures r.state.timer == state.timer && r.state.lastOpenedCard == state.lastOpenedCard
  {
    var c := GetConstraints(level);
    var deal := GenerateCards(catalog, Easy, level, rng);
    Fresh(state.(cards := deal.cards, revealedCards := {}, timeLimit := c.timeLimit,
                 movesLimit := c.movesLimit, movesLeft := c.movesLimit, hasWon := false,
                 isGameOver := false, currentLevel := level),
          deal.idCounter)
  }

  /** Milliseconds in a second: `setSeconds(getSeconds() + t)` moves a
      timestamp `t` seconds on. */
  const MillisPerSecond: int := 1000

  /** `restartTimer`: a restart that does not start the clock, due `timeLimit`
      seconds from `now`, issued only when a restart callback was supplied. */
  function RestartTimer(restart: bool, timeLimit: int, now: int): (r: seq<Command>)
    ensures |r| <= 1
    ensures r != [] <==> restart
    ensures forall c :: c in r ==> c.Restart? && !c.autoStart && c.expiry - now == timeLimit * MillisPerSecond
  {
    if restart then [Restart(now + timeLimit * MillisPerSecond, false)] else []
  }
}
