/** utils/generate-cards.ts: the older version of the deck helpers. Its level
    type admits exactly the levels 1 to 10, and its generator asks for
    `totalCards - |unEqualCards|` duplicates without the "at least one" guard
    of the current version. */
module LegacyCards {
  import opened Randomness
  import opened GameTypes
  import opened Decks
  import GameStateHelpers

  /** `GAME_LEVELS = Range<1, 11>`: the integers from 1 up to, not including, 11. */
  type GameLevel = level: nat | 1 <= level < 11 witness 1

  /** `getNumberOfCardsForLevel`. */
  function NumberOfCardsForLevel(level: GameLevel): (n: nat)
    ensures 4 <= n <= 40 && n % 4 == 0
  {
    level * 4
  }

  /** `getConstraints`. */
  function GetConstraints(level: GameLevel): (c: GameStateHelpers.Constraints)
    ensures 10 <= c.timeLimit <= 100 && c.timeLimit % 10 == 0
    ensures 3 <= c.movesLimit <= 21 && c.movesLimit % 2 == 1
  {
    GameStateHelpers.Constraints(level * 10, level * 2 + 1)
  }

  /** `getUnEqualCardsForDifficultyAndLevel`: the catalog prefix of the rounded
      share 0.75, 0.8 or 0.9 of the deck. */
  function UnEqualCardsForDifficultyAndLevel(data: seq<Face>, difficulty: Difficulty, totalCards: nat): (r: seq<Face>)
    ensures |r| <= |data| && r == data[..|r|]
  {
    match difficulty
    case Easy => data[..Min(|data|, GameStateHelpers.RoundRatio(totalCards, 3, 4))]
    case Medium => data[..Min(|data|, GameStateHelpers.RoundRatio(totalCards, 4, 5))]
    case Difficult => data[..Min(|data|, GameStateHelpers.RoundRatio(totalCards, 9, 10))]
  }

  /** The `deleteCount` that `splice(0, totalCards - |unEqualCards|)` acts on:
      a negative count removes nothing. */
  function SpliceCount(totalCards: nat, unEqualCount: nat): (n: nat)
    ensures n + unEqualCount >= totalCards
    ensures unEqualCount < totalCards ==> n + unEqualCount == totalCards
    ensures unEqualCount >= totalCards ==> n == 0
  {
    if totalCards > unEqualCount then totalCards - unEqualCount else 0
  }

  /** `generateCards` (older): unequal faces plus a possibly empty duplicate
      pool, fresh ids, shuffled. The diagnostic log is left out. */
  function GenerateCards(catalog: seq<Face>, difficulty: Difficulty, level: GameLevel, rng: Entropy): (r: Deal)
    ensures var unequal := UnEqualCardsForDifficultyAndLevel(catalog, difficulty, NumberOfCardsForLevel(level));
      && |r.cards| == |unequal| + Min(SpliceCount(NumberOfCardsForLevel(level), |unequal|), |unequal|)
      && multiset(unequal) <= multiset(FacesOf(r.cards)) <= multiset(unequal) + multiset(unequal)
      && r.idCounter == rng.idCounter + |r.cards|
      && (forall i :: 0 <= i < |r.cards| ==> rng.idCounter < r.cards[i].uniqueId <= r.idCounter)
      && (forall i, j :: 0 <= i < j < |r.cards| ==> r.cards[i].uniqueId != r.cards[j].uniqueId)
  {
    var totalCards := NumberOfCardsForLevel(level);
    var unequal := UnEqualCardsForDifficultyAndLevel(catalog, difficulty, totalCards);
    DealCardsSpec(unequal, SpliceCount(totalCards, |unequal|), rng);
    DealCards(unequal, SpliceCount(totalCards, |unequal|), rng)
  }

  /** `calculateScore` (older): the same rounded-then-capped formula; the
      logged expression has no effect on the result and is left out. */
  function CalculateScore(movesLimit: int, movesLeft: int, level: int, previousScore: int): (r: int)
    requires movesLimit != 0
    ensures r <= 10
    ensures r == 10 <==> GameStateHelpers.RawScore(movesLimit, movesLeft, level, previousScore) >= 9.5
    ensures r == 10 || r == GameStateHelpers.RoundHalfUp(GameStateHelpers.RawScore(movesLimit, movesLeft, level, previousScore))
  {
    var raw := (previousScore as real
        + ((movesLeft + 2) as real / movesLimit as real) * 10.0
          * (if level <= 4 then 1.0 else 1.0 + level as real / 10.0))
        / (if level == 1 then 1.0 else 2.0);
    assert raw == GameStateHelpers.RawScore(movesLimit, movesLeft, level, previousScore);
    var res := GameStateHelpers.RoundHalfUp(raw);
    if 10 <= res then 10 else res
  }

  /** Apart from the generator and the score, the older helpers compute what
      the current ones compute at every level. */
  lemma HelpersAgreeWithCurrent(level: GameLevel, data: seq<Face>, difficulty: Difficulty, totalCards: nat)
    ensures NumberOfCardsForLevel(level) == GameStateHelpers.NumberOfCardsForLevel(level)
    ensures GetConstraints(level) == GameStateHelpers.GetConstraints(level)
    ensures UnEqualCardsForDifficultyAndLevel(data, difficulty, totalCards)
         == GameStateHelpers.UniqueCardsForDifficultyAndLevel(data, difficulty, totalCards)
  {
  }

  /** The older score is the current score for every input. */
  lemma ScoreAgreesWithCurrent(movesLimit: int, movesLeft: int, level: int, previousScore: int)
    requires movesLimit != 0
    ensures CalculateScore(movesLimit, movesLeft, level, previousScore)
         == GameStateHelpers.CalculateScore(movesLimit, movesLeft, level, previousScore)
  {
    var raw := (previousScore as real
        + ((movesLeft + 2) as real / movesLimit as real) * 10.0
          * (if level <= 4 then 1.0 else 1.0 + level as real / 10.0))
        / (if level == 1 then 1.0 else 2.0);
    assert raw == GameStateHelpers.RawScore(movesLimit, movesLeft, level, previousScore);
  }

  /** Whenever the unequal faces fall short of the deck size, the older
      generator deals exactly what the current one deals from the same
      randomness. */
  lemma SameDealWhenShort(catalog: seq<Face>, difficulty: Difficulty, level: GameLevel, rng: Entropy)
    requires |UnEqualCardsForDifficultyAndLevel(catalog, difficulty, NumberOfCardsForLevel(level))|
           < NumberOfCardsForLevel(level)
    ensures GenerateCards(catalog, difficulty, level, rng)
         == GameStateHelpers.GenerateCards(catalog, difficulty, level, rng)
  {
    var totalCards := NumberOfCardsForLevel(level);
    var unequal := UnEqualCardsForDifficultyAndLevel(catalog, difficulty, totalCards);
    assert unequal == GameStateHelpers.UniqueCardsForDifficultyAndLevel(catalog, difficulty, totalCards);
    assert SpliceCount(totalCards, |unequal|) == GameStateHelpers.DuplicateCount(totalCards, |unequal|);
  }

  /** Without the guard a DIFFICULT level-1 deck is the four leading catalog
      faces, each exactly once: there is no pair to match. */
  lemma DifficultFirstLevelHasNoPair(catalog: seq<Face>, rng: Entropy)
    requires |catalog| >= 4
    ensures var cards := GenerateCards(catalog, Difficult, 1, rng).cards;
      |cards| == 4 && multiset(FacesOf(cards)) == multiset(catalog[..4])
  {
    var unequal := UnEqualCardsForDifficultyAndLevel(catalog, Difficult, 4);
    assert GameStateHelpers.RoundRatio(4, 9, 10) == 4;
    assert SpliceCount(4, |unequal|) == 0;
    DealFaces(unequal, 0, rng);
    assert Duplicates(unequal, 0, rng) == [];
  }
}
