/** The records the game works on: catalog faces, placed cards, the game state
    of types/game-state.ts (together with the `lastOpenedCard` field the reducer
    reads and writes although the interface omits it), and the outward timer
    commands the reducer issues. */
module GameTypes {
  import opened Randomness

  /** A face id: the picture identity a matching pair shares. */
  type FaceId = string

  /** One entry of the ordered image catalog (`links`). */
  datatype Face = Face(id: FaceId, src: string, isRevealed: bool)

  /** A placed card: a catalog face together with the numeric part of the
      `uniqueId` lodash gave it ("card-<n>"). */
  datatype Card = Card(id: FaceId, uniqueId: nat, src: string, isRevealed: bool)

  datatype Difficulty = Easy | Medium | Difficult

  function FaceOf(c: Card): Face {
    Face(c.id, c.src, c.isRevealed)
  }

  function UniqueIdOf(c: Card): nat {
    c.uniqueId
  }

  function FacesOf(cards: seq<Card>): seq<Face> {
    MapSeq(cards, FaceOf)
  }

  function UniqueIds(cards: seq<Card>): seq<nat> {
    MapSeq(cards, UniqueIdOf)
  }

  /** A freshly generated deck and the value of the id counter after it. */
  datatype Deal = Deal(cards: seq<Card>, idCounter: nat)

  /** The mirrored countdown the provider copies into the state. */
  datatype Clock = Clock(seconds: int, minutes: int)

  /** IGameState plus `lastOpenedCard`. `revealedCards` is the key set of the
      source's `{ [cardId]: true }` object: every value stored in it is `true`. */
  datatype GameState = GameState(
    currentLevel: nat,
    passedLevels: int,
    movesLeft: int,
    currentScore: int,
    isGameOver: bool,
    cards: seq<Card>,
    timeLimit: int,
    movesLimit: int,
    timer: Clock,
    revealedCards: set<FaceId>,
    lastOpenedCard: FaceId,
    hasWon: bool)

  /** A state with a freshly dealt deck and the id counter after dealing it. */
  datatype Fresh = Fresh(state: GameState, idCounter: nat)

  /** Calls into the countdown timer: `start()`, `pause()` and
      `restart(expiryTimestamp, autoStart)`, timestamps in milliseconds. */
  datatype Command = Start | Pause | Restart(expiry: int, autoStart: bool)
}
