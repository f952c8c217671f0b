/** The dealing pipeline both versions of `generateCards` share: shuffle the
    distinct faces, splice a prefix of that shuffle off as the duplicate pool,
    concatenate, give every card a fresh `uniqueId`, and shuffle the whole deck.
    The two versions differ only in how many duplicates they request. */
module Decks {
  import opened Randomness
  import opened GameTypes

  function Min(a: int, b: int): int {
    if a <= b then a else b
  }

  /** `faces.map(card => ({ ...card, uniqueId: uniqueId("card-") }))`. */
  function Label(faces: seq<Face>, counter: nat): (r: seq<Card>)
    ensures FacesOf(r) == faces
    ensures UniqueIds(r) == FreshIds(counter, |faces|)
  {
    seq(|faces|, i requires 0 <= i < |faces| =>
      Card(faces[i].id, counter + 1 + i, faces[i].src, faces[i].isRevealed))
  }

  /** `array.splice(0, count)` on a fresh array: the removed prefix, which is
      shorter than `count` when the array is. */
  function SplicePrefix<T>(s: seq<T>, count: nat): (r: seq<T>)
    ensures |r| == Min(count, |s|)
    ensures r == s[..|r|]
    ensures multiset(r) <= multiset(s)
  {
    var m := Min(count, |s|);
    assert s == s[..m] + s[m..];
    s[..m]
  }

  /** The duplicate pool: the first `count` faces of a shuffle of `unique`. */
  function Duplicates(unique: seq<Face>, count: nat, rng: Entropy): (dups: seq<Face>)
    ensures |dups| == Min(count, |unique|)
    ensures multiset(dups) <= multiset(unique)
  {
    ShufflePermutes(unique, rng.poolDraws);
    SplicePrefix(Shuffle(unique, rng.poolDraws), count)
  }

  /** The deck dealt from `unique` with `count` duplicates requested. */
  function DealCards(unique: seq<Face>, count: nat, rng: Entropy): (r: Deal)
    ensures |r.cards| == |unique| + Min(count, |unique|)
    ensures r.idCounter == rng.idCounter + |r.cards|
  {
    var labelled := Label(unique + Duplicates(unique, count, rng), rng.idCounter);
    Deal(Shuffle(labelled, rng.layoutDraws), rng.idCounter + |labelled|)
  }

  /** What a deal is: `|unique| + min(count, |unique|)` cards that show every
      face of `unique` and each at most twice as often, with pairwise distinct
      ids all taken fresh from the counter. */
  lemma DealCardsSpec(unique: seq<Face>, count: nat, rng: Entropy)
    ensures var r := DealCards(unique, count, rng);
      && |r.cards| == |unique| + Min(count, |unique|)
      && multiset(unique) <= multiset(FacesOf(r.cards)) <= multiset(unique) + multiset(unique)
      && r.idCounter == rng.idCounter + |r.cards|
      && (forall i :: 0 <= i < |r.cards| ==> rng.idCounter < r.cards[i].uniqueId <= r.idCounter)
      && (forall i, j :: 0 <= i < j < |r.cards| ==> r.cards[i].uniqueId != r.cards[j].uniqueId)
  {
    var r := DealCards(unique, count, rng);
    DealFaces(unique, count, rng);
    DealIds(unique, count, rng);
    var dups := Duplicates(unique, count, rng);
    assert multiset(dups) <= multiset(unique);
  }

  lemma DealFaces(unique: seq<Face>, count: nat, rng: Entropy)
    ensures multiset(FacesOf(DealCards(unique, count, rng).cards))
         == multiset(unique) + multiset(Duplicates(unique, count, rng))
  {
    var dups := Duplicates(unique, count, rng);
    var labelled := Label(unique + dups, rng.idCounter);
    ShuffleMap(labelled, rng.layoutDraws, FaceOf);
    ShufflePermutes(unique + dups, rng.layoutDraws);
  }

  lemma DealIds(unique: seq<Face>, count: nat, rng: Entropy)
    ensures var r := DealCards(unique, count, rng);
      && r.idCounter == rng.idCounter + |r.cards|
      && (forall i :: 0 <= i < |r.cards| ==> rng.idCounter < r.cards[i].uniqueId <= r.idCounter)
      && (forall i, j :: 0 <= i < j < |r.cards| ==> r.cards[i].uniqueId != r.cards[j].uniqueId)
  {
    var r := DealCards(unique, count, rng);
    var ids := UniqueIds(r.cards);
    DealUniqueIds(unique, count, rng);
    ShuffledFreshIds(rng.idCounter, |r.cards|, rng.layoutDraws);
    assert forall i :: 0 <= i < |r.cards| ==> ids[i] == r.cards[i].uniqueId;
  }

  lemma DealUniqueIds(unique: seq<Face>, count: nat, rng: Entropy)
    ensures var r := DealCards(unique, count, rng);
      && r.idCounter == rng.idCounter + |r.cards|
      && UniqueIds(r.cards) == Shuffle(FreshIds(rng.idCounter, |r.cards|), rng.layoutDraws)
  {
    var labelled := Label(unique + Duplicates(unique, count, rng), rng.idCounter);
    ShuffleMap(labelled, rng.layoutDraws, UniqueIdOf);
  }

  /** When the catalog prefix holds no face twice, every face of it appears in
      the deck once or twice and no other face appears. */
  lemma DealCardsFaceCounts(unique: seq<Face>, count: nat, rng: Entropy, f: Face)
    requires Distinct(unique)
    ensures var n := multiset(FacesOf(DealCards(unique, count, rng).cards))[f];
      && (f in unique ==> 1 <= n <= 2)
      && (f !in unique ==> n == 0)
  {
    DealCardsSpec(unique, count, rng);
    DistinctCountsOnce(unique, f);
  }

  /** In a sequence without repetitions every element occurs exactly once. */
  lemma {:induction false} DistinctCountsOnce<T>(s: seq<T>, x: T)
    requires Distinct(s)
    ensures multiset(s)[x] == if x in s then 1 else 0
  {
    if |s| > 0 {
      assert s == [s[0]] + s[1..];
      assert Distinct(s[1..]);
      assert s[0] !in s[1..];
      DistinctCountsOnce(s[1..], x);
    }
  }
}
