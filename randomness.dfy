/** The two lodash primitives the deck generator relies on, `shuffle` and
    `uniqueId`, modelled without committing to lodash's algorithms: a shuffle is
    an arbitrary permutation chosen by a sequence of draws, and `uniqueId` is a
    counter that is incremented before each use. */
module Randomness {

  /** The randomness one call may consume: the value of lodash's id counter when
      the call starts, and the draws of the two shuffles a deck needs. */
  datatype Entropy = Entropy(idCounter: nat, poolDraws: seq<nat>, layoutDraws: seq<nat>)

  /** Some permutation of `s`: `draws[k]` picks which of the elements still
      remaining is placed k-th. A missing or out-of-range draw picks the first
      remaining element, so every sequence of draws yields a permutation. */
  function Shuffle<T>(s: seq<T>, draws: seq<nat>): (r: seq<T>)
    ensures |r| == |s|
    decreases |s|
  {
    if |s| == 0 then []
    else
      var k := Pick(|s|, draws);
      [s[k]] + Shuffle(Without(s, k), Rest(draws))
  }

  /** The index the first draw selects among `n > 0` remaining elements. */
  function Pick(n: nat, draws: seq<nat>): (k: nat)
    requires n > 0
    ensures k < n
    ensures |draws| > 0 && draws[0] < n ==> k == draws[0]
  {
    if |draws| > 0 && draws[0] < n then draws[0] else 0
  }

  function Rest(draws: seq<nat>): seq<nat> {
    if |draws| > 0 then draws[1..] else []
  }

  /** `s` with the element at index `k` taken out. */
  function Without<T>(s: seq<T>, k: nat): (r: seq<T>)
    requires k < |s|
    ensures |r| == |s| - 1
    ensures multiset(r) + multiset{s[k]} == multiset(s)
  {
    assert s == s[..k] + [s[k]] + s[k+1..];
    s[..k] + s[k+1..]
  }

  /** A shuffle rearranges its input: it neither loses nor invents elements. */
  lemma {:induction false} ShufflePermutes<T>(s: seq<T>, draws: seq<nat>)
    ensures multiset(Shuffle(s, draws)) == multiset(s)
    decreases |s|
  {
    if |s| > 0 {
      var k := Pick(|s|, draws);
      ShufflePermutes(Without(s, k), Rest(draws));
    }
  }

  /** Conversely, every rearrangement of `s` is the outcome of some draws, so
      the model leaves the order entirely open, as lodash's `shuffle` does. */
  lemma {:induction false} ShuffleReaches<T>(s: seq<T>, t: seq<T>) returns (draws: seq<nat>)
    requires multiset(t) == multiset(s)
    ensures Shuffle(s, draws) == t
    decreases |s|
  {
    if |s| == 0 {
      assert |t| == |multiset(t)| == 0;
      draws := [];
    } else {
      assert t == [t[0]] + t[1..];
      assert t[0] in multiset(s);
      var k :| 0 <= k < |s| && s[k] == t[0];
      var rest := Without(s, k);
      assert multiset(t[1..]) + multiset{t[0]} == multiset(t);
      CancelOne(multiset(rest), multiset(t[1..]), t[0]);
      var tail := ShuffleReaches(rest, t[1..]);
      draws := [k] + tail;
      assert Pick(|s|, draws) == k && Rest(draws) == tail;
    }
  }

  /** Taking the same element away from two equal multisets leaves equal multisets. */
  lemma CancelOne<T>(a: multiset<T>, b: multiset<T>, x: T)
    requires a + multiset{x} == b + multiset{x}
    ensures a == b
  {
    forall y ensures a[y] == b[y] {
      assert (a + multiset{x})[y] == (b + multiset{x})[y];
    }
  }

  /** Sequences without repeated elements. */
  predicate Distinct<T(==)>(s: seq<T>) {
    forall i, j :: 0 <= i < j < |s| ==> s[i] != s[j]
  }

  /** Taking one element out of a sequence without repetitions leaves one
      without repetitions that no longer holds that element. */
  lemma WithoutKeepsDistinct<T>(s: seq<T>, k: nat)
    requires Distinct(s) && k < |s|
    ensures Distinct(Without(s, k))
    ensures s[k] !in multiset(Without(s, k))
  {
    var rest := Without(s, k);
    assert rest == s[..k] + s[k+1..];
    assert forall i :: 0 <= i < |rest| ==> rest[i] == if i < k then s[i] else s[i + 1];
    assert s[k] !in rest;
  }

  /** Putting an element in front of a sequence without repetitions that does
      not hold it keeps it without repetitions. */
  lemma ConsKeepsDistinct<T>(x: T, tail: seq<T>)
    requires Distinct(tail) && x !in multiset(tail)
    ensures Distinct([x] + tail)
  {
    var r := [x] + tail;
    forall i, j | 0 <= i < j < |r| ensures r[i] != r[j] {
      assert r[j] == tail[j - 1] && tail[j - 1] in multiset(tail);
      if i > 0 {
        assert r[i] == tail[i - 1];
      }
    }
  }

  /** A shuffle of distinct elements stays free of repetitions. */
  lemma {:induction false} ShuffleKeepsDistinct<T>(s: seq<T>, draws: seq<nat>)
    requires Distinct(s)
    ensures Distinct(Shuffle(s, draws))
    decreases |s|
  {
    if |s| > 0 {
      var k := Pick(|s|, draws);
      var rest := Without(s, k);
      WithoutKeepsDistinct(s, k);
      ShuffleKeepsDistinct(rest, Rest(draws));
      ShufflePermutes(rest, Rest(draws));
      ConsKeepsDistinct(s[k], Shuffle(rest, Rest(draws)));
    }
  }

  /** The element-wise image of a sequence under `f`. */
  function MapSeq<T, U>(s: seq<T>, f: T -> U): (r: seq<U>)
    ensures |r| == |s|
    ensures forall i :: 0 <= i < |s| ==> r[i] == f(s[i])
  {
    seq(|s|, i requires 0 <= i < |s| => f(s[i]))
  }

  /** Shuffling commutes with an element-wise map: the same draws applied to
      the mapped sequence give the mapped shuffle. */
  lemma {:induction false} ShuffleMap<T, U>(s: seq<T>, draws: seq<nat>, f: T -> U)
    ensures MapSeq(Shuffle(s, draws), f) == Shuffle(MapSeq(s, f), draws)
    decreases |s|
  {
    if |s| > 0 {
      var k := Pick(|s|, draws);
      assert MapSeq(Without(s, k), f) == Without(MapSeq(s, f), k);
      ShuffleMap(Without(s, k), Rest(draws), f);
    }
  }

  /** `n` successive results of lodash's `uniqueId` when its counter stands at
      `counter`: the counter is incremented before each use. */
  function FreshIds(counter: nat, n: nat): (r: seq<nat>)
    ensures |r| == n
    ensures Distinct(r)
    ensures forall i :: 0 <= i < n ==> counter < r[i] <= counter + n
  {
    seq(n, i requires 0 <= i < n => counter + 1 + i)
  }

  /** Every element of a shuffle comes from the shuffled sequence. */
  lemma ShuffleMember<T>(s: seq<T>, draws: seq<nat>, i: nat)
    requires i < |s|
    ensures Shuffle(s, draws)[i] in s
  {
    ShufflePermutes(s, draws);
    assert Shuffle(s, draws)[i] in multiset(Shuffle(s, draws));
  }

  /** Shuffled ids from the counter are still pairwise distinct and fresh. */
  lemma ShuffledFreshIds(counter: nat, n: nat, draws: seq<nat>)
    ensures var r := Shuffle<nat>(FreshIds(counter, n), draws);
      && Distinct(r)
      && forall i :: 0 <= i < |r| ==> counter < r[i] <= counter + n
  {
    var ids := FreshIds(counter, n);
    var r := Shuffle<nat>(ids, draws);
    ShuffleKeepsDistinct<nat>(ids, draws);
    forall i | 0 <= i < n ensures counter < r[i] <= counter + n {
      ShuffleMember<nat>(ids, draws, i);
      var j :| 0 <= j < n && ids[j] == r[i];
    }
  }
}
