/**
 * The `All` fallback list is put in a random order by sorting it with a
 * random comparator. The model does not commit to any particular ordering:
 * the random outcome is a sequence of draws, and `Shuffle` turns the draws
 * into an ordering by repeatedly picking one of the remaining elements.
 * Every draw sequence yields a permutation, and every permutation is
 * yielded by some draw sequence, so the model admits exactly the
 * permutations of the input.
 */
module Shuffling {

  /** The position chosen among `n` remaining elements: the next draw modulo `n`
      (a missing draw counts as 0). */
  function Pick(draws: seq<nat>, n: nat): (k: nat)
    requires n > 0
    ensures k < n
  {
    if draws == [] then 0 else draws[0] % n
  }

  /** The draws left after one pick. */
  function Later(draws: seq<nat>): seq<nat>
  {
    if draws == [] then [] else draws[1..]
  }

  /** `xs` without position `k`. */
  function Without<T>(xs: seq<T>, k: nat): (r: seq<T>)
    requires k < |xs|
    ensures |r| == |xs| - 1
  {
    xs[..k] + xs[k + 1..]
  }

  /** Puts the picked element first, then shuffles the rest with the remaining draws. */
  function Shuffle<T>(xs: seq<T>, draws: seq<nat>): (r: seq<T>)
    ensures |r| == |xs|
    decreases |xs|
  {
    if xs == [] then []
    else
      var k := Pick(draws, |xs|);
      [xs[k]] + Shuffle(Without(xs, k), Later(draws))
  }

  /** Removing position `k` leaves the multiset minus that one element. */
  lemma RemoveAt<T>(xs: seq<T>, k: nat)
    requires k < |xs|
    ensures multiset(Without(xs, k)) == multiset(xs) - multiset{xs[k]}
  {
    assert xs == xs[..k] + [xs[k]] + xs[k + 1..];
  }

  /** Shuffling only reorders: the result is a permutation of the input. */
  lemma {:induction false} ShufflePermutes<T>(xs: seq<T>, draws: seq<nat>)
    ensures multiset(Shuffle(xs, draws)) == multiset(xs)
    decreases |xs|
  {
    if xs != [] {
      var k := Pick(draws, |xs|);
      ShufflePermutes(Without(xs, k), Later(draws));
      RemoveAt(xs, k);
    }
  }

  /** One step of the shuffle: draw `k` puts `xs[k]` first. */
  lemma {:induction false} ShuffleStep<T>(xs: seq<T>, k: nat, draws: seq<nat>)
    requires k < |xs|
    ensures Shuffle(xs, [k] + draws) == [xs[k]] + Shuffle(Without(xs, k), draws)
  {
    var d := [k] + draws;
    assert d[0] == k && d[1..] == draws;
    assert Pick(d, |xs|) == k;
    assert Later(d) == draws;
  }

  /** The first element of a permutation of a non-empty list comes from that list. */
  lemma {:induction false} PermutationHead<T>(xs: seq<T>, ys: seq<T>)
    requires multiset(ys) == multiset(xs) && xs != []
    ensures ys != [] && ys[0] in xs && ys == [ys[0]] + ys[1..]
    ensures multiset(ys[1..]) == multiset(xs) - multiset{ys[0]}
  {
    assert |ys| == |multiset(ys)| == |xs|;
    assert ys == [ys[0]] + ys[1..];
    assert ys[0] in multiset(xs);
  }

  /** A position holding `y`. */
  lemma PositionOf<T>(xs: seq<T>, y: T) returns (k: nat)
    requires y in xs
    ensures k < |xs| && xs[k] == y
  {
    k :| 0 <= k < |xs| && xs[k] == y;
  }

  /** Every permutation of the input is the outcome of some draws. */
  lemma {:induction false} ShuffleReachesEveryOrder<T>(xs: seq<T>, ys: seq<T>) returns (draws: seq<nat>)
    requires multiset(ys) == multiset(xs)
    ensures Shuffle(xs, draws) == ys
    decreases |xs|
  {
    if xs == [] {
      assert ys == [] by { assert |ys| == |multiset(ys)| == 0; }
      draws := [];
    } else {
      PermutationHead(xs, ys);
      var k := PositionOf(xs, ys[0]);
      var rest := Without(xs, k);
      RemoveAt(xs, k);
      var draws' := ShuffleReachesEveryOrder(rest, ys[1..]);
      ShuffleStep(xs, k, draws');
      draws := [k] + draws';
    }
  }

  /** A property held by every element holds of every element after shuffling. */
  lemma ShuffleMembers<T>(xs: seq<T>, draws: seq<nat>)
    ensures forall x :: x in Shuffle(xs, draws) <==> x in xs
    ensures forall i :: 0 <= i < |xs| ==> Shuffle(xs, draws)[i] in xs
  {
    ShufflePermutes(xs, draws);
    forall x ensures x in Shuffle(xs, draws) <==> x in xs {
      assert x in Shuffle(xs, draws) <==> x in multiset(Shuffle(xs, draws));
      assert x in xs <==> x in multiset(xs);
    }
    forall i | 0 <= i < |xs| ensures Shuffle(xs, draws)[i] in xs {
      assert Shuffle(xs, draws)[i] in Shuffle(xs, draws);
    }
  }

  /** Removing position `k` from a list with pairwise-distinct keys leaves a list with
      pairwise-distinct keys, none of them the key of the removed element. */
  lemma RemoveAtKeysDistinct<T, K>(xs: seq<T>, k: nat, key: T -> K)
    requires k < |xs|
    requires forall i, j :: 0 <= i < j < |xs| ==> key(xs[i]) != key(xs[j])
    ensures var rest := Without(xs, k);
            (forall i, j :: 0 <= i < j < |rest| ==> key(rest[i]) != key(rest[j])) &&
            (forall y :: y in rest ==> key(y) != key(xs[k]))
  {
    var rest := Without(xs, k);
    forall i, j | 0 <= i < j < |rest| ensures key(rest[i]) != key(rest[j]) {
      var i' := if i < k then i else i + 1;
      var j' := if j < k then j else j + 1;
      assert rest[i] == xs[i'] && rest[j] == xs[j'];
    }
    forall y | y in rest ensures key(y) != key(xs[k]) {
      var m :| 0 <= m < |rest| && rest[m] == y;
      var m' := if m < k then m else m + 1;
      assert rest[m] == xs[m'] && m' != k;
    }
  }

  /** Putting an element with a new key in front of a list with distinct keys
      keeps the keys distinct. */
  lemma ConsKeysDistinct<T, K>(x: T, s: seq<T>, key: T -> K)
    requires forall i, j :: 0 <= i < j < |s| ==> key(s[i]) != key(s[j])
    requires forall i :: 0 <= i < |s| ==> key(s[i]) != key(x)
    ensures forall i, j :: 0 <= i < j < |[x] + s| ==> key(([x] + s)[i]) != key(([x] + s)[j])
  {
    var r := [x] + s;
    forall i, j | 0 <= i < j < |r| ensures key(r[i]) != key(r[j]) {
      assert r[j] == s[j - 1];
      if i > 0 {
        assert r[i] == s[i - 1];
      }
    }
  }

  /** Shuffling maps distinct positions to distinct positions: if no two positions
      share a key, no two positions of the shuffle do. */
  lemma {:induction false} ShuffleKeepsKeysDistinct<T, K>(xs: seq<T>, draws: seq<nat>, key: T -> K)
    requires forall i, j :: 0 <= i < j < |xs| ==> key(xs[i]) != key(xs[j])
    ensures forall i, j :: 0 <= i < j < |xs| ==> key(Shuffle(xs, draws)[i]) != key(Shuffle(xs, draws)[j])
    decreases |xs|
  {
    if xs != [] {
      var k := Pick(draws, |xs|);
      var draws' := Later(draws);
      var rest := Without(xs, k);
      RemoveAtKeysDistinct(xs, k, key);
      ShuffleKeepsKeysDistinct(rest, draws', key);
      ShuffleMembers(rest, draws');
      var s := Shuffle(rest, draws');
      assert forall i :: 0 <= i < |s| ==> key(s[i]) != key(xs[k]);
      ConsKeysDistinct(xs[k], s, key);
      assert Shuffle(xs, draws) == [xs[k]] + s;
    }
  }
}
