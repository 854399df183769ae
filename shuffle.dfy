/** The in-place Fisher-Yates shuffle of the deck. The random number generator is a
    parameter: the k-th number it draws is `rolls(k)`, a real in [0, 1). */
module Shuffle {

  type RandomSource = nat -> real

  /** Every number the generator draws lies in [0, 1). */
  ghost predicate UnitInterval(rolls: RandomSource)
  {
    forall k: nat :: 0.0 <= rolls(k) < 1.0
  }

  /** The random index picked among `current` positions: the floor of roll * current. */
  function Pick(roll: real, current: nat): (j: int)
    requires 0.0 <= roll < 1.0 && current > 0
    ensures 0 <= j < current
  {
    assert roll * (current as real) < current as real by {
      assert (current as real) - roll * (current as real) == (1.0 - roll) * (current as real);
    }
    (roll * (current as real)).Floor
  }

  /** `s` with the elements at positions i and j exchanged. */
  function Swap<T>(s: seq<T>, i: nat, j: nat): (r: seq<T>)
    requires i < |s| && j < |s|
    ensures |r| == |s| && r[i] == s[j] && r[j] == s[i]
    ensures forall k :: 0 <= k < |s| && k != i && k != j ==> r[k] == s[k]
  {
    s[i := s[j]][j := s[i]]
  }

  /** The order the shuffle leaves when `current` positions remain to be visited and
      `drawn` numbers have already been drawn from the generator. */
  function FisherYates<T>(s: seq<T>, current: nat, rolls: RandomSource, drawn: nat): (r: seq<T>)
    requires current <= |s| && UnitInterval(rolls)
    ensures |r| == |s|
    decreases current
  {
    if current == 0 then s
    else FisherYates(Swap(s, current - 1, Pick(rolls(drawn), current)), current - 1, rolls, drawn + 1)
  }

  lemma SwapPermutes<T>(s: seq<T>, i: nat, j: nat)
    requires i < |s| && j < |s|
    ensures multiset(Swap(s, i, j)) == multiset(s)
  {
  }

  /** The shuffle is a permutation: it keeps exactly the cards it was given. */
  lemma {:induction false} FisherYatesPermutes<T>(s: seq<T>, current: nat, rolls: RandomSource, drawn: nat)
    requires current <= |s| && UnitInterval(rolls)
    ensures multiset(FisherYates(s, current, rolls, drawn)) == multiset(s)
    decreases current
  {
    if current > 0 {
      var j := Pick(rolls(drawn), current);
      SwapPermutes(s, current - 1, j);
      FisherYatesPermutes(Swap(s, current - 1, j), current - 1, rolls, drawn + 1);
    }
  }

  /** An empty or one-card deck is left as it is, whatever the generator draws. */
  lemma ShortDeckUnchanged<T>(s: seq<T>, rolls: RandomSource)
    requires |s| <= 1 && UnitInterval(rolls)
    ensures FisherYates(s, |s|, rolls, 0) == s
  {
  }

  /** Exchanges a[i] and a[j] through a temporary, as the shuffle's loop body does. */
  method SwapInPlace<T>(a: array<T>, i: nat, j: nat)
    requires i < a.Length && j < a.Length
    modifies a
    ensures a[..] == Swap(old(a[..]), i, j)
  {
    var temporaryValue := a[i];
    a[i] := a[j];
    a[j] := temporaryValue;
  }

  /** Shuffles `a` in place: visits every position from the last down to the first and swaps
      it with a position picked at random among those not yet visited (itself included). */
  method ShuffleCards<T>(a: array<T>, rolls: RandomSource)
    requires UnitInterval(rolls)
    modifies a
    ensures a[..] == FisherYates(old(a[..]), a.Length, rolls, 0)
    ensures multiset(a[..]) == multiset(old(a[..]))
  {
    var currentIndex := a.Length;
    var drawn := 0;
    while currentIndex != 0
      invariant 0 <= currentIndex <= a.Length
      invariant drawn == a.Length - currentIndex
      invariant FisherYates(a[..], currentIndex, rolls, drawn) == FisherYates(old(a[..]), a.Length, rolls, 0)
    {
      var randomIndex := Pick(rolls(drawn), currentIndex);
      drawn := drawn + 1;
      currentIndex := currentIndex - 1;
      assert 0 <= randomIndex <= currentIndex;
      SwapInPlace(a, currentIndex, randomIndex);
    }
    // the loop makes one draw per card
    assert drawn == a.Length;
    FisherYatesPermutes(old(a[..]), a.Length, rolls, 0);
  }
}
