/** Roulette-wheel selection over one row of a transition matrix, and the two
    facing directions. js/character.ts (as private methods) and js/app.ts (as
    module-level functions) carry copies of `randomPick` and `turnDirection`
    with identical bodies; both are modelled here once. */
module Markov {
  import opened Wrappers

  /** Which way the character faces; a left-facing skeleton is mirrored. */
  datatype Direction = Left | Right

  function TurnDirection(current: Direction): (turned: Direction)
    ensures turned != current
  {
    if current == Left then Right else Left
  }

  lemma TurnDirectionInvolution(d: Direction)
    ensures TurnDirection(TurnDirection(d)) == d
  {
  }

  /** The accumulator of `randomPick` right after it has added `p[i]`:
      `p[0] + ... + p[i]`, summed left to right. */
  function RunningTotal(p: seq<real>, i: nat): real
    requires i < |p|
  {
    if i == 0 then p[0] else RunningTotal(p, i - 1) + p[i]
  }

  /** The sum of a whole row (0 for an empty one). */
  function Total(p: seq<real>): real
  {
    if |p| == 0 then 0.0 else RunningTotal(p, |p| - 1)
  }

  /** Roulette-wheel selection continued from index `i`: the first `j >= i`
      whose running total reaches the sample, or None when none does. */
  function PickFrom(p: seq<real>, sample: real, i: nat): (res: Option<nat>)
    requires i <= |p|
    decreases |p| - i
    ensures res.Some? ==> i <= res.value < |p| && sample <= RunningTotal(p, res.value)
    ensures res.Some? ==> forall j :: i <= j < res.value ==> RunningTotal(p, j) < sample
    ensures res.None? <==> forall j :: i <= j < |p| ==> RunningTotal(p, j) < sample
  {
    if i == |p| then None
    else if sample <= RunningTotal(p, i) then Some(i)
    else PickFrom(p, sample, i + 1)
  }

  /** Roulette-wheel selection: the smallest index whose running total is at
      least the sample; None stands for the "Invalid probabilities" error. */
  function Pick(p: seq<real>, sample: real): (res: Option<nat>)
    ensures res.Some? ==> res.value < |p| && sample <= RunningTotal(p, res.value)
    ensures res.Some? ==> forall j :: 0 <= j < res.value ==> RunningTotal(p, j) < sample
    ensures res.None? <==> forall j :: 0 <= j < |p| ==> RunningTotal(p, j) < sample
  {
    PickFrom(p, sample, 0)
  }

  /** `randomPick` with its `Math.random()` draw passed in as `random`. The loop
      accumulates `cumulativeProb` exactly as the source does; None is the
      thrown "Invalid probabilities" error. */
  method RandomPick(probabilities: seq<real>, random: real) returns (res: Option<nat>)
    ensures res.Some? ==> res.value < |probabilities| && random <= RunningTotal(probabilities, res.value)
    ensures res.Some? ==> forall j :: 0 <= j < res.value ==> RunningTotal(probabilities, j) < random
    ensures res.None? ==> forall j :: 0 <= j < |probabilities| ==> RunningTotal(probabilities, j) < random
    ensures res == Pick(probabilities, random)
  {
    var cumulativeProb := 0.0;
    var i := 0;
    while i < |probabilities|
      invariant 0 <= i <= |probabilities|
      invariant cumulativeProb == if i == 0 then 0.0 else RunningTotal(probabilities, i - 1)
      invariant forall j :: 0 <= j < i ==> RunningTotal(probabilities, j) < random
    {
      cumulativeProb := cumulativeProb + probabilities[i];
      if random <= cumulativeProb {
        return Some(i);
      }
      i := i + 1;
    }
    return None;
  }

  /** A non-empty row whose total reaches the sample never makes the
      selection fail. */
  lemma PickSucceedsWhenCovered(p: seq<real>, sample: real)
    requires |p| > 0 && sample <= Total(p)
    ensures Pick(p, sample).Some?
  {
  }

  /** With a positive sample, the selected entry has positive weight: an entry
      of probability 0 can never be chosen. */
  lemma {:induction false} PickedWeightPositive(p: seq<real>, sample: real)
    requires 0.0 < sample && Pick(p, sample).Some?
    ensures p[Pick(p, sample).value] > 0.0
  {
    var k := Pick(p, sample).value;
    if k > 0 {
      assert RunningTotal(p, k - 1) < sample;
      assert RunningTotal(p, k) == RunningTotal(p, k - 1) + p[k];
    }
  }

  /** A zero sample always selects the first entry of a row whose first
      entry is not negative. */
  lemma PickZeroSample(p: seq<real>)
    requires |p| > 0 && p[0] >= 0.0
    ensures Pick(p, 0.0) == Some(0)
  {
  }
}
