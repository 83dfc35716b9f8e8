/** The stochastic behaviour selector of js/character.ts: the label lists, the
    transition matrices and `nextAction`. */
module Behavior {
  import opened Wrappers
  import opened Markov

  const ANIMATION_NAMES: seq<string> := ["Relax", "Interact", "Move", "Sit", "Sleep"]
  const ANIMATION_MARKOV: seq<seq<real>> := [
    [0.5, 0.0, 0.25, 0.15, 0.1],
    [1.0, 0.0, 0.0, 0.0, 0.0],
    [0.3, 0.0, 0.7, 0.0, 0.0],
    [0.5, 0.0, 0.0, 0.5, 0.0],
    [0.3, 0.0, 0.0, 0.0, 0.7]
  ]

  /** A vehicle has no Sit or Sleep poses. */
  const ANIMATION_NAMES_VEHICLE: seq<string> := ["Relax", "Interact", "Move"]
  const ANIMATION_MARKOV_VEHICLE: seq<seq<real>> := [
    [0.5, 0.0, 0.5],
    [1.0, 0.0, 0.0],
    [0.3, 0.0, 0.7]
  ]

  /** The playing behaviour: label, facing, seconds since it started. */
  datatype Action = Action(animation: string, direction: Direction, timestamp: real)

  /** Why `nextAction` throws: the label has no row (`indexOf` gives -1, the
      row is `undefined` and `randomPick` fails on it), or the row never
      reaches the sample ("Invalid probabilities"). */
  datatype SelectError = UnknownAnimation | InvalidProbabilities

  /** A transition matrix over `names`: square, non-negative, rows summing to 1. */
  ghost predicate Stochastic(names: seq<string>, markov: seq<seq<real>>)
  {
    && |markov| == |names|
    && (forall i :: 0 <= i < |markov| ==> |markov[i]| == |names| && Total(markov[i]) == 1.0)
    && (forall i, j :: 0 <= i < |markov| && 0 <= j < |markov[i]| ==> markov[i][j] >= 0.0)
  }

  /** No label occurs twice. */
  ghost predicate Distinct(names: seq<string>)
  {
    forall i, j :: 0 <= i < j < |names| ==> names[i] != names[j]
  }

  /** `getAnimationNames`: the label list in effect for the loaded model. */
  function AnimationNames(isVehicle: bool): (names: seq<string>)
    ensures |names| >= 3
    ensures names[0] == "Relax" && names[1] == "Interact" && names[2] == "Move"
    ensures ("Sit" in names) == ("Sleep" in names) == !isVehicle
  {
    if isVehicle then ANIMATION_NAMES_VEHICLE else ANIMATION_NAMES
  }

  /** No label occurs twice in either list, so a label names one row of the
      matrix. */
  lemma AnimationNamesDistinct(isVehicle: bool)
    ensures Distinct(AnimationNames(isVehicle))
  {
  }

  /** `getAnimationMarkov`: the transition matrix in effect for the loaded model. */
  function AnimationMarkov(isVehicle: bool): (markov: seq<seq<real>>)
    ensures Stochastic(AnimationNames(isVehicle), markov)
    ensures forall i :: 0 <= i < |markov| ==> markov[i][1] == 0.0
  {
    RowsSumToOne();
    if isVehicle then ANIMATION_MARKOV_VEHICLE else ANIMATION_MARKOV
  }

  /** Every row of both shipped matrices sums to exactly 1. */
  lemma RowsSumToOne()
    ensures forall i :: 0 <= i < |ANIMATION_MARKOV| ==> Total(ANIMATION_MARKOV[i]) == 1.0
    ensures forall i :: 0 <= i < |ANIMATION_MARKOV_VEHICLE| ==> Total(ANIMATION_MARKOV_VEHICLE[i]) == 1.0
  {
    forall i | 0 <= i < |ANIMATION_MARKOV|
      ensures Total(ANIMATION_MARKOV[i]) == 1.0
    {
      var row := ANIMATION_MARKOV[i];
      assert RunningTotal(row, 4) == row[0] + row[1] + row[2] + row[3] + row[4];
    }
    forall i | 0 <= i < |ANIMATION_MARKOV_VEHICLE|
      ensures Total(ANIMATION_MARKOV_VEHICLE[i]) == 1.0
    {
      var row := ANIMATION_MARKOV_VEHICLE[i];
      assert RunningTotal(row, 2) == row[0] + row[1] + row[2];
    }
  }

  /** `Array.prototype.indexOf`: the first position of `target`, or -1. */
  function IndexOf(names: seq<string>, target: string): (i: int)
    ensures -1 <= i < |names|
    ensures i >= 0 ==> names[i] == target && forall j :: 0 <= j < i ==> names[j] != target
    ensures i == -1 <==> target !in names
  {
    if |names| == 0 then -1
    else if names[0] == target then 0
    else
      var k := IndexOf(names[1..], target);
      if k < 0 then -1 else k + 1
  }

  /** `nextAction` with its two `Math.random()` draws passed in: `pick` feeds
      `randomPick`, `turn` decides the flip on Relax -> Move (the source draws
      it only in that case). */
  function NextAction(isVehicle: bool, current: Action, pick: real, turn: real): (r: Result<Action, SelectError>)
    ensures r.Success? ==> r.value.animation in AnimationNames(isVehicle) && r.value.timestamp == 0.0
    ensures current.animation !in AnimationNames(isVehicle) ==> r == Failure(UnknownAnimation)
    ensures current.animation in AnimationNames(isVehicle) && 0.0 <= pick < 1.0 ==> r.Success?
  {
    var names := AnimationNames(isVehicle);
    var animeIndex := IndexOf(names, current.animation);
    if animeIndex < 0 then Failure(UnknownAnimation)
    else
      var markov := AnimationMarkov(isVehicle);
      var nextIndexProb := markov[animeIndex];
      assert 0.0 <= pick < 1.0 ==> Pick(nextIndexProb, pick).Some? by {
        if 0.0 <= pick < 1.0 {
          PickSucceedsWhenCovered(nextIndexProb, pick);
        }
      }
      match Pick(nextIndexProb, pick)
      case None => Failure(InvalidProbabilities)
      case Some(nextAnimIndex) =>
        var nextAnim := names[nextAnimIndex];
        Success(Action(nextAnim, NextDirection(current, nextAnim, turn), 0.0))
  }

  /** The facing of the next action: it flips only on Relax -> Move, and then
      exactly when the second sample is below 0.4. */
  function NextDirection(current: Action, nextAnim: string, turn: real): (d: Direction)
    ensures d != current.direction <==> current.animation == "Relax" && nextAnim == "Move" && turn < 0.4
    ensures d != current.direction ==> d == TurnDirection(current.direction)
  {
    if current.animation == "Relax" && nextAnim == "Move" && turn < 0.4 then TurnDirection(current.direction)
    else current.direction
  }

  /** Only Relax -> Move may change the facing, and it does so exactly when the
      second sample is below 0.4. */
  lemma NextActionDirection(isVehicle: bool, current: Action, pick: real, turn: real)
    ensures var r := NextAction(isVehicle, current, pick, turn);
            r.Success? ==>
              && ((r.value.direction != current.direction) <==>
                    (current.animation == "Relax" && r.value.animation == "Move" && turn < 0.4))
              && (r.value.direction != current.direction ==> r.value.direction == TurnDirection(current.direction))
  {
    var r := NextAction(isVehicle, current, pick, turn);
    if r.Success? {
      assert r.value.direction == NextDirection(current, r.value.animation, turn);
    }
  }

  /** The next label is drawn from the current label's row of the matrix: it
      is the first label whose running total in that row reaches the sample. */
  lemma NextActionFollowsRow(isVehicle: bool, current: Action, pick: real, turn: real)
    ensures var names := AnimationNames(isVehicle);
            var r := NextAction(isVehicle, current, pick, turn);
            r.Success? ==>
              var row := AnimationMarkov(isVehicle)[IndexOf(names, current.animation)];
              var k := IndexOf(names, r.value.animation);
              && 0 <= k
              && pick <= RunningTotal(row, k)
              && forall j :: 0 <= j < k ==> RunningTotal(row, j) < pick
  {
    var names := AnimationNames(isVehicle);
    var r := NextAction(isVehicle, current, pick, turn);
    if r.Success? {
      var row := AnimationMarkov(isVehicle)[IndexOf(names, current.animation)];
      var k := Pick(row, pick).value;
      assert r.value.animation == names[k];
      AnimationNamesDistinct(isVehicle);
      IndexOfDistinct(names, k);
    }
  }

  /** In a list without duplicates, the position of the k-th label is k. */
  lemma IndexOfDistinct(names: seq<string>, k: nat)
    requires Distinct(names) && k < |names|
    ensures IndexOf(names, names[k]) == k
  {
  }

  /** Interact has probability 0 in every row, so the selector never picks it:
      it is reached only by a click. */
  lemma NextActionNeverInteract(isVehicle: bool, current: Action, pick: real, turn: real)
    requires 0.0 <= pick < 1.0
    ensures var r := NextAction(isVehicle, current, pick, turn);
            r.Success? ==> r.value.animation != "Interact"
  {
  }

  /** After Interact the selector always returns to Relax, facing unchanged. */
  lemma InteractReturnsToRelax(isVehicle: bool, d: Direction, t: real, pick: real, turn: real)
    requires 0.0 <= pick < 1.0
    ensures NextAction(isVehicle, Action("Interact", d, t), pick, turn) == Success(Action("Relax", d, 0.0))
  {
  }

  /** From Move (row [0.3, 0, 0.7, 0, 0]) sample 0.1 gives Relax and sample 0.5
      keeps Move, facing unchanged. */
  lemma MoveRowExamples(d: Direction, turn: real)
    ensures NextAction(false, Action("Move", d, 3.0), 0.1, turn) == Success(Action("Relax", d, 0.0))
    ensures NextAction(false, Action("Move", d, 3.0), 0.5, turn) == Success(Action("Move", d, 0.0))
  {
  }
}
