/**
 * Turning one frame's pose-model output into the monitor's view of it:
 * the best class (first strict maximum of the class probabilities), the
 * rounded percentage shown and handed to the notifier, and the test that
 * decides whether the best class is a fall.
 *
 * Probabilities are the model's floating-point numbers; here they are exact
 * reals.
 */
module Detection {

  /** One entry of the pose model's prediction list. */
  datatype Prediction = Prediction(className: string, probability: real)

  /** The pair the selection loop carries: highest probability so far and its class. */
  datatype Best = Best(probability: real, className: string)

  /** The selection before any entry is seen: probability 0 and no class. */
  const NoBest: Best := Best(0.0, "")

  /**
   * Specification of the selection loop: the state after scanning `preds`
   * from left to right, replacing the current best only on a strictly
   * higher probability.
   */
  function BestClass(preds: seq<Prediction>): (r: Best)
    ensures 0.0 <= r.probability
    ensures r == NoBest || r.probability > 0.0
    decreases |preds|
  {
    if preds == [] then NoBest
    else
      var b := BestClass(preds[..|preds| - 1]);
      var p := preds[|preds| - 1];
      if p.probability > b.probability then Best(p.probability, p.className) else b
  }

  /** Entry `k` attains the maximum, and no earlier entry does. */
  ghost predicate FirstMaximumAt(preds: seq<Prediction>, k: int)
  {
    && 0 <= k < |preds|
    && (forall j :: 0 <= j < |preds| ==> preds[j].probability <= preds[k].probability)
    && (forall j :: 0 <= j < k ==> preds[j].probability < preds[k].probability)
  }

  /** No entry has a positive probability (this includes the empty list). */
  ghost predicate NonePositive(preds: seq<Prediction>)
  {
    forall j :: 0 <= j < |preds| ==> preds[j].probability <= 0.0
  }

  /**
   * Independent description of the selection: when no probability is
   * positive the result is probability 0 with the empty class; otherwise it
   * is the entry at the first index attaining the maximum.
   */
  ghost predicate IsFirstMaximum(preds: seq<Prediction>, b: Best)
  {
    if NonePositive(preds) then b == NoBest
    else exists k :: FirstMaximumAt(preds, k) && b == Best(preds[k].probability, preds[k].className)
  }

  /** The loop's result is at least every probability and never negative. */
  lemma {:induction false} BestClassBounds(preds: seq<Prediction>)
    ensures 0.0 <= BestClass(preds).probability
    ensures forall j :: 0 <= j < |preds| ==> preds[j].probability <= BestClass(preds).probability
    decreases |preds|
  {
    if preds != [] {
      var init := preds[..|preds| - 1];
      BestClassBounds(init);
      forall j | 0 <= j < |preds| - 1
        ensures preds[j].probability <= BestClass(preds).probability
      {
        assert preds[j] == init[j];
      }
    }
  }

  /** A last entry strictly above a bound on all earlier ones is the first maximum. */
  lemma LastIsFirstMaximum(preds: seq<Prediction>, bound: real)
    requires |preds| > 0
    requires forall j :: 0 <= j < |preds| - 1 ==> preds[j].probability <= bound
    requires bound < preds[|preds| - 1].probability
    ensures FirstMaximumAt(preds, |preds| - 1)
  {
  }

  /** A first maximum of the prefix stays one when the new entry is not above it. */
  lemma FirstMaximumExtend(init: seq<Prediction>, p: Prediction, k: int)
    requires FirstMaximumAt(init, k)
    requires p.probability <= init[k].probability
    ensures FirstMaximumAt(init + [p], k)
  {
    var preds := init + [p];
    assert forall j :: 0 <= j < |init| ==> preds[j] == init[j];
  }

  /** The loop computes the first maximum (ties go to the earliest entry). */
  lemma {:induction false} BestClassIsFirstMaximum(preds: seq<Prediction>)
    ensures IsFirstMaximum(preds, BestClass(preds))
    decreases |preds|
  {
    if preds != [] {
      var n := |preds|;
      var init := preds[..n - 1];
      var b := BestClass(init);
      var p := preds[n - 1];
      assert preds == init + [p];
      BestClassIsFirstMaximum(init);
      BestClassBounds(init);
      if p.probability > b.probability {
        LastIsFirstMaximum(preds, b.probability);
        assert !NonePositive(preds) by { assert preds[n - 1].probability > 0.0; }
      } else if NonePositive(init) {
        assert NonePositive(preds) by {
          forall j | 0 <= j < n ensures preds[j].probability <= 0.0 {
            if j < n - 1 { assert preds[j] == init[j]; }
          }
        }
      } else {
        var k :| FirstMaximumAt(init, k) && b == Best(init[k].probability, init[k].className);
        FirstMaximumExtend(init, p, k);
        assert preds[k] == init[k];
        assert !NonePositive(preds) by { assert preds[k].probability > 0.0; }
      }
    }
  }

  /** The description pins the result down: at most one pair satisfies it. */
  lemma FirstMaximumUnique(preds: seq<Prediction>, b1: Best, b2: Best)
    requires IsFirstMaximum(preds, b1) && IsFirstMaximum(preds, b2)
    ensures b1 == b2
  {
    if !NonePositive(preds) {
      var k1 :| FirstMaximumAt(preds, k1) && b1 == Best(preds[k1].probability, preds[k1].className);
      var k2 :| FirstMaximumAt(preds, k2) && b2 == Best(preds[k2].probability, preds[k2].className);
      assert k1 == k2;
    }
  }

  /**
   * The selection loop of `predict`: starts from probability 0 and the empty
   * class and replaces them whenever an entry is strictly higher.
   */
  method SelectBest(preds: seq<Prediction>) returns (highestProb: real, bestClassName: string)
    ensures Best(highestProb, bestClassName) == BestClass(preds)
    ensures IsFirstMaximum(preds, Best(highestProb, bestClassName))
  {
    highestProb := 0.0;
    bestClassName := "";
    for i := 0 to |preds|
      invariant Best(highestProb, bestClassName) == BestClass(preds[..i])
    {
      assert preds[..i + 1][..i] == preds[..i];
      if preds[i].probability > highestProb {
        highestProb := preds[i].probability;
        bestClassName := preds[i].className;
      }
    }
    assert preds[..|preds|] == preds;
    BestClassIsFirstMaximum(preds);
  }

  /**
   * `Math.round(p * 100)`: the nearest integer to `p * 100`, halves rounded
   * up.
   */
  function ProbPercent(p: real): (r: int)
    ensures p * 100.0 - 0.5 < r as real <= p * 100.0 + 0.5
    ensures 0.0 <= p <= 1.0 ==> 0 <= r <= 100
  {
    (p * 100.0 + 0.5).Floor
  }

  /**
   * The alert test of `predict`: the best class is one of the labels the
   * pose model uses for a person who has fallen.
   */
  predicate IsFallLabel(className: string): (alert: bool)
    ensures alert ==> className != ""
  {
    className == "Fall" || className == "転倒" || className == "倒れている"
  }
}
