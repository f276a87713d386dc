/** The decision part of `make_prediction`: given the classifier's probability row
    (aligned with its class labels) and the configured threshold, answer the
    class of `max(zip(probs, classes))` when `max(probs) - mean(probs)` exceeds
    the threshold, and the reserved label "other" otherwise. Probabilities are
    exact reals. */
module ConfidenceGate {
  import opened StringOrder

  /** The reserved label for documents the gate does not accept. */
  const Other: string := "other"

  function Sum(xs: seq<real>): real {
    if xs == [] then 0.0 else xs[0] + Sum(xs[1..])
  }

  /** `np.max`: the largest entry of a non-empty row. */
  function Max(xs: seq<real>): (m: real)
    requires |xs| > 0
    ensures m in xs
    ensures forall i :: 0 <= i < |xs| ==> xs[i] <= m
  {
    if |xs| == 1 then xs[0]
    else
      var rest := Max(xs[1..]);
      if xs[0] >= rest then xs[0] else rest
  }

  /** `np.mean`: the sum divided by the number of entries. */
  function Mean(xs: seq<real>): real
    requires |xs| > 0
  {
    Sum(xs) / (|xs| as real)
  }

  /** A row whose entries are at most `m` sums to at most `|xs| * m`. */
  lemma {:induction false} SumAtMost(xs: seq<real>, m: real)
    requires forall i :: 0 <= i < |xs| ==> xs[i] <= m
    ensures Sum(xs) <= |xs| as real * m
    decreases |xs|
  {
    if xs != [] {
      SumAtMost(xs[1..], m);
    }
  }

  /** A row whose entries all equal `v` sums to `|xs| * v`. */
  lemma {:induction false} SumConstant(xs: seq<real>, v: real)
    requires forall i :: 0 <= i < |xs| ==> xs[i] == v
    ensures Sum(xs) == |xs| as real * v
    decreases |xs|
  {
    if xs != [] {
      SumConstant(xs[1..], v);
    }
  }

  /** Dividing a total of at most `n * m` by `n` gives at most `m`. */
  lemma DivideBound(total: real, n: real, m: real)
    requires n > 0.0 && total <= n * m
    ensures total / n <= m
  {
    var q := total / n;
    assert q * n == total;
    if q > m {
      assert q * n > m * n;
    }
  }

  /** The mean never exceeds the maximum. */
  lemma MeanAtMostMax(xs: seq<real>)
    requires |xs| > 0
    ensures Mean(xs) <= Max(xs)
  {
    var m, total, n := Max(xs), Sum(xs), |xs| as real;
    SumAtMost(xs, m);
    DivideBound(total, n, m);
    assert Mean(xs) == total / n;
  }

  /** `max(probs) - mean(probs)`: how far the top probability stands above the
      average. It is never negative. */
  function Spread(probs: seq<real>): (d: real)
    requires |probs| > 0
    ensures d >= 0.0
  {
    MeanAtMostMax(probs);
    Max(probs) - Mean(probs)
  }

  /** Python's tuple comparison `(p1, c1) > (p2, c2)`: the probabilities decide,
      and on equal probabilities the greater class name wins. */
  predicate PairGreater(p1: real, c1: string, p2: real, c2: string) {
    p1 > p2 || (p1 == p2 && Less(c2, c1))
  }

  /** Position `k` holds the pair `max(zip(...))` must return: the highest
      probability, and among the positions sharing it, the greatest class name. */
  ghost predicate IsTopChoice(probs: seq<real>, classes: seq<string>, k: int)
    requires |probs| == |classes|
  {
    && 0 <= k < |probs|
    && (forall j :: 0 <= j < |probs| ==> probs[j] <= probs[k])
    && (forall j :: 0 <= j < |probs| && probs[j] == probs[k] ==> classes[j] == classes[k] || Less(classes[j], classes[k]))
  }

  /** `max(zip(probs, classes))` over the first `n` pairs: the builtin `max` scans
      left to right and replaces its current best only by a strictly greater pair.
      The position it ends on is a top choice among those pairs. */
  function BestIndex(probs: seq<real>, classes: seq<string>, n: nat): (k: nat)
    requires 0 < n <= |probs| == |classes|
    ensures k < n
    ensures forall j :: 0 <= j < n ==> probs[j] <= probs[k]
    ensures forall j :: 0 <= j < n && probs[j] == probs[k] ==> classes[j] == classes[k] || Less(classes[j], classes[k])
  {
    if n == 1 then 0
    else
      var b := BestIndex(probs, classes, n - 1);
      var last := n - 1;
      if PairGreater(probs[last], classes[last], probs[b], classes[b]) then
        assert forall j :: 0 <= j < n && probs[j] == probs[last] ==> classes[j] == classes[last] || Less(classes[j], classes[last]) by {
          forall j | 0 <= j < last && probs[j] == probs[last] && classes[j] != classes[last]
            ensures Less(classes[j], classes[last])
          {
            if classes[j] != classes[b] {
              LessTransitive(classes[j], classes[b], classes[last]);
            }
          }
        }
        last
      else
        assert probs[last] == probs[b] && classes[last] != classes[b] ==> Less(classes[last], classes[b]) by {
          if probs[last] == probs[b] && classes[last] != classes[b] {
            LessTotal(classes[last], classes[b]);
          }
        }
        b
  }

  /** The gate of `make_prediction` for a probability row aligned with the
      classifier's labels. A flat row gives "other"; a peaked one gives one of
      the classifier's own labels. */
  function Decide(probs: seq<real>, classes: seq<string>, threshold: real): (answer: string)
    requires 0 < |probs| == |classes|
    ensures Spread(probs) <= threshold ==> answer == Other
    ensures Spread(probs) > threshold ==> answer in classes
  {
    if Spread(probs) > threshold then classes[BestIndex(probs, classes, |probs|)] else Other
  }

  /** Two top choices name the same class, so the tie-break by greatest class name
      leaves no freedom. */
  lemma TopChoiceUnique(probs: seq<real>, classes: seq<string>, k1: int, k2: int)
    requires |probs| == |classes|
    requires IsTopChoice(probs, classes, k1) && IsTopChoice(probs, classes, k2)
    ensures classes[k1] == classes[k2]
    ensures probs[k1] == Max(probs)
  {
    LessAsymmetric(classes[k1], classes[k2]);
    var m := Max(probs);
    var i :| 0 <= i < |probs| && probs[i] == m;
  }

  /** When the gate accepts, it answers the class of a top choice: the class with
      the maximal probability, the greatest name among classes that share it. */
  lemma DecideAnswersTopChoice(probs: seq<real>, classes: seq<string>, threshold: real, k: int)
    requires 0 < |probs| == |classes|
    requires IsTopChoice(probs, classes, k)
    ensures Decide(probs, classes, threshold) == if Spread(probs) > threshold then classes[k] else Other
  {
    var b := BestIndex(probs, classes, |probs|);
    TopChoiceUnique(probs, classes, k, b);
  }

  /** A top choice always exists. */
  lemma TopChoiceExists(probs: seq<real>, classes: seq<string>)
    requires 0 < |probs| == |classes|
    ensures IsTopChoice(probs, classes, BestIndex(probs, classes, |probs|))
  {
  }

  /** If no class is itself named "other", the gate answers "other" exactly when
      the spread does not exceed the threshold. */
  lemma DecideOtherIff(probs: seq<real>, classes: seq<string>, threshold: real)
    requires 0 < |probs| == |classes|
    requires Other !in classes
    ensures Decide(probs, classes, threshold) == Other <==> Spread(probs) <= threshold
  {
  }

  /** Lowering the threshold never changes a class the gate accepted. */
  lemma DecideMonotone(probs: seq<real>, classes: seq<string>, t1: real, t2: real)
    requires 0 < |probs| == |classes|
    requires Spread(probs) > t1 && t2 <= t1
    ensures Decide(probs, classes, t2) == Decide(probs, classes, t1)
    ensures Decide(probs, classes, t1) in classes
  {
  }

  /** Raising the threshold never turns a rejected row into an accepted one. */
  lemma DecideOtherPersists(probs: seq<real>, classes: seq<string>, t1: real, t2: real)
    requires 0 < |probs| == |classes|
    requires Spread(probs) <= t1 <= t2
    ensures Decide(probs, classes, t2) == Other
  {
  }

  /** A uniform row has no spread, so any positive threshold answers "other". */
  lemma UniformRowIsOther(probs: seq<real>, classes: seq<string>, threshold: real)
    requires 0 < |probs| == |classes|
    requires forall i :: 0 <= i < |probs| ==> probs[i] == probs[0]
    requires threshold > 0.0
    ensures Spread(probs) == 0.0
    ensures Decide(probs, classes, threshold) == Other
  {
    var n := |probs| as real;
    SumConstant(probs, probs[0]);
    assert Mean(probs) == (n * probs[0]) / n;
  }

  /** A distribution with one class at 0.9 or more and every other class at 0.1
      or less is accepted as that class at any threshold up to 0.1. */
  lemma PeakedRowIsAccepted(probs: seq<real>, classes: seq<string>, threshold: real, k: int)
    requires 2 <= |probs| == |classes|
    requires Sum(probs) == 1.0
    requires 0 <= k < |probs| && probs[k] >= 0.9
    requires forall j :: 0 <= j < |probs| && j != k ==> probs[j] <= 0.1
    requires threshold <= 0.1
    ensures Decide(probs, classes, threshold) == classes[k]
  {
    var n := |probs| as real;
    assert IsTopChoice(probs, classes, k);
    assert Max(probs) >= 0.9;
    assert Mean(probs) <= 0.5 by {
      assert Mean(probs) == 1.0 / n;
      assert n >= 2.0;
    }
    DecideAnswersTopChoice(probs, classes, threshold, k);
  }
}
