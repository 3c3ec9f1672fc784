/** The per-group part of the fairness evaluator in src/fairness/metrics.py:
    the binary confusion matrix of one protected group and the four rates
    `_group_metrics` derives from it. Labels are booleans: `true` is the
    positive class 1 (loan approved), `false` the negative class 0. */
module GroupMetrics {
  import opened Outcomes

  /** The four cells of a binary confusion matrix, in the order sklearn's
      `confusion_matrix(...).ravel()` yields them. */
  datatype Confusion = Confusion(tn: nat, fp: nat, fn: nat, tp: nat)

  /** The metrics of one protected group. */
  datatype Rates = Rates(
    truePositiveRate: real,
    falsePositiveRate: real,
    approvalRate: real,
    accuracy: real)

  /** Number of positive labels in `s`. */
  function CountTrue(s: seq<bool>): (n: nat)
    ensures n <= |s|
  {
    if |s| == 0 then 0 else CountTrue(s[..|s| - 1]) + (if s[|s| - 1] then 1 else 0)
  }

  /** Reference definition of one confusion-matrix cell: the number of
      positions whose true label is `a` and whose predicted label is `b`. */
  ghost function Cell(yTrue: seq<bool>, yPred: seq<bool>, a: bool, b: bool): nat
    requires |yTrue| == |yPred|
  {
    |set i | 0 <= i < |yTrue| && yTrue[i] == a && yPred[i] == b|
  }

  /** The positions that a set of group ranks stand for. */
  ghost function Mapped(ranks: set<nat>, ix: seq<nat>): set<int>
    requires forall k :: k in ranks ==> 0 <= k < |ix|
  {
    set k | k in ranks :: ix[k] as int
  }

  /** Strictly increasing positions are distinct, so a set of ranks stands
      for as many positions as it holds. */
  lemma {:induction false} MappedSize(ranks: set<nat>, ix: seq<nat>)
    requires forall k :: k in ranks ==> 0 <= k < |ix|
    requires forall k, l :: 0 <= k < l < |ix| ==> ix[k] < ix[l]
    ensures |Mapped(ranks, ix)| == |ranks|
    decreases |ranks|
  {
    if ranks != {} {
      var k :| k in ranks;
      var rest := ranks - {k};
      MappedSize(rest, ix);
      assert Mapped(ranks, ix) == Mapped(rest, ix) + {ix[k] as int};
      assert ix[k] as int !in Mapped(rest, ix) by {
        forall l | l in rest ensures ix[l] != ix[k] {
          assert l < k || k < l;
        }
      }
    }
  }

  /** The confusion matrix of a group, counted pair by pair. Every position
      falls in exactly one cell, the actual positives are tp + fn and the
      predicted positives (approvals) are tp + fp. */
  function ConfusionMatrix(yTrue: seq<bool>, yPred: seq<bool>): (c: Confusion)
    requires |yTrue| == |yPred|
    ensures c.tn + c.fp + c.fn + c.tp == |yTrue|
    ensures c.tp + c.fn == CountTrue(yTrue)
    ensures c.tp + c.fp == CountTrue(yPred)
  {
    if |yTrue| == 0 then Confusion(0, 0, 0, 0)
    else
      var n := |yTrue| - 1;
      var c := ConfusionMatrix(yTrue[..n], yPred[..n]);
      match (yTrue[n], yPred[n])
      case (false, false) => c.(tn := c.tn + 1)
      case (false, true) => c.(fp := c.fp + 1)
      case (true, false) => c.(fn := c.fn + 1)
      case (true, true) => c.(tp := c.tp + 1)
  }

  /** A cell of the last-position-extended pair of sequences gains exactly the
      last position when that position has the cell's labels. */
  lemma {:induction false} CellStep(yTrue: seq<bool>, yPred: seq<bool>, a: bool, b: bool)
    requires |yTrue| == |yPred| > 0
    ensures Cell(yTrue, yPred, a, b)
         == Cell(yTrue[..|yTrue| - 1], yPred[..|yTrue| - 1], a, b)
            + (if yTrue[|yTrue| - 1] == a && yPred[|yTrue| - 1] == b then 1 else 0)
  {
    var n := |yTrue| - 1;
    var whole := set i | 0 <= i < |yTrue| && yTrue[i] == a && yPred[i] == b;
    var prefix := set i | 0 <= i < n && yTrue[..n][i] == a && yPred[..n][i] == b;
    assert forall i :: 0 <= i < n ==> yTrue[..n][i] == yTrue[i] && yPred[..n][i] == yPred[i];
    if yTrue[n] == a && yPred[n] == b {
      assert whole == prefix + {n};
    } else {
      assert whole == prefix;
    }
  }

  /** Each counted cell is the number of positions with that pair of labels. */
  lemma {:induction false} ConfusionCells(yTrue: seq<bool>, yPred: seq<bool>)
    requires |yTrue| == |yPred|
    ensures ConfusionMatrix(yTrue, yPred).tn == Cell(yTrue, yPred, false, false)
    ensures ConfusionMatrix(yTrue, yPred).fp == Cell(yTrue, yPred, false, true)
    ensures ConfusionMatrix(yTrue, yPred).fn == Cell(yTrue, yPred, true, false)
    ensures ConfusionMatrix(yTrue, yPred).tp == Cell(yTrue, yPred, true, true)
  {
    if |yTrue| > 0 {
      var n := |yTrue| - 1;
      ConfusionCells(yTrue[..n], yPred[..n]);
      CellStep(yTrue, yPred, false, false);
      CellStep(yTrue, yPred, false, true);
      CellStep(yTrue, yPred, true, false);
      CellStep(yTrue, yPred, true, true);
    }
  }

  /** A group has no positive label exactly when every label in it is negative. */
  lemma {:induction false} CountTrueZero(s: seq<bool>)
    ensures CountTrue(s) == 0 <==> forall i :: 0 <= i < |s| ==> !s[i]
  {
    if |s| > 0 {
      var n := |s| - 1;
      CountTrueZero(s[..n]);
      assert forall i :: 0 <= i < n ==> s[..n][i] == s[i];
    }
  }

  /** `num / den`, or 0 when the denominator is 0: the fallback every rate of
      `_group_metrics` uses. */
  function Rate(num: nat, den: nat): (r: real)
    requires num <= den
    ensures 0.0 <= r <= 1.0
    ensures den == 0 ==> r == 0.0
    ensures den > 0 ==> r * (den as real) == num as real
  {
    if den > 0 then (num as real) / (den as real) else 0.0
  }

  /** Every rate of a group lies in the unit interval. */
  predicate InUnitInterval(g: Rates)
  {
    && 0.0 <= g.truePositiveRate <= 1.0
    && 0.0 <= g.falsePositiveRate <= 1.0
    && 0.0 <= g.approvalRate <= 1.0
    && 0.0 <= g.accuracy <= 1.0
  }

  /** `_group_metrics` with the confusion matrix counted directly: TPR is
      tp/(tp+fn), FPR fp/(fp+tn), the approval rate (tp+fp)/n and the accuracy
      (tp+tn)/n, each 0 when its denominator is 0. */
  function GroupRates(yTrue: seq<bool>, yPred: seq<bool>): (g: Rates)
    requires |yTrue| == |yPred|
    ensures InUnitInterval(g)
    ensures |yTrue| == 0 ==> g == Rates(0.0, 0.0, 0.0, 0.0)
  {
    var c := ConfusionMatrix(yTrue, yPred);
    Rates(
      Rate(c.tp, c.tp + c.fn),
      Rate(c.fp, c.fp + c.tn),
      Rate(c.tp + c.fp, |yTrue|),
      Rate(c.tp + c.tn, |yTrue|))
  }

  /** What each rate of a group means in terms of counted positions: the TPR
      is the share of correctly approved positions among the actual positives,
      the FPR the share of wrongly approved positions among the actual
      negatives, the approval rate the share of approved positions in the
      group and the accuracy the share of agreeing positions; each is 0 when
      the set it is taken over is empty. The approval rate is 0 exactly when
      nobody in the group is approved. */
  lemma GroupRatesMeaning(yTrue: seq<bool>, yPred: seq<bool>)
    requires |yTrue| == |yPred|
    ensures GroupRates(yTrue, yPred).truePositiveRate
         == Share(Cell(yTrue, yPred, true, true), CountTrue(yTrue))
    ensures GroupRates(yTrue, yPred).falsePositiveRate
         == Share(Cell(yTrue, yPred, false, true),
                  Cell(yTrue, yPred, false, false) + Cell(yTrue, yPred, false, true))
    ensures GroupRates(yTrue, yPred).approvalRate == Share(CountTrue(yPred), |yTrue|)
    ensures GroupRates(yTrue, yPred).accuracy
         == Share(Cell(yTrue, yPred, true, true) + Cell(yTrue, yPred, false, false), |yTrue|)
    ensures GroupRates(yTrue, yPred).approvalRate == 0.0 <==> CountTrue(yPred) == 0
  {
    TruePositiveRateMeaning(yTrue, yPred);
    FalsePositiveRateMeaning(yTrue, yPred);
    ApprovalRateMeaning(yTrue, yPred);
    AccuracyMeaning(yTrue, yPred);
  }

  lemma TruePositiveRateMeaning(yTrue: seq<bool>, yPred: seq<bool>)
    requires |yTrue| == |yPred|
    ensures GroupRates(yTrue, yPred).truePositiveRate
         == Share(Cell(yTrue, yPred, true, true), CountTrue(yTrue))
  {
    ConfusionCells(yTrue, yPred);
    var c := ConfusionMatrix(yTrue, yPred);
    RateIsShare(c.tp, c.tp + c.fn);
  }

  lemma FalsePositiveRateMeaning(yTrue: seq<bool>, yPred: seq<bool>)
    requires |yTrue| == |yPred|
    ensures GroupRates(yTrue, yPred).falsePositiveRate
         == Share(Cell(yTrue, yPred, false, true),
                  Cell(yTrue, yPred, false, false) + Cell(yTrue, yPred, false, true))
  {
    ConfusionCells(yTrue, yPred);
    var c := ConfusionMatrix(yTrue, yPred);
    RateIsShare(c.fp, c.fp + c.tn);
  }

  lemma ApprovalRateMeaning(yTrue: seq<bool>, yPred: seq<bool>)
    requires |yTrue| == |yPred|
    ensures GroupRates(yTrue, yPred).approvalRate == Share(CountTrue(yPred), |yTrue|)
    ensures GroupRates(yTrue, yPred).approvalRate == 0.0 <==> CountTrue(yPred) == 0
  {
    var c := ConfusionMatrix(yTrue, yPred);
    RateIsShare(c.tp + c.fp, |yTrue|);
    RateScales(c.tp + c.fp, |yTrue|);
  }

  lemma AccuracyMeaning(yTrue: seq<bool>, yPred: seq<bool>)
    requires |yTrue| == |yPred|
    ensures GroupRates(yTrue, yPred).accuracy
         == Share(Cell(yTrue, yPred, true, true) + Cell(yTrue, yPred, false, false), |yTrue|)
  {
    ConfusionCells(yTrue, yPred);
    var c := ConfusionMatrix(yTrue, yPred);
    RateIsShare(c.tp + c.tn, |yTrue|);
  }

  /** `Rate` computes the share of its numerator in its denominator. */
  lemma RateIsShare(num: nat, den: nat)
    requires num <= den
    ensures Rate(num, den) == Share(num, den)
  {
  }

  /** A share: a count divided by the size of the set it is taken over, 0 for
      an empty set. It is the same division as `Rate`; what the meaning lemmas
      add is that the counts are the sizes of the reference cell sets, which
      `ConfusionCells` proves. */
  ghost function Share(count: nat, size: nat): real
  {
    if size == 0 then 0.0 else (count as real) / (size as real)
  }

  /** A rate times its denominator gives back its numerator, also when both
      are 0; the rate is 0 exactly when the numerator is. */
  lemma RateScales(num: nat, den: nat)
    requires num <= den
    ensures Rate(num, den) * (den as real) == num as real
    ensures Rate(num, den) == 0.0 <==> num == 0
  {
  }

  /** The labels sklearn's `confusion_matrix` finds in a group: every value
      occurring in either argument. */
  function LabelsPresent(yTrue: seq<bool>, yPred: seq<bool>): set<bool>
  {
    set x | x in yTrue + yPred
  }

  /** The labels present are both classes exactly when some position shows a
      positive and some position shows a negative. */
  lemma BothClassesPresent(yTrue: seq<bool>, yPred: seq<bool>)
    requires |yTrue| == |yPred|
    ensures LabelsPresent(yTrue, yPred) == {false, true} <==>
      (exists i :: 0 <= i < |yTrue| && (yTrue[i] || yPred[i])) &&
      (exists i :: 0 <= i < |yTrue| && !(yTrue[i] && yPred[i]))
  {
    var both := yTrue + yPred;
    var n := |yTrue|;
    assert forall x :: x in LabelsPresent(yTrue, yPred) <==> x in both;
    assert forall k :: 0 <= k < n ==> both[k] == yTrue[k] && both[n + k] == yPred[k];
    if true in both {
      var k :| 0 <= k < |both| && both[k];
      var i := if k < n then k else k - n;
      assert yTrue[i] || yPred[i];
    }
    if false in both {
      var k :| 0 <= k < |both| && !both[k];
      var i := if k < n then k else k - n;
      assert !(yTrue[i] && yPred[i]);
    }
    if exists i :: 0 <= i < n && (yTrue[i] || yPred[i]) {
      var i :| 0 <= i < n && (yTrue[i] || yPred[i]);
      assert true in both by {
        if yTrue[i] { assert both[i]; } else { assert both[n + i]; }
      }
    }
    if exists i :: 0 <= i < n && !(yTrue[i] && yPred[i]) {
      var i :| 0 <= i < n && !(yTrue[i] && yPred[i]);
      assert false in both by {
        if !yTrue[i] { assert !both[i]; } else { assert !both[n + i]; }
      }
    }
  }

  /** `_group_metrics` as written. `confusion_matrix` returns an L x L matrix
      over the L labels present, and unpacking its `ravel()` into four names
      succeeds only when L = 2; for a group whose labels and predictions are
      all of one class, or an empty group, the source raises instead. The
      `else 0` fallbacks for an empty group are therefore never reached. */
  function GroupRatesAsWritten(yTrue: seq<bool>, yPred: seq<bool>): (g: Option<Rates>)
    requires |yTrue| == |yPred|
    ensures g.Some? ==> |yTrue| > 0 && g.value == GroupRates(yTrue, yPred)
    ensures g.Some? <==>
      (exists i :: 0 <= i < |yTrue| && (yTrue[i] || yPred[i])) &&
      (exists i :: 0 <= i < |yTrue| && !(yTrue[i] && yPred[i]))
  {
    BothClassesPresent(yTrue, yPred);
    if LabelsPresent(yTrue, yPred) == {false, true} then Some(GroupRates(yTrue, yPred)) else None
  }

  /** An empty group, and a group labelled and predicted all negative, make the
      code as written raise, while the counted rates are defined for both. */
  lemma OneClassGroupRaisesAsWritten()
    ensures GroupRatesAsWritten([], []) == None
    ensures GroupRates([], []) == Rates(0.0, 0.0, 0.0, 0.0)
    ensures GroupRatesAsWritten([false, false], [false, false]) == None
    ensures GroupRates([false, false], [false, false]) == Rates(0.0, 0.0, 0.0, 1.0)
  {
    assert LabelsPresent([false, false], [false, false]) == {false};
    var c := ConfusionMatrix([false, false], [false, false]);
    assert [false, false][..1] == [false];
    assert [false][..0] == [];
    assert c == Confusion(2, 0, 0, 0);
  }
}
