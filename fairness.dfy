/** The fairness evaluator of src/fairness/metrics.py: it splits labelled
    predictions by the protected attribute, compares the privileged group
    (code 0, low income variability) with the unprivileged group (code 1, high
    income variability), keeps the last report as its only state and judges
    the report against a threshold. */
module Fairness {
  import opened Outcomes
  import opened GroupMetrics

  /** Protected-attribute code of the privileged group (low income variability). */
  const PrivilegedCode: int := 0
  /** Protected-attribute code of the unprivileged group (high income variability). */
  const UnprivilegedCode: int := 1

  /** The positions whose protected value is `code`, in increasing order:
      the positions a numpy boolean mask `protected_values == code` keeps
      (see `GroupIndicesExact`). */
  function GroupIndices(protectedValues: seq<int>, code: int): (ix: seq<nat>)
    ensures forall k :: 0 <= k < |ix| ==> ix[k] < |protectedValues|
  {
    if |protectedValues| == 0 then []
    else
      var n := |protectedValues| - 1;
      GroupIndices(protectedValues[..n], code) + (if protectedValues[n] == code then [n] else [])
  }

  /** The group of `code` lists every position carrying `code`, only those,
      each once and in increasing order. */
  lemma {:induction false} GroupIndicesExact(protectedValues: seq<int>, code: int)
    ensures forall k :: 0 <= k < |GroupIndices(protectedValues, code)| ==>
      protectedValues[GroupIndices(protectedValues, code)[k]] == code
    ensures forall i :: 0 <= i < |protectedValues| && protectedValues[i] == code ==>
      i in GroupIndices(protectedValues, code)
    ensures forall k, l :: 0 <= k < l < |GroupIndices(protectedValues, code)| ==>
      GroupIndices(protectedValues, code)[k] < GroupIndices(protectedValues, code)[l]
  {
    if |protectedValues| > 0 {
      var n := |protectedValues| - 1;
      var prefix := GroupIndices(protectedValues[..n], code);
      GroupIndicesExact(protectedValues[..n], code);
      assert forall i :: 0 <= i < n ==> protectedValues[..n][i] == protectedValues[i];
      var ix := GroupIndices(protectedValues, code);
      assert forall k :: 0 <= k < |prefix| ==> ix[k] == prefix[k] && prefix[k] < n;
    }
  }

  /** `ys[protected_values == code]`: the entries of `ys` at the positions of
      the group, in their original order. There is one entry per position
      carrying the code, the k-th being the entry at the group's k-th
      position; every such position's entry is among them
      (`GroupMemberSelected`), entries come only from such positions
      (`SelectedFromGroup`), and each confusion cell of the selection counts
      exactly the group's positions with that pair of labels (`GroupCells`). */
  function Select<T>(ys: seq<T>, protectedValues: seq<int>, code: int): (s: seq<T>)
    requires |ys| == |protectedValues|
    ensures |s| == CountCode(protectedValues, code)
    ensures |s| == |GroupIndices(protectedValues, code)|
    ensures forall k :: 0 <= k < |s| ==> s[k] == ys[GroupIndices(protectedValues, code)[k]]
  {
    var ix := GroupIndices(protectedValues, code);
    GroupSize(protectedValues, code);
    seq(|ix|, k requires 0 <= k < |ix| => ys[ix[k]])
  }

  /** The entry of every position carrying the code is selected. */
  lemma GroupMemberSelected<T>(ys: seq<T>, protectedValues: seq<int>, code: int, i: nat)
    requires |ys| == |protectedValues| && i < |ys| && protectedValues[i] == code
    ensures ys[i] in Select(ys, protectedValues, code)
  {
    var ix := GroupIndices(protectedValues, code);
    GroupIndicesExact(protectedValues, code);
    var k :| 0 <= k < |ix| && ix[k] == i;
    assert Select(ys, protectedValues, code)[k] == ys[i];
  }

  /** Every selected entry is the entry of a position carrying the code. */
  lemma SelectedFromGroup<T>(ys: seq<T>, protectedValues: seq<int>, code: int, x: T)
    requires |ys| == |protectedValues| && x in Select(ys, protectedValues, code)
    ensures exists i :: 0 <= i < |ys| && protectedValues[i] == code && ys[i] == x
  {
    var ix := GroupIndices(protectedValues, code);
    GroupIndicesExact(protectedValues, code);
    var k :| 0 <= k < |ix| && Select(ys, protectedValues, code)[k] == x;
    assert protectedValues[ix[k]] == code && ys[ix[k]] == x;
  }

  /** Each confusion cell of a group's selected labels and predictions is the
      number of the batch's positions that carry the group's code and have
      that pair of labels. */
  lemma GroupCells(yTrue: seq<bool>, yPred: seq<bool>, protectedValues: seq<int>, code: int, a: bool, b: bool)
    requires |yTrue| == |protectedValues| && |yPred| == |protectedValues|
    ensures Cell(Select(yTrue, protectedValues, code), Select(yPred, protectedValues, code), a, b)
         == |set i | 0 <= i < |protectedValues| && protectedValues[i] == code && yTrue[i] == a && yPred[i] == b|
  {
    var ix := GroupIndices(protectedValues, code);
    var st, sp := Select(yTrue, protectedValues, code), Select(yPred, protectedValues, code);
    GroupIndicesExact(protectedValues, code);
    var chosen: set<nat> := set k: nat | k < |st| && st[k] == a && sp[k] == b;
    var positions := set i | 0 <= i < |protectedValues| && protectedValues[i] == code && yTrue[i] == a && yPred[i] == b;
    assert (set k | 0 <= k < |st| && st[k] == a && sp[k] == b) == chosen;
    MappedSize(chosen, ix);
    assert positions == Mapped(chosen, ix) by {
      forall i | i in positions ensures i in Mapped(chosen, ix) {
        var k :| 0 <= k < |ix| && ix[k] == i;
        assert k in chosen;
      }
    }
  }

  /** The report `calculate_metrics` stores. The disparate impact is absent
      when the privileged approval rate is 0, where the source divides by
      zero. */
  datatype Report = Report(
    disparateImpact: Option<real>,
    equalOpportunityDifference: real,
    demographicParityDifference: real,
    privilegedGroupMetrics: Rates,
    unprivilegedGroupMetrics: Rates)

  /** Unprivileged over privileged approval rate, undefined when the
      privileged approval rate is 0. */
  function DisparateImpact(unprivileged: Rates, privileged: Rates): (di: Option<real>)
    ensures di.None? <==> privileged.approvalRate == 0.0
    ensures di.Some? ==> di.value * privileged.approvalRate == unprivileged.approvalRate
  {
    if privileged.approvalRate == 0.0 then None
    else Some(unprivileged.approvalRate / privileged.approvalRate)
  }

  /** The three disparity measures and both groups' rates for one batch of
      labelled predictions. Both differences lie in [-1, 1] and a defined
      disparate impact is never negative. */
  function ComputeReport(yTrue: seq<bool>, yPred: seq<bool>, protectedValues: seq<int>): (r: Report)
    requires |yTrue| == |protectedValues| && |yPred| == |protectedValues|
    ensures r.privilegedGroupMetrics
         == GroupRates(Select(yTrue, protectedValues, PrivilegedCode), Select(yPred, protectedValues, PrivilegedCode))
    ensures r.unprivilegedGroupMetrics
         == GroupRates(Select(yTrue, protectedValues, UnprivilegedCode), Select(yPred, protectedValues, UnprivilegedCode))
    ensures r.demographicParityDifference
         == r.unprivilegedGroupMetrics.approvalRate - r.privilegedGroupMetrics.approvalRate
    ensures r.equalOpportunityDifference
         == r.unprivilegedGroupMetrics.truePositiveRate - r.privilegedGroupMetrics.truePositiveRate
    ensures -1.0 <= r.demographicParityDifference <= 1.0
    ensures -1.0 <= r.equalOpportunityDifference <= 1.0
    ensures r.disparateImpact.Some? ==> r.disparateImpact.value >= 0.0
    ensures r.disparateImpact == DisparateImpact(r.unprivilegedGroupMetrics, r.privilegedGroupMetrics)
  {
    var privileged := GroupRates(Select(yTrue, protectedValues, PrivilegedCode), Select(yPred, protectedValues, PrivilegedCode));
    var unprivileged := GroupRates(Select(yTrue, protectedValues, UnprivilegedCode), Select(yPred, protectedValues, UnprivilegedCode));
    Report(
      DisparateImpact(unprivileged, privileged),
      unprivileged.truePositiveRate - privileged.truePositiveRate,
      unprivileged.approvalRate - privileged.approvalRate,
      privileged,
      unprivileged)
  }

  /** Changing the labels at a position outside the group leaves the group's
      selection unchanged. */
  lemma SelectIgnoresOutsiders<T>(ys: seq<T>, protectedValues: seq<int>, code: int, i: nat, y: T)
    requires |ys| == |protectedValues| && i < |ys| && protectedValues[i] != code
    ensures Select(ys[i := y], protectedValues, code) == Select(ys, protectedValues, code)
  {
    var ix := GroupIndices(protectedValues, code);
    GroupIndicesExact(protectedValues, code);
    forall k | 0 <= k < |ix|
      ensures ys[i := y][ix[k]] == ys[ix[k]]
    {
      assert protectedValues[ix[k]] == code;
    }
  }

  /** A position whose protected value is neither 0 nor 1 belongs to neither
      group: its labels affect no metric of the report. */
  lemma OtherCodesIgnored(yTrue: seq<bool>, yPred: seq<bool>, protectedValues: seq<int>, i: nat, t: bool, p: bool)
    requires |yTrue| == |protectedValues| && |yPred| == |protectedValues| && i < |protectedValues|
    requires protectedValues[i] != PrivilegedCode && protectedValues[i] != UnprivilegedCode
    ensures ComputeReport(yTrue[i := t], yPred[i := p], protectedValues) == ComputeReport(yTrue, yPred, protectedValues)
  {
    SelectIgnoresOutsiders(yTrue, protectedValues, PrivilegedCode, i, t);
    SelectIgnoresOutsiders(yPred, protectedValues, PrivilegedCode, i, p);
    SelectIgnoresOutsiders(yTrue, protectedValues, UnprivilegedCode, i, t);
    SelectIgnoresOutsiders(yPred, protectedValues, UnprivilegedCode, i, p);
  }

  /** Number of positions whose protected value is `code`. */
  function CountCode(protectedValues: seq<int>, code: int): nat
  {
    if |protectedValues| == 0 then 0
    else CountCode(protectedValues[..|protectedValues| - 1], code)
         + (if protectedValues[|protectedValues| - 1] == code then 1 else 0)
  }

  /** The group of a code holds exactly the positions carrying that code. */
  lemma {:induction false} GroupSize(protectedValues: seq<int>, code: int)
    ensures |GroupIndices(protectedValues, code)| == CountCode(protectedValues, code)
  {
    if |protectedValues| > 0 {
      GroupSize(protectedValues[..|protectedValues| - 1], code);
    }
  }

  /** When every protected value is 0 or 1 the two groups split the batch:
      their sizes add up to its length. */
  lemma {:induction false} GroupsPartition(protectedValues: seq<int>)
    requires forall i :: 0 <= i < |protectedValues| ==> protectedValues[i] == PrivilegedCode || protectedValues[i] == UnprivilegedCode
    ensures |GroupIndices(protectedValues, PrivilegedCode)| + |GroupIndices(protectedValues, UnprivilegedCode)| == |protectedValues|
  {
    if |protectedValues| > 0 {
      var n := |protectedValues| - 1;
      GroupsPartition(protectedValues[..n]);
    }
  }

  /** The disparate impact is undefined exactly when nobody in the privileged
      group is approved (this includes an empty privileged group). */
  lemma DisparateImpactUndefined(yTrue: seq<bool>, yPred: seq<bool>, protectedValues: seq<int>)
    requires |yTrue| == |protectedValues| && |yPred| == |protectedValues|
    ensures ComputeReport(yTrue, yPred, protectedValues).disparateImpact.None?
        <==> forall i :: 0 <= i < |protectedValues| && protectedValues[i] == PrivilegedCode ==> !yPred[i]
  {
    var privTrue := Select(yTrue, protectedValues, PrivilegedCode);
    var privPred := Select(yPred, protectedValues, PrivilegedCode);
    var r := ComputeReport(yTrue, yPred, protectedValues);
    assert r.disparateImpact.None? <==> GroupRates(privTrue, privPred).approvalRate == 0.0;
    ApprovalRateMeaning(privTrue, privPred);
    CountTrueZero(privPred);
    NoneSelected(yPred, protectedValues, PrivilegedCode);
  }

  /** No selected prediction is positive exactly when no position of the
      group is predicted positive. */
  lemma NoneSelected(yPred: seq<bool>, protectedValues: seq<int>, code: int)
    requires |yPred| == |protectedValues|
    ensures (forall k :: 0 <= k < |Select(yPred, protectedValues, code)| ==> !Select(yPred, protectedValues, code)[k])
        <==> forall i :: 0 <= i < |protectedValues| && protectedValues[i] == code ==> !yPred[i]
  {
    var selected := Select(yPred, protectedValues, code);
    var ix := GroupIndices(protectedValues, code);
    GroupIndicesExact(protectedValues, code);
    if forall i :: 0 <= i < |protectedValues| && protectedValues[i] == code ==> !yPred[i] {
      forall k | 0 <= k < |selected| ensures !selected[k] {
        assert selected[k] == yPred[ix[k]];
      }
    } else {
      var i :| 0 <= i < |protectedValues| && protectedValues[i] == code && yPred[i];
      var k :| 0 <= k < |ix| && ix[k] == i;
      assert selected[k];
    }
  }

  /** When the disparate impact is defined it is 1 exactly when the
      demographic parity difference is 0: both measure equal approval rates. */
  lemma ParityMeasuresAgree(yTrue: seq<bool>, yPred: seq<bool>, protectedValues: seq<int>)
    requires |yTrue| == |protectedValues| && |yPred| == |protectedValues|
    requires ComputeReport(yTrue, yPred, protectedValues).disparateImpact.Some?
    ensures var r := ComputeReport(yTrue, yPred, protectedValues);
      r.disparateImpact.value == 1.0 <==> r.demographicParityDifference == 0.0
  {
    ReportParity(ComputeReport(yTrue, yPred, protectedValues));
  }

  lemma ReportParity(r: Report)
    requires r.disparateImpact == DisparateImpact(r.unprivilegedGroupMetrics, r.privilegedGroupMetrics)
    requires r.demographicParityDifference
          == r.unprivilegedGroupMetrics.approvalRate - r.privilegedGroupMetrics.approvalRate
    requires r.disparateImpact.Some?
    ensures r.disparateImpact.value == 1.0 <==> r.demographicParityDifference == 0.0
  {
    RatioIsOne(r.disparateImpact.value, r.privilegedGroupMetrics.approvalRate, r.unprivilegedGroupMetrics.approvalRate);
  }

  lemma RatioIsOne(ratio: real, denominator: real, numerator: real)
    requires denominator != 0.0 && ratio * denominator == numerator
    ensures ratio == 1.0 <==> numerator - denominator == 0.0
  {
    if numerator == denominator {
      assert (ratio - 1.0) * denominator == 0.0;
    }
  }

  /** `calculate_metrics` as written: `_group_metrics` raises for a group that
      does not show both classes, so the whole call raises unless both groups
      do; when it succeeds it agrees with `ComputeReport`. */
  function ComputeReportAsWritten(yTrue: seq<bool>, yPred: seq<bool>, protectedValues: seq<int>): (r: Option<Report>)
    requires |yTrue| == |protectedValues| && |yPred| == |protectedValues|
    ensures r.Some? ==> r.value == ComputeReport(yTrue, yPred, protectedValues)
    ensures r.Some? ==> 0 < |GroupIndices(protectedValues, PrivilegedCode)| && 0 < |GroupIndices(protectedValues, UnprivilegedCode)|
    ensures r.Some? <==>
      GroupRatesAsWritten(Select(yTrue, protectedValues, PrivilegedCode), Select(yPred, protectedValues, PrivilegedCode)).Some? &&
      GroupRatesAsWritten(Select(yTrue, protectedValues, UnprivilegedCode), Select(yPred, protectedValues, UnprivilegedCode)).Some?
  {
    var privileged := GroupRatesAsWritten(Select(yTrue, protectedValues, PrivilegedCode), Select(yPred, protectedValues, PrivilegedCode));
    var unprivileged := GroupRatesAsWritten(Select(yTrue, protectedValues, UnprivilegedCode), Select(yPred, protectedValues, UnprivilegedCode));
    if privileged.Some? && unprivileged.Some? then Some(ComputeReport(yTrue, yPred, protectedValues)) else None
  }

  // ---------------------------------------------------------------------
  // The threshold policy of `is_fair`.

  const NoMetricsMessage: string := "No metrics have been calculated yet."
  const AllMetMessage: string := "All fairness criteria met"
  const NotMetPrefix: string := "Fairness criteria not met: "
  const ReasonSeparator: string := "; "
  const DisparateImpactReason: string := "Disparate impact exceeds threshold"
  const EqualOpportunityReason: string := "Equal opportunity difference exceeds threshold"
  const DemographicParityReason: string := "Demographic parity difference exceeds threshold"

  function Abs(x: real): real
  {
    if x < 0.0 then -x else x
  }

  /** The disparate-impact check. An undefined ratio, infinite or NaN in the
      source, never passes it. */
  predicate DisparateImpactWithin(r: Report, threshold: real)
  {
    r.disparateImpact.Some? && Abs(1.0 - r.disparateImpact.value) <= threshold
  }

  predicate EqualOpportunityWithin(r: Report, threshold: real)
  {
    Abs(r.equalOpportunityDifference) <= threshold
  }

  predicate DemographicParityWithin(r: Report, threshold: real)
  {
    Abs(r.demographicParityDifference) <= threshold
  }

  /** Position of a failure reason in the fixed order of the checks. */
  function ReasonRank(reason: string): nat
  {
    if reason == DisparateImpactReason then 0
    else if reason == EqualOpportunityReason then 1
    else 2
  }

  /** The reasons of the failed checks, in the order disparate impact, equal
      opportunity, demographic parity: each reason appears exactly when its
      check fails, at most once, and in that order. */
  function FailedChecks(r: Report, threshold: real): (failed: seq<string>)
    ensures DisparateImpactReason in failed <==> !DisparateImpactWithin(r, threshold)
    ensures EqualOpportunityReason in failed <==> !EqualOpportunityWithin(r, threshold)
    ensures DemographicParityReason in failed <==> !DemographicParityWithin(r, threshold)
    ensures forall k :: 0 <= k < |failed| ==>
      failed[k] in {DisparateImpactReason, EqualOpportunityReason, DemographicParityReason}
    ensures forall k, l :: 0 <= k < l < |failed| ==> ReasonRank(failed[k]) < ReasonRank(failed[l])
  {
    (if DisparateImpactWithin(r, threshold) then [] else [DisparateImpactReason])
    + (if EqualOpportunityWithin(r, threshold) then [] else [EqualOpportunityReason])
    + (if DemographicParityWithin(r, threshold) then [] else [DemographicParityReason])
  }

  /** `separator.join(parts)`: the parts in order with one separator between
      each two of them, so a single part is itself and the text starts with
      the first part. */
  function Join(parts: seq<string>, separator: string): (text: string)
    ensures |parts| == 0 ==> text == ""
    ensures |parts| > 0 ==> |text| == TotalLength(parts) + (|parts| - 1) * |separator|
    ensures |parts| > 0 ==> text[..|parts[0]|] == parts[0]
    ensures |parts| == 1 ==> text == parts[0]
  {
    if |parts| == 0 then ""
    else if |parts| == 1 then parts[0]
    else parts[0] + separator + Join(parts[1..], separator)
  }

  /** Appending a part appends the separator and that part: with the empty
      and one-part cases of `Join`, this fixes where every part and every
      separator goes. */
  lemma {:induction false} JoinSnoc(parts: seq<string>, part: string, separator: string)
    requires |parts| > 0
    ensures Join(parts + [part], separator) == Join(parts, separator) + separator + part
    decreases |parts|
  {
    var longer := parts + [part];
    if |parts| == 1 {
      assert longer[1..] == [part];
    } else {
      assert longer[1..] == parts[1..] + [part];
      JoinSnoc(parts[1..], part, separator);
    }
  }

  /** The combined length of the parts. */
  function TotalLength(parts: seq<string>): nat
  {
    if |parts| == 0 then 0 else |parts[0]| + TotalLength(parts[1..])
  }

  /** The policy holds exactly when no check fails. */
  lemma PolicyHoldsIffNoFailure(r: Report, threshold: real)
    ensures MeetsAllCriteria(r, threshold) <==> FailedChecks(r, threshold) == []
  {
    if FailedChecks(r, threshold) != [] {
      assert FailedChecks(r, threshold)[0] in FailedChecks(r, threshold);
    }
  }

  /** Reference statement of the policy: all three measures within the threshold. */
  predicate MeetsAllCriteria(r: Report, threshold: real)
  {
    && r.disparateImpact.Some?
    && Abs(1.0 - r.disparateImpact.value) <= threshold
    && Abs(r.equalOpportunityDifference) <= threshold
    && Abs(r.demographicParityDifference) <= threshold
  }

  /** `is_fair` on a stored report (or on none): the verdict is positive
      exactly when a report exists and meets all criteria; with no report the
      message says so; a negative verdict on a report lists exactly the failed
      checks, in order, after the fixed prefix. */
  function FairnessVerdict(metrics: Option<Report>, threshold: real): (v: (bool, string))
    ensures v.0 <==> metrics.Some? && MeetsAllCriteria(metrics.value, threshold)
    ensures metrics.None? ==> v.1 == NoMetricsMessage
    ensures metrics.Some? && !v.0 ==> v.1 == NotMetPrefix + Join(FailedChecks(metrics.value, threshold), ReasonSeparator)
    ensures v.0 ==> v.1 == AllMetMessage
  {
    match metrics
    case None => (false, NoMetricsMessage)
    case Some(r) =>
      var failed := FailedChecks(r, threshold);
      if |failed| > 0 then (false, NotMetPrefix + Join(failed, ReasonSeparator))
      else (true, AllMetMessage)
  }

  /** Raising the threshold never turns a passing check into a failing one, so
      a report fair at `threshold` is fair at every larger threshold. */
  lemma ThresholdMonotone(r: Report, threshold: real, larger: real)
    requires threshold <= larger
    ensures forall reason :: reason in FailedChecks(r, larger) ==> reason in FailedChecks(r, threshold)
    ensures FairnessVerdict(Some(r), threshold).0 ==> FairnessVerdict(Some(r), larger).0
  {
  }

  // ---------------------------------------------------------------------
  // The evaluator object.

  datatype FairnessError = LengthMismatch

  /** What `get_fairness_report` renders: the fixed message when nothing has
      been calculated, otherwise the stored report. */
  datatype ReportView = Message(text: string) | Sections(report: Report)

  predicate LengthsAgree(yTrue: seq<bool>, yPred: seq<bool>, protectedValues: seq<int>)
  {
    |yTrue| == |protectedValues| && |yPred| == |protectedValues|
  }

  /** `FairnessMetrics`: the protected attribute's name and the last report,
      `None` until the first successful `calculate_metrics`. */
  class FairnessMetrics {
    const protectedAttribute: string
    var metrics: Option<Report>

    constructor(protectedAttribute: string := "income_variability")
      ensures this.protectedAttribute == protectedAttribute
      ensures metrics == None
    {
      this.protectedAttribute := protectedAttribute;
      metrics := None;
    }

    /** `calculate_metrics`: on inputs of one length the new report replaces
        the stored one entirely and is returned; on mismatched lengths the
        mask indexing raises and nothing is stored. */
    method CalculateMetrics(yTrue: seq<bool>, yPred: seq<bool>, protectedValues: seq<int>)
      returns (r: Result<Report, FairnessError>)
      modifies this
      ensures LengthsAgree(yTrue, yPred, protectedValues) ==>
        r == Success(ComputeReport(yTrue, yPred, protectedValues)) && metrics == Some(r.value)
      ensures !LengthsAgree(yTrue, yPred, protectedValues) ==>
        r == Failure(LengthMismatch) && metrics == old(metrics)
    {
      if !LengthsAgree(yTrue, yPred, protectedValues) {
        return Failure(LengthMismatch);
      }
      var report := ComputeReport(yTrue, yPred, protectedValues);
      metrics := Some(report);
      r := Success(report);
    }

    /** `is_fair`: the verdict and message of the threshold policy applied to
        the stored report; the state is not changed. */
    method IsFair(threshold: real := 0.2) returns (fair: bool, reason: string)
      ensures fair <==> metrics.Some? && MeetsAllCriteria(metrics.value, threshold)
      ensures (fair, reason) == FairnessVerdict(metrics, threshold)
    {
      var v := FairnessVerdict(metrics, threshold);
      fair, reason := v.0, v.1;
    }

    /** `get_fairness_report`: the fixed message before any calculation,
        otherwise the stored report to be rendered. */
    method GetFairnessReport() returns (view: ReportView)
      ensures metrics.None? ==> view == Message(NoMetricsMessage)
      ensures metrics.Some? ==> view == Sections(metrics.value)
    {
      match metrics
      case None => view := Message(NoMetricsMessage);
      case Some(r) => view := Sections(r);
    }
  }

  // ---------------------------------------------------------------------
  // A worked example: labels [1, 1, 0, 0], predictions [1, 0, 0, 0],
  // protected values [0, 0, 1, 1].

  /** The two groups of the example: positions 0, 1 and positions 2, 3. */
  lemma ExampleGroups()
    ensures Select([true, true, false, false], [0, 0, 1, 1], 0) == [true, true]
    ensures Select([true, false, false, false], [0, 0, 1, 1], 0) == [true, false]
    ensures Select([true, true, false, false], [0, 0, 1, 1], 1) == [false, false]
    ensures Select([true, false, false, false], [0, 0, 1, 1], 1) == [false, false]
  {
    ExampleIndices();
  }

  lemma ExampleIndices()
    ensures GroupIndices([0, 0, 1, 1], 0) == [0, 1]
    ensures GroupIndices([0, 0, 1, 1], 1) == [2, 3]
  {
    ExamplePrivilegedIndices();
    ExampleUnprivilegedIndices();
  }

  lemma ExamplePrivilegedIndices()
    ensures GroupIndices([0, 0, 1, 1], 0) == [0, 1]
  {
    var pv: seq<int> := [0, 0, 1, 1];
    assert pv[..3] == [0, 0, 1] && pv[..3][..2] == [0, 0] && pv[..3][..2][..1] == [0];
    assert GroupIndices([0], 0) == [0];
    assert GroupIndices([0, 0], 0) == [0, 1];
    assert GroupIndices([0, 0, 1], 0) == [0, 1];
  }

  lemma ExampleUnprivilegedIndices()
    ensures GroupIndices([0, 0, 1, 1], 1) == [2, 3]
  {
    var pv: seq<int> := [0, 0, 1, 1];
    assert pv[..3] == [0, 0, 1] && pv[..3][..2] == [0, 0] && pv[..3][..2][..1] == [0];
    assert GroupIndices([0], 1) == [];
    assert GroupIndices([0, 0], 1) == [];
    assert GroupIndices([0, 0, 1], 1) == [2];
  }

  /** The privileged group has tp = fn = 1 (TPR 0.5, approval rate 0.5), the
      unprivileged group only true negatives (approval rate 0, accuracy 1); so
      the disparate impact is 0 and both differences are -0.5. */
  lemma ExampleReport()
    ensures ComputeReport([true, true, false, false], [true, false, false, false], [0, 0, 1, 1])
         == Report(Some(0.0), -0.5, -0.5, Rates(0.5, 0.0, 0.5, 0.5), Rates(0.0, 0.0, 0.0, 1.0))
  {
    ExampleGroups();
    var pt, pp, ut, up := [true, true], [true, false], [false, false], [false, false];
    assert pt[..1] == [true] && pp[..1] == [true] && ut[..1] == [false] && up[..1] == [false];
    assert ConfusionMatrix(pt, pp) == Confusion(0, 0, 1, 1);
    assert ConfusionMatrix(ut, up) == Confusion(2, 0, 0, 0);
  }

  /** All three checks fail at the default threshold 0.2, listed in order. */
  lemma ExampleVerdict()
    ensures FairnessVerdict(Some(ComputeReport([true, true, false, false], [true, false, false, false], [0, 0, 1, 1])), 0.2)
         == (false, NotMetPrefix + (DisparateImpactReason + "; " + (EqualOpportunityReason + "; " + DemographicParityReason)))
  {
    ExampleReport();
    var r := Report(Some(0.0), -0.5, -0.5, Rates(0.5, 0.0, 0.5, 0.5), Rates(0.0, 0.0, 0.0, 1.0));
    assert FailedChecks(r, 0.2) == [DisparateImpactReason, EqualOpportunityReason, DemographicParityReason];
    JoinThree(DisparateImpactReason, EqualOpportunityReason, DemographicParityReason, ReasonSeparator);
  }

  lemma JoinThree(a: string, b: string, c: string, separator: string)
    ensures Join([a, b, c], separator) == a + separator + (b + separator + c)
  {
    var parts := [a, b, c];
    assert parts[1..] == [b, c] && parts[1..][1..] == [c];
    assert Join([c], separator) == c;
    assert Join([b, c], separator) == b + separator + c;
  }

  /** The code as written raises on the example batch, because its
      unprivileged group shows only the negative class. */
  lemma ExampleRaisesAsWritten()
    ensures ComputeReportAsWritten([true, true, false, false], [true, false, false, false], [0, 0, 1, 1]) == None
  {
    ExampleGroups();
    assert LabelsPresent([false, false], [false, false]) == {false};
  }
}
