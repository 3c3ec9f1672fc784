/** How the two components meet: the encoded income-variability flag is the
    protected attribute the fairness evaluator splits on. */
module Pipeline {
  import opened Outcomes
  import opened Preprocessing
  import opened Fairness

  /** The protected-attribute column of a processed table. */
  function ProtectedValues(fr: Frame): (pv: seq<int>)
    ensures |pv| == |fr.rows|
    ensures forall i :: 0 <= i < |fr.rows| ==> pv[i] == fr.rows[i].categorical.incomeVariability
  {
    seq(|fr.rows|, i requires 0 <= i < |fr.rows| => fr.rows[i].categorical.incomeVariability)
  }

  /** On a transformed table, an applicant is unprivileged exactly when their
      income variability was "High" and privileged otherwise, so the two
      groups split the whole table between them. */
  lemma VariabilityGroups(p: ScalerParams, df: seq<Application>)
    requires ValidScaler(p) && TransformWith(Some(p), df).Success?
    ensures var pv := ProtectedValues(TransformWith(Some(p), df).value);
      |pv| == |df| &&
      (forall i :: 0 <= i < |df| ==> (pv[i] == UnprivilegedCode <==> df[i].incomeVariability == "High")) &&
      (forall i :: 0 <= i < |df| ==> (pv[i] == PrivilegedCode <==> df[i].incomeVariability != "High")) &&
      |GroupIndices(pv, PrivilegedCode)| + |GroupIndices(pv, UnprivilegedCode)| == |df|
  {
    var fr := TransformWith(Some(p), df).value;
    var pv := ProtectedValues(fr);
    var encoded := EncodeCategoricalFeatures(df);
    forall i | 0 <= i < |df|
      ensures pv[i] == IncomeVariabilityFlag(df[i].incomeVariability)
    {
      assert fr.rows[i].categorical == encoded.rows[i];
    }
    GroupsPartition(pv);
  }
}
