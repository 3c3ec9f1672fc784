/** The loan preprocessor: two derived ratios, categorical encoding, standard
    scaling of eight numeric features with parameters learned when fitting,
    and a statistics snapshot of the scaled features. */
module Preprocessing {
  import opened Outcomes
  import opened Statistics

  /** One row of the raw input table. `loanStatus` is the training label,
      absent from tables that are only scored. */
  datatype Application = Application(
    age: real,
    income: real,
    loanAmount: real,
    loanTerm: real,
    creditScore: real,
    employmentStatus: string,
    loanPurpose: string,
    existingLoans: real,
    incomeVariability: string,
    loanStatus: Option<int>)

  // ----- Derived features -----

  /** `loan_amount / income`; a zero income gives no finite ratio. */
  function LoanToIncomeRatio(loanAmount: real, income: real): (r: Option<real>)
    ensures r.Some? <==> income != 0.0
    ensures r.Some? ==> r.value * income == loanAmount
  {
    if income == 0.0 then None else Some(loanAmount / income)
  }

  /** `loan_amount / (income * loan_term / 12)`; a zero income or a zero term
      gives no finite ratio. */
  function DebtToIncomeRatio(loanAmount: real, income: real, loanTerm: real): (r: Option<real>)
    ensures r.Some? <==> income != 0.0 && loanTerm != 0.0
    ensures r.Some? ==> r.value * (income * loanTerm / 12.0) == loanAmount
  {
    if income == 0.0 || loanTerm == 0.0 then None
    else
      var incomeOverTerm := income * loanTerm / 12.0;
      Some(loanAmount / incomeOverTerm)
  }

  datatype Ratios = Ratios(debtToIncome: Option<real>, loanToIncome: Option<real>)

  /** A row together with the two columns the derivation step adds. */
  datatype Derived = Derived(application: Application, ratios: Ratios)

  function RowRatios(a: Application): Ratios
  {
    Ratios(DebtToIncomeRatio(a.loanAmount, a.income, a.loanTerm), LoanToIncomeRatio(a.loanAmount, a.income))
  }

  /** Adds both ratio columns to every row and keeps the rest of the row. */
  function CreateDerivedFeatures(df: seq<Application>): (r: seq<Derived>)
    ensures |r| == |df|
    ensures forall i :: 0 <= i < |df| ==> r[i].application == df[i]
    ensures forall i :: 0 <= i < |df| ==>
      (r[i].ratios.loanToIncome.Some? <==> df[i].income != 0.0) &&
      (r[i].ratios.loanToIncome.Some? ==> r[i].ratios.loanToIncome.value * df[i].income == df[i].loanAmount)
    ensures forall i :: 0 <= i < |df| ==>
      (r[i].ratios.debtToIncome.Some? <==> df[i].income != 0.0 && df[i].loanTerm != 0.0) &&
      (r[i].ratios.debtToIncome.Some? ==>
         r[i].ratios.debtToIncome.value * (df[i].income * df[i].loanTerm / 12.0) == df[i].loanAmount)
    ensures forall i :: 0 <= i < |df| ==> r[i].ratios == RowRatios(df[i])
  {
    seq(|df|, i requires 0 <= i < |df| => Derived(df[i], RowRatios(df[i])))
  }

  /** The two ratios differ by the loan term in years:
      debt_to_income * loan_term == 12 * loan_to_income. */
  lemma RatiosAgree(loanAmount: real, income: real, loanTerm: real)
    requires income != 0.0 && loanTerm != 0.0
    ensures DebtToIncomeRatio(loanAmount, income, loanTerm).value * loanTerm
         == 12.0 * LoanToIncomeRatio(loanAmount, income).value
  {
    var d := DebtToIncomeRatio(loanAmount, income, loanTerm).value;
    var q := LoanToIncomeRatio(loanAmount, income).value;
    ScaledRatio(d, q, income, loanTerm, loanAmount);
  }

  lemma ScaledRatio(d: real, q: real, income: real, loanTerm: real, loanAmount: real)
    requires income != 0.0
    requires d * (income * loanTerm / 12.0) == loanAmount && q * income == loanAmount
    ensures d * loanTerm == 12.0 * q
  {
    assert (d * loanTerm / 12.0) * income == q * income;
    assert d * loanTerm / 12.0 == q;
  }

  /** The ratios of the three sample applications 50000/20000/12,
      60000/30000/24 and 70000/40000/36 (income, loan amount, term). */
  lemma DerivedExample()
    ensures LoanToIncomeRatio(20000.0, 50000.0) == Some(0.4)
    ensures DebtToIncomeRatio(20000.0, 50000.0, 12.0) == Some(0.4)
    ensures LoanToIncomeRatio(30000.0, 60000.0) == Some(0.5)
    ensures DebtToIncomeRatio(30000.0, 60000.0, 24.0) == Some(0.25)
    ensures LoanToIncomeRatio(40000.0, 70000.0) == Some(4.0 / 7.0)
    ensures DebtToIncomeRatio(40000.0, 70000.0, 36.0) == Some(4.0 / 21.0)
  {
  }

  // ----- Categorical encoding -----

  /** The ordinal map for employment status. */
  const EmploymentMap: map<string, int> := map["Employed" := 2, "Self-Employed" := 1, "Unemployed" := 0]

  /** The encoded employment status; a status missing from the map gives no
      value (NaN in the table). */
  function EmploymentCode(status: string): (r: Option<int>)
    ensures r.Some? <==> status == "Employed" || status == "Self-Employed" || status == "Unemployed"
    ensures r.Some? ==> 0 <= r.value <= 2
  {
    if status in EmploymentMap then Some(EmploymentMap[status]) else None
  }

  /** The status that encodes to `code`, if any. */
  function EmploymentStatusName(code: int): (r: Option<string>)
    ensures r.Some? <==> 0 <= code <= 2
  {
    if code == 2 then Some("Employed")
    else if code == 1 then Some("Self-Employed")
    else if code == 0 then Some("Unemployed")
    else None
  }

  /** The encoding is one to one on the three statuses, so the ordinal code
      determines the status and every code 0..2 is used. */
  lemma EmploymentRoundTrip(status: string, code: int)
    ensures EmploymentCode(status).Some? ==> EmploymentStatusName(EmploymentCode(status).value) == Some(status)
    ensures 0 <= code <= 2 ==> EmploymentCode(EmploymentStatusName(code).value) == Some(code)
  {
  }

  /** 1 for "High" income variability, 0 for every other value. */
  function IncomeVariabilityFlag(variability: string): (r: int)
    ensures r == 1 <==> variability == "High"
    ensures r == 0 <==> variability != "High"
  {
    if variability == "High" then 1 else 0
  }

  const PurposePrefix: string := "purpose_"

  /** The name of the indicator column for one loan purpose. */
  function PurposeColumn(purpose: string): (c: string)
    ensures |c| == |PurposePrefix| + |purpose|
    ensures c[..|PurposePrefix|] == PurposePrefix && c[|PurposePrefix|..] == purpose
  {
    PurposePrefix + purpose
  }

  /** Distinct purposes get distinct columns. */
  lemma PurposeColumnInjective(a: string, b: string)
    requires PurposeColumn(a) == PurposeColumn(b)
    ensures a == b
  {
    assert a == PurposeColumn(a)[|PurposePrefix|..];
  }

  /** The one-hot encoding never produces the original column's name. */
  lemma PurposeColumnIsNotSource(purpose: string)
    ensures PurposeColumn(purpose) != "loan_purpose"
  {
    assert PurposeColumn(purpose)[0] == 'p';
  }

  /** The distinct loan purposes of a table. */
  function Purposes(df: seq<Application>): (s: set<string>)
    ensures forall v :: v in s <==> exists i :: 0 <= i < |df| && df[i].loanPurpose == v
  {
    set i | 0 <= i < |df| :: df[i].loanPurpose
  }

  /** The indicator columns of a table: one per purpose that occurs in it,
      and the source column is not among them. */
  function PurposeColumns(df: seq<Application>): (cols: set<string>)
    ensures forall i :: 0 <= i < |df| ==> PurposeColumn(df[i].loanPurpose) in cols
    ensures forall c :: c in cols ==> exists i :: 0 <= i < |df| && c == PurposeColumn(df[i].loanPurpose)
    ensures "loan_purpose" !in cols
  {
    var cols := set i | 0 <= i < |df| :: PurposeColumn(df[i].loanPurpose);
    assert "loan_purpose" !in cols by {
      forall i | 0 <= i < |df| ensures PurposeColumn(df[i].loanPurpose) != "loan_purpose" {
        PurposeColumnIsNotSource(df[i].loanPurpose);
      }
    }
    cols
  }

  function ImageOf(s: set<string>): set<string>
  {
    set v | v in s :: PurposeColumn(v)
  }

  /** There are exactly as many indicator columns as distinct purposes. */
  lemma PurposeColumnsCount(df: seq<Application>)
    ensures |PurposeColumns(df)| == |Purposes(df)|
  {
    assert PurposeColumns(df) == ImageOf(Purposes(df)) by {
      forall c | c in ImageOf(Purposes(df)) ensures c in PurposeColumns(df) {
        var v :| v in Purposes(df) && c == PurposeColumn(v);
        var i :| 0 <= i < |df| && df[i].loanPurpose == v;
      }
    }
    ImageSize(Purposes(df));
  }

  lemma {:induction false} ImageSize(s: set<string>)
    ensures |ImageOf(s)| == |s|
    decreases |s|
  {
    if s != {} {
      var v :| v in s;
      var rest := s - {v};
      ImageSize(rest);
      assert ImageOf(s) == ImageOf(rest) + {PurposeColumn(v)};
    }
  }

  /** The indicator values of one row over the table's columns. */
  function PurposeIndicators(purpose: string, columns: set<string>): (m: map<string, bool>)
    ensures m.Keys == columns
    ensures forall c :: c in columns ==> (m[c] <==> c == PurposeColumn(purpose))
  {
    map c | c in columns :: c == PurposeColumn(purpose)
  }

  /** The categorical columns of one row after encoding. */
  datatype Categorical = Categorical(employmentStatus: Option<int>, purpose: map<string, bool>, incomeVariability: int)

  datatype CategoricalFrame = CategoricalFrame(purposeColumns: set<string>, rows: seq<Categorical>)

  /** The encoded categorical columns of one row over the batch's indicator
      columns: a code exactly for a mapped status, the flag set exactly for
      "High", and only its own purpose's indicator set. */
  function EncodeRow(a: Application, columns: set<string>): (r: Categorical)
    ensures r.employmentStatus.Some? <==>
      a.employmentStatus == "Employed" || a.employmentStatus == "Self-Employed" || a.employmentStatus == "Unemployed"
    ensures r.employmentStatus.Some? ==> EmploymentStatusName(r.employmentStatus.value) == Some(a.employmentStatus)
    ensures r.incomeVariability == 1 <==> a.incomeVariability == "High"
    ensures r.incomeVariability == 0 <==> a.incomeVariability != "High"
    ensures r.purpose.Keys == columns
    ensures forall c :: c in columns ==> (r.purpose[c] <==> c == PurposeColumn(a.loanPurpose))
  {
    EmploymentRoundTrip(a.employmentStatus, 0);
    Categorical(EmploymentCode(a.employmentStatus), PurposeIndicators(a.loanPurpose, columns), IncomeVariabilityFlag(a.incomeVariability))
  }

  /** Ordinal employment codes in 0..2, one indicator column per purpose of
      this batch, and a 0/1 income-variability flag. */
  function EncodeCategoricalFeatures(df: seq<Application>): (r: CategoricalFrame)
    ensures r.purposeColumns == PurposeColumns(df)
    ensures |r.rows| == |df|
    ensures forall i :: 0 <= i < |df| ==>
      r.rows[i].employmentStatus.Some? ==> 0 <= r.rows[i].employmentStatus.value <= 2
    ensures forall i :: 0 <= i < |df| ==>
      r.rows[i].incomeVariability == 0 || r.rows[i].incomeVariability == 1
    ensures forall i :: 0 <= i < |df| ==> r.rows[i].purpose.Keys == r.purposeColumns
    ensures forall i :: 0 <= i < |df| ==>
      r.rows[i].employmentStatus == EmploymentCode(df[i].employmentStatus) &&
      r.rows[i].incomeVariability == IncomeVariabilityFlag(df[i].incomeVariability) &&
      r.rows[i].purpose == PurposeIndicators(df[i].loanPurpose, r.purposeColumns)
  {
    var columns := PurposeColumns(df);
    CategoricalFrame(columns, seq(|df|, i requires 0 <= i < |df| => EncodeRow(df[i], columns)))
  }

  /** Every row has exactly one indicator set: the column of its own purpose. */
  lemma ExactlyOneIndicator(df: seq<Application>, i: nat)
    requires i < |df|
    ensures var row := EncodeCategoricalFeatures(df).rows[i];
      (set c | c in row.purpose && row.purpose[c]) == {PurposeColumn(df[i].loanPurpose)}
  {
    var row := EncodeCategoricalFeatures(df).rows[i];
    assert PurposeColumn(df[i].loanPurpose) in row.purpose;
  }

  /** The sample applications of the unit tests. */
  const SampleTable: seq<Application> := [
    Application(30.0, 50000.0, 20000.0, 12.0, 650.0, "Employed", "Car", 1.0, "Low", Some(1)),
    Application(40.0, 60000.0, 30000.0, 24.0, 700.0, "Self-Employed", "Home", 2.0, "High", Some(0)),
    Application(50.0, 70000.0, 40000.0, 36.0, 750.0, "Unemployed", "Business", 3.0, "Low", Some(1))]

  /** The one-hot columns follow the batch: the sample table gets three
      columns, a batch holding only a car loan gets one. */
  lemma SchemaDrift()
    ensures PurposeColumns(SampleTable) == {"purpose_Car", "purpose_Home", "purpose_Business"}
    ensures PurposeColumns([SampleTable[0]]) == {"purpose_Car"}
  {
    assert PurposeColumn("Car") == "purpose_Car";
    assert PurposeColumn("Home") == "purpose_Home";
    assert PurposeColumn("Business") == "purpose_Business";
    assert SampleTable[0].loanPurpose == "Car" && SampleTable[1].loanPurpose == "Home" && SampleTable[2].loanPurpose == "Business";
    assert [SampleTable[0]][0] == SampleTable[0];
  }

  /** The encoded sample: employment codes 2, 1, 0 and flags 0, 1, 0. */
  lemma EncodingExample()
    ensures var rows := EncodeCategoricalFeatures(SampleTable).rows;
      rows[0].employmentStatus == Some(2) && rows[1].employmentStatus == Some(1) && rows[2].employmentStatus == Some(0) &&
      rows[0].incomeVariability == 0 && rows[1].incomeVariability == 1 && rows[2].incomeVariability == 0
  {
    var rows := EncodeCategoricalFeatures(SampleTable).rows;
    assert rows[0].employmentStatus == EmploymentCode("Employed");
    assert rows[1].employmentStatus == EmploymentCode("Self-Employed");
    assert rows[2].employmentStatus == EmploymentCode("Unemployed");
    assert rows[1].incomeVariability == IncomeVariabilityFlag("High");
  }

  // ----- Numeric features -----

  datatype Feature = Age | Income | LoanAmount | LoanTerm | CreditScore | ExistingLoans | DebtToIncome | LoanToIncome

  /** The scaled features in the order the preprocessor lists them. */
  const NumericFeatures: seq<Feature> := [Age, Income, LoanAmount, LoanTerm, CreditScore, ExistingLoans, DebtToIncome, LoanToIncome]

  const FeatureSet: set<Feature> := {Age, Income, LoanAmount, LoanTerm, CreditScore, ExistingLoans, DebtToIncome, LoanToIncome}

  /** The eight scaled columns of one row. */
  datatype Numeric = Numeric(
    age: real,
    income: real,
    loanAmount: real,
    loanTerm: real,
    creditScore: real,
    existingLoans: real,
    debtToIncome: real,
    loanToIncome: real)

  function Get(v: Numeric, f: Feature): real
  {
    match f
    case Age => v.age
    case Income => v.income
    case LoanAmount => v.loanAmount
    case LoanTerm => v.loanTerm
    case CreditScore => v.creditScore
    case ExistingLoans => v.existingLoans
    case DebtToIncome => v.debtToIncome
    case LoanToIncome => v.loanToIncome
  }

  function FromFunction(g: Feature -> real): (v: Numeric)
    ensures forall f :: Get(v, f) == g(f)
  {
    Numeric(g(Age), g(Income), g(LoanAmount), g(LoanTerm), g(CreditScore), g(ExistingLoans), g(DebtToIncome), g(LoanToIncome))
  }

  /** The numeric part of a derived row, when both ratios are finite. */
  function NumericPart(d: Derived): (r: Option<Numeric>)
    ensures r.Some? <==> d.ratios.debtToIncome.Some? && d.ratios.loanToIncome.Some?
  {
    if d.ratios.debtToIncome.None? || d.ratios.loanToIncome.None? then None
    else
      var a := d.application;
      Some(Numeric(a.age, a.income, a.loanAmount, a.loanTerm, a.creditScore, a.existingLoans,
                   d.ratios.debtToIncome.value, d.ratios.loanToIncome.value))
  }

  // ----- Tables -----

  /** One row of the processed table. */
  datatype Row = Row(numeric: Numeric, categorical: Categorical, loanStatus: Option<int>)

  /** A processed table: its one-hot column names and its rows. */
  datatype Frame = Frame(purposeColumns: set<string>, rows: seq<Row>)

  /** Why the scaler rejects a table. */
  datatype PreprocessError = EmptyTable | NonFiniteRatio | NotFitted

  function Numerics(rows: seq<Row>): (r: seq<Numeric>)
    ensures |r| == |rows|
    ensures forall i :: 0 <= i < |rows| ==> r[i] == rows[i].numeric
  {
    seq(|rows|, i requires 0 <= i < |rows| => rows[i].numeric)
  }

  /** One feature's column. */
  function Column(vs: seq<Numeric>, f: Feature): (c: seq<real>)
    ensures |c| == |vs|
    ensures forall i :: 0 <= i < |vs| ==> c[i] == Get(vs[i], f)
  {
    seq(|vs|, i requires 0 <= i < |vs| => Get(vs[i], f))
  }

  /** Some row has a zero income or a zero term, so one of its ratios is
      not finite. */
  predicate HasUndefinedRatio(df: seq<Application>)
  {
    exists i :: 0 <= i < |df| && (df[i].income == 0.0 || df[i].loanTerm == 0.0)
  }

  predicate AllRatiosFinite(derived: seq<Derived>)
  {
    forall i :: 0 <= i < |derived| ==> NumericPart(derived[i]).Some?
  }

  lemma RatiosFiniteIff(df: seq<Application>)
    ensures AllRatiosFinite(CreateDerivedFeatures(df)) <==> !HasUndefinedRatio(df)
  {
    var derived := CreateDerivedFeatures(df);
    if HasUndefinedRatio(df) {
      var i :| 0 <= i < |df| && (df[i].income == 0.0 || df[i].loanTerm == 0.0);
      assert NumericPart(derived[i]).None?;
    }
  }

  /** The processed rows: the numeric part of each derived row next to its
      encoded categorical columns and its label. */
  function Assemble(df: seq<Application>, derived: seq<Derived>, encoded: CategoricalFrame): (r: Frame)
    requires |derived| == |df| && |encoded.rows| == |df| && AllRatiosFinite(derived)
    ensures r.purposeColumns == encoded.purposeColumns && |r.rows| == |df|
    ensures forall i :: 0 <= i < |df| ==>
      r.rows[i].categorical == encoded.rows[i] && r.rows[i].loanStatus == df[i].loanStatus
    ensures forall i :: 0 <= i < |df| ==> Some(r.rows[i].numeric) == NumericPart(derived[i])
  {
    Frame(encoded.purposeColumns,
      seq(|df|, i requires 0 <= i < |df| => Row(NumericPart(derived[i]).value, encoded.rows[i], df[i].loanStatus)))
  }

  /** Derivation and encoding, and the scaler's own checks on the numeric
      columns: an empty table or an infinite ratio is rejected. */
  function Prepare(df: seq<Application>): (r: Result<Frame, PreprocessError>)
    ensures r == Failure(EmptyTable) <==> |df| == 0
    ensures r == Failure(NonFiniteRatio) <==> |df| > 0 && HasUndefinedRatio(df)
    ensures r.Failure? ==> r.error != NotFitted
    ensures r.Success? ==> r.value.purposeColumns == PurposeColumns(df) && |r.value.rows| == |df| > 0
    ensures r.Success? ==> forall i :: 0 <= i < |df| ==>
      r.value.rows[i].categorical == EncodeCategoricalFeatures(df).rows[i] &&
      r.value.rows[i].loanStatus == df[i].loanStatus
    ensures r.Success? ==> forall i :: 0 <= i < |df| ==>
      var v := r.value.rows[i].numeric;
      v.age == df[i].age && v.income == df[i].income && v.loanAmount == df[i].loanAmount &&
      v.loanTerm == df[i].loanTerm && v.creditScore == df[i].creditScore && v.existingLoans == df[i].existingLoans &&
      Some(v.debtToIncome) == DebtToIncomeRatio(df[i].loanAmount, df[i].income, df[i].loanTerm) &&
      Some(v.loanToIncome) == LoanToIncomeRatio(df[i].loanAmount, df[i].income)
  {
    var derived := CreateDerivedFeatures(df);
    var encoded := EncodeCategoricalFeatures(df);
    RatiosFiniteIff(df);
    if |df| == 0 then Failure(EmptyTable)
    else if !AllRatiosFinite(derived) then Failure(NonFiniteRatio)
    else Success(Assemble(df, derived, encoded))
  }

  // ----- Standard scaling -----

  /** Per-feature centre and scale learned by fitting. */
  datatype ScalerParams = ScalerParams(mean: Numeric, scale: Numeric)

  /** Every scale is positive. */
  predicate ValidScaler(p: ScalerParams)
  {
    forall f :: Get(p.scale, f) > 0.0
  }

  predicate NonNegative(deviations: Numeric)
  {
    forall f :: Get(deviations, f) >= 0.0
  }

  /** `d` is the population standard deviation of `xs`. */
  ghost predicate IsStdDev(d: real, xs: seq<real>)
  {
    |xs| > 0 && d >= 0.0 && Square(d) == PopulationVariance(xs)
  }

  /** A zero standard deviation is replaced by 1 so the column is only centred. */
  function ScaleFor(deviation: real): (s: real)
    requires deviation >= 0.0
    ensures s > 0.0
    ensures deviation > 0.0 ==> s == deviation
    ensures deviation == 0.0 ==> s == 1.0
  {
    if deviation == 0.0 then 1.0 else deviation
  }

  /** Learns the per-feature means and scales of a non-empty table. */
  function FitScaler(vs: seq<Numeric>, deviations: Numeric): (p: ScalerParams)
    requires |vs| > 0 && NonNegative(deviations)
    ensures ValidScaler(p)
    ensures forall f :: Get(p.mean, f) == Mean(Column(vs, f))
    ensures forall f :: Get(p.scale, f) == ScaleFor(Get(deviations, f))
  {
    ScalerParams(FromFunction(f => Mean(Column(vs, f))), FromFunction(f => ScaleFor(Get(deviations, f))))
  }

  /** Centres and scales one row; multiplying back and adding the mean
      recovers the row. */
  function Standardize(v: Numeric, p: ScalerParams): (r: Numeric)
    requires ValidScaler(p)
    ensures forall f :: Get(r, f) * Get(p.scale, f) + Get(p.mean, f) == Get(v, f)
  {
    var m, s := p.mean, p.scale;
    assert s.age == Get(s, Age) && s.income == Get(s, Income) && s.loanAmount == Get(s, LoanAmount)
      && s.loanTerm == Get(s, LoanTerm) && s.creditScore == Get(s, CreditScore) && s.existingLoans == Get(s, ExistingLoans)
      && s.debtToIncome == Get(s, DebtToIncome) && s.loanToIncome == Get(s, LoanToIncome);
    Numeric(
      ScaleValue(v.age, m.age, s.age),
      ScaleValue(v.income, m.income, s.income),
      ScaleValue(v.loanAmount, m.loanAmount, s.loanAmount),
      ScaleValue(v.loanTerm, m.loanTerm, s.loanTerm),
      ScaleValue(v.creditScore, m.creditScore, s.creditScore),
      ScaleValue(v.existingLoans, m.existingLoans, s.existingLoans),
      ScaleValue(v.debtToIncome, m.debtToIncome, s.debtToIncome),
      ScaleValue(v.loanToIncome, m.loanToIncome, s.loanToIncome))
  }

  /** `(x - center) / scale`, which the inverse transform undoes. */
  function ScaleValue(x: real, center: real, scale: real): (y: real)
    requires scale > 0.0
    ensures y * scale + center == x
  {
    (x - center) / scale
  }

  lemma Rescale(y: real, x: real, center: real, scale: real)
    requires scale != 0.0 && y * scale + center == x
    ensures y == (x - center) / scale
  {
  }

  /** Scales the numeric columns of every row and leaves the other columns. */
  function ScaleFrame(fr: Frame, p: ScalerParams): (r: Frame)
    requires ValidScaler(p)
    ensures r.purposeColumns == fr.purposeColumns && |r.rows| == |fr.rows|
    ensures forall i :: 0 <= i < |fr.rows| ==>
      r.rows[i].categorical == fr.rows[i].categorical && r.rows[i].loanStatus == fr.rows[i].loanStatus
    ensures forall i :: 0 <= i < |fr.rows| ==> r.rows[i].numeric == Standardize(fr.rows[i].numeric, p)
  {
    Frame(fr.purposeColumns, seq(|fr.rows|, i requires 0 <= i < |fr.rows| =>
      fr.rows[i].(numeric := Standardize(fr.rows[i].numeric, p))))
  }

  lemma StandardizedColumn(vs: seq<Numeric>, p: ScalerParams, ws: seq<Numeric>, f: Feature)
    requires ValidScaler(p) && |ws| == |vs|
    requires forall i :: 0 <= i < |vs| ==> ws[i] == Standardize(vs[i], p)
    ensures IsStandardized(Column(ws, f), Column(vs, f), Get(p.mean, f), Get(p.scale, f))
  {
    forall i | 0 <= i < |vs|
      ensures Column(ws, f)[i] == (Column(vs, f)[i] - Get(p.mean, f)) / Get(p.scale, f)
    {
      StandardizedValue(vs[i], p, f);
    }
  }

  lemma StandardizedValue(v: Numeric, p: ScalerParams, f: Feature)
    requires ValidScaler(p)
    ensures Get(Standardize(v, p), f) == (Get(v, f) - Get(p.mean, f)) / Get(p.scale, f)
  {
    Rescale(Get(Standardize(v, p), f), Get(v, f), Get(p.mean, f), Get(p.scale, f));
  }

  // ----- Feature statistics -----

  /** The snapshot kept for monitoring, per scaled feature. `sampleVariance`
      is the square of the reported standard deviation (ddof = 1); it is
      undefined for a single row. */
  datatype FeatureStats = FeatureStats(
    mean: map<Feature, real>,
    sampleVariance: map<Feature, Option<real>>,
    min: map<Feature, real>,
    max: map<Feature, real>)

  /** Mean, spread, minimum and maximum of each scaled feature: an entry for
      every feature in each of the four maps, computed over that feature's
      column. */
  function StoreFeatureStats(vs: seq<Numeric>): (s: FeatureStats)
    requires |vs| > 0
    ensures s.mean.Keys == FeatureSet && s.sampleVariance.Keys == FeatureSet
    ensures s.min.Keys == FeatureSet && s.max.Keys == FeatureSet
    ensures forall f :: f in FeatureSet ==> s.mean[f] == Mean(Column(vs, f))
    ensures forall f :: f in FeatureSet ==> s.sampleVariance[f] == SampleVariance(Column(vs, f))
    ensures forall f :: f in FeatureSet ==> s.min[f] == Min(Column(vs, f))
    ensures forall f :: f in FeatureSet ==> s.max[f] == Max(Column(vs, f))
  {
    var s := FeatureStats(
      map f | f in FeatureSet :: Mean(Column(vs, f)),
      map f | f in FeatureSet :: SampleVariance(Column(vs, f)),
      map f | f in FeatureSet :: Min(Column(vs, f)),
      map f | f in FeatureSet :: Max(Column(vs, f)));
    s
  }

  /** Each stored mean lies between the stored minimum and maximum, and the
      spread is defined exactly when there are two rows or more. */
  lemma FeatureStatsBounds(vs: seq<Numeric>, f: Feature)
    requires |vs| > 0 && f in FeatureSet
    ensures var s := StoreFeatureStats(vs);
      s.min[f] <= s.mean[f] <= s.max[f] && (s.sampleVariance[f].Some? <==> |vs| >= 2)
  {
    MeanBetweenMinMax(Column(vs, f));
  }

  lemma EveryFeatureListed(f: Feature)
    ensures f in FeatureSet && f in NumericFeatures
  {
  }

  // ----- Fitting and transforming -----

  /** What fitting produces: the scaler, the scaled table and the snapshot. */
  datatype Fitted = Fitted(scaler: ScalerParams, frame: Frame, stats: FeatureStats)

  function Fit(df: seq<Application>, deviations: Numeric): (r: Result<Fitted, PreprocessError>)
    requires NonNegative(deviations)
    ensures r.Failure? <==> Prepare(df).Failure?
    ensures r.Failure? ==> r.error == Prepare(df).error
    ensures r.Success? ==> ValidScaler(r.value.scaler)
    ensures r.Success? ==> r.value.frame.purposeColumns == PurposeColumns(df) && |r.value.frame.rows| == |df|
  {
    match Prepare(df)
    case Failure(e) => Failure(e)
    case Success(frame) =>
      var p := FitScaler(Numerics(frame.rows), deviations);
      var scaled := ScaleFrame(frame, p);
      Success(Fitted(p, scaled, StoreFeatureStats(Numerics(scaled.rows))))
  }

  /** Applying fitted parameters to a new batch. */
  function TransformWith(scaler: Option<ScalerParams>, df: seq<Application>): (r: Result<Frame, PreprocessError>)
    requires scaler.Some? ==> ValidScaler(scaler.value)
    ensures scaler.None? ==> r == Failure(NotFitted)
    ensures scaler.Some? ==> (r.Success? <==> Prepare(df).Success?)
    ensures r.Success? ==> r.value.purposeColumns == PurposeColumns(df) && |r.value.rows| == |df|
    ensures r.Success? ==> forall i :: 0 <= i < |df| ==>
      r.value.rows[i].categorical == EncodeCategoricalFeatures(df).rows[i]
    ensures r.Success? ==> forall i :: 0 <= i < |df| ==>
      r.value.rows[i].numeric == Standardize(Prepare(df).value.rows[i].numeric, scaler.value)
  {
    if scaler.None? then Failure(NotFitted)
    else match Prepare(df)
      case Failure(e) => Failure(e)
      case Success(frame) => Success(ScaleFrame(frame, scaler.value))
  }

  /** Transforming the very table the scaler was fitted on reproduces the
      fitted output. */
  lemma FitThenTransform(df: seq<Application>, deviations: Numeric)
    requires NonNegative(deviations) && Fit(df, deviations).Success?
    ensures TransformWith(Some(Fit(df, deviations).value.scaler), df) == Success(Fit(df, deviations).value.frame)
  {
    var frame := Prepare(df).value;
    var p := FitScaler(Numerics(frame.rows), deviations);
    var scaled := ScaleFrame(frame, p);
    assert Fit(df, deviations) == Success(Fitted(p, scaled, StoreFeatureStats(Numerics(scaled.rows))));
    TransformPrepared(p, df);
  }

  /** A fitted scaler scales exactly the prepared table. */
  lemma TransformPrepared(p: ScalerParams, df: seq<Application>)
    requires ValidScaler(p) && Prepare(df).Success?
    ensures TransformWith(Some(p), df) == Success(ScaleFrame(Prepare(df).value, p))
  {
  }

  /** Every feature a transform outputs, multiplied back by its scale and
      shifted by its mean, is the row's raw column or derived ratio. */
  lemma TransformedRow(p: ScalerParams, df: seq<Application>, i: nat)
    requires ValidScaler(p) && TransformWith(Some(p), df).Success? && i < |df|
    ensures var u := Restore(TransformWith(Some(p), df).value.rows[i].numeric, p);
      u.age == df[i].age && u.income == df[i].income && u.loanAmount == df[i].loanAmount &&
      u.loanTerm == df[i].loanTerm && u.creditScore == df[i].creditScore && u.existingLoans == df[i].existingLoans &&
      Some(u.debtToIncome) == DebtToIncomeRatio(df[i].loanAmount, df[i].income, df[i].loanTerm) &&
      Some(u.loanToIncome) == LoanToIncomeRatio(df[i].loanAmount, df[i].income)
  {
    var u := Prepare(df).value.rows[i].numeric;
    var v := TransformWith(Some(p), df).value.rows[i].numeric;
    assert v == Standardize(u, p);
    RestoreStandardized(u, p);
  }

  /** The inverse transform: each feature times its scale plus its mean. */
  function Restore(v: Numeric, p: ScalerParams): Numeric
  {
    Numeric(
      v.age * p.scale.age + p.mean.age,
      v.income * p.scale.income + p.mean.income,
      v.loanAmount * p.scale.loanAmount + p.mean.loanAmount,
      v.loanTerm * p.scale.loanTerm + p.mean.loanTerm,
      v.creditScore * p.scale.creditScore + p.mean.creditScore,
      v.existingLoans * p.scale.existingLoans + p.mean.existingLoans,
      v.debtToIncome * p.scale.debtToIncome + p.mean.debtToIncome,
      v.loanToIncome * p.scale.loanToIncome + p.mean.loanToIncome)
  }

  /** Standardizing a row and restoring it gives the row back. */
  lemma RestoreStandardized(u: Numeric, p: ScalerParams)
    requires ValidScaler(p)
    ensures Restore(Standardize(u, p), p) == u
  {
    var v := Standardize(u, p);
    assert Get(v, Age) * Get(p.scale, Age) + Get(p.mean, Age) == Get(u, Age);
    assert Get(v, Income) * Get(p.scale, Income) + Get(p.mean, Income) == Get(u, Income);
    assert Get(v, LoanAmount) * Get(p.scale, LoanAmount) + Get(p.mean, LoanAmount) == Get(u, LoanAmount);
    assert Get(v, LoanTerm) * Get(p.scale, LoanTerm) + Get(p.mean, LoanTerm) == Get(u, LoanTerm);
    assert Get(v, CreditScore) * Get(p.scale, CreditScore) + Get(p.mean, CreditScore) == Get(u, CreditScore);
    assert Get(v, ExistingLoans) * Get(p.scale, ExistingLoans) + Get(p.mean, ExistingLoans) == Get(u, ExistingLoans);
    assert Get(v, DebtToIncome) * Get(p.scale, DebtToIncome) + Get(p.mean, DebtToIncome) == Get(u, DebtToIncome);
    assert Get(v, LoanToIncome) * Get(p.scale, LoanToIncome) + Get(p.mean, LoanToIncome) == Get(u, LoanToIncome);
    var w := Restore(v, p);
    assert w.age == u.age && w.income == u.income && w.loanAmount == u.loanAmount && w.loanTerm == u.loanTerm;
    assert w.creditScore == u.creditScore && w.existingLoans == u.existingLoans;
    assert w.debtToIncome == u.debtToIncome && w.loanToIncome == u.loanToIncome;
  }

  /** A batch transformed with the scaler fitted on `df` (the scaler
      `FitTransform` stores) is centred on the means of `df`'s prepared
      columns and divided by the fitted scales, whatever the batch holds. */
  lemma TransformUsesFit(df: seq<Application>, deviations: Numeric, batch: seq<Application>, i: nat, f: Feature)
    requires NonNegative(deviations) && Prepare(df).Success? && Prepare(batch).Success? && i < |batch|
    ensures var p := FitScaler(Numerics(Prepare(df).value.rows), deviations);
      TransformWith(Some(p), batch).Success? &&
      Get(TransformWith(Some(p), batch).value.rows[i].numeric, f)
        == (Get(Prepare(batch).value.rows[i].numeric, f) - Mean(Column(Numerics(Prepare(df).value.rows), f)))
           / ScaleFor(Get(deviations, f))
  {
    var p := FitScaler(Numerics(Prepare(df).value.rows), deviations);
    var u := Prepare(batch).value.rows[i].numeric;
    TransformPrepared(p, batch);
    assert TransformWith(Some(p), batch).value.rows[i].numeric == Standardize(u, p);
    StandardizedValue(u, p, f);
  }

  /** The fitted table's numeric rows are the prepared rows standardized
      with the fitted scaler, whose means are the prepared columns' means. */
  lemma FittedRows(df: seq<Application>, deviations: Numeric)
    requires NonNegative(deviations) && Fit(df, deviations).Success?
    ensures |Numerics(Prepare(df).value.rows)| > 0
    ensures |Numerics(Fit(df, deviations).value.frame.rows)| == |Numerics(Prepare(df).value.rows)|
    ensures Fit(df, deviations).value.scaler == FitScaler(Numerics(Prepare(df).value.rows), deviations)
    ensures Fit(df, deviations).value.stats == StoreFeatureStats(Numerics(Fit(df, deviations).value.frame.rows))
    ensures forall i :: 0 <= i < |Numerics(Prepare(df).value.rows)| ==>
      Numerics(Fit(df, deviations).value.frame.rows)[i]
        == Standardize(Numerics(Prepare(df).value.rows)[i], Fit(df, deviations).value.scaler)
  {
    var frame := Prepare(df).value;
    var vs := Numerics(frame.rows);
    var p := FitScaler(vs, deviations);
    var scaled := ScaleFrame(frame, p);
    var ws := Numerics(scaled.rows);
    assert Fit(df, deviations) == Success(Fitted(p, scaled, StoreFeatureStats(ws)));
    forall i | 0 <= i < |vs| ensures ws[i] == Standardize(vs[i], p) {
      assert ws[i] == scaled.rows[i].numeric;
      assert vs[i] == frame.rows[i].numeric;
    }
  }

  /** Every scaled feature of the fitted table has mean 0, and so has every
      mean in the snapshot. */
  lemma FitCentres(df: seq<Application>, deviations: Numeric, f: Feature)
    requires NonNegative(deviations) && Fit(df, deviations).Success?
    ensures Mean(Column(Numerics(Fit(df, deviations).value.frame.rows), f)) == 0.0
    ensures Fit(df, deviations).value.stats.mean[f] == 0.0
  {
    FittedRows(df, deviations);
    var fitted := Fit(df, deviations).value;
    var vs, ws := Numerics(Prepare(df).value.rows), Numerics(fitted.frame.rows);
    var p := fitted.scaler;
    StandardizedColumn(vs, p, ws, f);
    assert Get(p.mean, f) == Mean(Column(vs, f));
    StandardizedMeanZero(Column(ws, f), Column(vs, f), Get(p.scale, f));
    EveryFeatureListed(f);
  }

  /** The deviations a fit is given are the population standard deviations
      of the table's prepared numeric columns. */
  ghost predicate DeviationsOf(df: seq<Application>, deviations: Numeric)
  {
    NonNegative(deviations) &&
    (Prepare(df).Success? ==>
      forall f :: IsStdDev(Get(deviations, f), Column(Numerics(Prepare(df).value.rows), f)))
  }

  /** A feature whose fitted column varies comes out with population
      variance 1. */
  lemma FitUnitVariance(df: seq<Application>, deviations: Numeric, f: Feature)
    requires DeviationsOf(df, deviations) && Fit(df, deviations).Success?
    requires PopulationVariance(Column(Numerics(Prepare(df).value.rows), f)) > 0.0
    ensures PopulationVariance(Column(Numerics(Fit(df, deviations).value.frame.rows), f)) == 1.0
  {
    FittedRows(df, deviations);
    var fitted := Fit(df, deviations).value;
    var vs, ws := Numerics(Prepare(df).value.rows), Numerics(fitted.frame.rows);
    var p := fitted.scaler;
    var d := Get(deviations, f);
    assert IsStdDev(d, Column(vs, f));
    assert d != 0.0 && Get(p.scale, f) == d;
    assert Get(p.mean, f) == Mean(Column(vs, f));
    StandardizedColumn(vs, p, ws, f);
    StandardizedUnitVariance(Column(ws, f), Column(vs, f), d);
  }

  // ----- The preprocessor object -----

  class LoanPreprocessor {
    /** The fitted scaler, or None before the first successful fit. */
    var scaler: Option<ScalerParams>
    /** The snapshot of the last successful fit, or None (an empty dict). */
    var featureStats: Option<FeatureStats>

    ghost predicate Valid()
      reads this
    {
      scaler.Some? ==> ValidScaler(scaler.value)
    }

    constructor()
      ensures Valid()
      ensures scaler == None && featureStats == None
    {
      scaler := None;
      featureStats := None;
    }

    /** Fits the scaler on the prepared table, scales it and stores the
        snapshot. A rejected table leaves the scaler unfitted and the
        previous snapshot in place. */
    method FitTransform(df: seq<Application>, deviations: Numeric) returns (r: Result<Frame, PreprocessError>)
      requires DeviationsOf(df, deviations)
      modifies this
      ensures Valid()
      ensures Fit(df, deviations).Success? ==>
        scaler == Some(Fit(df, deviations).value.scaler) &&
        featureStats == Some(Fit(df, deviations).value.stats) &&
        r == Success(Fit(df, deviations).value.frame)
      ensures Fit(df, deviations).Failure? ==>
        scaler == None && featureStats == old(featureStats) && r == Failure(Fit(df, deviations).error)
      ensures r.Success? ==> TransformWith(scaler, df) == r
      ensures r.Success? ==> scaler == Some(FitScaler(Numerics(Prepare(df).value.rows), deviations))
      ensures r.Success? ==> forall f :: Mean(Column(Numerics(r.value.rows), f)) == 0.0
    {
      var prepared := Prepare(df);
      if prepared.Failure? {
        scaler := None;
        return Failure(prepared.error);
      }
      var frame := prepared.value;
      var params := FitScaler(Numerics(frame.rows), deviations);
      scaler := Some(params);
      var scaled := ScaleFrame(frame, params);
      featureStats := Some(StoreFeatureStats(Numerics(scaled.rows)));
      r := Success(scaled);
      FitThenTransform(df, deviations);
      forall f ensures Mean(Column(Numerics(r.value.rows), f)) == 0.0 {
        FitCentres(df, deviations, f);
      }
    }

    /** Applies the fitted scaler to a new batch; the fitted state is only
        read. */
    method Transform(df: seq<Application>) returns (r: Result<Frame, PreprocessError>)
      requires Valid()
      ensures r == TransformWith(scaler, df)
      ensures scaler.None? ==> r == Failure(NotFitted)
      ensures r.Success? ==> r.value.purposeColumns == PurposeColumns(df) && |r.value.rows| == |df|
    {
      if scaler.None? {
        return Failure(NotFitted);
      }
      var prepared := Prepare(df);
      if prepared.Failure? {
        return Failure(prepared.error);
      }
      r := Success(ScaleFrame(prepared.value, scaler.value));
    }
  }

  /** Fitting a fresh preprocessor and then transforming the same table, with
      another batch transformed in between, gives the fitted output again; a
      rejected fit leaves nothing to transform with. */
  method TransformAfterFit(df: seq<Application>, deviations: Numeric, other: seq<Application>)
    returns (first: Result<Frame, PreprocessError>, middle: Result<Frame, PreprocessError>, second: Result<Frame, PreprocessError>)
    requires DeviationsOf(df, deviations)
    ensures first.Success? ==> second == first
    ensures first.Success? ==> Prepare(df).Success? && middle == TransformWith(Some(FitScaler(Numerics(Prepare(df).value.rows), deviations)), other)
    ensures first.Failure? ==> middle == Failure(NotFitted) && second == Failure(NotFitted)
  {
    var preprocessor := new LoanPreprocessor();
    first := preprocessor.FitTransform(df, deviations);
    middle := preprocessor.Transform(other);
    second := preprocessor.Transform(df);
  }
}
