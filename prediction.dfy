/** The prediction step of app.py:89-118: build the nine-column feature row
    from one applicant, align it with the classifier's schema, ask the
    classifier, and turn its answer into one of two risk labels. */
module Prediction {
  import opened Wrappers
  import opened Text
  import opened Frames
  import opened SafeEncoding
  import opened Alignment

  /** The values the form collects (app.py:39-64). */
  datatype Applicant = Applicant(
    age: int,
    sex: string,
    job: int,
    housing: string,
    savingAccounts: string,
    checkingAccount: string,
    creditAmount: int,
    duration: int,
    purpose: string)

  /** The pre-trained classifier: its prediction for a one-row frame, and
      `feature_names_in_` when it declares one. */
  datatype Classifier = Classifier(predict: seq<Column> -> int, featureNamesIn: Option<seq<string>>)

  /** The column order of the row the form builds. */
  const FEATURE_ORDER: seq<string> :=
    ["Age", "Sex", "Job", "Housing", "Saving accounts", "Checking account", "Credit amount", "Duration", "Purpose"]

  /** The five fields that go through `safe_encode`. */
  const CATEGORICAL: set<string> := {"Sex", "Housing", "Saving accounts", "Checking account", "Purpose"}

  const GOOD_LABEL: string := "Good (Low Risk)"
  const BAD_LABEL: string := "Bad (High Risk)"

  /** `input_data` (app.py:90-100): the nine columns in their fixed order;
      the five categorical fields are encoded, the four numeric ones copied.
      The first encoding that fails stops the construction. */
  function BuildRecord(encoders: EncoderTable, a: Applicant): (r: Result<seq<Column>, EncodeError>)
    ensures r.Success? <==> forall f :: f in CATEGORICAL && f in encoders ==> encoders[f].classes != []
    ensures r.Success? ==> Names(r.value) == FEATURE_ORDER
    ensures r.Success? ==> r.value[0].value == Num(a.age) && r.value[2].value == Num(a.job)
                           && r.value[6].value == Num(a.creditAmount) && r.value[7].value == Num(a.duration)
    ensures r.Success? ==> r.value[1].value == SafeEncode(encoders, "Sex", a.sex).value
                           && r.value[3].value == SafeEncode(encoders, "Housing", a.housing).value
                           && r.value[4].value == SafeEncode(encoders, "Saving accounts", a.savingAccounts).value
                           && r.value[5].value == SafeEncode(encoders, "Checking account", a.checkingAccount).value
                           && r.value[8].value == SafeEncode(encoders, "Purpose", a.purpose).value
    ensures r.Failure? ==> r.error.field in CATEGORICAL && r.error.field in encoders
                           && encoders[r.error.field].classes == []
  {
    var sex :- SafeEncode(encoders, "Sex", a.sex);
    var housing :- SafeEncode(encoders, "Housing", a.housing);
    var savings :- SafeEncode(encoders, "Saving accounts", a.savingAccounts);
    var checking :- SafeEncode(encoders, "Checking account", a.checkingAccount);
    var purpose :- SafeEncode(encoders, "Purpose", a.purpose);
    Success([
      Column("Age", Num(a.age)),
      Column("Sex", sex),
      Column("Job", Num(a.job)),
      Column("Housing", housing),
      Column("Saving accounts", savings),
      Column("Checking account", checking),
      Column("Credit amount", Num(a.creditAmount)),
      Column("Duration", Num(a.duration)),
      Column("Purpose", purpose)
    ])
  }

  /** The label shown for a prediction (app.py:115-118). */
  function RiskLabel(prediction: int): (shown: string)
    ensures shown == GOOD_LABEL <==> prediction == 1
    ensures shown == BAD_LABEL <==> prediction != 1
  {
    if prediction == 1 then GOOD_LABEL else BAD_LABEL
  }

  /** What one submission shows: the label for the classifier's answer on the
      aligned row, or the error that stopped the row from being built. */
  function Outcome(encoders: EncoderTable, model: Classifier, a: Applicant): (r: Result<string, EncodeError>)
    ensures r.Success? <==> BuildRecord(encoders, a).Success?
    ensures r.Success? ==> r.value == GOOD_LABEL || r.value == BAD_LABEL
    ensures r.Failure? ==> r.error == BuildRecord(encoders, a).error
  {
    var record :- BuildRecord(encoders, a);
    Success(RiskLabel(model.predict(Aligned(record, model.featureNamesIn))))
  }

  /** One submission of the form, end to end (app.py:89-118). */
  method Assess(encoders: EncoderTable, model: Classifier, a: Applicant) returns (r: Result<string, EncodeError>)
    ensures r == Outcome(encoders, model, a)
  {
    var record := BuildRecord(encoders, a);
    if record.Failure? {
      return Failure(record.error);
    }
    RecordDistinct(encoders, a);
    var inputDf := new Frame(record.value);
    var aligned, _ := Align(inputDf, model.featureNamesIn);
    var prediction := model.predict(aligned.columns);
    r := Success(RiskLabel(prediction));
  }

  lemma FeatureOrderDistinct()
    ensures Distinct(FEATURE_ORDER)
  {
  }

  /** The built row has unique column labels, so it is a valid frame. */
  lemma RecordDistinct(encoders: EncoderTable, a: Applicant)
    requires BuildRecord(encoders, a).Success?
    ensures Distinct(Names(BuildRecord(encoders, a).value))
  {
    FeatureOrderDistinct();
  }

  /** A submission never fails when the encoders registered for the five
      categorical fields each have a class to fall back to, and then it shows
      one of the two labels. */
  lemma OutcomeTotal(encoders: EncoderTable, model: Classifier, a: Applicant)
    requires forall f :: f in CATEGORICAL && f in encoders ==> encoders[f].classes != []
    ensures Outcome(encoders, model, a).Success?
    ensures Outcome(encoders, model, a).value in {GOOD_LABEL, BAD_LABEL}
  {
  }

  /** Without a declared schema the classifier sees the row as built, in
      construction order. */
  lemma NoSchemaKeepsRecord(encoders: EncoderTable, model: Classifier, a: Applicant)
    requires model.featureNamesIn.None? && BuildRecord(encoders, a).Success?
    ensures Outcome(encoders, model, a) == Success(RiskLabel(model.predict(BuildRecord(encoders, a).value)))
  {
  }

  /** The numeric fields do not depend on the encoders: two encoder tables
      give rows that agree on Age, Job, Credit amount and Duration. */
  lemma NumericFieldsIgnoreEncoders(e1: EncoderTable, e2: EncoderTable, a: Applicant)
    requires BuildRecord(e1, a).Success? && BuildRecord(e2, a).Success?
    ensures forall k :: k in {0, 2, 6, 7} ==> BuildRecord(e1, a).value[k] == BuildRecord(e2, a).value[k]
  {
  }

  /** Two applicants whose numeric fields agree and whose categorical fields
      get the same codes lead to the same outcome. */
  lemma SameCodesSameOutcome(encoders: EncoderTable, model: Classifier, a: Applicant, b: Applicant)
    requires a.age == b.age && a.job == b.job && a.creditAmount == b.creditAmount && a.duration == b.duration
    requires SafeEncode(encoders, "Sex", a.sex) == SafeEncode(encoders, "Sex", b.sex)
    requires SafeEncode(encoders, "Housing", a.housing) == SafeEncode(encoders, "Housing", b.housing)
    requires SafeEncode(encoders, "Saving accounts", a.savingAccounts)
             == SafeEncode(encoders, "Saving accounts", b.savingAccounts)
    requires SafeEncode(encoders, "Checking account", a.checkingAccount)
             == SafeEncode(encoders, "Checking account", b.checkingAccount)
    requires SafeEncode(encoders, "Purpose", a.purpose) == SafeEncode(encoders, "Purpose", b.purpose)
    ensures BuildRecord(encoders, a) == BuildRecord(encoders, b)
    ensures Outcome(encoders, model, a) == Outcome(encoders, model, b)
  {
  }

  /** With an encoder for the field, "Male " (capital letter, trailing
      space) is coded like "male". */
  lemma MixedCaseSameCode(encoders: EncoderTable, field: string)
    requires field in encoders
    ensures SafeEncode(encoders, field, "Male ") == SafeEncode(encoders, field, "male")
  {
    MalePadded();
    EncodeIgnoresPadding(encoders, field, "", "Male", " ");
    MaleLower();
    EncodeIgnoresCase(encoders, field, "Male", "male");
  }

  lemma MalePadded()
    ensures "Male " == "" + "Male" + " " && AllSpace("") && AllSpace(" ")
  {
  }

  lemma MaleLower()
    ensures Lower("Male") == Lower("male")
  {
    assert Lower("Male") == "male" == Lower("male");
  }

  /** Scenario: with a Sex encoder, "Male " gives the same submission outcome
      as "male". */
  lemma MixedCaseSexSameOutcome(encoders: EncoderTable, model: Classifier, a: Applicant)
    requires "Sex" in encoders && a.sex == "male"
    ensures Outcome(encoders, model, a.(sex := "Male ")) == Outcome(encoders, model, a)
  {
    MixedCaseSameCode(encoders, "Sex");
    SameCodesSameOutcome(encoders, model, a.(sex := "Male "), a);
  }

  /** Scenario: a Saving accounts value outside the encoder's classes does
      not stop the submission; the row carries the first class's code 0. */
  lemma UnknownSavingsFallsBack(encoders: EncoderTable, a: Applicant)
    requires "Saving accounts" in encoders && encoders["Saving accounts"].classes != []
    requires Normalize(a.savingAccounts) !in encoders["Saving accounts"].classes
    requires forall f :: f in CATEGORICAL && f in encoders ==> encoders[f].classes != []
    ensures BuildRecord(encoders, a).Success?
    ensures BuildRecord(encoders, a).value[4] == Column("Saving accounts", Num(0))
  {
  }

  /** Scenario: without a Checking account encoder the row carries the raw
      Checking account text. */
  lemma MissingCheckingEncoderPassesThrough(encoders: EncoderTable, a: Applicant)
    requires "Checking account" !in encoders
    requires forall f :: f in CATEGORICAL && f in encoders ==> encoders[f].classes != []
    ensures BuildRecord(encoders, a).Success?
    ensures BuildRecord(encoders, a).value[5] == Column("Checking account", Str(a.checkingAccount))
  {
  }
}
