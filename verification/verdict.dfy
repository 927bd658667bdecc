/** What the page shows after a prediction: a red error box for the positive
    class, a green success box otherwise. The classifier itself is a
    parameter, seen only through the row it is given. */
module Verdict {
  import opened OrderedDict
  import opened Applicant
  import opened Encoder
  import opened Features

  /** The two message boxes the page can show. */
  datatype Box = ErrorBox | SuccessBox

  datatype Outcome = Outcome(box: Box, message: string)

  const HighRisk: string := "High Risk of Default"
  const LowRisk: string := "Low Risk Applicant"

  /** The verdict for a predicted label: high risk exactly for label 1, and
      low risk for every other label, not only 0. */
  function VerdictFor(prediction: int): (o: Outcome)
    ensures o.message == HighRisk <==> prediction == 1
    ensures o.message == LowRisk <==> prediction != 1
    ensures o.box == ErrorBox <==> o.message == HighRisk
  {
    if prediction == 1 then Outcome(ErrorBox, HighRisk)
    else Outcome(SuccessBox, LowRisk)
  }

  /** The page's answer for a form: the classifier sees the row's values in
      column order, and its label picks the verdict. */
  function Assess(classify: seq<Cell> -> int, f: Form): (o: Outcome)
    ensures Valid(EncodeForm(f)) && (o.box == ErrorBox <==> classify(Values(EncodeForm(f))) == 1)
    ensures o.message == HighRisk <==> classify(Values(EncodeForm(f))) == 1
    ensures o.message == LowRisk <==> classify(Values(EncodeForm(f))) != 1
    ensures o.box == ErrorBox <==> o.message == HighRisk
  {
    EncodeFormColumns(f);
    VerdictFor(classify(Values(EncodeForm(f))))
  }

  /** For an applicant whose choices come from the select boxes, the
      classifier is shown exactly the reference row. */
  lemma AssessApplicant(classify: seq<Cell> -> int, a: Applicant)
    ensures Assess(classify, ToForm(a)) == VerdictFor(classify(Reference(a)))
  {
    EncodeIsReference(a);
    ValuesFromItems(Layout.Columns, Reference(a));
  }
}
