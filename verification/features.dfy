/** The encoder on a typed applicant: the row compared column by column with a
    reference definition written from the applicant alone, and the one-hot
    shape of each indicator group. */
module Features {
  import opened Wrappers
  import opened OrderedDict
  import opened Applicant
  import opened Layout
  import opened Encoder

  /** The row the classifier receives for an applicant whose choices come
      from the select boxes. */
  function Encode(a: Applicant): Row {
    EncodeForm(ToForm(a))
  }

  /** An indicator: 1 when `b` holds, 0 otherwise. */
  function Bit(b: bool): Cell {
    Int(if b then 1 else 0)
  }

  /** The base columns, in the order of `BaseColumns`. */
  function BaseReference(a: Applicant): seq<Cell> {
    [ Int(a.age), Int(a.income), Int(a.loanAmount), Int(a.creditScore),
      Int(a.monthsEmployed), Int(a.numCreditLines), Float(a.interestRate),
      Int(a.loanTerm), Float(a.dtiRatio),
      Bit(a.hasMortgage == Yes), Bit(a.hasDependents == Yes), Bit(a.hasCoSigner == Yes) ]
  }

  /** The indicators of each group, in the order of its columns. */
  function EducationBits(e: EducationLevel): seq<Cell> {
    [Bit(e == Bachelors), Bit(e == HighSchool), Bit(e == Masters), Bit(e == PhD)]
  }

  function EmploymentBits(t: EmploymentType): seq<Cell> {
    [Bit(t == PartTime), Bit(t == SelfEmployed), Bit(t == Unemployed)]
  }

  function MaritalBits(m: MaritalStatus): seq<Cell> {
    [Bit(m == Married), Bit(m == Single)]
  }

  function PurposeBits(p: LoanPurpose): seq<Cell> {
    [Bit(p == Business), Bit(p == Education), Bit(p == Home), Bit(p == Other)]
  }

  /** The twenty-five values the classifier should see, in column order. */
  function Reference(a: Applicant): (r: seq<Cell>)
    ensures |r| == |Columns|
  {
    BaseReference(a) + EducationBits(a.education) + EmploymentBits(a.employmentType)
    + MaritalBits(a.maritalStatus) + PurposeBits(a.loanPurpose)
  }

  /** The row for a typed applicant has exactly the 25 trained columns, in
      the trained order. */
  lemma EncodeColumns(a: Applicant)
    ensures Valid(Encode(a))
    ensures Encode(a).order == Columns && |Encode(a).order| == 25
  {
    EncodeFormColumns(ToForm(a));
  }

  /** Base part: the numeric fields copied, the flags 1 exactly for Yes. */
  lemma BaseMatches(a: Applicant)
    ensures BaseValues(ToForm(a)) == BaseReference(a)
  {
    assert YesNo.No.Label() != "Yes";
  }

  /** Row `r` holds `bits` in the columns of `g` when each column is 1
      exactly when it is `key`, and `bits` says the same. */
  lemma GroupMatches(r: Row, g: seq<string>, key: string, bits: seq<Cell>)
    requires |bits| == |g|
    requires forall c :: c in g ==> c in r.entries && r.entries[c] == Int(if c == key then 1 else 0)
    requires forall j :: 0 <= j < |g| ==> bits[j] == Int(if g[j] == key then 1 else 0)
    ensures forall j :: 0 <= j < |g| ==> g[j] in r.entries && r.entries[g[j]] == bits[j]
  {
    forall j | 0 <= j < |g|
      ensures g[j] in r.entries && r.entries[g[j]] == bits[j]
    {
      assert g[j] in g;
    }
  }

  /** Each group's reference bits mark the column named after the choice. */
  lemma EducationBitsNameKey(e: EducationLevel)
    ensures forall j :: 0 <= j < |EducationColumns| ==>
      EducationBits(e)[j] == Int(if EducationColumns[j] == EducationKey(e.Label()) then 1 else 0)
  {
    var k := EducationKey(e.Label());
    match e
    case HighSchool => assert k == "Education_High School";
    case Bachelors => assert k == "Education_Bachelor's";
    case Masters => assert k == "Education_Master's";
    case PhD => assert k == "Education_PhD";
  }

  lemma EmploymentBitsNameKey(t: EmploymentType)
    ensures forall j :: 0 <= j < |EmploymentColumns| ==>
      EmploymentBits(t)[j] == Int(if EmploymentColumns[j] == EmploymentKey(t.Label()) then 1 else 0)
  {
    var k := EmploymentKey(t.Label());
    match t
    case FullTime => assert k == "EmploymentType_Full-time";
    case PartTime => assert k == "EmploymentType_Part-time";
    case SelfEmployed => assert k == "EmploymentType_Self-employed";
    case Unemployed => assert k == "EmploymentType_Unemployed";
  }

  lemma MaritalBitsNameKey(m: MaritalStatus)
    ensures forall j :: 0 <= j < |MaritalColumns| ==>
      MaritalBits(m)[j] == Int(if MaritalColumns[j] == MaritalKey(m.Label()) then 1 else 0)
  {
    var k := MaritalKey(m.Label());
    match m
    case Divorced => assert k == "Marital_Divorced";
    case Married => assert k == "Marital_Married";
    case Single => assert k == "Marital_Single";
  }

  lemma PurposeBitsNameKey(p: LoanPurpose)
    ensures forall j :: 0 <= j < |PurposeColumns| ==>
      PurposeBits(p)[j] == Int(if PurposeColumns[j] == PurposeKey(p.Label()) then 1 else 0)
  {
    var k := PurposeKey(p.Label());
    match p
    case Business => assert k == "Purpose_Business";
    case Education => assert k == "Purpose_Education";
    case Home => assert k == "Purpose_Home";
    case Other => assert k == "Purpose_Other";
  }

  /** The row's indicator groups hold the reference bits. */
  lemma EducationMatches(a: Applicant)
    ensures forall j :: 0 <= j < |EducationColumns| ==>
      EducationColumns[j] in Encode(a).entries && Encode(a).entries[EducationColumns[j]] == EducationBits(a.education)[j]
  {
    var f := ToForm(a);
    EncodeFormIndicatorPart(f);
    EncodeFormIndicators(f);
    EducationBitsNameKey(a.education);
    GroupMatches(Encode(a), EducationColumns, EducationKey(f.education), EducationBits(a.education));
  }

  lemma EmploymentMatches(a: Applicant)
    ensures forall j :: 0 <= j < |EmploymentColumns| ==>
      EmploymentColumns[j] in Encode(a).entries && Encode(a).entries[EmploymentColumns[j]] == EmploymentBits(a.employmentType)[j]
  {
    var f := ToForm(a);
    EncodeFormIndicatorPart(f);
    EncodeFormIndicators(f);
    EmploymentBitsNameKey(a.employmentType);
    GroupMatches(Encode(a), EmploymentColumns, EmploymentKey(f.employmentType), EmploymentBits(a.employmentType));
  }

  lemma MaritalMatches(a: Applicant)
    ensures forall j :: 0 <= j < |MaritalColumns| ==>
      MaritalColumns[j] in Encode(a).entries && Encode(a).entries[MaritalColumns[j]] == MaritalBits(a.maritalStatus)[j]
  {
    var f := ToForm(a);
    EncodeFormIndicatorPart(f);
    EncodeFormIndicators(f);
    MaritalBitsNameKey(a.maritalStatus);
    GroupMatches(Encode(a), MaritalColumns, MaritalKey(f.maritalStatus), MaritalBits(a.maritalStatus));
  }

  lemma PurposeMatches(a: Applicant)
    ensures forall j :: 0 <= j < |PurposeColumns| ==>
      PurposeColumns[j] in Encode(a).entries && Encode(a).entries[PurposeColumns[j]] == PurposeBits(a.loanPurpose)[j]
  {
    var f := ToForm(a);
    EncodeFormIndicatorPart(f);
    EncodeFormIndicators(f);
    PurposeBitsNameKey(a.loanPurpose);
    GroupMatches(Encode(a), PurposeColumns, PurposeKey(f.loanPurpose), PurposeBits(a.loanPurpose));
  }

  /** Values laid out group by group give the row's values column by
      column, when the columns are the groups' columns one after another. */
  lemma Assemble(r: Row, g0: seq<string>, g1: seq<string>, g2: seq<string>, g3: seq<string>, g4: seq<string>,
                 v0: seq<Cell>, v1: seq<Cell>, v2: seq<Cell>, v3: seq<Cell>, v4: seq<Cell>)
    requires |v0| == |g0| && |v1| == |g1| && |v2| == |g2| && |v3| == |g3| && |v4| == |g4|
    requires forall j :: 0 <= j < |g0| ==> g0[j] in r.entries && r.entries[g0[j]] == v0[j]
    requires forall j :: 0 <= j < |g1| ==> g1[j] in r.entries && r.entries[g1[j]] == v1[j]
    requires forall j :: 0 <= j < |g2| ==> g2[j] in r.entries && r.entries[g2[j]] == v2[j]
    requires forall j :: 0 <= j < |g3| ==> g3[j] in r.entries && r.entries[g3[j]] == v3[j]
    requires forall j :: 0 <= j < |g4| ==> g4[j] in r.entries && r.entries[g4[j]] == v4[j]
    ensures forall i :: 0 <= i < |g0 + g1 + g2 + g3 + g4| ==>
      (g0 + g1 + g2 + g3 + g4)[i] in r.entries
      && r.entries[(g0 + g1 + g2 + g3 + g4)[i]] == (v0 + v1 + v2 + v3 + v4)[i]
  {
    var g, v := g0 + g1 + g2 + g3 + g4, v0 + v1 + v2 + v3 + v4;
    forall i | 0 <= i < |g|
      ensures g[i] in r.entries && r.entries[g[i]] == v[i]
    {
      var n1 := |g0|;
      var n2 := n1 + |g1|;
      var n3 := n2 + |g2|;
      var n4 := n3 + |g3|;
      if i < n1 {
        assert g[i] == g0[i] && v[i] == v0[i];
      } else if i < n2 {
        assert g[i] == g1[i - n1] && v[i] == v1[i - n1];
      } else if i < n3 {
        assert g[i] == g2[i - n2] && v[i] == v2[i - n2];
      } else if i < n4 {
        assert g[i] == g3[i - n3] && v[i] == v3[i - n3];
      } else {
        assert g[i] == g4[i - n4] && v[i] == v4[i - n4];
      }
    }
  }

  /** A row that holds the applicant's base values and the reference bits of
      every group holds the reference values column by column. */
  lemma RowMatches(r: Row, a: Applicant)
    requires HoldsBase(r, ToForm(a))
    requires forall j :: 0 <= j < |EducationColumns| ==>
      EducationColumns[j] in r.entries && r.entries[EducationColumns[j]] == EducationBits(a.education)[j]
    requires forall j :: 0 <= j < |EmploymentColumns| ==>
      EmploymentColumns[j] in r.entries && r.entries[EmploymentColumns[j]] == EmploymentBits(a.employmentType)[j]
    requires forall j :: 0 <= j < |MaritalColumns| ==>
      MaritalColumns[j] in r.entries && r.entries[MaritalColumns[j]] == MaritalBits(a.maritalStatus)[j]
    requires forall j :: 0 <= j < |PurposeColumns| ==>
      PurposeColumns[j] in r.entries && r.entries[PurposeColumns[j]] == PurposeBits(a.loanPurpose)[j]
    ensures forall i :: 0 <= i < |Columns| ==> Columns[i] in r.entries && r.entries[Columns[i]] == Reference(a)[i]
  {
    BaseMatches(a);
    ColumnsByGroup();
    Assemble(r, BaseColumns, EducationColumns, EmploymentColumns, MaritalColumns, PurposeColumns,
             BaseReference(a), EducationBits(a.education), EmploymentBits(a.employmentType),
             MaritalBits(a.maritalStatus), PurposeBits(a.loanPurpose));
  }

  /** Column by column, the row holds the reference values. */
  lemma EncodeMatchesReference(a: Applicant)
    ensures forall i :: 0 <= i < |Columns| ==>
      Columns[i] in Encode(a).entries && Encode(a).entries[Columns[i]] == Reference(a)[i]
  {
    EncodeFormBasePart(ToForm(a));
    EducationMatches(a);
    EmploymentMatches(a);
    MaritalMatches(a);
    PurposeMatches(a);
    RowMatches(Encode(a), a);
  }

  /** The row for an applicant is exactly the dict display of the trained
      columns with the reference values: twenty-five keys in the trained
      order, each holding its reference value. */
  lemma EncodeIsReference(a: Applicant)
    ensures Distinct(Columns) && Encode(a) == FromItems(Columns, Reference(a))
  {
    ColumnsDistinct();
    EncodeFormColumns(ToForm(a));
    EncodeMatchesReference(a);
    DisplayOf(Encode(a), Columns, Reference(a));
  }

  /** The one-hot shape of each group for a typed applicant: education and
      purpose have exactly one indicator set, the one named after the choice;
      employment and marital status have none set for their reference
      categories Full-time and Divorced, and otherwise exactly the one named
      after the choice. */
  lemma EducationOneHot(a: Applicant)
    ensures EducationKey(a.education.Label()) in EducationColumns
    ensures OnesIn(Encode(a), EducationColumns) == {EducationKey(a.education.Label())}
  {
    EncodeFormEducationOnes(ToForm(a));
    EducationKeyColumn(a.education.Label());
    EducationKeyElsewhere(a.education.Label());
  }

  lemma EmploymentOneHot(a: Applicant)
    ensures a.employmentType == FullTime ==> OnesIn(Encode(a), EmploymentColumns) == {}
    ensures a.employmentType != FullTime ==>
      && EmploymentKey(a.employmentType.Label()) in EmploymentColumns
      && OnesIn(Encode(a), EmploymentColumns) == {EmploymentKey(a.employmentType.Label())}
  {
    var s := a.employmentType.Label();
    assert ToForm(a).employmentType == s;
    assert s in EmploymentOptions && (s == "Full-time" <==> a.employmentType == FullTime) by {
      match a.employmentType
      case FullTime =>
      case PartTime =>
      case SelfEmployed =>
      case Unemployed =>
    }
    EncodeFormEmploymentOnes(ToForm(a));
    EmploymentKeyColumn(s);
  }

  lemma MaritalOneHot(a: Applicant)
    ensures a.maritalStatus == Divorced ==> OnesIn(Encode(a), MaritalColumns) == {}
    ensures a.maritalStatus != Divorced ==>
      && MaritalKey(a.maritalStatus.Label()) in MaritalColumns
      && OnesIn(Encode(a), MaritalColumns) == {MaritalKey(a.maritalStatus.Label())}
  {
    EncodeFormMaritalOnes(ToForm(a));
    MaritalKeyColumn(a.maritalStatus.Label());
    MaritalKeyElsewhere(a.maritalStatus.Label());
  }

  lemma PurposeOneHot(a: Applicant)
    ensures PurposeKey(a.loanPurpose.Label()) in PurposeColumns
    ensures OnesIn(Encode(a), PurposeColumns) == {PurposeKey(a.loanPurpose.Label())}
  {
    EncodeFormPurposeOnes(ToForm(a));
    PurposeKeyColumn(a.loanPurpose.Label());
    PurposeKeyElsewhere(a.loanPurpose.Label());
  }
}
