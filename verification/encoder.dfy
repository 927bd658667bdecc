/** The feature encoder as the script writes it: the form's values become one
    row for the classifier, a base part followed by one-hot indicators whose
    keys are built from the choices' strings. */
module Encoder {
  import opened OrderedDict
  import opened Applicant
  import opened Layout

  /** A cell of the row: a whole number, or a float that is only copied. */
  datatype Cell = Int(n: int) | Float(x: real)

  type Row = Dict<Cell>

  /** A Yes/No answer as a number. */
  function Flag(answer: string): (v: int)
    ensures v == 1 <==> answer == "Yes"
    ensures v == 0 <==> answer != "Yes"
  {
    if answer == "Yes" then 1 else 0
  }

  /** The values of the base columns, in column order. */
  function BaseValues(f: Form): (vs: seq<Cell>)
    ensures |vs| == |BaseColumns|
  {
    [ Int(f.age), Int(f.income), Int(f.loanAmount), Int(f.creditScore),
      Int(f.monthsEmployed), Int(f.numCreditLines), Float(f.interestRate),
      Int(f.loanTerm), Float(f.dtiRatio),
      Int(Flag(f.hasMortgage)), Int(Flag(f.hasDependents)), Int(Flag(f.hasCoSigner)) ]
  }

  /** `r` holds the values of the base columns in column order. */
  predicate HoldsBase(r: Row, f: Form) {
    forall i :: 0 <= i < |BaseColumns| ==>
      BaseColumns[i] in r.entries && r.entries[BaseColumns[i]] == BaseValues(f)[i]
  }

  /** The base part of the row: the nine numeric fields and the three flags. */
  function BaseData(f: Form): (r: Row)
    ensures Valid(r)
    ensures r.order == BaseColumns
    ensures HoldsBase(r, f)
  {
    ColumnsDistinct();
    FromItems(BaseColumns, BaseValues(f))
  }

  /** Reading the base columns by name: the nine numeric fields verbatim,
      and each flag 1 exactly when its answer is "Yes". */
  lemma BaseByName(r: Row, f: Form)
    requires HoldsBase(r, f)
    ensures "Age" in r.entries && r.entries["Age"] == Int(f.age)
    ensures "Income" in r.entries && r.entries["Income"] == Int(f.income)
    ensures "LoanAmount" in r.entries && r.entries["LoanAmount"] == Int(f.loanAmount)
    ensures "CreditScore" in r.entries && r.entries["CreditScore"] == Int(f.creditScore)
    ensures "MonthsEmployed" in r.entries && r.entries["MonthsEmployed"] == Int(f.monthsEmployed)
    ensures "NumCreditLines" in r.entries && r.entries["NumCreditLines"] == Int(f.numCreditLines)
    ensures "InterestRate" in r.entries && r.entries["InterestRate"] == Float(f.interestRate)
    ensures "LoanTerm" in r.entries && r.entries["LoanTerm"] == Int(f.loanTerm)
    ensures "DTIRatio" in r.entries && r.entries["DTIRatio"] == Float(f.dtiRatio)
    ensures "HasMortgage" in r.entries && r.entries["HasMortgage"] == Int(if f.hasMortgage == "Yes" then 1 else 0)
    ensures "HasDependents" in r.entries && r.entries["HasDependents"] == Int(if f.hasDependents == "Yes" then 1 else 0)
    ensures "HasCoSigner" in r.entries && r.entries["HasCoSigner"] == Int(if f.hasCoSigner == "Yes" then 1 else 0)
  {
    assert BaseColumns[0] == "Age" && BaseColumns[1] == "Income" && BaseColumns[2] == "LoanAmount";
    assert BaseColumns[3] == "CreditScore" && BaseColumns[4] == "MonthsEmployed";
    assert BaseColumns[5] == "NumCreditLines" && BaseColumns[6] == "InterestRate";
    assert BaseColumns[7] == "LoanTerm" && BaseColumns[8] == "DTIRatio";
    assert BaseColumns[9] == "HasMortgage" && BaseColumns[10] == "HasDependents";
    assert BaseColumns[11] == "HasCoSigner";
  }

  /** All thirteen indicators, each 0. */
  function ZeroIndicators(): (r: Row)
    ensures Valid(r)
    ensures r.order == IndicatorColumns
    ensures forall k :: k in r.entries ==> r.entries[k] == Int(0)
  {
    ColumnsDistinct();
    FromItems(IndicatorColumns, seq(|IndicatorColumns|, _ => Int(0)))
  }

  /** `if on: h[key] = 1`: one indicator assignment of the script, guarded
      or not. */
  function Mark(h: Row, key: string, on: bool): (r: Row)
    ensures !on ==> r == h
    ensures on ==> key in r.entries && r.entries[key] == Int(1)
    ensures on ==> r.order == if key in h.entries then h.order else h.order + [key]
    ensures forall c :: c != key || !on ==> (c in r.entries <==> c in h.entries)
    ensures forall c :: (c != key || !on) && c in h.entries ==> r.entries[c] == h.entries[c]
  {
    if on then Put(h, key, Int(1)) else h
  }

  /** Four indicator assignments in a row, the second and third guarded. */
  function Marks(z: Row, k1: string, k2: string, k3: string, k4: string, b2: bool, b3: bool): Row {
    Mark(Mark(Mark(Mark(z, k1, true), k2, b2), k3, b3), k4, true)
  }

  /** The indicator part of the row: all thirteen indicators at 0, then the
      one named after each choice set to 1, except for the reference
      categories Full-time and Divorced. */
  function MarkIndicators(f: Form): Row {
    Marks(ZeroIndicators(),
          EducationKey(f.education), EmploymentKey(f.employmentType),
          MaritalKey(f.maritalStatus), PurposeKey(f.loanPurpose),
          f.employmentType != "Full-time", f.maritalStatus != "Divorced")
  }

  /** The assignments keep a dict a dict. */
  lemma MarksValid(z: Row, k1: string, k2: string, k3: string, k4: string, b2: bool, b3: bool)
    requires Valid(z)
    ensures Valid(Marks(z, k1, k2, k3, k4, b2, b3))
  {
    var h1 := Mark(z, k1, true);
    PutValid(z, k1, Int(1));
    var h2 := Mark(h1, k2, b2);
    PutValid(h1, k2, Int(1));
    var h3 := Mark(h2, k3, b3);
    PutValid(h2, k3, Int(1));
    PutValid(h3, k4, Int(1));
  }

  /** After the assignments a key is present when it was before or was
      assigned, and holds 1 exactly when it was assigned. */
  lemma MarksEntries(z: Row, k1: string, k2: string, k3: string, k4: string, b2: bool, b3: bool)
    ensures forall c :: c in Marks(z, k1, k2, k3, k4, b2, b3).entries <==>
      c in z.entries || c == k1 || (b2 && c == k2) || (b3 && c == k3) || c == k4
    ensures forall c :: c in z.entries ==>
      Marks(z, k1, k2, k3, k4, b2, b3).entries[c] ==
        if c == k1 || (b2 && c == k2) || (b3 && c == k3) || c == k4 then Int(1) else z.entries[c]
    ensures forall c :: c in Marks(z, k1, k2, k3, k4, b2, b3).entries && c !in z.entries ==>
      Marks(z, k1, k2, k3, k4, b2, b3).entries[c] == Int(1)
  {
  }

  /** Assigning only keys that are already present leaves the key order as
      it was. */
  lemma MarksKeepOrder(z: Row, k1: string, k2: string, k3: string, k4: string, b2: bool, b3: bool)
    requires k1 in z.entries && (b2 ==> k2 in z.entries) && (b3 ==> k3 in z.entries) && k4 in z.entries
    ensures Marks(z, k1, k2, k3, k4, b2, b3).order == z.order
  {
  }

  /** The indicator part is a well-formed dict. */
  lemma MarkIndicatorsValid(f: Form)
    ensures Valid(MarkIndicators(f))
  {
    MarksValid(ZeroIndicators(),
               EducationKey(f.education), EmploymentKey(f.employmentType),
               MaritalKey(f.maritalStatus), PurposeKey(f.loanPurpose),
               f.employmentType != "Full-time", f.maritalStatus != "Divorced");
  }

  /** The indicator part, entry by entry: an indicator column holds 1 exactly
      when a choice's key names it, and the keys the choices name are the
      only other keys. */
  lemma MarkIndicatorsEntries(f: Form)
    ensures forall c :: c in MarkIndicators(f).entries <==>
      c in IndicatorColumns || c == EducationKey(f.education)
      || (f.employmentType != "Full-time" && c == EmploymentKey(f.employmentType))
      || (f.maritalStatus != "Divorced" && c == MaritalKey(f.maritalStatus))
      || c == PurposeKey(f.loanPurpose)
    ensures forall c :: c in IndicatorColumns ==>
      c in MarkIndicators(f).entries && MarkIndicators(f).entries[c] ==
        Int(if || c == EducationKey(f.education)
               || (f.employmentType != "Full-time" && c == EmploymentKey(f.employmentType))
               || (f.maritalStatus != "Divorced" && c == MaritalKey(f.maritalStatus))
               || c == PurposeKey(f.loanPurpose)
            then 1 else 0)
  {
    MarksEntries(ZeroIndicators(),
                 EducationKey(f.education), EmploymentKey(f.employmentType),
                 MaritalKey(f.maritalStatus), PurposeKey(f.loanPurpose),
                 f.employmentType != "Full-time", f.maritalStatus != "Divorced");
  }

  /** Each categorical choice lies in the options its select box offers. */
  predicate CategoriesKnown(f: Form) {
    && f.education in EducationOptions
    && f.employmentType in EmploymentOptions
    && f.maritalStatus in MaritalOptions
    && f.loanPurpose in PurposeOptions
  }

  /** The indicator part holds every indicator column and no base column. */
  lemma MarkIndicatorsKeys(f: Form)
    ensures forall c :: c in IndicatorColumns ==> c in MarkIndicators(f).entries
    ensures forall c :: c in BaseColumns ==> c !in MarkIndicators(f).entries
  {
    MarkIndicatorsEntries(f);
    EducationKeyColumn(f.education);
    EducationKeyElsewhere(f.education);
    EmploymentKeyColumn(f.employmentType);
    EmploymentKeyElsewhere(f.employmentType);
    MaritalKeyColumn(f.maritalStatus);
    MaritalKeyElsewhere(f.maritalStatus);
    PurposeKeyColumn(f.loanPurpose);
    PurposeKeyElsewhere(f.loanPurpose);
    ColumnsDistinct();
  }

  /** The indicator part keeps the thirteen indicator columns in order exactly
      when every choice is known; an unknown choice adds a key of its own. */
  lemma MarkIndicatorsOrder(f: Form)
    ensures CategoriesKnown(f) ==> MarkIndicators(f).order == IndicatorColumns
    ensures !CategoriesKnown(f) ==> MarkIndicators(f).order != IndicatorColumns
  {
    EducationKeyColumn(f.education);
    EducationKeyElsewhere(f.education);
    EmploymentKeyColumn(f.employmentType);
    EmploymentKeyElsewhere(f.employmentType);
    MaritalKeyColumn(f.maritalStatus);
    MaritalKeyElsewhere(f.maritalStatus);
    PurposeKeyColumn(f.loanPurpose);
    PurposeKeyElsewhere(f.loanPurpose);
    var r := MarkIndicators(f);
    if CategoriesKnown(f) {
      MarksKeepOrder(ZeroIndicators(),
                     EducationKey(f.education), EmploymentKey(f.employmentType),
                     MaritalKey(f.maritalStatus), PurposeKey(f.loanPurpose),
                     f.employmentType != "Full-time", f.maritalStatus != "Divorced");
    } else {
      MarkIndicatorsValid(f);
      MarkIndicatorsEntries(f);
      var k :=
        if f.education !in EducationOptions then EducationKey(f.education)
        else if f.employmentType !in EmploymentOptions then EmploymentKey(f.employmentType)
        else if f.maritalStatus !in MaritalOptions then MaritalKey(f.maritalStatus)
        else PurposeKey(f.loanPurpose);
      assert k in r.entries && k !in IndicatorColumns;
      assert k in r.order;
    }
  }

  /** The row for a form, as the script builds it: the base part updated
      with the indicator part. */
  function EncodeForm(f: Form): Row {
    MarkIndicatorsValid(f);
    Update(BaseData(f), MarkIndicators(f))
  }

  /** `d.update(o)` where `o` has every column of `inner` and none of
      `outer`: the `outer` columns keep `d`'s values and the `inner` columns
      take `o`'s. */
  lemma UpdateSplit(d: Row, o: Row, outer: seq<string>, inner: seq<string>)
    requires Valid(o)
    requires forall c :: c in outer ==> c in d.entries && c !in o.entries
    requires forall c :: c in inner ==> c in o.entries
    ensures forall c :: c in outer ==> Update(d, o).entries[c] == d.entries[c]
    ensures forall c :: c in inner ==> c in Update(d, o).entries && Update(d, o).entries[c] == o.entries[c]
  {
  }

  /** The column layout is the trained one exactly when every categorical
      choice is in vocabulary; an unknown choice adds a column. */
  lemma EncodeFormColumns(f: Form)
    ensures Valid(EncodeForm(f))
    ensures EncodeForm(f).order == Columns <==> CategoriesKnown(f)
  {
    var d, o := BaseData(f), MarkIndicators(f);
    MarkIndicatorsValid(f);
    MarkIndicatorsKeys(f);
    MarkIndicatorsOrder(f);
    UpdateOrder(d, o);
    assert EncodeForm(f).order == BaseColumns + o.order;
    if EncodeForm(f).order == Columns {
      assert o.order == (BaseColumns + o.order)[|BaseColumns|..];
    }
  }

  /** `update` with a part that has no base column leaves the base columns
      as they were. */
  lemma UpdateKeepsBase(d: Row, o: Row, f: Form)
    requires Valid(o) && HoldsBase(d, f)
    requires forall c :: c in BaseColumns ==> c !in o.entries
    ensures HoldsBase(Update(d, o), f)
  {
    forall i | 0 <= i < |BaseColumns|
      ensures BaseColumns[i] !in o.entries
    {
      assert BaseColumns[i] in BaseColumns;
    }
  }

  /** `update` leaves the base columns to the base part. */
  lemma EncodeFormBasePart(f: Form)
    ensures HoldsBase(EncodeForm(f), f)
  {
    MarkIndicatorsValid(f);
    MarkIndicatorsKeys(f);
    UpdateKeepsBase(BaseData(f), MarkIndicators(f), f);
  }

  /** `update` takes every indicator column from the indicator part. */
  lemma EncodeFormIndicatorPart(f: Form)
    ensures forall c :: c in IndicatorColumns ==>
      c in EncodeForm(f).entries && EncodeForm(f).entries[c] == MarkIndicators(f).entries[c]
  {
    MarkIndicatorsValid(f);
    MarkIndicatorsKeys(f);
    UpdateSplit(BaseData(f), MarkIndicators(f), BaseColumns, IndicatorColumns);
  }

  /** Within the education group of the indicator part, an indicator is 1
      exactly when it is the one named after the choice; the other groups'
      keys never land here. */
  lemma MarkEducationGroup(f: Form)
    ensures forall c :: c in EducationColumns ==>
      c in MarkIndicators(f).entries && MarkIndicators(f).entries[c] == Int(if c == EducationKey(f.education) then 1 else 0)
  {
    MarkIndicatorsEntries(f);
    EmploymentKeyColumn(f.employmentType);
    EmploymentKeyElsewhere(f.employmentType);
    MaritalKeyColumn(f.maritalStatus);
    MaritalKeyElsewhere(f.maritalStatus);
    PurposeKeyColumn(f.loanPurpose);
    PurposeKeyElsewhere(f.loanPurpose);
  }

  /** Likewise for employment; Full-time is skipped and names no indicator. */
  lemma MarkEmploymentGroup(f: Form)
    ensures forall c :: c in EmploymentColumns ==>
      c in MarkIndicators(f).entries && MarkIndicators(f).entries[c] ==
        Int(if f.employmentType != "Full-time" && c == EmploymentKey(f.employmentType) then 1 else 0)
  {
    MarkIndicatorsEntries(f);
    EducationKeyColumn(f.education);
    EducationKeyElsewhere(f.education);
    MaritalKeyColumn(f.maritalStatus);
    MaritalKeyElsewhere(f.maritalStatus);
    PurposeKeyColumn(f.loanPurpose);
    PurposeKeyElsewhere(f.loanPurpose);
  }

  /** Likewise for marital status; Divorced is skipped and names no indicator. */
  lemma MarkMaritalGroup(f: Form)
    ensures forall c :: c in MaritalColumns ==>
      c in MarkIndicators(f).entries && MarkIndicators(f).entries[c] ==
        Int(if f.maritalStatus != "Divorced" && c == MaritalKey(f.maritalStatus) then 1 else 0)
  {
    MarkIndicatorsEntries(f);
    EducationKeyColumn(f.education);
    EducationKeyElsewhere(f.education);
    EmploymentKeyColumn(f.employmentType);
    EmploymentKeyElsewhere(f.employmentType);
    PurposeKeyColumn(f.loanPurpose);
    PurposeKeyElsewhere(f.loanPurpose);
  }

  /** Likewise for loan purpose. */
  lemma MarkPurposeGroup(f: Form)
    ensures forall c :: c in PurposeColumns ==>
      c in MarkIndicators(f).entries && MarkIndicators(f).entries[c] == Int(if c == PurposeKey(f.loanPurpose) then 1 else 0)
  {
    MarkIndicatorsEntries(f);
    EducationKeyColumn(f.education);
    EducationKeyElsewhere(f.education);
    EmploymentKeyColumn(f.employmentType);
    EmploymentKeyElsewhere(f.employmentType);
    MaritalKeyColumn(f.maritalStatus);
    MaritalKeyElsewhere(f.maritalStatus);
  }

  /** Within each group of the row, an indicator is 1 exactly when it is the
      one named after the group's choice. The reference categories, and any
      choice outside the vocabulary, name no indicator of their group. */
  lemma EncodeFormIndicators(f: Form)
    ensures forall c :: c in EducationColumns ==>
      c in EncodeForm(f).entries && EncodeForm(f).entries[c] == Int(if c == EducationKey(f.education) then 1 else 0)
    ensures forall c :: c in EmploymentColumns ==>
      c in EncodeForm(f).entries && EncodeForm(f).entries[c] == Int(if c == EmploymentKey(f.employmentType) then 1 else 0)
    ensures forall c :: c in MaritalColumns ==>
      c in EncodeForm(f).entries && EncodeForm(f).entries[c] == Int(if c == MaritalKey(f.maritalStatus) then 1 else 0)
    ensures forall c :: c in PurposeColumns ==>
      c in EncodeForm(f).entries && EncodeForm(f).entries[c] == Int(if c == PurposeKey(f.loanPurpose) then 1 else 0)
  {
    EncodeFormIndicatorPart(f);
    MarkEducationGroup(f);
    MarkEmploymentGroup(f);
    EmploymentKeyColumn("Full-time");
    EmploymentKeyElsewhere("Full-time");
    MarkMaritalGroup(f);
    MaritalKeyColumn("Divorced");
    MaritalKeyElsewhere("Divorced");
    MarkPurposeGroup(f);
  }

  /** Every indicator of the row is 0 or 1, whatever the form holds. */
  lemma EncodeFormIndicatorBits(f: Form)
    ensures forall c :: c in IndicatorColumns ==>
      c in EncodeForm(f).entries && (EncodeForm(f).entries[c] == Int(0) || EncodeForm(f).entries[c] == Int(1))
  {
    EncodeFormIndicatorPart(f);
    MarkIndicatorsEntries(f);
  }

  /** The indicators of group `g` that are set in `r`. */
  function OnesIn(r: Row, g: seq<string>): set<string> {
    set c | c in g && c in r.entries && r.entries[c] == Int(1)
  }

  /** A group in which exactly the column `key` may be 1 has `key` set when
      it is one of the group's columns, and nothing set otherwise. */
  lemma OnesOfGroup(r: Row, g: seq<string>, key: string)
    requires forall c :: c in g ==> c in r.entries && r.entries[c] == Int(if c == key then 1 else 0)
    ensures OnesIn(r, g) == if key in g then {key} else {}
  {
  }

  /** In each group of the row, the indicators set are exactly the one named
      after the group's choice when the choice has an indicator, and none
      when it is the reference category or outside the vocabulary. */
  lemma EncodeFormEducationOnes(f: Form)
    ensures OnesIn(EncodeForm(f), EducationColumns) ==
      if f.education in EducationOptions then {EducationKey(f.education)} else {}
  {
    EncodeFormIndicatorPart(f);
    EncodeFormIndicators(f);
    EducationKeyColumn(f.education);
    EducationKeyElsewhere(f.education);
    OnesOfGroup(EncodeForm(f), EducationColumns, EducationKey(f.education));
  }

  lemma EncodeFormEmploymentOnes(f: Form)
    ensures OnesIn(EncodeForm(f), EmploymentColumns) ==
      if f.employmentType in EmploymentOptions && f.employmentType != "Full-time"
      then {EmploymentKey(f.employmentType)} else {}
  {
    EncodeFormIndicatorPart(f);
    EncodeFormIndicators(f);
    EmploymentKeyColumn(f.employmentType);
    EmploymentKeyElsewhere(f.employmentType);
    OnesOfGroup(EncodeForm(f), EmploymentColumns, EmploymentKey(f.employmentType));
  }

  lemma EncodeFormMaritalOnes(f: Form)
    ensures OnesIn(EncodeForm(f), MaritalColumns) ==
      if f.maritalStatus in MaritalOptions && f.maritalStatus != "Divorced"
      then {MaritalKey(f.maritalStatus)} else {}
  {
    EncodeFormIndicatorPart(f);
    EncodeFormIndicators(f);
    MaritalKeyColumn(f.maritalStatus);
    MaritalKeyElsewhere(f.maritalStatus);
    OnesOfGroup(EncodeForm(f), MaritalColumns, MaritalKey(f.maritalStatus));
  }

  lemma EncodeFormPurposeOnes(f: Form)
    ensures OnesIn(EncodeForm(f), PurposeColumns) ==
      if f.loanPurpose in PurposeOptions then {PurposeKey(f.loanPurpose)} else {}
  {
    EncodeFormIndicatorPart(f);
    EncodeFormIndicators(f);
    PurposeKeyColumn(f.loanPurpose);
    PurposeKeyElsewhere(f.loanPurpose);
    OnesOfGroup(EncodeForm(f), PurposeColumns, PurposeKey(f.loanPurpose));
  }

  /** Rows `r` and `s` hold the same values in the columns `cols`. */
  predicate Agree(r: Row, s: Row, cols: seq<string>) {
    forall c :: c in cols ==> c in r.entries && c in s.entries && r.entries[c] == s.entries[c]
  }

  /** Each part of the row depends on its own inputs only: two forms with the
      same base values agree on the base columns, and two forms with the same
      choice for a group agree on that group's columns, whatever else differs. */
  lemma EncodeFormBaseDepends(f: Form, g: Form)
    requires BaseValues(f) == BaseValues(g)
    ensures Agree(EncodeForm(f), EncodeForm(g), BaseColumns)
  {
    EncodeFormBasePart(f);
    EncodeFormBasePart(g);
    forall c | c in BaseColumns
      ensures c in EncodeForm(f).entries && c in EncodeForm(g).entries
      ensures EncodeForm(f).entries[c] == EncodeForm(g).entries[c]
    {
      var i :| 0 <= i < |BaseColumns| && BaseColumns[i] == c;
    }
  }

  /** Two rows with the same one-hot group agree on it. */
  lemma OneHotAgree(r: Row, s: Row, g: seq<string>, key: string)
    requires forall c :: c in g ==> c in r.entries && r.entries[c] == Int(if c == key then 1 else 0)
    requires forall c :: c in g ==> c in s.entries && s.entries[c] == Int(if c == key then 1 else 0)
    ensures Agree(r, s, g)
  {
  }

  lemma EncodeFormEducationDepends(f: Form, g: Form)
    requires f.education == g.education
    ensures Agree(EncodeForm(f), EncodeForm(g), EducationColumns)
  {
    EncodeFormIndicatorPart(f);
    EncodeFormIndicators(f);
    EncodeFormIndicatorPart(g);
    EncodeFormIndicators(g);
    OneHotAgree(EncodeForm(f), EncodeForm(g), EducationColumns, EducationKey(f.education));
  }

  lemma EncodeFormEmploymentDepends(f: Form, g: Form)
    requires f.employmentType == g.employmentType
    ensures Agree(EncodeForm(f), EncodeForm(g), EmploymentColumns)
  {
    EncodeFormIndicatorPart(f);
    EncodeFormIndicators(f);
    EncodeFormIndicatorPart(g);
    EncodeFormIndicators(g);
    OneHotAgree(EncodeForm(f), EncodeForm(g), EmploymentColumns, EmploymentKey(f.employmentType));
  }

  lemma EncodeFormMaritalDepends(f: Form, g: Form)
    requires f.maritalStatus == g.maritalStatus
    ensures Agree(EncodeForm(f), EncodeForm(g), MaritalColumns)
  {
    EncodeFormIndicatorPart(f);
    EncodeFormIndicators(f);
    EncodeFormIndicatorPart(g);
    EncodeFormIndicators(g);
    OneHotAgree(EncodeForm(f), EncodeForm(g), MaritalColumns, MaritalKey(f.maritalStatus));
  }

  lemma EncodeFormPurposeDepends(f: Form, g: Form)
    requires f.loanPurpose == g.loanPurpose
    ensures Agree(EncodeForm(f), EncodeForm(g), PurposeColumns)
  {
    EncodeFormIndicatorPart(f);
    EncodeFormIndicators(f);
    EncodeFormIndicatorPart(g);
    EncodeFormIndicators(g);
    OneHotAgree(EncodeForm(f), EncodeForm(g), PurposeColumns, PurposeKey(f.loanPurpose));
  }
}
