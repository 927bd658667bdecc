/** Reading a row of values back into the applicant it encodes. The encoder
    loses nothing: every applicant's row decodes to that applicant, and a
    row decodes at all only when it is exactly some applicant's row. */
module Decoder {
  import opened Wrappers
  import opened OrderedDict
  import opened Applicant
  import opened Layout
  import opened Encoder
  import opened Features

  function DecodeInt(c: Cell): (r: Option<int>)
    ensures r.Some? <==> c.Int?
    ensures r.Some? ==> c == Int(r.value)
  {
    match c
    case Int(n) => Some(n)
    case Float(_) => None
  }

  function DecodeFloat(c: Cell): (r: Option<real>)
    ensures r.Some? <==> c.Float?
    ensures r.Some? ==> c == Float(r.value)
  {
    match c
    case Float(x) => Some(x)
    case Int(_) => None
  }

  function DecodeFlag(c: Cell): (r: Option<YesNo>)
    ensures r.Some? <==> c == Int(0) || c == Int(1)
    ensures r.Some? ==> c == Bit(r.value == Yes)
  {
    if c == Bit(true) then Some(Yes)
    else if c == Bit(false) then Some(No)
    else None
  }

  /** The choice whose indicators a group's cells are, if any. */
  function DecodeEducation(bits: seq<Cell>): (r: Option<EducationLevel>)
    ensures r.Some? ==> EducationBits(r.value) == bits
    ensures forall e :: bits == EducationBits(e) ==> r == Some(e)
  {
    if bits == EducationBits(HighSchool) then Some(HighSchool)
    else if bits == EducationBits(Bachelors) then Some(Bachelors)
    else if bits == EducationBits(Masters) then Some(Masters)
    else if bits == EducationBits(PhD) then Some(PhD)
    else None
  }

  function DecodeEmployment(bits: seq<Cell>): (r: Option<EmploymentType>)
    ensures r.Some? ==> EmploymentBits(r.value) == bits
    ensures forall t :: bits == EmploymentBits(t) ==> r == Some(t)
  {
    if bits == EmploymentBits(FullTime) then Some(FullTime)
    else if bits == EmploymentBits(PartTime) then Some(PartTime)
    else if bits == EmploymentBits(SelfEmployed) then Some(SelfEmployed)
    else if bits == EmploymentBits(Unemployed) then Some(Unemployed)
    else None
  }

  function DecodeMarital(bits: seq<Cell>): (r: Option<MaritalStatus>)
    ensures r.Some? ==> MaritalBits(r.value) == bits
    ensures forall m :: bits == MaritalBits(m) ==> r == Some(m)
  {
    if bits == MaritalBits(Divorced) then Some(Divorced)
    else if bits == MaritalBits(Married) then Some(Married)
    else if bits == MaritalBits(Single) then Some(Single)
    else None
  }

  function DecodePurpose(bits: seq<Cell>): (r: Option<LoanPurpose>)
    ensures r.Some? ==> PurposeBits(r.value) == bits
    ensures forall p :: bits == PurposeBits(p) ==> r == Some(p)
  {
    if bits == PurposeBits(Business) then Some(Business)
    else if bits == PurposeBits(Education) then Some(Education)
    else if bits == PurposeBits(Home) then Some(Home)
    else if bits == PurposeBits(Other) then Some(Other)
    else None
  }

  /** The applicant whose row, in the trained column order, is `vs`; None
      when `vs` is not such a row. */
  function Decode(vs: seq<Cell>): Option<Applicant> {
    if |vs| != 25 then None
    else
      var age :- DecodeInt(vs[0]);
      var income :- DecodeInt(vs[1]);
      var loanAmount :- DecodeInt(vs[2]);
      var creditScore :- DecodeInt(vs[3]);
      var monthsEmployed :- DecodeInt(vs[4]);
      var numCreditLines :- DecodeInt(vs[5]);
      var interestRate :- DecodeFloat(vs[6]);
      var loanTerm :- DecodeInt(vs[7]);
      var dtiRatio :- DecodeFloat(vs[8]);
      var hasMortgage :- DecodeFlag(vs[9]);
      var hasDependents :- DecodeFlag(vs[10]);
      var hasCoSigner :- DecodeFlag(vs[11]);
      var education :- DecodeEducation(vs[12..16]);
      var employmentType :- DecodeEmployment(vs[16..19]);
      var maritalStatus :- DecodeMarital(vs[19..21]);
      var loanPurpose :- DecodePurpose(vs[21..25]);
      Some(Applicant(age, income, loanAmount, creditScore, monthsEmployed, numCreditLines,
                     interestRate, loanTerm, dtiRatio, hasMortgage, hasDependents, hasCoSigner,
                     education, employmentType, maritalStatus, loanPurpose))
  }

  /** The reference row splits into its base part and the four groups. */
  lemma ReferenceParts(a: Applicant)
    ensures |Reference(a)| == 25
    ensures Reference(a)[..12] == BaseReference(a)
    ensures Reference(a)[12..16] == EducationBits(a.education)
    ensures Reference(a)[16..19] == EmploymentBits(a.employmentType)
    ensures Reference(a)[19..21] == MaritalBits(a.maritalStatus)
    ensures Reference(a)[21..25] == PurposeBits(a.loanPurpose)
  {
  }

  /** Decoding the reference row gives the applicant back. */
  lemma DecodeReference(a: Applicant)
    ensures Decode(Reference(a)) == Some(a)
  {
    ReferenceParts(a);
  }

  /** Every cell of `vs` decodes to the matching field of `a`. */
  predicate DecodesTo(vs: seq<Cell>, a: Applicant) {
    && |vs| == 25
    && DecodeInt(vs[0]) == Some(a.age) && DecodeInt(vs[1]) == Some(a.income)
    && DecodeInt(vs[2]) == Some(a.loanAmount) && DecodeInt(vs[3]) == Some(a.creditScore)
    && DecodeInt(vs[4]) == Some(a.monthsEmployed) && DecodeInt(vs[5]) == Some(a.numCreditLines)
    && DecodeFloat(vs[6]) == Some(a.interestRate) && DecodeInt(vs[7]) == Some(a.loanTerm)
    && DecodeFloat(vs[8]) == Some(a.dtiRatio)
    && DecodeFlag(vs[9]) == Some(a.hasMortgage) && DecodeFlag(vs[10]) == Some(a.hasDependents)
    && DecodeFlag(vs[11]) == Some(a.hasCoSigner)
    && DecodeEducation(vs[12..16]) == Some(a.education)
    && DecodeEmployment(vs[16..19]) == Some(a.employmentType)
    && DecodeMarital(vs[19..21]) == Some(a.maritalStatus)
    && DecodePurpose(vs[21..25]) == Some(a.loanPurpose)
  }

  /** A successful decoding decoded every cell to its field. */
  lemma DecodeCells(vs: seq<Cell>)
    ensures Decode(vs).Some? ==> DecodesTo(vs, Decode(vs).value)
  {
  }

  /** Cells that decode to the fields of `a` are `a`'s reference row. */
  lemma CellsExact(vs: seq<Cell>, a: Applicant)
    requires DecodesTo(vs, a)
    ensures vs == Reference(a)
  {
    ReferenceParts(a);
    assert vs[..12] == BaseReference(a);
    assert vs == vs[..12] + vs[12..16] + vs[16..19] + vs[19..21] + vs[21..25];
  }

  /** A row decodes only when it is the reference row of what it decodes to. */
  lemma DecodeExact(vs: seq<Cell>)
    ensures Decode(vs).Some? ==> Reference(Decode(vs).value) == vs
  {
    DecodeCells(vs);
    if Decode(vs).Some? {
      CellsExact(vs, Decode(vs).value);
    }
  }

  /** Decoding succeeds exactly on the rows the encoder produces. */
  lemma DecodeIff(vs: seq<Cell>, a: Applicant)
    ensures Decode(vs) == Some(a) <==> vs == Reference(a)
  {
    DecodeExact(vs);
    DecodeReference(a);
  }

  /** The values of an applicant's row, in column order, decode to that
      applicant. */
  lemma DecodeEncode(a: Applicant)
    ensures Valid(Encode(a)) && Decode(Values(Encode(a))) == Some(a)
  {
    EncodeIsReference(a);
    ValuesFromItems(Columns, Reference(a));
    DecodeReference(a);
  }

  /** Different applicants get different rows. */
  lemma EncodeInjective(a: Applicant, b: Applicant)
    ensures Encode(a) == Encode(b) ==> a == b
  {
    DecodeEncode(a);
    DecodeEncode(b);
  }
}
