/** The applicant as the form collects it: sixteen fields, nine numeric, three
    Yes/No choices and four categorical choices with fixed vocabularies. */
module Applicant {
  import opened Wrappers

  /** Answer of the three Yes/No select boxes. */
  datatype YesNo = No | Yes {
    function Label(): string {
      match this
      case No => "No"
      case Yes => "Yes"
    }
  }

  datatype EducationLevel = HighSchool | Bachelors | Masters | PhD {
    function Label(): string {
      match this
      case HighSchool => "High School"
      case Bachelors => "Bachelor's"
      case Masters => "Master's"
      case PhD => "PhD"
    }
  }

  datatype EmploymentType = FullTime | PartTime | SelfEmployed | Unemployed {
    function Label(): string {
      match this
      case FullTime => "Full-time"
      case PartTime => "Part-time"
      case SelfEmployed => "Self-employed"
      case Unemployed => "Unemployed"
    }
  }

  datatype MaritalStatus = Divorced | Married | Single {
    function Label(): string {
      match this
      case Divorced => "Divorced"
      case Married => "Married"
      case Single => "Single"
    }
  }

  datatype LoanPurpose = Business | Education | Home | Other {
    function Label(): string {
      match this
      case Business => "Business"
      case Education => "Education"
      case Home => "Home"
      case Other => "Other"
    }
  }

  /** The options each select box offers, in the order it shows them. */
  const YesNoOptions: seq<string> := ["No", "Yes"]
  const EducationOptions: seq<string> := ["High School", "Bachelor's", "Master's", "PhD"]
  const EmploymentOptions: seq<string> := ["Full-time", "Part-time", "Self-employed", "Unemployed"]
  const MaritalOptions: seq<string> := ["Divorced", "Married", "Single"]
  const PurposeOptions: seq<string> := ["Business", "Education", "Home", "Other"]

  /** The values the form hands to the encoder, exactly as the widgets return
      them: whole numbers, two floating-point numbers (only ever copied, so
      modelled as reals) and plain strings for every choice. */
  datatype Form = Form(
    age: int,
    income: int,
    loanAmount: int,
    creditScore: int,
    monthsEmployed: int,
    numCreditLines: int,
    interestRate: real,
    loanTerm: int,
    dtiRatio: real,
    hasMortgage: string,
    hasDependents: string,
    hasCoSigner: string,
    education: string,
    employmentType: string,
    maritalStatus: string,
    loanPurpose: string
  )

  /** The same applicant with every choice drawn from its vocabulary. */
  datatype Applicant = Applicant(
    age: int,
    income: int,
    loanAmount: int,
    creditScore: int,
    monthsEmployed: int,
    numCreditLines: int,
    interestRate: real,
    loanTerm: int,
    dtiRatio: real,
    hasMortgage: YesNo,
    hasDependents: YesNo,
    hasCoSigner: YesNo,
    education: EducationLevel,
    employmentType: EmploymentType,
    maritalStatus: MaritalStatus,
    loanPurpose: LoanPurpose
  )

  /** A choice outside the options its select box offers. */
  datatype InvalidCategory = InvalidCategory(field: string, value: string)

  function ParseYesNo(s: string): (r: Option<YesNo>)
    ensures r.Some? <==> s in YesNoOptions
    ensures r.Some? ==> r.value.Label() == s
  {
    if s == "No" then Some(No)
    else if s == "Yes" then Some(Yes)
    else None
  }

  function ParseEducation(s: string): (r: Option<EducationLevel>)
    ensures r.Some? <==> s in EducationOptions
    ensures r.Some? ==> r.value.Label() == s
  {
    if s == "High School" then Some(HighSchool)
    else if s == "Bachelor's" then Some(Bachelors)
    else if s == "Master's" then Some(Masters)
    else if s == "PhD" then Some(PhD)
    else None
  }

  function ParseEmployment(s: string): (r: Option<EmploymentType>)
    ensures r.Some? <==> s in EmploymentOptions
    ensures r.Some? ==> r.value.Label() == s
  {
    if s == "Full-time" then Some(FullTime)
    else if s == "Part-time" then Some(PartTime)
    else if s == "Self-employed" then Some(SelfEmployed)
    else if s == "Unemployed" then Some(Unemployed)
    else None
  }

  function ParseMarital(s: string): (r: Option<MaritalStatus>)
    ensures r.Some? <==> s in MaritalOptions
    ensures r.Some? ==> r.value.Label() == s
  {
    if s == "Divorced" then Some(Divorced)
    else if s == "Married" then Some(Married)
    else if s == "Single" then Some(Single)
    else None
  }

  function ParsePurpose(s: string): (r: Option<LoanPurpose>)
    ensures r.Some? <==> s in PurposeOptions
    ensures r.Some? ==> r.value.Label() == s
  {
    if s == "Business" then Some(Business)
    else if s == "Education" then Some(Education)
    else if s == "Home" then Some(Home)
    else if s == "Other" then Some(Other)
    else None
  }

  /** Every choice of a typed applicant is one its select box offers, and
      parsing its label gives the choice back. */
  lemma LabelsParse(a: Applicant)
    ensures ParseYesNo(a.hasMortgage.Label()) == Some(a.hasMortgage)
    ensures ParseYesNo(a.hasDependents.Label()) == Some(a.hasDependents)
    ensures ParseYesNo(a.hasCoSigner.Label()) == Some(a.hasCoSigner)
    ensures ParseEducation(a.education.Label()) == Some(a.education)
    ensures ParseEmployment(a.employmentType.Label()) == Some(a.employmentType)
    ensures ParseMarital(a.maritalStatus.Label()) == Some(a.maritalStatus)
    ensures ParsePurpose(a.loanPurpose.Label()) == Some(a.loanPurpose)
  {
  }

  /** Every choice of the form lies in the options of its select box. */
  predicate InVocabulary(f: Form) {
    && f.hasMortgage in YesNoOptions
    && f.hasDependents in YesNoOptions
    && f.hasCoSigner in YesNoOptions
    && f.education in EducationOptions
    && f.employmentType in EmploymentOptions
    && f.maritalStatus in MaritalOptions
    && f.loanPurpose in PurposeOptions
  }

  /** The form a typed applicant is submitted as: each choice by its label. */
  function ToForm(a: Applicant): (f: Form)
    ensures InVocabulary(f)
    ensures f.age == a.age && f.income == a.income && f.loanAmount == a.loanAmount
    ensures f.creditScore == a.creditScore && f.monthsEmployed == a.monthsEmployed
    ensures f.numCreditLines == a.numCreditLines && f.interestRate == a.interestRate
    ensures f.loanTerm == a.loanTerm && f.dtiRatio == a.dtiRatio
  {
    Form(a.age, a.income, a.loanAmount, a.creditScore, a.monthsEmployed,
         a.numCreditLines, a.interestRate, a.loanTerm, a.dtiRatio,
         a.hasMortgage.Label(), a.hasDependents.Label(), a.hasCoSigner.Label(),
         a.education.Label(), a.employmentType.Label(), a.maritalStatus.Label(),
         a.loanPurpose.Label())
  }

  /** Reads a form into a typed applicant, refusing the first choice that
      lies outside its select box's options. */
  function Validate(f: Form): (r: Result<Applicant, InvalidCategory>)
    ensures r.Success? <==> InVocabulary(f)
    ensures r.Success? ==> ToForm(r.value) == f
  {
    var hasMortgage :- ParseYesNo(f.hasMortgage).ToResult(InvalidCategory("HasMortgage", f.hasMortgage));
    var hasDependents :- ParseYesNo(f.hasDependents).ToResult(InvalidCategory("HasDependents", f.hasDependents));
    var hasCoSigner :- ParseYesNo(f.hasCoSigner).ToResult(InvalidCategory("HasCoSigner", f.hasCoSigner));
    var education :- ParseEducation(f.education).ToResult(InvalidCategory("Education", f.education));
    var employmentType :- ParseEmployment(f.employmentType).ToResult(InvalidCategory("EmploymentType", f.employmentType));
    var maritalStatus :- ParseMarital(f.maritalStatus).ToResult(InvalidCategory("MaritalStatus", f.maritalStatus));
    var loanPurpose :- ParsePurpose(f.loanPurpose).ToResult(InvalidCategory("LoanPurpose", f.loanPurpose));
    Success(Applicant(f.age, f.income, f.loanAmount, f.creditScore, f.monthsEmployed,
                      f.numCreditLines, f.interestRate, f.loanTerm, f.dtiRatio,
                      hasMortgage, hasDependents, hasCoSigner,
                      education, employmentType, maritalStatus, loanPurpose))
  }

  /** Submitting a typed applicant and reading the form back is the identity. */
  lemma ValidateToForm(a: Applicant)
    ensures Validate(ToForm(a)) == Success(a)
  {
    LabelsParse(a);
  }
}
