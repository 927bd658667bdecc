/** The column layout of the classifier's input: twelve base columns followed
    by thirteen one-hot indicator columns, and the keys the encoder builds
    from the categorical choices. */
module Layout {
  import opened OrderedDict
  import opened Applicant

  const BaseColumns: seq<string> := [
    "Age", "Income", "LoanAmount", "CreditScore", "MonthsEmployed",
    "NumCreditLines", "InterestRate", "LoanTerm", "DTIRatio",
    "HasMortgage", "HasDependents", "HasCoSigner"
  ]

  /** Every education level has an indicator. */
  const EducationColumns: seq<string> := [
    "Education_Bachelor's", "Education_High School", "Education_Master's", "Education_PhD"
  ]

  /** Full-time is the reference category and has no indicator. */
  const EmploymentColumns: seq<string> := [
    "EmploymentType_Part-time", "EmploymentType_Self-employed", "EmploymentType_Unemployed"
  ]

  /** Divorced is the reference category and has no indicator. */
  const MaritalColumns: seq<string> := ["Marital_Married", "Marital_Single"]

  /** Every loan purpose has an indicator. */
  const PurposeColumns: seq<string> := [
    "Purpose_Business", "Purpose_Education", "Purpose_Home", "Purpose_Other"
  ]

  const IndicatorColumns: seq<string> :=
    EducationColumns + EmploymentColumns + MaritalColumns + PurposeColumns

  /** The column order the classifier was trained on. */
  const Columns: seq<string> := BaseColumns + IndicatorColumns

  lemma BaseColumnsDistinct()
    ensures Distinct(BaseColumns)
  {
  }

  lemma IndicatorColumnsDistinct()
    ensures Distinct(IndicatorColumns)
  {
  }

  /** No indicator column is also a base column. */
  lemma BaseIndicatorDisjoint()
    ensures forall c :: c in BaseColumns ==> c !in IndicatorColumns
  {
    forall c | c in EducationColumns + EmploymentColumns
      ensures c !in BaseColumns
    {
      assert c[0] == 'E';
    }
    forall c | c in MaritalColumns
      ensures c !in BaseColumns
    {
      assert c[0] == 'M' && c[1] == 'a';
    }
    forall c | c in PurposeColumns
      ensures c !in BaseColumns
    {
      assert c[0] == 'P';
    }
  }

  /** No column name occurs twice; in particular no indicator column is also
      a base column. */
  lemma ColumnsDistinct()
    ensures Distinct(Columns)
    ensures Distinct(BaseColumns) && Distinct(IndicatorColumns)
    ensures forall c :: c in BaseColumns ==> c !in IndicatorColumns
  {
    BaseColumnsDistinct();
    IndicatorColumnsDistinct();
    BaseIndicatorDisjoint();
    DistinctConcat(BaseColumns, IndicatorColumns);
  }

  /** The trained columns are the base columns followed by the four groups:
      a convenience for proofs that split a row by group, not a property of
      the script beyond the column lists themselves. */
  lemma ColumnsByGroup()
    ensures Columns == BaseColumns + EducationColumns + EmploymentColumns + MaritalColumns + PurposeColumns
  {
  }

  /** The key of the indicator for a choice: the group's prefix followed by
      the choice exactly as the select box returned it, so the choice can be
      read back from the key. */
  function EducationKey(education: string): (k: string)
    ensures |k| == 10 + |education| && k[..10] == "Education_" && k[10..] == education
  {
    "Education_" + education
  }

  function EmploymentKey(employmentType: string): (k: string)
    ensures |k| == 15 + |employmentType| && k[..15] == "EmploymentType_" && k[15..] == employmentType
  {
    "EmploymentType_" + employmentType
  }

  function MaritalKey(maritalStatus: string): (k: string)
    ensures |k| == 8 + |maritalStatus| && k[..8] == "Marital_" && k[8..] == maritalStatus
  {
    "Marital_" + maritalStatus
  }

  function PurposeKey(loanPurpose: string): (k: string)
    ensures |k| == 8 + |loanPurpose| && k[..8] == "Purpose_" && k[8..] == loanPurpose
  {
    "Purpose_" + loanPurpose
  }

  /** Different choices give different keys, within a group. */
  lemma KeysInjective(s: string, t: string)
    ensures EducationKey(s) == EducationKey(t) ==> s == t
    ensures EmploymentKey(s) == EmploymentKey(t) ==> s == t
    ensures MaritalKey(s) == MaritalKey(t) ==> s == t
    ensures PurposeKey(s) == PurposeKey(t) ==> s == t
  {
  }

  /** Which strings name an indicator column: the key built from a choice is
      one of its own group's columns exactly when the choice has an indicator,
      and it is never a column of another group or a base column. */
  lemma EducationKeyColumn(s: string)
    ensures EducationKey(s) in EducationColumns <==> s in EducationOptions
  {
    var k := EducationKey(s);
    if s in EducationOptions {
      if s == "High School" {
        assert k == "Education_High School";
      } else if s == "Bachelor's" {
        assert k == "Education_Bachelor's";
      } else if s == "Master's" {
        assert k == "Education_Master's";
      } else if s == "PhD" {
        assert k == "Education_PhD";
      }
    } else {
      assert k !in EducationColumns by {
        assert k[10..] == s;
        assert |k| >= 10 && k[..10] == "Education_";
      }
    }
  }

  lemma EducationKeyElsewhere(s: string)
    ensures EducationKey(s) !in BaseColumns
    ensures EducationKey(s) !in EmploymentColumns
    ensures EducationKey(s) !in MaritalColumns
    ensures EducationKey(s) !in PurposeColumns
  {
    var k := EducationKey(s);
    assert k !in BaseColumns by {
      assert k[0] == 'E' && k[1] == 'd';
    }
    assert k !in EmploymentColumns by {
      assert k[0] == 'E' && k[1] == 'd';
    }
    assert k !in MaritalColumns by {
      assert k[0] == 'E' && k[1] == 'd';
    }
    assert k !in PurposeColumns by {
      assert k[0] == 'E' && k[1] == 'd';
    }
  }

  lemma EmploymentKeyColumn(s: string)
    ensures EmploymentKey(s) in EmploymentColumns <==> s in EmploymentOptions && s != "Full-time"
  {
    var k := EmploymentKey(s);
    if s in EmploymentOptions && s != "Full-time" {
      if s == "Part-time" {
        assert k == "EmploymentType_Part-time";
      } else if s == "Self-employed" {
        assert k == "EmploymentType_Self-employed";
      } else if s == "Unemployed" {
        assert k == "EmploymentType_Unemployed";
      }
    } else {
      assert k !in EmploymentColumns by {
        assert k[15..] == s;
        assert |k| >= 15 && k[..15] == "EmploymentType_";
      }
    }
  }

  lemma EmploymentKeyElsewhere(s: string)
    ensures EmploymentKey(s) !in BaseColumns
    ensures EmploymentKey(s) !in EducationColumns
    ensures EmploymentKey(s) !in MaritalColumns
    ensures EmploymentKey(s) !in PurposeColumns
  {
    var k := EmploymentKey(s);
    assert k !in BaseColumns by {
      assert k[0] == 'E' && k[1] == 'm';
    }
    assert k !in EducationColumns by {
      assert k[0] == 'E' && k[1] == 'm';
    }
    assert k !in MaritalColumns by {
      assert k[0] == 'E' && k[1] == 'm';
    }
    assert k !in PurposeColumns by {
      assert k[0] == 'E' && k[1] == 'm';
    }
  }

  lemma MaritalKeyColumn(s: string)
    ensures MaritalKey(s) in MaritalColumns <==> s in MaritalOptions && s != "Divorced"
  {
    var k := MaritalKey(s);
    if s in MaritalOptions && s != "Divorced" {
      if s == "Married" {
        assert k == "Marital_Married";
      } else if s == "Single" {
        assert k == "Marital_Single";
      }
    } else {
      assert k !in MaritalColumns by {
        assert k[8..] == s;
        assert |k| >= 8 && k[..8] == "Marital_";
      }
    }
  }

  lemma MaritalKeyElsewhere(s: string)
    ensures MaritalKey(s) !in BaseColumns
    ensures MaritalKey(s) !in EducationColumns
    ensures MaritalKey(s) !in EmploymentColumns
    ensures MaritalKey(s) !in PurposeColumns
  {
    var k := MaritalKey(s);
    assert k !in BaseColumns by {
      assert k[0] == 'M' && k[1] == 'a';
    }
    assert k !in EducationColumns by {
      assert k[0] == 'M' && k[1] == 'a';
    }
    assert k !in EmploymentColumns by {
      assert k[0] == 'M' && k[1] == 'a';
    }
    assert k !in PurposeColumns by {
      assert k[0] == 'M' && k[1] == 'a';
    }
  }

  lemma PurposeKeyColumn(s: string)
    ensures PurposeKey(s) in PurposeColumns <==> s in PurposeOptions
  {
    var k := PurposeKey(s);
    if s in PurposeOptions {
      if s == "Business" {
        assert k == "Purpose_Business";
      } else if s == "Education" {
        assert k == "Purpose_Education";
      } else if s == "Home" {
        assert k == "Purpose_Home";
      } else if s == "Other" {
        assert k == "Purpose_Other";
      }
    } else {
      assert k !in PurposeColumns by {
        assert k[8..] == s;
        assert |k| >= 8 && k[..8] == "Purpose_";
      }
    }
  }

  lemma PurposeKeyElsewhere(s: string)
    ensures PurposeKey(s) !in BaseColumns
    ensures PurposeKey(s) !in EducationColumns
    ensures PurposeKey(s) !in EmploymentColumns
    ensures PurposeKey(s) !in MaritalColumns
  {
    var k := PurposeKey(s);
    assert k !in BaseColumns by {
      assert k[0] == 'P';
    }
    assert k !in EducationColumns by {
      assert k[0] == 'P';
    }
    assert k !in EmploymentColumns by {
      assert k[0] == 'P';
    }
    assert k !in MaritalColumns by {
      assert k[0] == 'P';
    }
  }

}
