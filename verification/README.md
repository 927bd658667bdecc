# Loan default risk: the feature encoder, modelled in Dafny

The application is a Streamlit page (`app.py`). It collects one loan applicant through a form and turns the answers into a single row for a pre-trained classifier. It then shows "High Risk of Default" or "Low Risk Applicant" depending on the predicted label.

This project models that row builder and the verdict. The form's answers are first arranged into a `dict` of twelve base columns: nine numbers copied as given, and three Yes/No answers turned into 1/0. The encoder then builds a second `dict` of thirteen one-hot indicators, all 0. For each categorical answer it sets the indicator whose key is the f-string `"<Group>_<answer>"` to 1. Employment type Full-time and marital status Divorced are skipped: they are the reference categories and have no indicator. Finally, `data.update(one_hot)` merges the two parts.

Modules:

- `OrderedDict` (`ordered_dict.dfy`): Python's insertion-ordered `dict` with string keys. It covers the dict display, `d[k] = v` (overwrite in place or append), `update` and `values()`. It carries the representation invariant (every key listed once, and the listed keys are exactly the keys with a value) and the laws the encoder relies on.
- `Applicant` (`applicant.dfy`): the two views of an applicant.
  - `Form` holds exactly what the widgets hand over, with plain strings for every choice.
  - `Applicant` holds one enum per select box.
  - `ToForm` submits a typed applicant as a form. `Validate` reads a form back and fails with `InvalidCategory` on a choice outside the box's options.
- `Layout` (`layout.dfy`): the 25 trained column names and the key built from each choice. It also states which keys name which columns.
- `Encoder` (`encoder.dfy`): the encoder exactly as written, on a `Form`. Keys are built from the strings, so a string outside the vocabulary would add a column rather than fail.
- `Features` (`features.dfy`): the encoder on a typed `Applicant`. It compares the row with `Reference`, a column-by-column definition written from the applicant alone, and states the one-hot shape of every group.
- `Decoder` (`decoder.dfy`): the inverse, from a row of values back to an applicant. It shows that the encoding loses nothing.
- `Verdict` (`verdict.dfy`): the verdict chosen by the predicted label. The classifier is a function parameter that sees the row's values in column order.

The two floating-point inputs (interest rate, DTI ratio) are only ever copied, so they are modelled as `real`.

The script builds 12 base keys (the three Yes/No flags are columns of their own, app.py:88-90) and 13 indicators (app.py:96-114), 25 columns in all.

## Model

| member | source | states |
|---|---|---|
| OrderedDict.FromItems | app.py:78-91 | A dict display with distinct keys is a well-formed dict whose key order is the keys as written and whose every key holds the value written beside it |
| OrderedDict.Put | app.py:118 | `d[k] = v` stores `v` under `k`, keeps every other entry, keeps the key order when `k` was present, and appends `k` when it was new |
| OrderedDict.PutValid | app.py:118-126 | An assignment `d[k] = v` keeps a well-formed dict well formed: no key listed twice, listed keys exactly the stored keys |
| OrderedDict.PutEach | app.py:129 | Putting a sequence of keys from another dict leaves exactly the old keys plus the new ones; the keys put hold the other dict's values and every other key keeps its own |
| OrderedDict.PutEachOrder | app.py:129 | Putting keys keeps the dict well formed, never shortens the key order, and leaves the order untouched when every key put was already present |
| OrderedDict.PutEachAppends | app.py:129 | Putting distinct keys that are all new appends them to the key order in the order they were put |
| OrderedDict.Update | app.py:129 | `d.update(o)` holds every entry of `o` and every entry of `d` whose key `o` lacks, so `o` wins on shared keys |
| OrderedDict.UpdateOrder | app.py:129 | `update` keeps a dict well formed; the key order is unchanged when all of `o`'s keys are already in `d`, and `o`'s keys are appended in `o`'s order when none are |
| OrderedDict.Values | app.py:132 | The row of values is as long as the key order and lists each key's value at that key's position |
| OrderedDict.ValuesFromItems | app.py:78-91 | Reading the values of a dict display gives back exactly the values written |
| OrderedDict.FromItemsValues | app.py:132 | A well-formed dict is determined by its key order and its values: redisplaying them rebuilds the same dict |
| OrderedDict.DisplayOf | app.py:132 | A well-formed dict whose order is `ks` and whose values at `ks` are `vs` equals the display of `ks` with `vs` |
| Applicant.ParseYesNo | app.py:46-48 | A Yes/No box's answer is recognised exactly when it is one of the box's two options, and the recognised answer's label is that string |
| Applicant.ParseEducation | app.py:49-52 | An education string is recognised exactly when it is one of the four options, and the level recognised carries that label |
| Applicant.ParseEmployment | app.py:53-56 | An employment string is recognised exactly when it is one of the four options, and the type recognised carries that label |
| Applicant.ParseMarital | app.py:61-64 | A marital-status string is recognised exactly when it is one of the three options, and the status recognised carries that label |
| Applicant.ParsePurpose | app.py:67-70 | A loan-purpose string is recognised exactly when it is one of the four options, and the purpose recognised carries that label |
| Applicant.LabelsParse | app.py:46-70 | Every choice's label is recognised as that same choice, for all seven select boxes |
| Applicant.ToForm | app.py:35-70 | Submitting a typed applicant gives a form whose every choice is one its box offers and whose nine numeric fields are the applicant's |
| Applicant.Validate | app.py:44-70 | Reading a form succeeds exactly when every choice is one its box offers, and a successful reading submits back to the same form |
| Applicant.ValidateToForm | app.py:44-70 | Reading back the form of a typed applicant gives that applicant |
| Layout.ColumnsDistinct | app.py:78-115 | The 25 column names are pairwise distinct, and no indicator column is also a base column |
| Layout.ColumnsByGroup | app.py:78-115 | The trained column order is the base columns, then the education, employment, marital and purpose indicators |
| Layout.EducationKey | app.py:118 | `f"Education_{x}"`: the key is the prefix `Education_` followed by the choice verbatim, so the choice can be read back from it; EducationKeyColumn and EducationKeyElsewhere say which column it names |
| Layout.EmploymentKey | app.py:121 | `f"EmploymentType_{x}"`: the prefix `EmploymentType_` followed by the choice verbatim; EmploymentKeyColumn and EmploymentKeyElsewhere say which column it names |
| Layout.MaritalKey | app.py:124 | `f"Marital_{x}"`: the prefix `Marital_` followed by the choice verbatim; MaritalKeyColumn and MaritalKeyElsewhere say which column it names |
| Layout.PurposeKey | app.py:126 | `f"Purpose_{x}"`: the prefix `Purpose_` followed by the choice verbatim; PurposeKeyColumn and PurposeKeyElsewhere say which column it names |
| Layout.KeysInjective | app.py:118-126 | Within each group, two different choices never build the same key |
| Layout.EducationKeyColumn | app.py:96-99 | `f"Education_{x}"` is an education column exactly when `x` is an education option |
| Layout.EmploymentKeyColumn | app.py:101-104 | `f"EmploymentType_{x}"` is an employment column exactly when `x` is an option other than Full-time |
| Layout.MaritalKeyColumn | app.py:106-108 | `f"Marital_{x}"` is a marital column exactly when `x` is an option other than Divorced |
| Layout.PurposeKeyColumn | app.py:110-114 | `f"Purpose_{x}"` is a purpose column exactly when `x` is a purpose option |
| Layout.EducationKeyElsewhere | app.py:118 | `f"Education_{x}"` is never a base column, nor an employment, marital or purpose column, whatever `x` is |
| Layout.EmploymentKeyElsewhere | app.py:121 | `f"EmploymentType_{x}"` is never a base column, nor an education, marital or purpose column, whatever `x` is |
| Layout.MaritalKeyElsewhere | app.py:124 | `f"Marital_{x}"` is never a base column, nor an education, employment or purpose column, whatever `x` is |
| Layout.PurposeKeyElsewhere | app.py:126 | `f"Purpose_{x}"` is never a base column, nor an education, employment or marital column, whatever `x` is |
| Encoder.Flag | app.py:88-90 | A Yes/No answer becomes 1 exactly when it is the string "Yes" and 0 for every other string |
| Encoder.BaseValues | app.py:79-90 | One value per base column; BaseByName reads them back by column name and Features.BaseMatches compares them with the applicant's fields |
| Encoder.BaseData | app.py:78-91 | The base dict is well formed, has the twelve base columns in order, and holds the base values in column order |
| Encoder.BaseByName | app.py:79-90 | A row holding the base values has Age through DTIRatio equal to the form's numbers, and each of HasMortgage, HasDependents and HasCoSigner equal to 1 exactly when its answer is "Yes" |
| Encoder.ZeroIndicators | app.py:94-115 | The initial indicator dict is well formed, lists the thirteen indicator columns in order, and holds 0 everywhere |
| Encoder.Mark | app.py:117-126 | One assignment `h[key] = 1`, guarded by `on`: when it runs, `key` holds 1, its place in the key order is kept if it was present and it is appended if new, and every other key keeps its presence and its value; when it does not run the dict is unchanged, key order included |
| Encoder.Marks | app.py:117-126 | The four assignments in the script's order, the second and third guarded; MarksValid, MarksEntries and MarksKeepOrder state their effect |
| Encoder.MarkIndicators | app.py:94-126 | The indicator dict after the assignments; MarkIndicatorsValid, MarkIndicatorsEntries, MarkIndicatorsKeys, MarkIndicatorsOrder and the four Mark*Group lemmas state its keys, order and values |
| Encoder.MarksValid | app.py:117-126 | The four indicator assignments keep the dict well formed |
| Encoder.MarksEntries | app.py:117-126 | After the assignments a key is present exactly when it was before or was assigned, and holds 1 exactly when assigned, its old value otherwise; a key that was not present before, such as one built from a choice outside the vocabulary, holds 1 |
| Encoder.MarksKeepOrder | app.py:117-126 | When every key assigned is already present, the assignments leave the key order as it was |
| Encoder.MarkIndicatorsValid | app.py:94-126 | The indicator dict after the assignments is well formed |
| Encoder.MarkIndicatorsEntries | app.py:94-126 | The indicator dict's keys are the thirteen columns plus the keys the choices name; an indicator column holds 1 exactly when some guarded assignment names it |
| Encoder.MarkIndicatorsKeys | app.py:94-126 | The indicator dict holds every indicator column and no base column |
| Encoder.MarkIndicatorsOrder | app.py:94-126 | The indicator dict keeps exactly the thirteen columns in order when every choice is in its vocabulary; otherwise its key order differs |
| Encoder.EncodeForm | app.py:78-129 | The row as the script builds it, for any form; EncodeFormColumns, EncodeFormBasePart, EncodeFormIndicators and the EncodeForm*Ones lemmas state its key order and values |
| Encoder.EncodeFormColumns | app.py:78-129 | The merged row is well formed, and its key order is exactly the 25 trained columns if and only if every categorical choice is in its vocabulary |
| Encoder.UpdateKeepsBase | app.py:129 | Merging a part that has no base column leaves the base values in place |
| Encoder.EncodeFormBasePart | app.py:129 | After the merge the base columns still hold the base values |
| Encoder.EncodeFormIndicatorPart | app.py:129 | After the merge every indicator column is present and holds the indicator dict's value |
| Encoder.MarkEducationGroup | app.py:96-99 | In the indicator dict, an education indicator is 1 exactly when it is the column named after the education choice |
| Encoder.MarkEmploymentGroup | app.py:101-104 | In the indicator dict, an employment indicator is 1 exactly when the choice is not Full-time and the column is named after it |
| Encoder.MarkMaritalGroup | app.py:106-108 | In the indicator dict, a marital indicator is 1 exactly when the choice is not Divorced and the column is named after it |
| Encoder.MarkPurposeGroup | app.py:110-114 | In the indicator dict, a purpose indicator is 1 exactly when it is the column named after the purpose choice |
| Encoder.EncodeFormIndicators | app.py:94-129 | In every group of the merged row, an indicator is 1 exactly when it is the column named after the group's choice, and 0 otherwise |
| Encoder.EncodeFormIndicatorBits | app.py:94-126 | Every indicator column of the row is present and holds 0 or 1, whatever strings the form holds |
| Encoder.EncodeFormEducationOnes | app.py:96-99 | The set of education indicators at 1 is the one named after the choice when it is an option, and empty otherwise |
| Encoder.EncodeFormEmploymentOnes | app.py:101-104 | The set of employment indicators at 1 is the one named after the choice when it is an option other than Full-time, and empty otherwise |
| Encoder.EncodeFormMaritalOnes | app.py:106-108 | The set of marital indicators at 1 is the one named after the choice when it is an option other than Divorced, and empty otherwise |
| Encoder.EncodeFormPurposeOnes | app.py:110-114 | The set of purpose indicators at 1 is the one named after the choice when it is an option, and empty otherwise |
| Encoder.EncodeFormBaseDepends | app.py:79-90 | Two forms with the same base values agree on all twelve base columns, whatever their categorical choices |
| Encoder.EncodeFormEducationDepends | app.py:96-99 | Two forms with the same education choice agree on the education columns, whatever else differs |
| Encoder.EncodeFormEmploymentDepends | app.py:101-104 | Two forms with the same employment choice agree on the employment columns, whatever else differs |
| Encoder.EncodeFormMaritalDepends | app.py:106-108 | Two forms with the same marital choice agree on the marital columns, whatever else differs |
| Encoder.EncodeFormPurposeDepends | app.py:110-114 | Two forms with the same purpose choice agree on the purpose columns, whatever else differs |
| Features.Encode | app.py:78-129 | The row for an applicant whose choices come from the select boxes; Features.EncodeIsReference shows it is the display of the trained columns with Reference's values, and Decoder.DecodeEncode shows it can be decoded back |
| Features.Reference | app.py:78-115 | One value per trained column, defined from the applicant's fields alone without building any key; Features.EncodeIsReference and Decoder.DecodeIff tie it to the encoder and the decoder |
| Features.EncodeColumns | app.py:78-129 | For every typed applicant the row is well formed and its keys are exactly the 25 trained columns in the trained order: the twelve base columns, then the thirteen indicators |
| Features.BaseMatches | app.py:79-90 | For a typed applicant the base values are the nine numbers as given, then 1/0 for each flag being Yes |
| Features.EducationBitsNameKey | app.py:96-99 | The reference education bits put 1 exactly at the column whose name the f-string builds from the level's label |
| Features.EmploymentBitsNameKey | app.py:101-104 | The reference employment bits put 1 exactly at the column whose name the f-string builds from the type's label (none for Full-time) |
| Features.MaritalBitsNameKey | app.py:106-108 | The reference marital bits put 1 exactly at the column whose name the f-string builds from the status's label (none for Divorced) |
| Features.PurposeBitsNameKey | app.py:110-114 | The reference purpose bits put 1 exactly at the column whose name the f-string builds from the purpose's label |
| Features.EducationMatches | app.py:118 | For a typed applicant the education columns of the row hold the reference bits of the education level |
| Features.EmploymentMatches | app.py:120-121 | For a typed applicant the employment columns of the row hold the reference bits of the employment type |
| Features.MaritalMatches | app.py:123-124 | For a typed applicant the marital columns of the row hold the reference bits of the marital status |
| Features.PurposeMatches | app.py:126 | For a typed applicant the purpose columns of the row hold the reference bits of the loan purpose |
| Features.RowMatches | app.py:78-129 | A row holding the base values and the four groups' reference bits holds the whole reference row, column by column |
| Features.EncodeMatchesReference | app.py:78-129 | Every one of the 25 trained columns is in the applicant's row and holds the reference value at its position |
| Features.EncodeIsReference | app.py:78-129 | The row for a typed applicant is exactly the dict display of the 25 trained columns, in the trained order, with the reference values |
| Features.EducationOneHot | app.py:96-99 | Exactly one education indicator is 1 for every applicant: the one named after the level, which is always an education column |
| Features.EmploymentOneHot | app.py:101-104 | For Full-time no employment indicator is 1; otherwise exactly one is, the one named after the type |
| Features.MaritalOneHot | app.py:106-108 | For Divorced no marital indicator is 1; otherwise exactly one is, the one named after the status |
| Features.PurposeOneHot | app.py:110-114 | Exactly one purpose indicator is 1 for every applicant: the one named after the purpose, which is always a purpose column |
| Decoder.ReferenceParts | app.py:78-115 | The 25 reference values split into the twelve base values and the four groups' bits, at the groups' column positions |
| Decoder.DecodeReference | app.py:78-129 | Decoding an applicant's reference row gives the applicant back |
| Decoder.DecodeExact | app.py:78-129 | Whenever a row decodes, it is exactly the reference row of the applicant it decodes to |
| Decoder.DecodeIff | app.py:78-129 | A row decodes to an applicant if and only if it is that applicant's reference row |
| Decoder.DecodeEncode | app.py:78-132 | The values of an applicant's row, in column order, decode to that applicant |
| Decoder.EncodeInjective | app.py:78-129 | Two applicants with the same row are the same applicant: the encoding loses nothing |
| Verdict.VerdictFor | app.py:141-146 | The message is "High Risk of Default" exactly when the label is 1 and "Low Risk Applicant" for every other label; the error box goes with the high-risk message |
| Verdict.Assess | app.py:132-146 | For any form, the page shows "High Risk of Default" in the error box exactly when the classifier labels the row's values 1, and "Low Risk Applicant" in the success box for every other label |
| Verdict.AssessApplicant | app.py:132-146 | For a typed applicant the classifier is shown exactly the reference row, so the verdict depends on the applicant only through it |

## Left out

- The page itself: page configuration, styling, layout, and the widgets' rendering and state (app.py:1-72). This is user interface. Only the values the widgets return are modelled, as a `Form`.
- The widgets' numeric bounds and defaults (app.py:35-45) and the loan-term options 12 to 60 (app.py:44) are not modelled. The encoder copies whatever number it is given, so no contract depends on them. Only the select boxes' string options are modelled, in `Validate`.
- Loading the pickled classifier with `joblib.load` (app.py:12) is file I/O of an opaque object.
- `model.predict` and `model.predict_proba` (app.py:135-136) are a foreign classifier. `predict` is the function parameter `classify` of `Verdict.Assess`, and `predict_proba` is not modelled.
- `pd.DataFrame([data])` (app.py:132) is modelled only by its content: the row's values in key order (`OrderedDict.Values`).
- The percentage formatting of the default probability (app.py:143, app.py:146) is floating-point string formatting and is not modelled.
- InterestRate and DTIRatio are Python floats. They are modelled as `real` values that are only copied; no arithmetic is done on them.
- The button press that triggers the computation (app.py:75) is an event of the user interface. The model encodes whenever it is asked.
