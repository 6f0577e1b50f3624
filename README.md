# Medibridge cohort logic in Dafny

Medibridge is a patient-monitoring dashboard. Under its presentation code it has a
small layer of cohort logic over the `Patient` record. This project models that
layer and proves what it promises:

- **Dashboard** (`src/app/page.tsx`). The summary cards count all patients,
  high-risk patients, medium-risk patients and screened patients. A screened
  patient has all three vitals non-zero.
  - `handleBarClick` moves the patient list between "all high-risk patients" and
    "patients strictly over a condition's threshold". The thresholds are
    systolic > 140, sugar > 125 and BMI > 30.
  - Each row gets risk-factor badges, and the table shows at most five rows.
- **Patients page** (`src/app/patients/page.tsx`). The URL `filter` picks the
  first tab from a whitelist. The three risk tabs split the cohort by `riskLevel`.
- **Patient table**. Adding a patient puts the new record first. Its id is
  `"USR"` plus the zero-padded count and its avatar slot is `length mod 6 + 1`.
  Adding closes the dialog.
- **Add-patient and risk-prediction forms**. Their validation schemas are
  predicates over already-numeric values. Submitting the add form hands the
  validated values to the table and resets the form. Submitting the risk form
  runs a loading/prediction state machine around the external prediction call.
- **Disease, age and gender charts**. These are counts over the cohort: strict
  thresholds, disjoint age groups, and gender counts with empty genders dropped.

Pure code is modelled as functions and lemmas. State the components change is
modelled as classes: `Dashboard.DashboardState`, `PatientTable.Table`,
`AddPatientForm.Form` and `RiskPredictionForm.RiskForm`. Their methods carry
`modifies` clauses and state the whole new state.

Several modules share helpers:
- `Util`: `Filter` (JavaScript's `Array.prototype.filter`, proved to return an
  order-preserving subsequence of the passing elements, each kept as often
  as it occurs) and its partition lemma.
- `Types`: the `Patient` record of `src/lib/types.ts`.
- `Cohort`: the per-risk-level selection that both pages use.

The mock data set (`@/lib/data`) is not part of this model. Every function takes
the patient list as a parameter.

## Model

| member | source | states |
|---|---|---|
| `Types.ParseGender` | src/app/patients/components/add-patient-form.tsx:37 | the gender enum accepts exactly "Male", "Female" and "Other", and the parsed value spells the input |
| `Types.ParseRiskLevel` | src/app/patients/components/add-patient-form.tsx:42 | the risk-level enum accepts exactly "Low", "Medium" and "High", and the parsed value spells the input |
| `Types.GenderNameRoundTrip` | src/lib/types.ts:5 | each gender's spelling parses back to that gender |
| `Types.RiskLevelNameRoundTrip` | src/lib/types.ts:10 | each risk level's spelling parses back to that level |
| `Util.FilterMultiplicity` | src/app/page.tsx:38 | `filter` keeps every passing element as often as it occurs and no other element, so a filtered length counts the passing patients |
| `Cohort.WithRiskLevel` | src/app/patients/page.tsx:91-105 | filtering by a risk level keeps exactly the patients of that level, in their original order |
| `Cohort.RiskLevelsPartition` | src/app/patients/page.tsx:84-105 | the low, medium and high selections together hold every patient exactly once (as multisets), so their lengths sum to the total |
| `Dashboard.ScreeningsFrom` | src/app/page.tsx:44-49 | the `reduce` never lowers its accumulator and adds at most one per patient |
| `Dashboard.ScreeningsCountScreened` | src/app/page.tsx:44-49 | the `reduce` equals its start value plus the number of patients whose systolic, sugar and BMI are all non-zero |
| `Dashboard.AllScreenedIff` | src/app/page.tsx:45 | every patient counts as screened exactly when all patients have non-zero vitals |
| `Dashboard.Summarize` | src/app/page.tsx:38-49 | total = list length; high-risk = number of High patients and medium-risk = number of Medium patients, together ≤ total; screenings = number of patients with non-zero vitals ≤ total, with equality exactly when every patient qualifies |
| `Dashboard.ConditionFilter` | src/app/page.tsx:87-92 | the filtered list is an order-preserving subsequence of the cohort holding exactly the patients that match the condition |
| `Dashboard.ConditionFilterThresholds` | src/app/page.tsx:88-90 | Hypertension, Diabetes and Obesity show exactly the patients with systolic > 140, sugar > 125 and BMI > 30 |
| `Dashboard.UnknownConditionIsEmpty` | src/app/page.tsx:91 | any other condition name, "High-Risk" included, gives the empty list |
| `Dashboard.DashboardState.constructor` | src/app/page.tsx:75-79 | starts with all high-risk patients and the selection "High-Risk" |
| `Dashboard.DashboardState.HandleBarClick` | src/app/page.tsx:81-99 | clicking the selected condition again, or passing null or "", resets to all high-risk patients and "High-Risk"; any other condition becomes the selection and shows its filtered list; the list always remains a subsequence of the cohort and the selection is never null |
| `Dashboard.RiskFactorBadges` | src/app/page.tsx:280-294 | each threshold badge shows exactly when its threshold is exceeded; "High Risk" shows exactly for a High patient with none of the three; the order is fixed; at most three badges; a High patient always gets at least one |
| `Dashboard.TableBodyFor` | src/app/page.tsx:243-313 | the empty message shows exactly when the list is empty; otherwise the rows are the first min(5, length) patients |
| `PatientsPage.DefaultTab` | src/app/patients/page.tsx:40-41 | the first tab is `filter` when it is one of all/low/medium/high, and "all" otherwise (missing, empty or unknown); it is always a valid filter |
| `PatientsPage.TabContents` | src/app/patients/page.tsx:80-107 | exactly the four whitelisted tabs are rendered: "all" shows the cohort and each risk tab shows the patients of its level, in cohort order |
| `PatientsPage.DefaultTabIsRendered` | src/app/patients/page.tsx:41-51 | whatever the URL says, the first tab is one that is rendered |
| `PatientsPage.RiskTabsPartitionAll` | src/app/patients/page.tsx:84-105 | the three risk tabs split the "all" tab as multisets, so their lengths sum to its length |
| `PatientTable.RiskBadgeVariant` | src/app/patients/components/patient-table.tsx:36-40 | the map is total and one-to-one: Low is default, Medium is secondary, High is destructive |
| `PatientTable.NatToString` | src/app/patients/components/patient-table.tsx:60 | `String(n)` is a non-empty string of decimal digits whose first digit is '0' only for 0 |
| `PatientTable.DigitsValueOfNatToString` | src/app/patients/components/patient-table.tsx:60 | reading back the digits of `String(n)` gives n |
| `PatientTable.PadStart` | src/app/patients/components/patient-table.tsx:60 | `padStart` keeps the string as its suffix, adds only fill characters, and reaches the requested width |
| `PatientTable.PatientIdFormat` | src/app/patients/components/patient-table.tsx:60 | the new id is "USR" followed by max(3, digits of count+1) decimal digits, and reading those digits back gives count+1 |
| `PatientTable.PatientIdInjective` | src/app/patients/components/patient-table.tsx:60 | lists of different lengths give different ids |
| `PatientTable.IdIgnoresExistingIds` | src/app/patients/components/patient-table.tsx:60 | the id depends on the length only: a list holding just "USR002" gets "USR002" again |
| `PatientTable.AvatarId` | src/app/patients/components/patient-table.tsx:61 | the avatar is "avatar-k" with k = count mod 6 + 1, one digit in 1..6 |
| `PatientTable.CreatePatient` | src/app/patients/components/patient-table.tsx:58-62 | the created record carries the generated id and avatar |
| `PatientTable.CreatePatientKeepsValues` | src/app/patients/components/patient-table.tsx:58-59 | every field other than id and avatar is the submitted one |
| `PatientTable.Table.constructor` | src/app/patients/components/patient-table.tsx:54-55 | the table starts with the given list and a closed dialog |
| `PatientTable.Table.SetOpen` | src/app/patients/components/patient-table.tsx:72 | the dialog's open flag follows the request and the list is untouched |
| `PatientTable.Table.HandleAddPatient` | src/app/patients/components/patient-table.tsx:57-65 | the list grows by one, the new record is first and carries the submitted values, the old list follows unchanged, and the dialog is closed |
| `AddPatientForm.Validate` | src/app/patients/components/add-patient-form.tsx:34-43 | the schema passes exactly when: name length ≥ 2; age a whole number > 0; gender in the enum; sugar and BMI > 0; both pressures whole numbers > 0; risk level in the enum. The passed values equal the entered ones |
| `AddPatientForm.DefaultDraftRejected` | src/app/patients/components/add-patient-form.tsx:55-59 | the initial values (empty name, Female, Low, numbers unset) do not pass |
| `AddPatientForm.AgeHasNoUpperBound` | src/app/patients/components/add-patient-form.tsx:36 | any whole positive age passes, however large |
| `AddPatientForm.Form.constructor` | src/app/patients/components/add-patient-form.tsx:53-60 | the form starts at its default values |
| `AddPatientForm.Form.Edit` | src/app/patients/components/add-patient-form.tsx:80-98 | the user's entry becomes the form's values |
| `AddPatientForm.Form.OnSubmit` | src/app/patients/components/add-patient-form.tsx:62-69 | the values reach the table's add handler unchanged (new record first, dialog closed), then the form is back at its defaults |
| `AddPatientForm.Form.HandleSubmit` | src/app/patients/components/add-patient-form.tsx:80 | an accepted form adds its validated values and resets; a rejected one changes nothing |
| `RiskPredictionForm.ParseCondition` | src/app/risk-prediction/components/risk-prediction-form.tsx:67 | the condition enum accepts exactly "diabetes", "hypertension" and "heart disease" |
| `RiskPredictionForm.Validate` | src/app/risk-prediction/components/risk-prediction-form.tsx:51-68 | the schema passes exactly when: age a whole number in [1,120]; gender in the enum; sugar and BMI ≥ 1; both pressures whole numbers ≥ 1; condition in the enum. The passed values equal the entered ones |
| `RiskPredictionForm.DefaultDraftRejected` | src/app/risk-prediction/components/risk-prediction-form.tsx:86-89 | the initial values (Female, diabetes, numbers unset) do not pass |
| `RiskPredictionForm.StricterThanAddPatientForm` | src/app/risk-prediction/components/risk-prediction-form.tsx:51-68 | vitals that pass this schema pass the add-patient schema too, given a valid name and risk level |
| `RiskPredictionForm.StrictlyStricter` | src/app/risk-prediction/components/risk-prediction-form.tsx:52-66 | a BMI of 0.5 and an age of 121 pass the add-patient checks but fail here |
| `RiskPredictionForm.RiskForm.constructor` | src/app/risk-prediction/components/risk-prediction-form.tsx:79-81 | no prediction and not loading at the start |
| `RiskPredictionForm.RiskForm.StartSubmit` | src/app/risk-prediction/components/risk-prediction-form.tsx:92-94 | a submit sets loading and clears the prediction, so the result panel shows; while loading the submit button is disabled and nothing changes |
| `RiskPredictionForm.RiskForm.Settle` | src/app/risk-prediction/components/risk-prediction-form.tsx:95-112 | on success the prediction becomes the result; on failure it stays cleared and the panel hides; in both cases loading ends, and afterwards the panel shows exactly when there is a prediction |
| `RiskPredictionForm.ToLower` | src/app/risk-prediction/components/risk-prediction-form.tsx:307 | lower-casing keeps the length, leaves no ASCII capital, turns each capital into its small letter and leaves every other character unchanged |
| `RiskPredictionForm.ToLowerIdempotent` | src/app/risk-prediction/components/risk-prediction-form.tsx:307 | lower-casing an already lower-cased string changes nothing |
| `RiskPredictionForm.PredictionBadge` | src/app/risk-prediction/components/risk-prediction-form.tsx:307 | "high" in any letter case gives destructive, "medium" in any case gives secondary, anything else gives default |
| `RiskPredictionForm.PredictionBadgeAgreesWithTable` | src/app/risk-prediction/components/risk-prediction-form.tsx:307 | a level spelled as in the patient record gets the badge the patient table gives that level |
| `DiseaseChart.DiseaseData` | src/app/components/disease-chart.tsx:13-29 | always three bars in the order Hypertension, Diabetes, Obesity; zero counts are kept; no count exceeds the number of patients |
| `DiseaseChart.CountsMatchDashboardFilter` | src/app/components/disease-chart.tsx:16-26 | each bar's count is the length of the list the dashboard filter gives for that bar's label |
| `DiseaseChart.ThresholdsAreStrict` | src/app/components/disease-chart.tsx:16-26 | one more patient raises a bar exactly when that patient is strictly over the bar's threshold, so 140, 125 and 30 themselves are not counted |
| `AgeChart.AgeData` | src/app/components/age-chart.tsx:13-34 | four slices in the fixed order 18-35, 36-50, 51-65, 65+, each counting the patients of its age range; zero counts are kept; the counts sum to the number of patients aged 18 or more, which is at most the total |
| `AgeChart.GroupsDisjointAndCoverAdults` | src/app/components/age-chart.tsx:16-31 | a patient is in exactly one group when aged 18 or more (65 is in 51-65) and in none when younger |
| `AgeChart.BucketCountsSumToAdults` | src/app/components/age-chart.tsx:16-31 | the four group counts sum to the number of patients aged 18 or more |
| `GenderChart.GenderData` | src/app/components/gender-chart.tsx:15-31 | every slice left has a positive count; the slices keep the order Male, Female, Other; their counts sum to the number of patients |
| `GenderChart.DroppingEmptySlicesKeepsTotal` | src/app/components/gender-chart.tsx:31 | dropping the zero slices leaves the sum of the counts unchanged |
| `GenderChart.SliceIffPresent` | src/app/components/gender-chart.tsx:15-31 | a gender has a slice exactly when some patient has that gender |

## Left out

- `src/ai/flows/predict-individual-risk.ts` (the prompt sent to the language model) is not part of this model. The call's result is a parameter of `RiskForm.Settle`: it either resolves, with a prediction or with null, or it throws. The null case is there because the flow's non-null assertion (`output!`) is not checked at run time. Nothing bounds the score or checks the level, because the code does neither: `predict-individual-risk.ts:26-27` only describes the score as "(0-100)" and the level as "(low, medium, high)" in the output schema's descriptions, and no schema enforces either.
- Rendering: JSX, Tailwind classes, Recharts, the chart colours and configs, framer-motion animation, the capitalised title, and the static founders list.
- Navigation (`router.push`, `window.location.href`), toasts, `console.error` and the avatar image lookup in `PlaceHolderImages`.
- The dashboard passes `onBarClick` to `DiseaseChart`, but the chart takes no props, so bar clicks never reach `handleBarClick`. `HandleBarClick` is modelled on its own.
- Form plumbing: zod's conversion of text to numbers and its error messages. A numeric field is modelled as an already-converted value, with `None` for NaN. Infinite values are not modelled. `Form.Edit` stands for all field edits.
- The `await` in the risk form is modelled as two steps, `StartSubmit` and `Settle`. Overlapping requests are not modelled because the submit button is disabled while a request is pending.
- `AddPatientForm.Validate`: counts the name's length in Unicode scalar values. JavaScript counts UTF-16 code units, so a name made of one character outside the Basic Multilingual Plane passes in the source but not in the model.
- `RiskPredictionForm.PredictionBadge`: lower-cases ASCII letters only. `toLowerCase` maps all of Unicode. No non-ASCII character lower-cases to a letter of "high" or "medium", so the badge chosen is the same.
- `PatientTable.Table.HandleAddPatient`: builds the id from the list length at the time of the call. The source reads `patients.length` from the render and prepends through a functional update; within a single event the two lengths are equal.
- `Types.Patient`: `age`, `bpSystolic` and `bpDiastolic` are whole numbers (`int`), while `src/lib/types.ts:4,7-8` declares them `number`. A fractional age such as 35.5 falls into no group of the age chart (`age-chart.tsx:16-31`), so `AgeChart.AgeData`'s "the counts sum to the number of patients aged 18 or more" is proved for whole ages only.
- `src/components/logo.tsx` (static SVG) and `src/app/patients/[id]/page.tsx` are not part of this model.
