# Clinical decision support: a Dafny model of the assessment workflow

The application is a Next.js clinical-decision-support tool. A clinician uses it in four ways:

- enters a pseudonymized patient through a six-step assessment wizard;
- describes symptoms, and can have a language model extract them;
- records vital signs and laboratory results;
- asks an analysis route for differential diagnoses and red flags, explores "what if" vitals, and saves the case to a document store.

A dashboard and a cases page list saved cases.

This project models the logic of that application in Dafny. It covers:

- the two API routes, with the analysis route's in-memory rate limiter and its ladder of error responses;
- the shared utilities, such as the vital-sign ranges, the confidence and BMI bands, relative time, truncation, HTML escaping, the e-mail check and pseudonymized ids;
- the wizard's navigation, handlers and analysis run;
- the step indicator, the intake form's schema and id effect, and the symptom and lab-result editors;
- the record built for the store and the store's failure handling;
- the cases page's search, the red-flag list's severity sort, the diagnosis list, the analysis progress view, the what-if sandbox, the vital-sign cards and the dashboard's tiles.

Each source file is one module, in a `.dfy` file of the same name:

| Module | Source file |
|---|---|
| `AnalyzeRoute` | `src/app/api/analyze/route.ts` |
| `ExtractRoute` | `src/app/api/extract-symptoms/route.ts` |
| `Utils` | `src/lib/utils.ts` |
| `Assessment` | `src/app/assessment/page.tsx` |
| `Stepper` | `src/components/ui/Stepper.tsx` |
| `IntakeForm` | `src/components/forms/PatientIntakeForm.tsx` |
| `SymptomInput` | `src/components/forms/SymptomInput.tsx` |
| `LabResultsInput` | `src/components/forms/LabResultsInput.tsx` |
| `Db` | `src/lib/db.ts` |
| `CasesPage` | `src/app/cases/page.tsx` |
| `RedFlags` | `src/components/medical/RedFlagAlert.tsx` |
| `DiagnosisList` | `src/components/medical/DiagnosisCard.tsx` |
| `AnalysisLoading` | `src/components/analysis/AnalysisLoading.tsx` |
| `WhatIfSandbox` | `src/components/analysis/WhatIfSandbox.tsx` |
| `VitalCards` | `src/components/medical/VitalSigns.tsx` |
| `Dashboard` | `src/app/page.tsx` |

Four supporting modules hold shared definitions:

- `Medical` holds the record types of `src/types/medical.ts`.
- `JsString` holds the JavaScript string operations the code relies on: `trim`, `toLowerCase`, `includes`, `slice`, `substring`, `parseFloat` and `String(n)`.
- `ListOps` holds `filter` and the sub-list relation.
- `Wrappers` and `Badge` hold small shared datatypes.

## How the model is built

Pure code is written as datatypes and functions. Code that keeps state is written as classes whose methods change their fields:

- the rate limiter's store (`AnalyzeRoute.RateLimiter`);
- the wizard's state variables (`Assessment.Wizard`);
- the lab draft (`LabResultsInput.LabDraft`);
- the diagnosis list (`DiagnosisList.ListState`);
- the sandbox (`WhatIfSandbox.Sandbox`);
- the intake form's id effect (`IntakeForm.IntakeFormState`);
- the dashboard (`Dashboard.DashboardPage`).

Each method is specified by a function on the old state. Properties of that function are proved as lemmas.

Inputs come in as parameters:

- the clock, generated ids and `Math.random` text;
- the API key;
- request headers and parsed bodies;
- what the external model returns or throws;
- what the document store answers.

Measurements are `real`s. Times are milliseconds as `int`. NaN is modelled only where the code branches on it, using an explicit variant.

A click on a step of the assessment wizard is accepted for any step up to the current one. It is also accepted for any step whose predecessor is completed. In both cases the step indicator must let the click through, which it does for a step that is completed or not after the current one. `Assessment.ClickStep` models this rule.

## Model

| member | source | states |
|---|---|---|
| AnalyzeRoute.RateStep | src/app/api/analyze/route.ts:21-36 | A new or expired window is reset to count 1, ending 60000 ms later, and allowed. An open window at the limit of 10 is refused and left unchanged. Otherwise its count goes up by one and the call is allowed. No other client's entry changes. |
| AnalyzeRoute.RateLimiter.constructor | src/app/api/analyze/route.ts:17 | The store starts empty. |
| AnalyzeRoute.RateLimiter.CheckRateLimit | src/app/api/analyze/route.ts:21-36 | The decision and the new store are those of `RateStep` on the old store. |
| AnalyzeRoute.RunCalls | src/app/api/analyze/route.ts:21-36 | One client's calls at successive times give one decision per call. |
| AnalyzeRoute.OpenWindowRun | src/app/api/analyze/route.ts:30-35 | Calls made while the client's window is open are allowed exactly while the running count stays under 10. The window's end never moves. |
| AnalyzeRoute.WindowAllowsAtMostTen | src/app/api/analyze/route.ts:17-36 | In a fresh window, of any run of calls within 60000 ms of the first, exactly the first ten are allowed. |
| AnalyzeRoute.ClientId | src/app/api/analyze/route.ts:44-46 | The key is a non-empty forwarded-for header, else a non-empty real-ip header, else "anonymous". |
| AnalyzeRoute.CodeName | src/app/api/analyze/route.ts:49-171 | Every error code has a non-empty wire name. |
| AnalyzeRoute.CodeNamesDistinct | src/app/api/analyze/route.ts:49-171 | No two error codes share a wire name. |
| AnalyzeRoute.Status | src/app/api/analyze/route.ts:60-178 | 200 exactly on success. 429 exactly for the rate limit, 400 exactly for a bad request and 403 exactly for missing consent; these are the only 4xx statuses. 500 exactly for a missing key and a failed analysis. |
| AnalyzeRoute.Respond | src/app/api/analyze/route.ts:49-171 | Over-limit requests get RATE_LIMIT_EXCEEDED. An unparsable body gets ANALYSIS_FAILED. The analysis is called exactly when the limit, body, consent and key checks all pass, and with the request's data and `[]` for missing lab results. Success happens exactly when that call returns an analysis. Each of INVALID_REQUEST, CONSENT_REQUIRED, CONFIGURATION_ERROR and ANALYSIS_FAILED is returned exactly under its own condition. Each failure carries its code's message. Only ANALYSIS_FAILED carries the original error: the parse error's message, or the thrown message, with "Unknown error occurred" when there is none. |
| AnalyzeRoute.Post | src/app/api/analyze/route.ts:38-171 | The handler updates the limiter as `RateStep` does for the request's client key, and answers as `Respond` does with that decision. |
| AnalyzeRoute.RespondAll | src/app/api/analyze/route.ts:38-171 | A run of requests is answered one by one with `Respond`. |
| AnalyzeRoute.RejectedRequestsConsumeBudget | src/app/api/analyze/route.ts:49-108 | The limit is checked before the body, so invalid and unconsented requests use up the budget. The eleventh request in a window is refused whatever the earlier ten contained. |
| ExtractRoute.Post | src/app/api/extract-symptoms/route.ts:21-78 | INVALID_INPUT is returned exactly when the text is missing or trims to under 10 UTF-16 code units, the JavaScript `length`. CONFIGURATION_ERROR is returned exactly when the text passes but the key is missing. The extraction is called with the untrimmed text exactly when both checks pass, and success carries its symptoms. EXTRACTION_FAILED is returned exactly for an unparsable body, a truthy text that is not a string, or a throw from the extraction. |
| ExtractRoute.WhiteSpaceOnlyRejected | src/app/api/extract-symptoms/route.ts:27-39 | Text made only of white space is refused with INVALID_INPUT, however long it is. |
| ExtractRoute.LengthBoundary | src/app/api/extract-symptoms/route.ts:27 | A text of nine UTF-16 code units after trimming is refused; one of ten is accepted. |
| ExtractRoute.PaddingDoesNotHelp | src/app/api/extract-symptoms/route.ts:27 | Leading white space never changes whether a text is accepted. |
| ExtractRoute.AstralTextAccepted | src/app/api/extract-symptoms/route.ts:27 | Five characters outside the Basic Multilingual Plane are ten code units long, so they pass the length check. |
| ExtractRoute.CodeName | src/app/api/extract-symptoms/route.ts:32-71 | Every error code has a non-empty wire name. |
| ExtractRoute.CodeNamesDistinct | src/app/api/extract-symptoms/route.ts:32-71 | No two error codes share a wire name. |
| ExtractRoute.Status | src/app/api/extract-symptoms/route.ts:37-76 | 200 exactly on success, 400 exactly for bad input, 500 for every other failure. |
| Utils.EvaluateVitalSign | src/lib/utils.ts:97-125 | The status is critical exactly when a non-zero critical bound is crossed. It is normal exactly when the value lies within the normal range, and a warning otherwise. The message is "Critically low …" or "Critically high …" for the crossed side (low first), "Below normal range" or "Above normal range" for a warning, and "Within normal range" when normal. |
| Utils.RangesNest | src/lib/utils.ts:101-108 | In every row of the ranges table, critical-low < low < high <= critical-high, and every bound is set and non-zero. |
| Utils.CriticalBands | src/lib/utils.ts:112-124 | A value is critical exactly when it lies below critical-low or above critical-high, with the critically-low message below and the critically-high message above. |
| Utils.VitalBoundaries | src/lib/utils.ts:101-124 | Both ends of every normal range are normal. SpO2 101 is only a warning, and above 101 is critical. |
| Utils.GetConfidenceLabel | src/lib/utils.ts:130-135 | High from 80, Moderate from 60, Low from 40, Very Low below 40. Each band holds exactly its interval. |
| Utils.ConfidenceMonotone | src/lib/utils.ts:130-135 | A higher score never gets a lower band. |
| Utils.GetBmiCategory | src/lib/utils.ts:87-92 | The four categories are exactly the intervals below 18.5, below 25, below 30, and 30 and above. Risk is low only for normal weight and high only for obese. |
| Utils.FormatRelativeTime | src/lib/utils.ts:61-74 | It picks the "Just now" bucket below a minute, including for future dates. Below an hour, a day and a week it picks floored minutes, hours or days within their bounds. From a week on it picks the date itself. |
| Utils.RelativeTimeText | src/lib/utils.ts:69-72 | The returned text: "Just now", or the count (which `parseFloat` reads back) followed by "m ago", "h ago" or "d ago". There is text exactly when the bucket is not the old date. |
| Utils.FutureIsJustNow | src/lib/utils.ts:61-74 | A date in the future reads "Just now". |
| Utils.Truncate | src/lib/utils.ts:140-143 | Text within the limit is returned as is. Longer text keeps `maxLength - 3` characters and gains "...", for `maxLength` length. |
| Utils.TruncateFits | src/lib/utils.ts:140-143 | With a limit of 3 or more, the result never exceeds the limit. |
| Utils.TruncateBelowThree | src/lib/utils.ts:140-143 | With a limit of 2, "abcdef" becomes "abcde...", which is longer than the limit. |
| Utils.ReplaceAll | src/lib/utils.ts:162-168 | A global single-character replace removes that character, adds only characters of the replacement, and changes nothing when the character is absent. |
| Utils.ReplaceAllChar | src/lib/utils.ts:164-167 | On one character, the replace gives the replacement when it is the searched character, and the character itself otherwise. |
| Utils.ReplaceAllConcat | src/lib/utils.ts:164-167 | Replacing in `a + b` is replacing in `a`, then in `b`, so the replace works character by character. |
| Utils.SanitizeInput | src/lib/utils.ts:162-168 | No `<`, `>`, `"` or `'` is left, and text without them is unchanged. |
| Utils.Escape | src/lib/utils.ts:164-167 | The entity table: `<` is `&lt;`, `>` is `&gt;`, `"` is `&quot;`, `'` is `&#039;`, and every other character stands for itself; exactly the four special characters change. |
| Utils.SanitizeConcat | src/lib/utils.ts:164-167 | Sanitizing `a + b` is sanitizing `a`, then `b`. |
| Utils.SanitizeChar | src/lib/utils.ts:164-167 | Sanitizing one character gives its entry in the entity table. |
| Utils.SanitizeIsEscapeAll | src/lib/utils.ts:164-167 | Sanitizing a text replaces each character by its entry in the entity table, in order. |
| Utils.SanitizeIdempotent | src/lib/utils.ts:162-168 | Sanitizing twice gives the same as once. |
| Utils.SanitizeNotInjective | src/lib/utils.ts:162-168 | A literal `&lt;` and a `<` sanitize alike, so the escape cannot be undone. |
| Utils.IndexOf | src/lib/utils.ts:173-176 | The first position of a character, or the length when the character is absent. |
| Utils.IsValidEmailMatchesRegex | src/lib/utils.ts:173-176 | The direct reading of the e-mail check agrees with its regular expression on every string, in both directions. An address is one `@` between non-empty runs of characters that are neither white space nor `@`, and the part after the `@` holds a dot with a character on each side. |
| Utils.EmailExamples | src/lib/utils.ts:173-176 | "a@b.c" is accepted; "a@b", "@b.c" and "a@.c" are refused. |
| Utils.IsValidEmail | src/lib/utils.ts:173-176 | An accepted address has at least five characters, and neither starts nor ends with `@`. |
| Utils.GetLabStatusDisplay | src/lib/utils.ts:181-190 | "normal" reads "Normal" in the success style; "abnormal-low" and "abnormal-high" read "Low" and "High" in the warning style; "critical-low" and "critical-high" read "Critical Low" and "Critical High" in the error style. An unknown status is shown as itself, unstyled. |
| Utils.Base36 | src/lib/utils.ts:25-30 | `toString(36)` is non-empty and made only of base-36 digits. |
| Utils.ParseBase36OfBase36 | src/lib/utils.ts:25-30 | Reading the digits back in base 36 gives the number. |
| Utils.ParseBase36OfUpper | src/lib/utils.ts:25-30 | Upper-casing base-36 digits keeps their value. |
| Utils.GeneratePseudonymizedId | src/lib/utils.ts:25-30 | The id is "PAT-", the base-36 time, "-" and the upper-cased characters 2 to 8 of the random text. It has no lower-case letter, and its length is fixed by its parts. |
| Utils.PseudonymizedIdTimestamp | src/lib/utils.ts:25-30 | The id's time segment reads back as the timestamp it was made from. |
| Medical.SetVital | src/components/analysis/WhatIfSandbox.tsx:17-23 | Writing one vital-sign key replaces that key's reading and keeps every other reading and the recording time. |
| JsString.Utf16Length | src/app/api/extract-symptoms/route.ts:27 | `length` counts UTF-16 code units: at least one and at most two per character, and zero only for the empty string. |
| JsString.Utf16LengthOfBmp | src/app/api/extract-symptoms/route.ts:27 | Inside the Basic Multilingual Plane, `length` is the number of characters. |
| JsString.Trim | src/app/api/extract-symptoms/route.ts:27 | `trim` leaves no white space at either end, never lengthens, and leaves nothing exactly when the text is all white space. |
| JsString.TrimStartIsSuffix | src/app/api/extract-symptoms/route.ts:27 | Dropping leading white space leaves a tail of the text. |
| JsString.TrimIsInfix | src/app/api/extract-symptoms/route.ts:27 | `trim` only removes characters from the two ends. |
| JsString.ToLower | src/app/cases/page.tsx:32-34 | `toLowerCase` keeps the length and lowers each character in place. |
| JsString.Includes | src/app/cases/page.tsx:32-34 | A string that `includes` another is at least as long, and a string includes each of its prefixes. |
| JsString.IncludesIff | src/app/cases/page.tsx:32-34 | `includes` finds a text exactly when it occurs at some position. |
| JsString.Slice | src/lib/utils.ts:142 | `slice` within bounds is the sub-range. An end past the length stops at the length, a negative start counts back from the end, and an end at or before the start gives nothing. |
| JsString.Substring | src/lib/utils.ts:28 | `substring` within bounds is the sub-range, and an end past the length stops at the length. Two indices at or below zero give nothing. |
| JsString.SubstringSymmetric | src/lib/utils.ts:28 | `substring` gives the same text with its two indices swapped, where `slice` gives nothing. |
| JsString.ParseFloatNeedsDigit | src/components/forms/LabResultsInput.tsx:43 | `parseFloat` finds a number only in text that holds a digit, and never in white space alone. |
| JsString.ParseFloatOfIntToString | src/app/cases/page.tsx:58-60 | `parseFloat` reads back any integer that `String` wrote, when what follows does not continue the number. |
| Stepper.FindIndex | src/components/ui/Stepper.tsx:29 | The first position of a step, or -1 exactly when it is absent. |
| Stepper.ClickableIff | src/components/ui/Stepper.tsx:27-29 | The current step and every earlier one can be clicked. A later one can be clicked exactly when it is completed. |
| Stepper.UnknownCurrentOnlyCompleted | src/components/ui/Stepper.tsx:27-29 | When the current step is not listed, exactly the completed steps can be clicked. |
| Stepper.Click | src/components/ui/Stepper.tsx:34-35 | The handler is called, with the step's own id, exactly when the step is clickable. |
| Stepper.StepMarker | src/components/ui/Stepper.tsx:63 | A check mark exactly for a completed step; otherwise its position counted from 1. |
| Stepper.Connectors | src/components/ui/Stepper.tsx:75-84 | There is one connector after each step but the last, none for no steps, and each is highlighted exactly when the step before it is completed. |
| IntakeForm.AgeRangeRoundTrip | src/components/forms/PatientIntakeForm.tsx:16 | Every age bucket is accepted under its own text, and only under it. |
| IntakeForm.Validate | src/components/forms/PatientIntakeForm.tsx:14-23 | The form is valid exactly when all of these hold: the id is non-empty, the age is one of the eight buckets, sex is male or female, height and weight are absent or non-negative numbers, and consent is given. A failure lists the missing consent and the missing id exactly when they fail. A valid record carries the submitted id, age, sex, height, weight and consent. |
| IntakeForm.EmptyMeasurementRejected | src/components/forms/PatientIntakeForm.tsx:18-19 | An empty height or weight box (NaN) makes the form invalid and reports that field. |
| IntakeForm.ValidateIntended | src/components/forms/PatientIntakeForm.tsx:14-23 | The same schema with an empty measurement box counted as absent. It is valid exactly under the rule above, with any height and weight that is not negative. It agrees with `Validate` whenever no box is empty. |
| IntakeForm.EmptyHeightExample | src/components/forms/PatientIntakeForm.tsx:154 | A complete form with the height box left empty is refused as written and accepted as intended, with no height recorded. |
| IntakeForm.SexNarrowerThanRecord | src/components/forms/PatientIntakeForm.tsx:17 | The record type's "other" and "not-specified" are refused by the form. |
| IntakeForm.Defaults | src/components/forms/PatientIntakeForm.tsx:43-47 | Consent is true only when the initial data sets it true. The id is empty exactly when the initial data gives none or an empty one. A height or weight the initial data does not give starts as NaN, the reading of an empty number box. |
| IntakeForm.UntouchedFormNeverValidates | src/components/forms/PatientIntakeForm.tsx:20-22 | Submitting the defaults is refused for missing consent unless the caller pre-set consent. |
| IntakeForm.UntouchedMeasurementBlocks | src/components/forms/PatientIntakeForm.tsx:154-164 | Without an initial height or weight, the form is refused for that field until the user types a number into it. As intended, the untouched box is absent. |
| IntakeForm.IntakeFormState.constructor | src/components/forms/PatientIntakeForm.tsx:33-48 | The form keeps its initial data and starts with its defaults and no generated id. |
| IntakeForm.IntakeFormState.RunIdEffect | src/components/forms/PatientIntakeForm.tsx:50-56 | When the initial data has no id and no id was generated yet, an id is generated and put in the id field. Otherwise nothing changes. Generation happens at most once. |
| SymptomInput.SubsequenceKeepsNamesUnique | src/components/forms/SymptomInput.tsx:54-56 | Leaving symptoms out keeps names unique up to case. |
| SymptomInput.AddSymptom | src/components/forms/SymptomInput.tsx:38-52 | A default symptom (unknown onset, severity 5) is appended exactly when no listed name matches up to case. The search term is cleared either way. |
| SymptomInput.AddKeepsNamesUnique | src/components/forms/SymptomInput.tsx:38-52 | Adding keeps names unique up to case, and the name is present afterwards. |
| SymptomInput.AddTwiceAddsOnce | src/components/forms/SymptomInput.tsx:39 | Adding the same name twice, in any case, adds it once. |
| SymptomInput.RemoveSymptom | src/components/forms/SymptomInput.tsx:54-56 | Exactly the symptoms with that id go; the others stay in order. |
| SymptomInput.RemoveAbsentId | src/components/forms/SymptomInput.tsx:54-56 | Removing an id that is not listed changes nothing. |
| SymptomInput.RemoveUndoesAdd | src/components/forms/SymptomInput.tsx:38-56 | Removing a freshly added symptom by its id gives back the earlier list. |
| SymptomInput.ChangeSeverity | src/components/forms/SymptomInput.tsx:58-62 | Exactly the symptoms with that id get the new severity. Every other field and symptom is kept. |
| SymptomInput.ChangeSeverityKeepsNames | src/components/forms/SymptomInput.tsx:58-62 | Changing a severity keeps names unique. |
| SymptomInput.SeverityLabel | src/components/forms/SymptomInput.tsx:208-210 | Mild up to 3, Severe above 7, Moderate between. |
| SymptomInput.SeverityOptions | src/components/forms/SymptomInput.tsx:208-210 | The options 1 to 10 split 3/4/3 into Mild, Moderate and Severe. |
| SymptomInput.KeyDown | src/components/forms/SymptomInput.tsx:127-131 | Enter with a non-empty term adds it as `AddSymptom` does; anything else changes nothing. |
| SymptomInput.AutoExtractEnabled | src/components/forms/SymptomInput.tsx:92 | The Auto-Extract button is disabled while an extraction runs and without a complaint. |
| SymptomInput.ShowExtractTip | src/components/forms/SymptomInput.tsx:106 | The tip shows only with no symptom listed, and only beside an enabled Auto-Extract button. |
| LabResultsInput.ParseValue | src/components/forms/LabResultsInput.tsx:43 | The value is a number exactly when `parseFloat` finds a number prefix, and NaN otherwise. |
| LabResultsInput.AddResult | src/components/forms/LabResultsInput.tsx:36-55 | A result is appended exactly when name and value are non-empty. It carries the parsed value, the unit, the range text and status normal, and the earlier results are kept. |
| LabResultsInput.RemoveResult | src/components/forms/LabResultsInput.tsx:64-66 | Exactly the results with that id go; the others stay in order. |
| LabResultsInput.RemoveUndoesAdd | src/components/forms/LabResultsInput.tsx:36-66 | Removing a freshly added result by its id gives back the earlier list. |
| LabResultsInput.RefDisplay | src/components/forms/LabResultsInput.tsx:183-187 | There is no note without a range. With a range, the note shows its text when that is non-empty, else the two bounds. |
| LabResultsInput.EmptyRangeShowsMissingBounds | src/components/forms/LabResultsInput.tsx:45 | A result added with an empty range field shows its bounds, which it never has. |
| LabResultsInput.LabDraft.constructor | src/components/forms/LabResultsInput.tsx:30-34 | The draft starts empty and closed. |
| LabResultsInput.LabDraft.SetName | src/components/forms/LabResultsInput.tsx:31 | Only the name changes. |
| LabResultsInput.LabDraft.SetValue | src/components/forms/LabResultsInput.tsx:32 | Only the value changes. |
| LabResultsInput.LabDraft.SetUnit | src/components/forms/LabResultsInput.tsx:33 | Only the unit changes. |
| LabResultsInput.LabDraft.SetRange | src/components/forms/LabResultsInput.tsx:34 | Only the range changes. |
| LabResultsInput.LabDraft.QuickAdd | src/components/forms/LabResultsInput.tsx:57-62 | The template fills name, unit and range and opens the draft; the typed value is kept. |
| LabResultsInput.LabDraft.Add | src/components/forms/LabResultsInput.tsx:36-55 | The new list is `AddResult` of the draft. On success the draft is cleared and closed; otherwise it is unchanged. |
| LabResultsInput.LabDraft.AddEnabled | src/components/forms/LabResultsInput.tsx:146 | The Add button is enabled exactly when a click would add a result, for any list and id. |
| LabResultsInput.QuickAddThenAdd | src/components/forms/LabResultsInput.tsx:18-62 | A quick-added template with a value adds a result carrying the template's name, unit and range. |
| Db.SearchTerms | src/lib/db.ts:46-50 | The terms are the id as typed, the lower-cased complaint, then each diagnosis's lower-cased condition, in order. |
| Db.NormalizeResult | src/lib/db.ts:38-41 | Copying the reference range keeps whether there is one. In this model the result is unchanged. |
| Db.NormalizePanel | src/lib/db.ts:35-42 | A panel keeps all its fields, and each result is normalised. |
| Db.BuildCaseData | src/lib/db.ts:31-51 | The record carries patient, encounter, history and analysis as given, one panel per input panel with as many results, and the search terms. |
| Db.NormalisationKeepsPanels | src/lib/db.ts:35-42 | The stored panels equal the input panels. |
| Db.SearchTermsHoldEveryDiagnosis | src/lib/db.ts:46-50 | Every diagnosis's lower-cased condition, and the id, are among the terms. |
| Db.SaveClinicalCase | src/lib/db.ts:23-59 | Success returns the new document's id. Any failure becomes "Failed to save case". |
| Db.ListCases | src/lib/db.ts:64-99 | The store's documents are returned, or `[]` when the query fails. |
| Db.GetCaseById | src/lib/db.ts:104-121 | The document with its id when it exists, otherwise null, including when the read fails. |
| CasesPage.FilteredCasesPointwise | src/app/cases/page.tsx:31-35 | The search is a plain filter: it distributes over concatenation, and one case is kept exactly when it matches, so duplicates are kept or dropped together. |
| CasesPage.FilteredCases | src/app/cases/page.tsx:31-35 | A case is kept exactly when the lower-cased term occurs in its lower-cased id, complaint or some diagnosis. Order is kept. |
| CasesPage.Matches | src/app/cases/page.tsx:31-35 | An empty term matches every case. |
| CasesPage.EmptyTermKeepsAll | src/app/cases/page.tsx:31-35 | An empty search shows every case, in order. |
| CasesPage.CaseInsensitive | src/app/cases/page.tsx:31-35 | Terms that differ only in letter case give the same list. |
| CasesPage.LongerTermNarrows | src/app/cases/page.tsx:31-35 | Typing more only narrows the list, keeping its order. |
| CasesPage.FoundBySavedFields | src/app/cases/page.tsx:31-35 | A case is found by its own id and by any of its diagnoses, typed in any case. |
| CasesPage.GetTimeAgo | src/app/cases/page.tsx:49-61 | Nothing without a timestamp. Otherwise it shows floored minutes under an hour, hours under a day, and days after that, each in its bounds. |
| CasesPage.TimeAgoText | src/app/cases/page.tsx:58-60 | The text is empty exactly without a time. Otherwise it starts with the count, which reads back as that number, and ends with " min ago", " hours ago" or " days ago" for its unit. |
| CasesPage.AgreesWithRelativeTime | src/app/cases/page.tsx:49-61 | Between a minute and a week it gives the same count as `formatRelativeTime`. Under a minute it shows "0 min ago" where that shows "Just now". It never switches to a date. |
| CasesPage.DiagnosisChips | src/app/cases/page.tsx:193-209 | The first three diagnoses are shown as chips. "+k more" appears exactly when there are more, and chips plus k account for all of them. |
| RedFlags.Rank | src/components/medical/RedFlagAlert.tsx:130 | Immediate ranks 0, urgent 1 and soon 2. |
| RedFlags.SortFlags | src/components/medical/RedFlagAlert.tsx:129-132 | The sorted copy has as many flags as the input. |
| RedFlags.SortFlagsSorted | src/components/medical/RedFlagAlert.tsx:129-132 | The sorted copy is in severity order and is a permutation of the input. |
| RedFlags.SortIsPermutation | src/components/medical/RedFlagAlert.tsx:129 | The copy holds exactly the input flags; the input is not touched. |
| RedFlags.SortIsGrouping | src/components/medical/RedFlagAlert.tsx:129-132 | The sort is the grouping immediate, urgent, soon, each group in input order. |
| RedFlags.SortIsStable | src/components/medical/RedFlagAlert.tsx:129-132 | The flags of each severity keep their input order. |
| RedFlags.BannerIff | src/components/medical/RedFlagAlert.tsx:134-142 | The critical banner shows exactly when some flag is immediate, and then such a flag comes first. |
| RedFlags.HasImmediate | src/components/medical/RedFlagAlert.tsx:134 | Some flag is immediate exactly when the immediate group of the list is not empty. |
| RedFlags.SeverityBadge | src/components/medical/RedFlagAlert.tsx:26-51 | error, warning and info for immediate, urgent and soon, one to one. |
| RedFlags.Card | src/components/medical/RedFlagAlert.tsx:25-120 | Only an immediate flag pulses and gets the ambulance icon. The Emergency button shows exactly for an immediate flag with a handler. |
| RedFlags.RedFlagList | src/components/medical/RedFlagAlert.tsx:127-163 | One card per flag, in sorted order, with the handler passed only to immediate flags. The banner shows exactly when a flag is immediate, and the empty state exactly when there are none. |
| RedFlags.ListCardsOrdered | src/components/medical/RedFlagAlert.tsx:145-150 | Cards follow severity order. With a handler there is one Emergency button per immediate flag. |
| DiagnosisList.ProbabilityBadge | src/components/medical/DiagnosisCard.tsx:32-36 | success, warning and info for high, moderate and low. |
| DiagnosisList.ProbabilityBadgeInjective | src/components/medical/DiagnosisCard.tsx:32-36 | The badge tells the probability back. |
| DiagnosisList.Head | src/components/medical/DiagnosisCard.tsx:194 | `slice(0, max)` is a prefix of the list. A negative max counts from the end. |
| DiagnosisList.ListState.constructor | src/components/medical/DiagnosisCard.tsx:191-192 | The list starts with nothing expanded and not showing all. |
| DiagnosisList.ListState.Displayed | src/components/medical/DiagnosisCard.tsx:194 | Everything when showing all, else the first max. |
| DiagnosisList.ListState.ShowMoreButton | src/components/medical/DiagnosisCard.tsx:207-215 | The button shows exactly when there are more than max diagnoses and not all are shown, and it counts the hidden ones. |
| DiagnosisList.ListState.Toggle | src/components/medical/DiagnosisCard.tsx:203 | Clicking an open card closes it; clicking another opens it alone. |
| DiagnosisList.ListState.ShowMore | src/components/medical/DiagnosisCard.tsx:209 | From then on, everything is shown. |
| DiagnosisList.ShownPlusMoreIsAll | src/components/medical/DiagnosisCard.tsx:194-215 | Shown cards plus the button's count make up all diagnoses. |
| DiagnosisList.AtMostOneExpanded | src/components/medical/DiagnosisCard.tsx:202 | With distinct ids, at most one card is expanded. |
| DiagnosisList.ToggleTwice | src/components/medical/DiagnosisCard.tsx:203 | Two clicks on the same card restore an open card and otherwise close everything. |
| DiagnosisList.ShowAllStays | src/components/medical/DiagnosisCard.tsx:192-209 | Once all are shown, no click hides any again. |
| AnalysisLoading.StageIndex | src/components/analysis/AnalysisLoading.tsx:21-29 | The stage's position in the table, or -1 exactly for the error stage. |
| AnalysisLoading.CurrentStage | src/components/analysis/AnalysisLoading.tsx:30 | The stage's own entry, or the first for the error stage. |
| AnalysisLoading.ProgressIncreases | src/components/analysis/AnalysisLoading.tsx:21-26 | Later stages show strictly more progress; only complete reaches 100. |
| AnalysisLoading.IndicatorAt | src/components/analysis/AnalysisLoading.tsx:167-169 | An indicator is done exactly before the current stage and spinning at it. Otherwise it shows its number. |
| AnalysisLoading.IndicatorsWhileRunning | src/components/analysis/AnalysisLoading.tsx:167-169 | While running, exactly the current indicator spins and the later ones wait. |
| AnalysisLoading.IndicatorsWhenComplete | src/components/analysis/AnalysisLoading.tsx:167-169 | At completion all three indicators are done. |
| AnalysisLoading.Render | src/components/analysis/AnalysisLoading.tsx:32-57 | The failure view shows exactly for the error stage, with the message or the default and a retry button exactly with a handler. Otherwise the view shows the stage's progress and caption. |
| WhatIfSandbox.BoxNumber | src/components/analysis/WhatIfSandbox.tsx:48 | `Number` of an empty box is 0. |
| WhatIfSandbox.BoxShows | src/components/analysis/WhatIfSandbox.tsx:47 | An absent or zero reading shows an empty box. |
| WhatIfSandbox.ClearedBoxStoresZero | src/components/analysis/WhatIfSandbox.tsx:47-48 | Clearing a box stores 0, and the box then shows empty. |
| WhatIfSandbox.SpO2WarningIff | src/components/analysis/WhatIfSandbox.tsx:68-71 | The warning shows exactly for a present, non-zero SpO2 under 90. |
| WhatIfSandbox.SpO2Warning | src/components/analysis/WhatIfSandbox.tsx:68-71 | The warning needs a present SpO2 reading under 90. |
| WhatIfSandbox.Sandbox.constructor | src/components/analysis/WhatIfSandbox.tsx:14-15 | The sandbox starts from the initial vitals, unchanged. |
| WhatIfSandbox.Sandbox.HandleChange | src/components/analysis/WhatIfSandbox.tsx:17-23 | Exactly one reading is replaced, and the sandbox is marked changed. |
| WhatIfSandbox.Sandbox.Reset | src/components/analysis/WhatIfSandbox.tsx:92-96 | The sandbox goes back to the current initial vitals, unchanged, and simulates them. |
| WhatIfSandbox.Sandbox.Run | src/components/analysis/WhatIfSandbox.tsx:100-102 | The local vitals are handed over exactly when the button is enabled. |
| WhatIfSandbox.Sandbox.RunDisabled | src/components/analysis/WhatIfSandbox.tsx:101-102 | While a simulation runs the button is never disabled; otherwise it is disabled exactly when nothing changed. |
| WhatIfSandbox.EditThenRun | src/components/analysis/WhatIfSandbox.tsx:17-102 | After an edit, Run hands over the record with that one reading replaced. |
| VitalCards.EvalType | src/components/medical/VitalSigns.tsx:32-39 | Each card type maps to its row of the ranges table; glucose maps to heart rate. |
| VitalCards.NumericValue | src/components/medical/VitalSigns.tsx:50 | A number as is; a text through `parseFloat`. |
| VitalCards.CardEvaluation | src/components/medical/VitalSigns.tsx:51-53 | NaN is normal with no message. Any other value is evaluated on its row. |
| VitalCards.EmptyMessageIffNaN | src/components/medical/VitalSigns.tsx:51-53 | The message is empty exactly for NaN. |
| VitalCards.GlucoseUsesHeartRateRanges | src/components/medical/VitalSigns.tsx:38 | A glucose card is classified like a heart-rate card. |
| VitalCards.BloodPressureUsesSystolic | src/components/medical/VitalSigns.tsx:155-158 | The "systolic/diastolic" text parses to the systolic value, so the diastolic one never matters. |
| VitalCards.Capitalize | src/components/medical/VitalSigns.tsx:126 | Only the first character is upper-cased. |
| VitalCards.StatusLabel | src/components/medical/VitalSigns.tsx:126 | The labels are "Normal", "Warning" and "Critical", and each lower-cases back to its status. |
| VitalCards.StatusLabelInjective | src/components/medical/VitalSigns.tsx:126 | Different statuses get different labels. |
| VitalCards.NumberSlot | src/components/medical/VitalSigns.tsx:163-198 | A present non-zero reading gives its card. A zero gives the text "0". An absent reading gives nothing. |
| VitalCards.BloodPressureSlot | src/components/medical/VitalSigns.tsx:154-162 | A present blood pressure always gives its card. |
| VitalCards.GridCardsIff | src/components/medical/VitalSigns.tsx:154-198 | Each card appears exactly when its field is truthy. No glucose card appears. |
| VitalCards.ZeroReadingRendersZero | src/components/medical/VitalSigns.tsx:163 | A zero heart rate renders the text "0" and no card. |
| VitalCards.GridInSlotOrder | src/components/medical/VitalSigns.tsx:154-198 | At most one item per slot, in markup order, at most five in all. |
| VitalCards.Grid | src/components/medical/VitalSigns.tsx:154-198 | At most five items, none of them for glucose, and none at all exactly when every reading is absent. |
| VitalCards.GridCardsCarryReadings | src/components/medical/VitalSigns.tsx:154-198 | Each card carries its own field's reading. |
| Dashboard.SumOfConcat | src/app/page.tsx:56 | The fold adds up over runs of cases. |
| Dashboard.SumOfZeroIff | src/app/page.tsx:56 | The fold is zero exactly when every case contributes zero, and it bounds every contribution. |
| Dashboard.Priority | src/app/page.tsx:250 | A row's bar is red exactly when its case has red flags. |
| Dashboard.FlagPill | src/app/page.tsx:277-293 | There is no pill without red flags. Otherwise the pill reads "N Flag", with "s" from two. |
| Dashboard.RedFlagTotalMatchesBars | src/app/page.tsx:56 | The Red Flags total is zero exactly when every bar is green, and no row has more flags than the total. |
| Dashboard.TotalRedFlags | src/app/page.tsx:56 | The total is zero exactly when no case has a red flag, and no case has more flags than the total. |
| Dashboard.TotalDiagnoses | src/app/page.tsx:82 | The total is zero exactly when no case has a diagnosis, and no case has more diagnoses than the total. |
| Dashboard.RowOf | src/app/page.tsx:230-320 | A row shows its case's id and complaint and a time. Its bar is red exactly when it has a flag pill, and that is exactly when the case has a red flag. |
| Dashboard.TotalsConcat | src/app/page.tsx:56-82 | Both totals add up over runs of cases. |
| Dashboard.Stats | src/app/page.tsx:58-87 | Four tiles in order: Saved Cases and AI Analyses show the case count, Red Flags and Diagnoses their totals. |
| Dashboard.StatsAgree | src/app/page.tsx:58-87 | The first two tiles always agree. The Red Flags tile reads "0" exactly when every bar is green. With no cases every tile reads "0". |
| Dashboard.DashboardPage.constructor | src/app/page.tsx:24-25 | The page starts with no cases, loading. |
| Dashboard.DashboardPage.CasesFetched | src/app/page.tsx:27-39 | The cases become the query's answer, or `[]` when the query failed; loading ends either way. |
| Dashboard.DashboardPage.View | src/app/page.tsx:211-320 | A spinner while loading. The empty-state message exactly when loaded with no cases. Otherwise one row per case, with its id, bar, pill, complaint and time ago. |
| Dashboard.FailedQueryShowsNoCases | src/app/page.tsx:27-39 | A failed query shows the empty-state message, as if nothing were saved. |
| Assessment.Position | src/app/assessment/page.tsx:86-95 | A step's index in the six steps, or -1 exactly for the one step the wizard lacks. |
| Assessment.PositionIsFindIndex | src/app/assessment/page.tsx:95 | The page and the indicator find each step at the same index. |
| Assessment.InitialNavValid | src/app/assessment/page.tsx:49-50 | The wizard starts valid: on patient info, nothing completed. |
| Assessment.NextStep | src/app/assessment/page.tsx:97-106 | The current step is recorded as completed, once, and the wizard moves one step on. Nothing happens at the last step. |
| Assessment.NextStepKeepsValid | src/app/assessment/page.tsx:97-106 | Next keeps the completed list duplicate-free and every step before the current one completed. |
| Assessment.NextStepMovesByOne | src/app/assessment/page.tsx:97-106 | Next moves exactly one position, or stays at the last step. |
| Assessment.PreviousStep | src/app/assessment/page.tsx:108-114 | Back moves one step, never before the first, and leaves the completed list alone. |
| Assessment.PreviousStepKeepsValid | src/app/assessment/page.tsx:108-114 | Back keeps the wizard valid and lands one position earlier, or at 0. |
| Assessment.ClickStep | src/app/assessment/page.tsx:294-299 | A click moves to the clicked step or leaves the wizard where it is; the completed list is untouched. |
| Assessment.PageAllowsJump | src/app/assessment/page.tsx:296 | The page allows a jump to any step up to the current one, and to a later step exactly when the step before it is completed. |
| Assessment.ClickHonouredIff | src/app/assessment/page.tsx:294-299 | A click at or before the current step always moves. A later step moves exactly when it is completed and the step before it is completed. |
| Assessment.ClickKeepsValid | src/app/assessment/page.tsx:294-299 | Clicks keep the wizard valid. |
| Assessment.NextStepNeedsContinue | src/app/assessment/page.tsx:294-299 | The next step cannot be reached by a click before it is completed. |
| Assessment.CompleteAnalysis | src/app/assessment/page.tsx:236-238 | A finished analysis adds the analysis step to the completed list once. |
| Assessment.CompleteAnalysisKeepsValid | src/app/assessment/page.tsx:236-238 | Completing is valid and idempotent. |
| Assessment.AnalysisStepMeansIntakeDone | src/app/assessment/page.tsx:97-106 | On the analysis step every earlier step is completed. |
| Assessment.NavigationKeepsCompleted | src/app/assessment/page.tsx:97-114 | Once intake is done, Next, Back and clicks never undo it. |
| Assessment.MergeExtracted | src/app/assessment/page.tsx:197-200 | Earlier symptoms are kept as a prefix. Exactly the extracted ones whose names are new (up to case) are appended, in reply order. |
| Assessment.MergeIdempotent | src/app/assessment/page.tsx:197-200 | Merging the same reply again adds nothing. |
| Assessment.MergeKeepsNamesUnique | src/app/assessment/page.tsx:197-200 | Unique names stay unique when the reply's names are unique. |
| Assessment.MergeKeepsDuplicatesWithinReply | src/app/assessment/page.tsx:198-199 | Two spellings of one name in a single reply are both added. |
| Assessment.NewPatient | src/app/assessment/page.tsx:116-132 | The record carries the form's id, consent, age, measurements and sex, mapped male to male and female to female. |
| Assessment.IntakePatientConsented | src/app/assessment/page.tsx:116-132 | A patient admitted through the form has consented. |
| Assessment.Stamp | src/app/assessment/page.tsx:165-168 | Stamping sets the recording time and keeps every reading. |
| Assessment.ClinicalTestsPanel | src/app/assessment/page.tsx:173-185 | The panel holds the results, complete, named "Clinical Tests", tied to the encounter or to "". |
| Assessment.RequestBody | src/app/assessment/page.tsx:210-227 | A request is sent exactly with a patient and an encounter. It carries the current symptoms, the stamped vitals, the history and the panels. |
| Assessment.ConsentedRequestAdmissible | src/app/assessment/page.tsx:222-227 | For a consented patient, the route reaches the analysis exactly when the limit and key allow it. |
| Assessment.FailureMessage | src/app/assessment/page.tsx:233-244 | No message on success. A failure response keeps its own message, or "Analysis failed" when it is empty. A thrown request keeps its error. |
| Assessment.RouteFailuresKeepTheirMessage | src/app/assessment/page.tsx:240 | Every failure response of the analysis route reaches the page with its own message. |
| Assessment.Wizard.constructor | src/app/assessment/page.tsx:49-84 | Every state variable starts at its initial value, and the wizard is valid. |
| Assessment.Wizard.GoToNextStep | src/app/assessment/page.tsx:97-106 | Navigation becomes `NextStep`; the case, inputs, run and save state are kept. |
| Assessment.Wizard.GoToPreviousStep | src/app/assessment/page.tsx:108-114 | Navigation becomes `PreviousStep`; everything else is kept. |
| Assessment.Wizard.StepClicked | src/app/assessment/page.tsx:294-299 | Navigation becomes `ClickStep`; everything else is kept. |
| Assessment.Wizard.HandlePatientSubmit | src/app/assessment/page.tsx:116-132 | The patient is recorded and the wizard moves on. |
| Assessment.Wizard.HandleMedicalHistorySubmit | src/app/assessment/page.tsx:134-147 | Without a patient nothing changes. Otherwise the conditions become the history and the wizard moves on. |
| Assessment.Wizard.HandleSymptomsSubmit | src/app/assessment/page.tsx:149-161 | Without a patient nothing changes. Otherwise an in-progress encounter with the complaint, the symptoms and the stamped vitals is recorded, and the wizard moves on. |
| Assessment.Wizard.SymptomsContinueEnabled | src/app/assessment/page.tsx:358 | Continue is enabled exactly with a complaint or at least one symptom. |
| Assessment.Wizard.HandleVitalsSubmit | src/app/assessment/page.tsx:163-171 | An existing encounter gets the stamped vitals, and the wizard moves on either way. |
| Assessment.Wizard.HandleLabResultsSubmit | src/app/assessment/page.tsx:173-185 | Non-empty results become the only panel; the wizard moves on either way. |
| Assessment.Wizard.SetSymptoms | src/app/assessment/page.tsx:350 | Only the symptoms change. |
| Assessment.Wizard.SetChiefComplaint | src/app/assessment/page.tsx:352 | Only the complaint changes. |
| Assessment.Wizard.SetLabResults | src/app/assessment/page.tsx:399 | Only the lab results change. |
| Assessment.Wizard.SetVitalInput | src/app/assessment/page.tsx:370-386 | One of the five boxes (heart rate, systolic, diastolic, temperature, SpO2) replaces exactly its own reading, and an empty box gives 0. |
| Assessment.Wizard.AddCondition | src/app/assessment/page.tsx:334 | A new active, unnamed condition is appended. |
| Assessment.Wizard.RemoveCondition | src/app/assessment/page.tsx:331 | Row i is dropped and the others are kept in order. |
| Assessment.Wizard.RenameCondition | src/app/assessment/page.tsx:326-329 | Only row i's name changes. |
| Assessment.Wizard.BeginNlpExtract | src/app/assessment/page.tsx:187-194 | Extraction is marked running and the text is posted. |
| Assessment.Wizard.FinishNlpExtract | src/app/assessment/page.tsx:195-207 | A successful reply is merged into the symptoms; extraction stops either way. |
| Assessment.Wizard.BeginAnalysisWith | src/app/assessment/page.tsx:210-228 | A run starts exactly with a patient and an encounter: running, stage analyzing, error cleared, and the request built from the given closure. |
| Assessment.Wizard.BeginAnalysis | src/app/assessment/page.tsx:210-228 | The button's run uses the current render's values. |
| Assessment.Wizard.ResponseArrived | src/app/assessment/page.tsx:230 | The stage becomes processing. |
| Assessment.Wizard.FinishAnalysis | src/app/assessment/page.tsx:231-247 | Running stops. On success the analysis is stored, the stage is complete and the analysis step is completed. On failure the error is recorded and the stage is error. |
| Assessment.Wizard.StoreAnalysis | src/app/assessment/page.tsx:233-246 | The success path: the analysis is stored, the stage is complete, the analysis step is added to the completed list once, running stops and navigation stays valid. |
| Assessment.Wizard.RecordFailure | src/app/assessment/page.tsx:242-246 | The failure path: the message is recorded, the stage is error, running stops, and the earlier analysis and navigation are kept. |
| Assessment.Wizard.SimulateAsWritten | src/app/assessment/page.tsx:428-432 | The vitals are set, and the timer's run is the closure from before the update. |
| Assessment.Wizard.Simulate | src/app/assessment/page.tsx:428-432 | The vitals are set, and the run sees them. |
| Assessment.Wizard.BeginSave | src/app/assessment/page.tsx:250-263 | A write happens exactly with a patient, an encounter and an analysis, and carries them with the history and panels. A started write disables Save Case. |
| Assessment.Wizard.FinishSave | src/app/assessment/page.tsx:264-272 | Success sets the saved flag and starts the 3-second timer. Failure sets the page's message. Saving stops. After success Save Case stays disabled; after a failure it is enabled again unless a success is still shown. |
| Assessment.Wizard.SaveTimerFired | src/app/assessment/page.tsx:266 | The saved flag clears, so Save Case is enabled again exactly with an analysis and no save running. |
| Assessment.Wizard.SaveEnabled | src/app/assessment/page.tsx:452-455 | Save Case is enabled exactly with an analysis, while not saving and not just saved. |
| Assessment.FailureViewUnreachable | src/app/assessment/page.tsx:409-421 | As written, the loading view only shows while running, and then never as the failure view. |
| Assessment.FailedRunHidesMessage | src/app/assessment/page.tsx:409-437 | As written, after a failed run the page shows the ready panel or the old results, never the message. |
| Assessment.FailedRunShowsMessage | src/components/analysis/AnalysisLoading.tsx:32-57 | With the failure view reachable, a failed run shows its message and a retry button. |
| Assessment.PanelsAgreeUnlessFailed | src/app/assessment/page.tsx:409-437 | The corrected panel differs from the written one only after a failure. |
| Assessment.Wizard.AnalysisPanelAsWritten | src/app/assessment/page.tsx:409-437 | As written, the loading view shows exactly while running. The ready panel shows exactly when idle without an analysis, and the results panel shows the wizard's analysis. |
| Assessment.Wizard.AnalysisPanel | src/app/assessment/page.tsx:409-437 | As corrected, the loading view shows exactly while running or after a failed run. The ready panel shows exactly when neither holds and there is no analysis, and the results panel shows the wizard's analysis. |
| Assessment.StaleSimulationRequest | src/app/assessment/page.tsx:428-432 | The timer's request carries the vitals from before the simulation. |
| Assessment.SimulationRequestCarriesVitals | src/app/assessment/page.tsx:222-224 | A run given the simulated vitals posts them. |
| Assessment.IntakeScenario | src/app/assessment/page.tsx:134-171 | History, symptoms and vitals submitted in turn leave an encounter with the symptoms and the stamped vitals, and the history of the conditions. |

## Left out

- The Gemini calls behind `performClinicalAnalysis` and `extractSymptomsFromText` are not modelled. Their result or throw is a parameter.
- The chat, patient-handout and image routes are not part of this model. Neither are `AIChat`, `ClinicalVisualizer`, `ReasoningGraph`, `AnalysisResults`, the login overlay and the layout.
- Document-store I/O is not modelled. The store's answer is a parameter. The `savedAt` descending order and the limit of 5 (`getRecentCases(5)`) belong to the store query and are not modelled.
- The cases page's own loading effect is not modelled separately. It has the same pattern as `Dashboard.DashboardPage.CasesFetched`, with `getAllCases` in place of `getRecentCases`.
- `randomUUID`, `Date.now`, `new Date()` and `Math.random` are not modelled. Their values are parameters.
- `calculateBMI`, `formatDate`, `debounce`, the storage helpers, `cn` and `generateAuditId` are left out. They are rounding, locale formatting, timers, browser storage and class names.
- `Utils.FormatRelativeTime`: a date older than a week gives `OlderDate`. The model does not format that date, because `formatDate` is locale formatting.
- `toLowerCase` and `toUpperCase` change only the ASCII letters.
- `Utils.Truncate`: the limit and the cut count characters (code points), while JavaScript's `length` and `slice` count UTF-16 code units. On text outside the Basic Multilingual Plane the source cuts earlier than the model, and may split a surrogate pair; the model does not capture that.
- `JsString.Slice` and `JsString.Substring` index characters, not UTF-16 code units; they agree with JavaScript on text inside the Basic Multilingual Plane. `ExtractRoute.Post` and `ExtractRoute.LengthBoundary` measure length in code units with `JsString.Utf16Length`, as JavaScript does.
- `VitalCards.BpText`: the card's blood-pressure readings are whole non-negative numbers (`nat`), while the prop type allows any number. A fractional or negative reading, which the template string would print with its decimals or sign, is not modelled.
- `parseFloat` reads an optional sign, digits and one fraction. It does not read exponents, `Infinity` or hexadecimal.
- NaN appears only where the code branches on it: the form's number fields, `parseFloat` results and the card's `isNaN`. Elsewhere numbers are exact reals.
- Allergies, medications, family history, surgeries and lifestyle are carried as opaque text in the history record.
- `Assessment.Wizard.RenameCondition`: the model uses value semantics for conditions. The source's `newC[i].name = …` writes into the shared condition object. A history that was already submitted is then renamed too, and the model does not capture that aliasing.
- `Utils.GetLabStatusDisplay`: an unknown status is shown as itself. Prototype keys such as "toString", which the source's object lookup would find, are not modelled.
- React's batching and asynchronous handlers are modelled as separate begin and finish methods, one per state update the page renders in between. Interleavings of two handlers are not modelled.
- `AnalyzeRoute.RateLimiter`: the store is one in-memory map of one server process. Several processes, each with its own map, are not modelled.
- `Db.NormalizeResult`: the source spreads each panel and result and copies a present reference range, turning an absent one into `null`. An absent range is `None` here and a copy of a value is the value, so normalisation is the identity; `Db.NormalisationKeepsPanels` proves exactly that. Only the fresh object identity of the copies is not modelled.
- `Dashboard.Stats`: while the cases are loading, the page shows "..." in place of each tile's value. The model gives the tiles' values only, not that placeholder.
- Rendering details are not modelled: styles, icons, animations and colours. Only what the markup decides is modelled: which view, which card, which label, which button.

## Findings

| source | as written | input that shows it | evidently intended | confidence | as-written member | corrected member |
|---|---|---|---|---|---|---|
| src/app/assessment/page.tsx:239-246 | A failed run sets the stage to error and, in the same batch, stops running. The loading view is rendered only while running, so its failure view (message and Try Again) never renders. | An analysis request that answers with `success: false`, or that throws | After a failed run, show the failure view with the message and a retry button | high (not executed) | Assessment.FailedRunHidesMessage | Assessment.FailedRunShowsMessage |
| src/app/assessment/page.tsx:428-432 | `onSimulate` sets the vitals, then a timer calls the `runAnalysis` of the render that set it up. That closure still holds the old vitals. | Change SpO2 from 98 to 85 in the sandbox and press Run: the request posts 98 | The simulated vitals are analysed | high (not executed) | Assessment.StaleSimulationRequest | Assessment.SimulationRequestCarriesVitals |
| src/components/forms/PatientIntakeForm.tsx:18-19 | Height and weight are read with `valueAsNumber`, so an empty box gives NaN, whether it was cleared or never touched. `z.number()` rejects NaN, so the fields marked optional block submission when left empty. | A complete form with the height box left empty, or never filled in | An empty measurement box counts as not given | medium (not executed) | IntakeForm.EmptyMeasurementRejected | IntakeForm.ValidateIntended |
