# Cyber-Aid Flow: a Dafny model of the complaint portal's core

Cyber-Aid Flow is a front-end for reporting cybercrime. A citizen signs in on
the **Auth** page. The sign-in is a mock: one fixed administrator pair, and
any other non-empty pair signs in as a regular user. The citizen then files a
complaint through a three-step **File Complaint** wizard: personal details,
incident details, then evidence and submission. Submitting stores the
complaint with an ID of the form `CC` followed by the last eight digits of the
current time in milliseconds, status `Pending` and fixed safety guidance. The
**Dashboard** loads the stored complaints, seeds two demo complaints when none
were ever stored, filters them by a search term, counts them by status and
shows administrators the crime type and guidance of each one. A keyword
classifier, `predictCrimeType`, guesses the crime category of a free-text
description, with a confidence and a risk level.

The browser's `localStorage` is modelled as a `BrowserStore` object. It has
one field per key the program uses: `complaints` and `auth`. `None` means the
key is absent.

Modules: one for each of the four core source files, plus three shared modules
(`Common`, `Text`, `Records`) holding what several of them use:

- `Common` (common.dfy): `Option` and `Result`.
- `Text` (text.dfy): the JavaScript string operations the core relies on.
  - ASCII `toLowerCase`.
  - `includes`.
  - `slice` with clamping.
  - `Number.prototype.toString` on naturals, with its digit round trip.
- `Records` (records.dfy): the stored records (complaint, guidance, auth
  record) and `BrowserStore`.
- `Classifier` (classifier.dfy): `predictCrimeType`.
  - A method with the source's loop.
  - The function `Classify`, which specifies that method.
  - Lemmas about the first-maximum choice, confidence and risk.
- `FileComplaint` (wizard.dfy): the wizard.
  - A class `ComplaintWizard` holding `step` and `form`.
  - Methods for each handler.
  - An invariant: every step past one has its required fields filled.
- `Dashboard` (dashboard.dfy): search, statistics, badges and card contents as
  functions with lemmas, plus the page state as a class `DashboardView`.
- `Auth` (auth.dfy): the login and registration decisions as functions, and
  the page's handlers as methods of `AuthPage` proved against them.

## Model

| member | source | states |
|---|---|---|
| Text.LowerChar | src/lib/ai-service.ts:37 | the result is never upper case; upper-case ASCII letters move up by 32 and every other character is kept |
| Text.Lower | src/lib/ai-service.ts:37 | same length as the input, and each character is lowered on its own |
| Text.LowerIdempotent | src/lib/ai-service.ts:37 | lowering twice is lowering once |
| Text.LowerOfLowercase | src/lib/ai-service.ts:37 | a string with no upper-case letters is unchanged |
| Text.LowerAppend | src/lib/ai-service.ts:37 | lowering distributes over concatenation |
| Text.Contains | src/lib/ai-service.ts:43 | the empty needle is always found, and a needle found is no longer than the text |
| Text.ContainsIffOccurs | src/lib/ai-service.ts:43 | `includes` holds exactly when the needle occurs at some index of the text |
| Text.ContainsAppend | src/lib/ai-service.ts:43 | a needle found in a text is still found after more text is appended |
| Text.AbsentCharRulesOut | src/lib/ai-service.ts:43 | a needle with a character the text lacks is not found |
| Text.EmptyContainsOnlyEmpty | src/lib/ai-service.ts:43 | the empty text contains only the empty needle |
| Text.Slice | src/pages/Dashboard.tsx:215 | `slice(from, to)` clamps both ends to the length, is empty when they cross, and copies the characters from `from` on |
| Text.LastChars | src/pages/FileComplaint.tsx:87 | for k >= 1 (the source uses k = 8), `slice(-k)` keeps the last min(k, length) characters; `slice(-0)` is the whole string |
| Text.DecimalString | src/pages/FileComplaint.tsx:87 | a natural's decimal text is non-empty and all digits |
| Text.DecimalRoundTrip | src/pages/FileComplaint.tsx:87 | reading back the decimal text of n gives n |
| Text.DecimalLength | src/pages/FileComplaint.tsx:87 | the decimal text of n is longer than k characters exactly when n >= 10^k |
| Text.DecimalSuffix | src/pages/FileComplaint.tsx:87 | the last k digits of n read back as n mod 10^k |
| Classifier.MatchCount | src/lib/ai-service.ts:43 | the number of a category's keywords found is at most the number of keywords |
| Classifier.MatchCountIsFoundKeywords | src/lib/ai-service.ts:43 | for distinct keywords, the count is the size of the set of keywords the text contains |
| Classifier.MatchCountZero | src/lib/ai-service.ts:43 | no keyword in the text means a count of zero |
| Classifier.MatchCountAppend | src/lib/ai-service.ts:43 | appending text never lowers a category's count |
| Classifier.MaxOf | src/lib/ai-service.ts:38-48 | the best count bounds every category's count and, when positive, is one of them |
| Classifier.FirstIndexOf | src/lib/ai-service.ts:44-47 | the category picked holds the best count and no earlier category does (strict `>` keeps the first) |
| Classifier.Confidence | src/lib/ai-service.ts:51 | confidence lies in [0, 95]; it is 95 from three matches on and exactly matches/3*100 below that |
| Classifier.ConfidenceMonotone | src/lib/ai-service.ts:51 | more matches never lower the confidence |
| Classifier.RiskOf | src/lib/ai-service.ts:54-56 | low exactly below 40, high exactly above 80, medium exactly from 40 to 80 |
| Classifier.RiskByMatches | src/lib/ai-service.ts:51-56 | zero or one match is low risk, two is medium, three or more is high |
| Classifier.Classify | src/lib/ai-service.ts:12-64 | the prediction has no sub-categories, a confidence in [0, 95], and a type that is "Other" or a category name |
| Classifier.PredictCrimeType | src/lib/ai-service.ts:37-63 | the loop over the categories returns exactly the prediction `Classify` specifies |
| Classifier.ClassifyPicksFirstMaximum | src/lib/ai-service.ts:38-48 | "Other" exactly when no category has a match; otherwise the type is that of the first category with the maximum count |
| Classifier.NoKeywordMeansOther | src/lib/ai-service.ts:38-56 | a description containing no keyword gives "Other" with confidence 0 and low risk |
| Classifier.EmptyDescriptionIsOther | src/lib/ai-service.ts:37-56 | the empty description gives "Other", confidence 0, low risk |
| Classifier.ClassifyIgnoresCase | src/lib/ai-service.ts:37 | lower-casing the description first changes nothing |
| Classifier.MoreTextNeverLowersConfidence | src/lib/ai-service.ts:42-51 | appending text to a description never lowers the confidence |
| Classifier.CrimeKeywordsNames | src/lib/ai-service.ts:26-35 | the table has eight categories with distinct names, none of them "Other" |
| Classifier.CrimeKeywordsLists | src/lib/ai-service.ts:26-35 | each category has five or six distinct, non-empty keywords |
| FileComplaint.SetField | src/pages/FileComplaint.tsx:41-43 | the edited field takes the new value; every other field and the evidence list are kept |
| FileComplaint.ComplaintId | src/pages/FileComplaint.tsx:87 | the ID is "CC" followed by one to eight digits |
| FileComplaint.ComplaintIdLength | src/pages/FileComplaint.tsx:87 | the ID has ten characters exactly when the timestamp has at least eight digits |
| FileComplaint.ComplaintIdDigits | src/pages/FileComplaint.tsx:87 | the ID's digits read back as the timestamp mod 10^8 |
| FileComplaint.NewComplaintKeepsForm | src/pages/FileComplaint.tsx:97-103 | the record pushed onto the list gives back the whole form unchanged, with the given ID and status "Pending" (what survives serialization is under Left out) |
| FileComplaint.NewComplaint | src/pages/FileComplaint.tsx:77-103 | the pushed record has the given ID, status "Pending" and the filing date, and its guidance carries the same complaint ID and the five safety steps |
| FileComplaint.StoredList | src/pages/FileComplaint.tsx:96 | an absent "complaints" key reads as the empty list; a stored list is read back as it is |
| FileComplaint.ComplaintWizard.constructor | src/pages/FileComplaint.tsx:17-27 | the wizard starts on step 1 with an empty form |
| FileComplaint.ComplaintWizard.InputChange | src/pages/FileComplaint.tsx:41-43 | editing a field of the current step sets it, keeps the rest, and keeps the wizard valid |
| FileComplaint.ComplaintWizard.FileChange | src/pages/FileComplaint.tsx:45-49 | a file selection replaces the evidence list; no selection leaves the form as it was |
| FileComplaint.ComplaintWizard.Next | src/pages/FileComplaint.tsx:51-73 | the step advances exactly when that step's required fields are non-empty; otherwise nothing changes |
| FileComplaint.ComplaintWizard.Back | src/pages/FileComplaint.tsx:242 | "Previous" goes back one step and keeps the form |
| FileComplaint.ComplaintWizard.Submit | src/pages/FileComplaint.tsx:75-107 | appends one record with ID `ComplaintId(timestamp)` to the stored list (an absent list counts as empty) and moves to step 4; the record's required fields are non-empty |
| FileComplaint.SubmitAppendsOne | src/pages/FileComplaint.tsx:96-104 | filing grows the stored list by one, keeps the earlier records in order and ends with the new one |
| Dashboard.StatusVariant | src/pages/Dashboard.tsx:95-106 | badge "default" exactly for investigating, "outline" exactly for resolved, "secondary" for every other status, ignoring case |
| Dashboard.StatusVariantIgnoresCase | src/pages/Dashboard.tsx:96 | the badge depends only on the lower-cased status |
| Dashboard.MatchesSearch | src/pages/Dashboard.tsx:110-111 | an empty search term matches every complaint |
| Dashboard.MatchesSearchIffOccurs | src/pages/Dashboard.tsx:110-111 | a complaint matches exactly when the lowercased term occurs at some offset of its lowercased ID or crime type |
| Dashboard.FilterComplaints | src/pages/Dashboard.tsx:108-112 | a complaint is shown exactly when it is stored and its ID or crime type contains the term, ignoring case; every copy of a matching complaint is kept and no copy of another (multiset counts) |
| Dashboard.FilterIsSubsequence | src/pages/Dashboard.tsx:108-112 | the shown list keeps the stored order |
| Dashboard.EmptySearchKeepsAll | src/pages/Dashboard.tsx:108-112 | an empty search shows every complaint |
| Dashboard.SearchIgnoresCase | src/pages/Dashboard.tsx:110-111 | the term's case does not matter |
| Dashboard.CountStatus | src/pages/Dashboard.tsx:122-130 | the number of complaints with exactly the given status is at most the list length (exact matching, so case matters) |
| Dashboard.DistinctStatusCounts | src/pages/Dashboard.tsx:123-129 | counts for two different statuses add up to at most the total |
| Dashboard.CountStatusAppend | src/pages/Dashboard.tsx:123-129 | status counts add over concatenation |
| Dashboard.ComplaintStats | src/pages/Dashboard.tsx:114-133 | the total is the list length, and pending plus investigating never exceed it |
| Dashboard.FilingAddsOnePending | src/pages/Dashboard.tsx:114-133 | after filing a complaint the total and the pending count each rise by one and the investigating count is unchanged |
| Dashboard.CardTitle | src/pages/Dashboard.tsx:215 | administrators see the crime type; users see "Complaint #" followed by the ID's characters from index 2 up to index 10, clamped to the ID's length |
| Dashboard.UserTitleShowsIdDigits | src/pages/Dashboard.tsx:215 | a user's card title is "Complaint #" and the ID's digits, which read back as the filing time mod 10^8 |
| Dashboard.ShownGuidanceSteps | src/pages/Dashboard.tsx:229-237 | only administrators see guidance, and at most its first three steps, in order |
| Dashboard.DemoComplaints | src/pages/Dashboard.tsx:49-74 | the demo list has two complaints with distinct IDs, each "CC" followed by eight digits, the shape the wizard gives its IDs |
| Dashboard.DemoStats | src/pages/Dashboard.tsx:49-74 | the demo data gives two complaints, one pending and one under investigation |
| Dashboard.DashboardView.constructor | src/pages/Dashboard.tsx:26-29 | the page starts with no complaints, no auth, not admin and an empty search |
| Dashboard.DashboardView.Load | src/pages/Dashboard.tsx:31-78 | with no auth record the page redirects and changes nothing; otherwise it takes the auth record and the admin flag from it, and loads the stored list or, when the key is absent, stores and shows the demo list |
| Dashboard.DashboardView.SetSearchTerm | src/pages/Dashboard.tsx:29 | typing sets the search term and nothing else |
| Auth.LoginDecision | src/pages/Auth.tsx:33-62 | sign-in succeeds exactly when both fields are non-empty; the role is admin exactly for the fixed pair; everyone else is "Regular User"; a failure carries "Please enter valid credentials" |
| Auth.RegisterDecision | src/pages/Auth.tsx:70-94 | missing fields, then a mismatch, then a password under six characters are refused in that order with their messages; otherwise a user record with the entered name and email |
| Auth.AuthPage.constructor | src/pages/Auth.tsx:15-16 | the page starts not loading and with no error |
| Auth.AuthPage.HandleLogin | src/pages/Auth.tsx:28-63 | once the timer has fired, the decision's record is stored and the page navigates, or the stored identity is kept and the error is shown |
| Auth.AuthPage.HandleRegister | src/pages/Auth.tsx:65-100 | the decision's record is stored and the page navigates, or the stored identity is kept and the failed check's message is shown; loading ends either way |

## Left out

- JSON encoding and the `localStorage` string values are not modelled. The store holds typed records. A stored value that fails to parse, or one not written by this program, is not modelled.
- Timers (`setTimeout`), navigation, toasts, icons (`getStatusIcon`) and rendering are not modelled. Navigation is a returned flag. Login and registration are modelled in their state after the 500 ms timer has fired.
- Clocks are parameters. `Date.now()` is the `timestamp` argument, and the ISO date strings are opaque `filedDate`, `twoDaysAgo` and `fiveDaysAgo` arguments.
- The confirmation screen reads `Date.now()` a second time for the ID it shows (src/pages/FileComplaint.tsx:323). That read can differ from the stored ID; the model covers only the stored one.
- IDs are not unique: two submissions whose timestamps agree mod 10^8 get the same ID. The model states the ID as a function of the timestamp and claims nothing more.
- Text.Lower: lowers ASCII letters only; JavaScript's full Unicode case mapping is not modelled.
- Auth.RegisterDecision: measures the password length in characters, not in UTF-16 code units as JavaScript does.
- Classifier.Confidence: is the exact rational matches/3*100. JavaScript computes it in floating point, so two matches give 66.66666666666666 rather than 200/3. Every threshold comparison comes out the same.
- Classifier.PredictCrimeType: takes the keyword table as a parameter. The page's behaviour is `PredictCrimeType(CrimeKeywords, d)`. The `async` wrapper is not modelled.
- Outcomes on particular literal descriptions are not proved; only the all-inputs lemmas are. For example, "my account" matches one financial keyword ("account"), which gives confidence 100/3 and low risk.
- Evidence files are opaque: an `EvidenceFile` carries only its name.
- FileComplaint.NewComplaintKeepsForm: holds for the record as pushed, not as read back later. The list is stored with `JSON.stringify` (src/pages/FileComplaint.tsx:104), which writes each `File` as `{}`. After a reload the stored complaint keeps how many evidence files there were but not their names, while the model's store keeps the names.
- FileComplaint.ComplaintWizard.InputChange: field names form the closed set `Field`. The source's `[field]: value` accepts any string key, but every call site passes one of these seven names.
- The wizard's crime-type option list (src/pages/FileComplaint.tsx:29-39) is a UI choice list and is not modelled; the crime type is any string.
- Pages and components outside the complaint flow (landing page, header, footer, the AI analysis card) are not part of this model.

## Notes on what the code does

- The dashboard seeds the demo complaints only when the `complaints` key is absent. A stored empty list `"[]"` is a non-empty string, so it is loaded as an empty list rather than re-seeded.
- The description "my account" gives one financial match, because only "account" is a keyword. That means confidence 100/3 and low risk.
