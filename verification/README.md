# Dental call analytics dashboard: a Dafny model of its logic

The dashboard (`app.py`) loads call-centre records for a dental practice from
a spreadsheet. It cleans the column names and labels every call with one of
nine categories using a keyword classifier. It then filters the calls by date
range, call direction and category, and shows counts and rates over the
filtered calls. This project models the part of that pipeline that is logic
rather than presentation. Every member is a pure function over immutable data.

- `text.dfy`, module `Text`: lower-casing (`str.lower` on `A`..`Z` and the Kelvin sign) and substring
  containment (`w in s`, `str.contains` with a plain-letter pattern). It also
  has a scanning method that decides containment.
- `columns.dfy`, module `Columns`: the header clean-up
  `df.columns.str.strip().str.replace(" ", "_")`.
- `classifier.dfy`, module `Classifier`: `classify_call`. The nine labels form
  a closed datatype. The seven transcript rules form an ordered table of
  (category, keywords) pairs, scanned first-match-wins.
- `classifier_facts.dfy`, module `ClassifierFacts`: the classifier's
  properties. These cover the missed-call override, first-match priority, and
  exactly when the fallback label is given. They also show that the keyword
  "reschedule" is dead.
- `calls.dfy`, module `Calls`: call records and the step that adds the
  "Category" column to every row.
- `filters.dfy`, module `Filters`: the boolean row masks the dashboard indexes
  its frame with, and the sidebar filters built from them.
- `metrics.dfy`, module `Metrics`: the key performance indicators (KPIs).

One might expect "I need to reschedule my appointment" on an answered call to
be `Cancellation/Reschedule`. The code tries the booking rule first, and that
rule hits on "appointment" and on "schedule", so the call is
`Appointment Booking`; `ClassifierFacts.RescheduleAppointmentExample` proves
this. For the same reason the cancellation rule's keyword "reschedule" never
decides a label (`ClassifierFacts.RescheduleIsDeadKeyword`).

A quirk of the source that the model keeps: the answered count tests whether
the status contains "answered". An "Unanswered" call is therefore counted as
answered, and a status can be counted both as answered and as missed.

## Model

| member | source | states |
|---|---|---|
| Text.LowerChar | app.py:180-181 | lower-cases `A`..`Z` by 32 code points and the Kelvin sign to `k`, and leaves every other character alone; no result is an upper-case ASCII letter or the Kelvin sign |
| Text.Lower | app.py:180-181 | the lower-cased string has the input's length and is lower-cased character by character |
| Text.LowerIdempotent | app.py:180-181 | lower-casing twice is lower-casing once |
| Text.ContainsTransitive | app.py:185-187 | a string that contains `m` contains every substring of `m` |
| Text.LowerKeepsOccurrence | app.py:180-187 | lower-casing a transcript keeps every occurrence of a word that lower-casing leaves alone, at the same offset |
| Text.NotContainsMissingChar | app.py:183 | a string lacking one of a word's characters does not contain the word |
| Text.FindSubstring | app.py:185 | the scan over offsets answers true exactly when the word occurs in the string |
| Columns.StripStart | app.py:146 | the result is a suffix of the input, everything removed is whitespace, and the result does not start with whitespace |
| Columns.StripEnd | app.py:146 | the result is a prefix of the input, everything removed is whitespace, and the result does not end with whitespace |
| Columns.Strip | app.py:146 | the result is a contiguous slice of the header with only whitespace outside it, and it neither starts nor ends with whitespace |
| Columns.ReplaceSpaces | app.py:146 | no space remains, each space became `_`, and every other character is kept in place |
| Columns.NormalizeColumn | app.py:146 | a cleaned header is the header's slice between its leading and trailing whitespace, with every space replaced by `_`; it contains no space and neither starts nor ends with whitespace |
| Columns.ReplaceSpacesKeepsEnds | app.py:146 | on a stripped header the replacement keeps the first and last characters, since neither is a space |
| Columns.NormalizeColumns | app.py:146 | every header of the row is cleaned, in column order |
| Columns.StripNoop | app.py:146 | a header without surrounding whitespace is left alone by the strip |
| Columns.StripIdempotent | app.py:146 | stripping twice is stripping once |
| Columns.ReplaceSpacesNoop | app.py:146 | a header without spaces is left alone by the replacement |
| Columns.NormalizeIdempotent | app.py:146 | cleaning a cleaned header changes nothing |
| Columns.NormalizeColumnsIdempotent | app.py:146 | cleaning a cleaned header row changes no header |
| Classifier.Label | app.py:184-200 | every category is stored as one of the nine label strings |
| Classifier.LabelInjective | app.py:184-200 | different categories are stored as different strings |
| Classifier.FirstMatch | app.py:185-200 | the result is the category of the first rule whose keywords hit, or the fallback when no rule hits |
| Classifier.FirstHitShift | app.py:185-200 | when the first rule misses, the first hit of the table is the first hit of the remaining rules one place later, and the table has no hit exactly when the rest has none |
| Classifier.ClassifyWith | app.py:183-200 | over any well-formed rule table, the label is "Missed Call" exactly when the lower-cased status contains "missed" |
| Classifier.Classify | app.py:178-202 | the label is "Missed Call" exactly when the status mentions "missed" in any case; without that and without any rule hit it is "General Inquiry" |
| ClassifierFacts.Keywords | app.py:185-198 | the flattened keyword list holds every keyword of every rule and nothing else |
| ClassifierFacts.KeywordCount | app.py:185-198 | the seven transcript rules list 28 keywords |
| ClassifierFacts.NoHitIffNoKeyword | app.py:185-200 | no rule hits exactly when none of the table's keywords occurs |
| ClassifierFacts.FirstHitExists | app.py:185-198 | when some rule hits, a first rule that hits exists |
| ClassifierFacts.RulesWellFormed | app.py:185-198 | the seven rules name seven different categories, none of them "Missed Call" or "General Inquiry" |
| ClassifierFacts.ClassifyIsFirstHit | app.py:183-198 | a call gets rule k's label exactly when its status lacks "missed" and rule k is the earliest rule with a keyword in the transcript |
| ClassifierFacts.ClassifyGeneralIff | app.py:183-200 | a call is "General Inquiry" exactly when its status lacks "missed" and its transcript holds none of the 28 keywords |
| ClassifierFacts.MissedStatusExample | app.py:181-184 | status "MISSED - No Answer" gives "Missed Call" whatever the transcript |
| ClassifierFacts.BookingWins | app.py:185-186 | any booking keyword in a non-missed call gives "Appointment Booking", whatever later rules also hit ("book" with "bill" is a booking) |
| ClassifierFacts.ScheduleInReschedule | app.py:185-187 | the rule-3 keyword "reschedule" contains the rule-2 keyword "schedule" |
| ClassifierFacts.RescheduleIsBooking | app.py:185-187 | a non-missed call whose transcript contains "reschedule" is "Appointment Booking" |
| ClassifierFacts.FirstMatchSameHits | app.py:185-200 | two rule tables with the same categories and the same hits give the same label |
| ClassifierFacts.RescheduleHitsBooking | app.py:185-187 | a transcript containing "reschedule" hits the appointment-booking rule |
| ClassifierFacts.CancelRuleHitsAgree | app.py:187-188 | without "reschedule" in the transcript, the cancellation rule hits exactly when its other two keywords do |
| ClassifierFacts.RulesWithoutRescheduleShape | app.py:185-198 | the table without "reschedule" has the same length and categories and differs from the source table only in the cancellation rule |
| ClassifierFacts.RescheduleIsDeadKeyword | app.py:185-188 | removing "reschedule" from the cancellation rule changes no call's label |
| ClassifierFacts.RescheduleAppointmentExample | app.py:180-187 | "I need to reschedule my appointment" on an answered call is "Appointment Booking" |
| ClassifierFacts.KelvinSignExample | app.py:180-186 | "BOO" followed by a Kelvin sign lower-cases to "book", so the call is "Appointment Booking" |
| ClassifierFacts.AnsweredIsNotMissed | app.py:181-183 | the status "Answered" does not mention "missed" |
| ClassifierFacts.ClassifyIgnoresCase | app.py:180-181 | classifying lower-cased inputs gives the same label as the originals |
| Calls.ClassifyRow | app.py:209 | a classified row keeps its other fields, its transcript is the sheet's cell or "" when the column is absent, and its category is the classifier's verdict on that transcript and the row's status |
| Calls.ClassifiedMissedStatus | app.py:183-184 | a classified row is "Missed Call" exactly when its status mentions "missed" |
| Calls.AllClassifiedMissed | app.py:183-184 | in classified rows the "Missed Call" rows are exactly those whose status mentions "missed" |
| Calls.Categorize | app.py:207-209 | every row keeps its place and gets exactly one category: the classifier's verdict on its own transcript cell (or "") and status |
| Calls.ReclassifyIsNoop | app.py:207-209 | classifying an already classified frame again, with its transcripts as sheet cells, changes no row |
| Calls.AbsentTranscript | app.py:209 | a row without a transcript column is "Missed Call" or "General Inquiry" |
| Filters.SelectWhere | app.py:268-276 | the kept rows are an order-preserving subsequence, each passes every mask, and each row that passes all masks keeps its multiplicity |
| Filters.Select | app.py:274 | `df[mask]` keeps an order-preserving subsequence of exactly the rows the mask keeps, with their multiplicities |
| Filters.SelectCons | app.py:274 | a selection is the first row, if kept, followed by the selection of the rest |
| Filters.SelectAgreeing | app.py:274-276 | two masks that agree on every row select the same rows |
| Filters.SelectKeepsAll | app.py:274-276 | a mask that keeps every row selects the whole frame |
| Filters.SelectWhereTwice | app.py:268-276 | filtering by one list of masks and then another is filtering once by both |
| Filters.SelectWhereSameMasks | app.py:268-276 | the result depends only on which masks are applied, not on their order or repetition |
| Filters.SelectEach | app.py:269-276 | applying masks one after another, as the frame is reassigned once per filter, keeps exactly the rows every mask keeps |
| Filters.SelectWhereNone | app.py:268-276 | with no mask, every row is kept |
| Filters.SelectCommutes | app.py:268-276 | any two filters commute |
| Filters.SelectIdempotent | app.py:268-276 | applying a filter twice is applying it once |
| Filters.SelectKeepsClassified | app.py:209-276 | every row kept by a filter still carries the classifier's verdict on it |
| Filters.EmptyDirectionSelectionKeepsNothing | app.py:273-274 | `isin` with an empty selection keeps no row, so the filter must be skipped when the selection is empty |
| Filters.ActiveMasks | app.py:268-276 | the date mask is applied when both ends of the range are chosen, and the direction and category masks exactly when their selections are non-empty; no other mask is applied |
| Filters.ActiveMasksMeanSidebar | app.py:268-276 | passing the active masks is the same as meeting the date, direction and category conditions of the sidebar |
| Filters.ApplyFilters | app.py:268-276 | the filtered rows are an order-preserving subsequence with their multiplicities: exactly the rows within the inclusive date range (when both ends are given), in the direction selection (when non-empty) and in the category selection (when non-empty) |
| Filters.NoSelectionKeepsAll | app.py:268-276 | with no complete date range and empty selections, filtering returns the frame unchanged |
| Filters.FiltersCommute | app.py:268-276 | applying the active filters in any order gives the same rows |
| Metrics.Count | app.py:283-288 | a count is at most the number of rows, and it is zero exactly when the mask keeps no row |
| Metrics.CountIsSelectionLength | app.py:283-288 | the count is the length of the selected frame, `len(df[mask])` |
| Metrics.Percent | app.py:285-289 | a rate is 0 when there are no calls, otherwise it times the total equals the count times 100, and it lies in [0, 100] when the count is at most the total |
| Metrics.ComputeKpis | app.py:281-291 | an empty frame shows zero everywhere; each count is the length of the frame its mask selects (status containing "answered" or "missed", contact type "New Patient", category booking, emergency, billing or insurance); both rates are those counts as percentages of the total and lie in [0, 100] |
| Metrics.MissedRateExample | app.py:285 | 12 missed calls out of 100 give a missed-call rate of 12 |
| Metrics.CategoryInSplit | app.py:346-366 | the rows in a category selection are the first category's rows plus the rest's |
| Metrics.SumCategoryCountsIsSelection | app.py:346-366 | per-category counts over distinct categories add up to the rows in any of them |
| Metrics.CountAll | app.py:281-283 | a mask that keeps every row counts every row |
| Metrics.CountAgreeing | app.py:283-288 | two masks that agree on every row give the same count |
| Metrics.CategoryCountsSumToTotal | app.py:209 | the nine per-category counts add up to the total, because every row has exactly one category |
| Metrics.StatusMaskIsMissedMask | app.py:284 | where missed calls are the rows whose status mentions "missed", the status mask and the category mask keep the same rows |
| Metrics.MissedCountIsMissedCategory | app.py:284 | on classified rows, the missed count taken from the status equals the number of "Missed Call" rows |
| Metrics.FilteringLowersCounts | app.py:268-291 | every count over the filtered frame is at most the same count over the whole frame |
| Metrics.UnansweredCountsAsAnswered | app.py:283 | a call with status "Unanswered" is counted as answered |
| Metrics.AnsweredPlusMissedCanExceedTotal | app.py:283-284 | one call with status "Missed - unanswered" counts once as answered and once as missed |
| Metrics.ClassifyFrame | app.py:205-209 | the frame has a "Category" column exactly when it has rows, and its rows are the sheet's rows, each classified |
| Metrics.CategoryCountAsWritten | app.py:346-366 | the category cards raise `KeyError` exactly when the frame has no "Category" column; otherwise they show the number of rows with that category |
| Metrics.FailedLoadCategoryCountRaises | app.py:346 | after a failed load the category cards raise `KeyError` |
| Metrics.ClassifiedFrameWellFormed | app.py:207-209 | a frame without the "Category" column has no rows |
| Metrics.CategoryCount | app.py:346-366 | the corrected card count is the number of rows with the category (so zero on a frame without rows) and agrees with the source wherever the source's lookup succeeds |
| Metrics.KpisUseCorrectedCounts | app.py:288-366 | the indicators show the corrected booking, emergency, billing and insurance counts |

## Left out

- Loading (app.py:130-175): the CSV fetch, progress bars, `time.sleep` and the error banner are I/O and UI. A failed load is modelled only as the empty frame it returns.
- Timestamp parsing and the derived date, hour and weekday parts (app.py:149-154) follow pandas semantics that are not part of this model. A record's date is an integer day number, and calls with an unparseable time are not modelled.
- `fillna("")` (app.py:157) and `to_numeric` on the durations (app.py:159-163): missing cells are taken to be "" already, and durations are not modelled.
- `str(...)` on non-string cells in the classifier (app.py:180-181): inputs are strings. So the `except` fallback (app.py:201-202) cannot fire, and no member models it.
- Average conversation duration (app.py:286), `new_patient_percent` (app.py:324) and the per-day and per-hour charts with their peaks (app.py:378-589) use floating point or pandas grouping, or only feed charts.
- The `'Contact_Type' in filtered_df.columns` guard (app.py:287): the model assumes the column exists.
- The sidebar widgets (app.py:239-265) are inputs. The date range, direction selection and category selection are parameters, and their defaults (all values present) are not modelled.
- CSS, HTML, metric cards, tabs, charts and the data explorer (app.py:10-126, 293-373, 378-589) are presentation.
- Text.LowerChar: maps only `A`..`Z` and the Kelvin sign, because Python's full Unicode case mapping is outside the model. Every other character whose Python lower case differs is kept; its lower case contains no ASCII letter except for U+0130, which becomes `i` plus a combining dot, and no keyword ends in `i`, so these characters cannot change a label or a status count.
- Metrics.Percent: keeps the exact ratio rather than `round(..., 2)`, because rounding to decimal places is floating-point behaviour.
- Metrics.ComputeKpis: its rates are exact ratios rather than the rounded ones of app.py:285 and app.py:289, for the same reason.

## Findings

| source | as written | input that shows it | evidently intended | confidence | as-written member | corrected member |
|---|---|---|---|---|---|---|
| app.py:346-366 | The emergency, billing and insurance cards index `filtered_df["Category"]` with no guard. The column is only added when the loaded frame has rows (app.py:207-209). | A failed load returns a frame with no columns (app.py:173-175); Metrics.FailedLoadCategoryCountRaises shows the lookup raising `KeyError`. | Zero calls in each card, as the KPI block does for an empty frame (app.py:290-291). | high; not executed | Metrics.CategoryCountAsWritten | Metrics.CategoryCount |
