# Weekly wellness check-in, modelled in Dafny

The app shows a form with a name field and one text field per weekday,
Monday to Sunday. Pressing "Check-in" runs `MentalApp.show_summary`, which:

1. walks the seven day fields in form order. A field whose text is a digit
   string is stored in the ordered mapping `mood_ratings` under its day.
   Any other field, the empty one included, brings up one error dialog
   naming that day, and the walk goes on;
2. accepts the submission when every *collected* rating lies in [1,5];
3. on acceptance, first appends the check-in to the daily log file, then
   computes the average `sum / len` of the collected ratings, classifies it
   with `get_additional_info`, and shows a summary pop-up. Otherwise it
   shows the generic range error.

The model (`digits.dfy`, module `Digits`; `main.dfy`, module `MentalApp`):

- `Digits` models `str.isdigit()` followed by `int()`, restricted to ASCII
  digits: `IsDigitString`, `Value`, `Parse`. It also has the decimal
  rendering `Show` as the partner of `Value`.
- `MentalApp.Collected(texts, k)` is `mood_ratings` after the loop has
  visited the first `k` day fields. It is an ordered list of
  `Rating(day, value)` entries, as a Python `dict` keeps insertion order.
  `Rejected(texts, k)` lists the days the loop reported instead.
- `MentalApp.ShowSummary` is the loop of `show_summary` as a method. It
  returns what the press does to the outside world as a list of `Event`s,
  in order:
  - `NotDigitError(day)` is the per-day error dialog.
  - `RangeError` is the generic range error dialog.
  - `Saved(name, ratings)` is the log append, kept abstract.
  - `SummaryPopup(name, ratings, average, info)` is the summary pop-up.
    Its `info` is the `Message` band; `InfoText` gives the exact text of
    each band.
  - `DivisionByZero` is the `ZeroDivisionError` that ends the handler.

  Its postcondition equates this list with the specification function
  `Trace`. The lemmas state what the app promises in terms of `Trace`.
- The average is an exact `real`, `Sum(c) / |c|`. Python computes it in
  floating point. The sum and the count are small integers (count ≤ 7), so
  the gap between a true average and a band boundary (1, 3, 5) is either 0
  or at least 1/7. A correctly rounded float division therefore falls in
  the same band as the exact quotient, and `sum / count == 5` holds in
  floats exactly when it holds in reals. `ClassifyBySum` restates the bands
  on the integers.

The code is followed where it departs from the obvious reading of the form:

- A non-digit day does **not** stop a check-in. Acceptance ignores that
  day, so a week with a Tuesday of "abc" reports Tuesday and is still saved
  and summarised with the other six ratings (`NonDigitTuesdayStillSaved`),
  although the range error's own text asks for a rating "for each day"
  (monika/main.py:95).
- A week with no digit string at all is saved empty and then divides by
  zero (`NoDigitsDividesByZero`).
- Negative numbers such as "-1" are not digit strings. They get the
  per-day error, not the range error.
- Leading zeros are accepted: "05" is rating 5.

## Model

| member | source | states |
|---|---|---|
| `Digits.IsDigitString` | monika/main.py:77 | `str.isdigit()`: the text is non-empty and every character is one of '0'..'9' |
| `Digits.DigitValue` | monika/main.py:78 | the value of one digit character, below ten |
| `Digits.Value` | monika/main.py:78 | `int()` of a digit string: its base-10 value, leading zeros allowed |
| `Digits.Parse` | monika/main.py:77-78 | what the loop reads from a field: the digit string's value, or nothing for any other text |
| `Digits.Show` | monika/main.py:77-78 | the decimal rendering of any natural number is a digit string with no leading zero |
| `Digits.ParseShow` | monika/main.py:77-78 | reading a number's decimal rendering as the form does gives back that number |
| `Digits.SingleDigit` | monika/main.py:77-78 | a one-character digit field is a digit string whose `int()` value is that digit |
| `Digits.LeadingZeroIgnored` | monika/main.py:78 | a zero in front of a digit string does not change its `int()` value |
| `Digits.ParseLeadingZero` | monika/main.py:77-78 | a field "0"+s is collected exactly like a non-empty field s (so "05" is the rating 5) |
| `MentalApp.Day.Name` | monika/main.py:38 | the label of each day, as the `days` list spells it |
| `MentalApp.Day.Index` | monika/main.py:38 | each day has a position in the form's Monday-to-Sunday list, and that position holds the day |
| `MentalApp.DayAt` | monika/main.py:38 | the day at position i of the list has index i, so positions and days correspond one to one |
| `MentalApp.DayAtIff` | monika/main.py:38 | position i of the form holds day d exactly when d's index is i |
| `MentalApp.Collected` | monika/main.py:71-78 | `mood_ratings` after the loop has visited the first k day fields: one entry per digit field, in visiting order |
| `MentalApp.Rejected` | monika/main.py:71-80 | the days the loop has reported as not holding a digit string among the first k |
| `MentalApp.NotDigitDialogs` | monika/main.py:80 | one per-day error dialog for each rejected day, in the same order |
| `MentalApp.Lookup` | monika/main.py:78 | `mood_ratings[day]`: the value stored under a day, if any |
| `MentalApp.NotDigitText` | monika/main.py:80 | the per-day error text, naming the day |
| `MentalApp.DialogText` | monika/main.py:80-95 | the text an error dialog shows: the per-day text, or the range error text of line 95 |
| `MentalApp.DialogsAppend` | monika/main.py:79-80 | one more rejected day adds exactly its own dialog, at the end |
| `MentalApp.LookupAppend` | monika/main.py:78 | after storing an entry at the end, a lookup finds that entry for its own day and the old entry for any other day |
| `MentalApp.LookupStep` | monika/main.py:71-78 | visiting day k changes only the entry of day k, and stores it exactly when its text is a digit string |
| `MentalApp.CollectedLookup` | monika/main.py:71-78 | a day has an entry in `mood_ratings` iff its text is a non-empty digit string, and the entry is that string's decimal value |
| `MentalApp.AppendInOrder` | monika/main.py:78 | storing a day that comes after every stored day keeps the mapping in form order |
| `MentalApp.CollectedBounded` | monika/main.py:71-78 | only visited days are collected, so there are at most as many entries as days visited |
| `MentalApp.CollectedOrdered` | monika/main.py:71-78 | collected keys follow the Monday-to-Sunday order without repeats |
| `MentalApp.CollectedOrRejected` | monika/main.py:71-80 | a visited day is rejected exactly when `mood_ratings` has no entry for it |
| `MentalApp.CollectedRejectedSplit` | monika/main.py:71-80 | every visited day is either collected or rejected, never both and never neither, and the two counts add up to the number of days visited |
| `MentalApp.RejectedMember` | monika/main.py:71-80 | a visited day is rejected iff its text is not a digit string, the empty field included |
| `MentalApp.RejectedOrdered` | monika/main.py:71-80 | rejected days are visited days, in strictly increasing form order |
| `MentalApp.RejectedCount` | monika/main.py:79-80 | a visited non-digit day is rejected exactly once; any other day is never rejected |
| `MentalApp.DialogCount` | monika/main.py:80 | the dialogs name each day exactly as often as it was rejected |
| `MentalApp.NotDigitDialogsNameDays` | monika/main.py:79-80 | the per-day error dialogs are one per rejected day, in the same order, each naming its day |
| `MentalApp.NotDigitDialogShown` | monika/main.py:71-80 | the dialog naming day d appears in a check-in iff d's text is not a digit string, and then exactly once |
| `MentalApp.DialogNamesDay` | monika/main.py:80 | a list of per-day dialogs names day d iff d is among the listed days, and holds no other kind of event |
| `MentalApp.NameDistinguishes` | monika/main.py:80 | per-day error dialogs for two days show the same text only if the days are the same |
| `MentalApp.RangeTextDiffers` | monika/main.py:80-95 | the range error dialog shows a text that no per-day error dialog shows |
| `MentalApp.DialogTextIdentifies` | monika/main.py:80-95 | two error dialogs that show the same text are the same dialog, so the text tells which day, or the range check, failed |
| `MentalApp.NothingCollected` | monika/main.py:71-80 | `mood_ratings` stays empty iff no visited field is a digit string |
| `MentalApp.InRange` | monika/main.py:83 | the test `1 <= rating <= 5` |
| `MentalApp.Accepted` | monika/main.py:83 | the `all()` check: every collected rating passes the range test (true of an empty mapping) |
| `MentalApp.AcceptedIff` | monika/main.py:83 | the range check passes iff every digit field reads as a value in [1,5]; non-digit fields take no part |
| `MentalApp.Sum` | monika/main.py:87 | `sum(mood_ratings.values())` |
| `MentalApp.Average` | monika/main.py:87 | `sum / len` of a non-empty mapping, as an exact quotient |
| `MentalApp.SumBounds` | monika/main.py:83-87 | ratings that all pass the range check sum to between one and five times their count |
| `MentalApp.DivCompare` | monika/main.py:87 | for a positive count, comparing `sum / count` with a whole number b is comparing sum with b times count, for both `<` and `==` |
| `MentalApp.AverageInRange` | monika/main.py:83-87 | the average of a non-empty mapping that passed the range check lies in [1,5] |
| `MentalApp.Classify` | monika/main.py:106-114 | the band is "no message" (the empty text) exactly when the average lies outside [1,5] |
| `MentalApp.InfoText` | monika/main.py:106-114 | the text of each band; the text is empty exactly when there is no message |
| `MentalApp.ClassifyBySum` | monika/main.py:106-114 | on sum/count: cautionary iff count ≤ sum < 3·count, encouraging iff 3·count ≤ sum < 5·count, celebratory iff sum = 5·count, none iff sum is outside [count, 5·count] |
| `MentalApp.AcceptedHasMessage` | monika/main.py:83-90 | for an accepted, non-empty mapping the band is never "no message", so the empty-text branch is unreachable |
| `MentalApp.AfterCollection` | monika/main.py:83-95 | what follows the loop: the range error; or the save then the division by zero for an empty mapping; or the save then the summary with the average and its band |
| `MentalApp.Trace` | monika/main.py:64-95 | everything one press does: the per-day dialogs in visiting order, then what follows the loop for the collected mapping |
| `MentalApp.DecisionEvents` | monika/main.py:83-95 | an accepted non-empty mapping gives exactly the save and then the summary with its average and band; the decision starts with the save when it accepts and with the range error otherwise; only the last event may differ from the save; error dialogs appear iff it rejects; the division by zero happens iff an empty mapping is accepted; a summary holds the mapping's average and its band |
| `MentalApp.ShowSummary` | monika/main.py:64-95 | the press produces exactly `Trace`: per-day dialogs from the loop, then save and summary (or save and division by zero, or the range error) |
| `MentalApp.SavedIffAccepted` | monika/main.py:83-84 | the check-in is saved iff every digit field reads as a value in [1,5], whatever the other fields hold; and only ever with the collected mapping |
| `MentalApp.SavedOnce` | monika/main.py:83-84 | a press saves the collected mapping at most once |
| `MentalApp.OutOfRangeRejects` | monika/main.py:83-95 | a digit field outside [1,5] ends the press with the range error, and nothing but error dialogs happens (no save, no average) |
| `MentalApp.SaveBeforeAverage` | monika/main.py:84-93 | whatever uses the average (the division by zero or the summary) comes directly after the save of the same mapping |
| `MentalApp.DivisionByZeroIff` | monika/main.py:83-87 | the average divides by zero iff no field holds a digit string |
| `MentalApp.SummaryShownIff` | monika/main.py:83-93 | the summary pop-up is shown iff every digit field is in [1,5] and at least one field is a digit string; it is then the last event and shows the average of the collected mapping |
| `MentalApp.SummaryHasMessage` | monika/main.py:87-93 | a summary pop-up always carries an average in [1,5] and the message of its band, whose text is not empty |
| `MentalApp.VisitNonDigit` | monika/main.py:79-80 | visiting a non-digit field stores nothing, rejects that day and adds the dialog naming it |
| `MentalApp.CollectedGrows` | monika/main.py:71-78 | the loop only appends: the mapping after j days is a prefix of the mapping after k ≥ j days |
| `MentalApp.CollectedDigitRun` | monika/main.py:71-78 | a run of digit fields from day j to day k adds one rating per day, in day order, and rejects nothing |
| `MentalApp.FullWeekCollected` | monika/main.py:71-80 | the fields 3,4,5,2,3,4,5 are all collected, Monday to Sunday, and none is rejected |
| `MentalApp.FullWeekEncouraging` | monika/main.py:64-95 | ratings 3,4,5,2,3,4,5 are saved and summarised with average 26/7 and the encouraging message |
| `MentalApp.SumConstant` | monika/main.py:87 | ratings that all hold the same value v sum to v times their count |
| `MentalApp.AcceptedTrace` | monika/main.py:64-95 | an accepted week with at least one rating gives its dialogs, then the save, then the summary with its average and band, and nothing else |
| `MentalApp.AllFivesCollected` | monika/main.py:71-80 | seven fields of "5" are all collected and none is rejected |
| `MentalApp.AllFivesCelebratory` | monika/main.py:64-95 | seven fives are saved and summarised with average 5 and the celebratory message |
| `MentalApp.NonDigitTuesdayCollected` | monika/main.py:71-80 | with a Tuesday of "abc", the other six days are collected in order and only Tuesday is rejected |
| `MentalApp.NonDigitTuesdayStillSaved` | monika/main.py:64-95 | a Tuesday of "abc" gives one dialog naming Tuesday, and the other six ratings are still saved and summarised (average 22/6, encouraging) |
| `MentalApp.OutOfRangeWednesdayCollected` | monika/main.py:71-80 | a Wednesday of "7" is collected like any other digit field |
| `MentalApp.OutOfRangeWednesday` | monika/main.py:64-95 | a Wednesday of "7" gives only the range error |
| `MentalApp.AllRejected` | monika/main.py:79-80 | when no field is a digit string, every visited day is rejected, in form order |
| `MentalApp.NoDigitsDividesByZero` | monika/main.py:83-87 | a week with no digit string gives seven dialogs, then the empty mapping is saved, then the division by zero |
| `MentalApp.AllBlankDividesByZero` | monika/main.py:83-87 | seven empty fields give seven dialogs, then the empty mapping is saved, then the division by zero |
| `MentalApp.IntendedTrace` | monika/main.py:83-95 | the press with the corrected guard: it also requires all seven days to be collected |
| `MentalApp.IntendedAcceptIff` | monika/main.py:83 | with the corrected acceptance, a week is accepted iff all seven fields are digit strings with values in [1,5] |
| `MentalApp.IntendedSavesOnlyCompleteWeeks` | monika/main.py:83-84 | with the corrected acceptance, a check-in is saved iff all seven fields are digit strings with values in [1,5] |
| `MentalApp.NothingRejected` | monika/main.py:71-80 | no day is rejected iff every visited field is a digit string |
| `MentalApp.RejectedSomewhere` | monika/main.py:71-80 | fewer ratings than days visited means some visited field was not a digit string |
| `MentalApp.IntendedNeverDividesByZero` | monika/main.py:83-87 | with the corrected acceptance, the average never divides by zero, and every summary has an average in [1,5] and a message |
| `MentalApp.IntendedAgreesOnDigitWeeks` | monika/main.py:83 | the correction changes nothing when every field holds a digit string |

## Left out

- Widget construction and layout (`build`, monika/main.py:13-62) are not modelled. The form is the name and the seven texts passed to `ShowSummary`, in the order of the `days` list.
- Dialog presentation (`show_error_dialog`, `show_summary_popup`, `dialog_dismiss`) is not modelled. Each dialog is an event carrying its text or its values.
- The body of `save_check_in` is not modelled: the date-stamped file name, `datetime.now()`, the append itself and its possible I/O failure. The save is the abstract `Saved(name, ratings)` event, placed where the call happens.
- The text renderings are not modelled: `str(dict)` in the log line and the summary, and the `:.2f` formatting of the average.
- `Digits.Parse`: does not model the limit of 4300 digits that `int()` has had since CPython 3.11. On a longer digit string (leading zeros count), `int()` raises `ValueError` at monika/main.py:78, so the later days are not visited and nothing is saved. The model reads such a field as its value.
- `Digits.IsDigitString` covers ASCII '0'..'9' only. Python's `isdigit` also accepts other Unicode digits, some of which make `int()` fail.
- `MentalApp.Average` is exact rational division, not IEEE double division. The intro explains why the two agree on every band decision.
- `MentalApp.ShowSummary` ends at the division by zero. What Kivy does with the uncaught exception after that is not modelled.

## Findings

| source | as written | input that shows it | evidently intended | confidence | as-written member | corrected member |
|---|---|---|---|---|---|---|
| monika/main.py:83-87 | the range check runs only over the ratings that were collected. A week with non-digit days passes on the rest, and a week with none collected passes vacuously: it is saved empty and then `sum / len` divides by zero | all seven fields empty (any week with no digit string) | save and summarise only when all seven days hold ratings in [1,5] (the range error reads "... for each day") | not executed | `MentalApp.NoDigitsDividesByZero` | `MentalApp.IntendedNeverDividesByZero` |

`MentalApp.IntendedTrace` is the corrected check-in: acceptance also requires
all seven days to be collected. `IntendedSavesOnlyCompleteWeeks` and
`IntendedNeverDividesByZero` prove the intended promises about it.
`IntendedAgreesOnDigitWeeks` proves that the correction changes nothing
when every field holds a digit string. `ShowSummary` itself keeps the
behaviour as written.
